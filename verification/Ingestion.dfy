/** `EmailIngestionService`: fetch, read, persist. */
module Ingestion {
  import opened Prelude
  import opened Mailbox
  import opened Tables
  import opened Backlog
  import Amount
  import Carriers
  import Regex
  import Scanner
  import Tracking

  // ---------------------------------------------------------------- reading a message

  /**
   What a message is read with: the character tables of the regular expressions, and the merchant
   parsers as one pure function.
   */
  datatype Setup = Setup(chars: Regex.CharTable, detect: RawEmail -> Option<ParsedOrder>)

  function TextOf(m: RawEmail): string { m.subject + "\n" + m.Body() }

  function Read(setup: Setup, m: RawEmail): Finding {
    var parsed := setup.detect(m);
    if parsed.Some? then Merchant(parsed.value) else ReadTracking(setup.chars, m)
  }

  /** The first tracking number reported for the subject and the body. */
  function ReadTracking(u: Regex.CharTable, m: RawEmail): Finding {
    var found := Scanner.Reported(u, TextOf(m));
    if found == [] then Nothing else CarrierOnly(found[0].0, Carriers.Name(found[0].1))
  }

  /** The words of two texts in the order of reading. */
  function WordsRead(u: Regex.CharTable, subject: string, body: string): seq<string> {
    Regex.Words(u, subject, 0) + Regex.Words(u, body, 0)
  }

  /** One of the texts names the carrier. */
  ghost predicate Names(u: Regex.CharTable, subject: string, body: string, name: string) {
    Scanner.Says(u, subject, name) || Scanner.Says(u, body, name)
  }

  ghost predicate NamesNone(u: Regex.CharTable, subject: string, body: string) {
    forall w :: w in WordsRead(u, subject, body) && Carriers.FormOf(u, w).Some? ==> !Names(u, subject, body, Carriers.FormOf(u, w).value.name)
  }

  /** A word of the texts with a carrier's form, if the texts name that carrier or that of no such word. */
  ghost predicate Candidate(u: Regex.CharTable, subject: string, body: string, w: string) {
    && w in WordsRead(u, subject, body) && Carriers.FormOf(u, w).Some?
    && (Names(u, subject, body, Carriers.FormOf(u, w).value.name) || NamesNone(u, subject, body))
  }

  lemma TextIsRead(u: Regex.CharTable, subject: string, body: string, text: string)
    requires u.Valid() && text == subject + "\n" + body
    ensures Regex.Words(u, text, 0) == WordsRead(u, subject, body)
    ensures forall w :: w in WordsRead(u, subject, body) <==> Scanner.IsWordOf(u, subject, w) || Scanner.IsWordOf(u, body, w)
    ensures forall w :: Scanner.IsWordOf(u, text, w) <==> w in WordsRead(u, subject, body)
    ensures forall name :: '\n' !in name && name != "" ==> (Scanner.Says(u, text, name) <==> Names(u, subject, body, name))
  {
    Scanner.WordsAcross(u, subject, body);
    forall w ensures w in WordsRead(u, subject, body) <==> Scanner.IsWordOf(u, subject, w) || Scanner.IsWordOf(u, body, w) {
      Scanner.IsWordIn(u, subject, w);
      Scanner.IsWordIn(u, body, w);
    }
    forall w ensures Scanner.IsWordOf(u, text, w) <==> w in WordsRead(u, subject, body) { Scanner.IsWordIn(u, text, w); }
    forall name | '\n' !in name && name != "" ensures Scanner.Says(u, text, name) <==> Names(u, subject, body, name) {
      Scanner.SaysAcross(u, subject, body, name);
    }
  }

  lemma CandidateIsEligible(u: Regex.CharTable, subject: string, body: string, text: string)
    requires u.Valid() && text == subject + "\n" + body
    ensures forall w :: Candidate(u, subject, body, w) <==> Scanner.Eligible(u, text, w)
  {
    TextIsRead(u, subject, body, text);
    forall w | Carriers.FormOf(u, w).Some?
      ensures Scanner.Says(u, text, Carriers.FormOf(u, w).value.name) <==> Names(u, subject, body, Carriers.FormOf(u, w).value.name)
    {
      Carriers.NameIsLine(u, w);
    }
    assert NamesNone(u, subject, body) <==> Scanner.NoneSaid(u, text);
  }

  /**
   What a message without a merchant is read as. The words are the maximal runs of its subject and
   of its text body, or of its HTML body where that is empty. The number is the first candidate
   among them, in the order of the places of their forms and then of reading, under the name of
   its form; there is none exactly if no word has a carrier's form.
   */
  lemma {:induction false} ReadMeaning(u: Regex.CharTable, m: RawEmail, body: string, ws: seq<string>)
    requires u.Valid() && body == (if m.textBody == "" then m.htmlBody else m.textBody) && ws == WordsRead(u, m.subject, body)
    ensures forall w :: w in ws <==> Scanner.IsWordOf(u, m.subject, w) || Scanner.IsWordOf(u, body, w)
    ensures var f := ReadTracking(u, m);
            && !f.Merchant?
            && (f.Nothing? <==> forall w :: w in ws ==> Carriers.FormOf(u, w) == None)
            && (f.CarrierOnly? ==>
                  && Candidate(u, m.subject, body, f.number) && f.number != "" && f.carrier == Carriers.FormOf(u, f.number).value.name
                  && forall w :: Candidate(u, m.subject, body, w) && w != f.number ==> Scanner.ComesBefore(u, ws, f.number, w))
  {
    var text := TextOf(m);
    var found := Scanner.Reported(u, text);
    TextIsRead(u, m.subject, body, text);
    CandidateIsEligible(u, m.subject, body, text);
    Scanner.ReportByForm(u, text, found);
    if found == [] {
      NoneHasForm(u, m.subject, body);
    } else {
      assert Scanner.HasKey(found, found[0].0);
      forall w | Candidate(u, m.subject, body, w) && w != found[0].0 ensures Scanner.ComesBefore(u, ws, found[0].0, w) {
        var k :| 0 <= k < |found| && found[k].0 == w;
      }
    }
  }

  /** Without a candidate no word has a carrier's form. */
  lemma NoneHasForm(u: Regex.CharTable, subject: string, body: string)
    requires forall w :: !Candidate(u, subject, body, w)
    ensures forall w :: w in WordsRead(u, subject, body) ==> Carriers.FormOf(u, w) == None
  {
    forall w | w in WordsRead(u, subject, body) && Carriers.FormOf(u, w).Some?
      ensures !Names(u, subject, body, Carriers.FormOf(u, w).value.name)
    {
      assert !Candidate(u, subject, body, w);
    }
    forall w | w in WordsRead(u, subject, body) ensures Carriers.FormOf(u, w) == None { assert !Candidate(u, subject, body, w); }
  }

  // ---------------------------------------------------------------- the service

  class MailAccount {
    const userId: nat
    var lastSeenUid: int
    var lastSyncedAt: Option<Stamp>

    constructor (userId: nat)
      ensures this.userId == userId && lastSeenUid == 0 && lastSyncedAt == None
    {
      this.userId, lastSeenUid, lastSyncedAt := userId, 0, None;
    }
  }

  datatype SyncReport = SyncReport(fetched: nat, matched: nat, created: nat, truncated: bool)

  /** How a message is ingested under a setup, with or without a notification dispatcher. */
  function Ingesting(setup: Setup, dispatcher: bool): Ingestor {
    (user: nat, t: Tables, m: RawEmail) => Ingest(t, dispatcher, user, m, Read(setup, m))
  }

  /** The emails that belong to an order. */
  function Matched(emails: seq<Email>): nat {
    if emails == [] then 0
    else Matched(emails[..|emails| - 1]) + (if emails[|emails| - 1].orderId.Some? then 1 else 0)
  }

  lemma ShipmentsNext(t: Tables, orderId: nat, numbers: seq<string>, k: nat, carrier: Option<string>)
    requires k < |numbers|
    ensures WithShipments(t, orderId, numbers[..k + 1], carrier)
         == WithShipment(WithShipments(t, orderId, numbers[..k], carrier), orderId, numbers[k], carrier)
  {
    assert numbers[..k + 1][..k] == numbers[..k];
  }

  lemma FoldNext(ingest: Ingestor, user: nat, s: State, ms: seq<RawEmail>, k: nat)
    requires k < |ms|
    ensures Fold(ingest, user, s, ms[..k + 1]) == Step(ingest, user, Fold(ingest, user, s, ms[..k]), ms[k])
  {
    assert ms[..k + 1][..k] == ms[..k];
  }

  lemma StepIngests(setup: Setup, dispatcher: bool, ingest: Ingestor, user: nat, s: State, m: RawEmail, t: Tables, orderId: Option<nat>)
    requires ingest == Ingesting(setup, dispatcher) && m.messageId !in Ids(s)
    requires (t, orderId) == WithFinding(s.t, dispatcher, user, m, Read(setup, m))
    ensures Step(ingest, user, s, m) == State(WithEmail(t, m, orderId), Max(s.seen, m.uid))
  {
  }

  lemma MatchedNext(emails: seq<Email>, e: Email)
    ensures Matched(emails + [e]) == Matched(emails) + (if e.orderId.Some? then 1 else 0)
  {
    assert (emails + [e])[..|emails|] == emails;
  }

  class EmailIngestionService {
    const setup: Setup
    const dispatcher: bool
    var emails: seq<Email>
    var orders: seq<Order>
    var shipments: seq<Shipment>
    var carriers: seq<string>
    var notices: seq<Notice>

    constructor (setup: Setup, dispatcher: bool)
      ensures this.setup == setup && this.dispatcher == dispatcher && Contents() == EMPTY
    {
      this.setup, this.dispatcher := setup, dispatcher;
      emails, orders, shipments, carriers, notices := [], [], [], [], [];
    }

    function Contents(): Tables
      reads this
    {
      Tables(emails, orders, shipments, carriers, notices)
    }

    method GetOrCreateCarrier(name: Option<string>) returns (id: Option<nat>)
      modifies `carriers
      ensures (Contents(), id) == WithCarrier(old(Contents()), name)
    {
      if !Truthy(name) { return None; }
      id := IndexOf(carriers, name.value);
      if id.None? {
        carriers := carriers + [name.value];
        id := Some(|carriers| - 1);
      }
    }

    method PersistParsedOrder(parsed: ParsedOrder, user: nat) returns (orderId: nat)
      modifies `orders, `notices
      ensures (Contents(), orderId) == WithParsedOrder(old(Contents()), dispatcher, user, parsed)
    {
      var found := None;
      if Truthy(parsed.orderNumber) { found := FindOrder(orders, user, parsed.merchant, parsed.orderNumber.value); }
      if found.Some? {
        orderId := found.value;
      } else {
        orderId := |orders|;
        orders := orders + [Order(user, parsed.merchant, parsed.orderNumber, parsed.orderDate, Amount.ParseAmount(parsed.invoiceAmount),
                                  if Truthy(parsed.currency) then parsed.currency.value else "EUR", Confirmed)];
        if dispatcher {
          notices := notices + [NewOrder(parsed.merchant, if parsed.orderNumber.Some? then parsed.orderNumber.value else "")];
        }
      }
      if parsed.trackingNumbers != [] && orders[orderId].status == Confirmed {
        orders := orders[orderId := orders[orderId].(status := Shipped)];
      }
    }

    method PersistCarrierOnlyShipment(m: RawEmail, user: nat) returns (orderId: Option<nat>, created: nat)
      requires setup.chars.Valid()
      modifies `orders, `shipments, `carriers, `notices
      ensures (Contents(), orderId) == WithFinding(old(Contents()), dispatcher, user, m, ReadTracking(setup.chars, m))
      ensures |shipments| == |old(shipments)| + created
    {
      var tracking := Scanner.FindTrackingNumbers(setup.chars, TextOf(m));
      if tracking == [] { return None, 0; }

      var number, carrier := tracking[0].0, Carriers.Name(tracking[0].1);
      orderId := FindOrder(orders, user, carrier, number);
      if orderId.None? {
        orderId := Some(|orders|);
        orders := orders + [Order(user, carrier, Some(number), Some(m.receivedAt.Date()), None, "EUR", Shipped)];
        if dispatcher { notices := notices + [NewShipment(carrier, number)]; }
      }
      if HasShipment(shipments, orderId.value, number) { return orderId, 0; }

      var carrierId := GetOrCreateCarrier(Some(carrier));
      shipments := shipments + [Shipment(orderId.value, carrierId, number, Tracking.LabelCreated)];
      created := 1;
    }

    method PersistShipments(orderId: nat, parsed: ParsedOrder) returns (created: nat)
      modifies `shipments, `carriers
      ensures Contents() == WithShipments(old(Contents()), orderId, parsed.trackingNumbers, parsed.carrierHint)
      ensures |shipments| == |old(shipments)| + created
    {
      created := 0;
      for k := 0 to |parsed.trackingNumbers|
        invariant Contents() == WithShipments(old(Contents()), orderId, parsed.trackingNumbers[..k], parsed.carrierHint)
        invariant |shipments| == |old(shipments)| + created
      {
        var number := parsed.trackingNumbers[k];
        ShipmentsNext(old(Contents()), orderId, parsed.trackingNumbers, k, parsed.carrierHint);
        if HasShipment(shipments, orderId, number) { continue; }
        var carrierId := GetOrCreateCarrier(parsed.carrierHint);
        shipments := shipments + [Shipment(orderId, carrierId, number, Tracking.LabelCreated)];
        created := created + 1;
      }
      assert parsed.trackingNumbers[..|parsed.trackingNumbers|] == parsed.trackingNumbers;
    }

    /** Orders and shipments of one message. */
    method Persist(m: RawEmail, user: nat) returns (orderId: Option<nat>, created: nat)
      requires setup.chars.Valid()
      modifies `orders, `shipments, `carriers, `notices
      ensures (Contents(), orderId) == WithFinding(old(Contents()), dispatcher, user, m, Read(setup, m))
      ensures |shipments| == |old(shipments)| + created
    {
      var parsed := setup.detect(m);
      if parsed.Some? {
        var order := PersistParsedOrder(parsed.value, user);
        created := PersistShipments(order, parsed.value);
        orderId := Some(order);
      } else {
        orderId, created := PersistCarrierOnlyShipment(m, user);
      }
    }

    /**
     One sync of an account whose mailbox holds `folder`. The counters are the growth of the
     tables; `limit` stands for `MAX_EMAILS_PER_SYNC`.
     */
    method SyncAccount(account: MailAccount, folder: Folder, limit: nat, now: Stamp) returns (report: SyncReport)
      requires setup.chars.Valid()
      modifies this, account
      ensures State(Contents(), account.lastSeenUid)
           == SyncOnce(Ingesting(setup, dispatcher), account.userId, old(State(Contents(), account.lastSeenUid)), InboxOf(folder), limit)
      ensures account.lastSyncedAt == Some(now)
      ensures report.fetched == |FetchSince(folder, old(account.lastSeenUid), Some(limit))|
      ensures Matched(emails) == old(Matched(emails)) + report.matched
      ensures |shipments| == old(|shipments|) + report.created
      ensures report.truncated == Truncated(old(State(Contents(), account.lastSeenUid)), InboxOf(folder), limit)
    {
      var fetched := FetchSince(folder, account.lastSeenUid, Some(limit));
      FetchIsCut(folder, account.lastSeenUid, limit);
      var matched, created := Process(account, fetched);
      account.lastSyncedAt := Some(now);
      report := SyncReport(|fetched|, matched, created, |fetched| == limit);
    }

    /** The loop of a sync over the messages it fetched. */
    method Process(account: MailAccount, fetched: seq<RawEmail>) returns (matched: nat, created: nat)
      requires setup.chars.Valid()
      modifies this, account`lastSeenUid
      ensures State(Contents(), account.lastSeenUid)
           == Fold(Ingesting(setup, dispatcher), account.userId, old(State(Contents(), account.lastSeenUid)), fetched)
      ensures Matched(emails) == old(Matched(emails)) + matched && |shipments| == old(|shipments|) + created
    {
      ghost var ingest, before := Ingesting(setup, dispatcher), State(Contents(), account.lastSeenUid);
      matched, created := 0, 0;
      for k := 0 to |fetched|
        invariant State(Contents(), account.lastSeenUid) == Fold(ingest, account.userId, before, fetched[..k])
        invariant Matched(emails) == old(Matched(emails)) + matched && |shipments| == old(|shipments|) + created
      {
        var m := fetched[k];
        FoldNext(ingest, account.userId, before, fetched, k);
        if m.messageId in MessageIds(emails) { continue; }

        ghost var s := State(Contents(), account.lastSeenUid);
        var orderId, shipped := Persist(m, account.userId);
        StepIngests(setup, dispatcher, ingest, account.userId, s, m, Contents(), orderId);
        if orderId.Some? {
          matched := matched + 1;
          created := created + shipped;
        }
        var row := Email(orderId, m.messageId, m.subject, m.sender, m.receivedAt, m.textBody, m.attachments);
        MatchedNext(emails, row);
        emails := emails + [row];
        account.lastSeenUid := Max(account.lastSeenUid, m.uid);
      }
      assert fetched[..|fetched|] == fetched;
    }
  }
}
