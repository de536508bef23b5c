/** The tables that ingestion writes, and what one message does to them: `email_ingestion_service.py`. */
module Tables {
  import opened Prelude
  import opened Mailbox
  import Amount
  import Tracking

  datatype OrderStatus = Pending | Confirmed | Shipped | Delivered | Cancelled | Returned

  /** What a merchant parser extracts from an email. */
  datatype ParsedOrder = ParsedOrder(
    merchant: string, orderNumber: Option<string>, orderDate: Option<int>,
    invoiceAmount: Option<string>, currency: Option<string>,
    trackingNumbers: seq<string>, carrierHint: Option<string>)

  datatype Order = Order(
    userId: nat, merchant: string, orderNumber: Option<string>, orderDate: Option<int>,
    invoiceAmount: Option<Amount.Decimal>, currency: string, status: OrderStatus)

  datatype Shipment = Shipment(orderId: nat, carrierId: Option<nat>, trackingNumber: string, status: Tracking.Status)

  datatype Email = Email(
    orderId: Option<nat>, messageId: string, subject: string, sender: string,
    receivedAt: Stamp, rawContent: string, attachments: seq<string>)

  /** "New order from" and "New shipment from", with the merchant or carrier and the order number. */
  datatype Notice = NewOrder(merchant: string, orderNumber: string) | NewShipment(carrier: string, number: string)

  /** A row's id is its position: ids are given in the order of insertion. */
  datatype Tables = Tables(
    emails: seq<Email>, orders: seq<Order>, shipments: seq<Shipment>, carriers: seq<string>, notices: seq<Notice>)

  const EMPTY := Tables([], [], [], [], [])

  /** What the service reads out of a message: a merchant's order, or a carrier's number, or nothing. */
  datatype Finding = Merchant(parsed: ParsedOrder) | CarrierOnly(number: string, carrier: string) | Nothing

  // ---------------------------------------------------------------- lookups

  function IndexOf<T(==)>(xs: seq<T>, x: T): (r: Option<nat>)
    ensures r.Some? ==> r.value < |xs| && xs[r.value] == x
    ensures r.Some? <==> x in xs
  {
    if xs == [] then None
    else
      var before := IndexOf(xs[..|xs| - 1], x);
      assert xs == xs[..|xs| - 1] + [xs[|xs| - 1]];
      if before.Some? then before else if xs[|xs| - 1] == x then Some(|xs| - 1) else None
  }

  type OrderKey = (nat, string, Option<string>)

  function KeyOf(o: Order): OrderKey { (o.userId, o.merchant, o.orderNumber) }

  function OrderKeys(orders: seq<Order>): (keys: seq<OrderKey>)
    ensures |keys| == |orders| && forall k :: 0 <= k < |orders| ==> keys[k] == KeyOf(orders[k])
  {
    seq(|orders|, k requires 0 <= k < |orders| => KeyOf(orders[k]))
  }

  /** `get_by_merchant_and_number` */
  function FindOrder(orders: seq<Order>, user: nat, merchant: string, number: string): Option<nat> {
    IndexOf(OrderKeys(orders), (user, merchant, Some(number)))
  }

  type ShipmentKey = (nat, string)

  function ShipmentKeys(shipments: seq<Shipment>): (keys: seq<ShipmentKey>)
    ensures |keys| == |shipments|
    ensures forall k :: 0 <= k < |shipments| ==> keys[k] == (shipments[k].orderId, shipments[k].trackingNumber)
  {
    seq(|shipments|, k requires 0 <= k < |shipments| => (shipments[k].orderId, shipments[k].trackingNumber))
  }

  /** `get_by_order_and_tracking_number` */
  predicate HasShipment(shipments: seq<Shipment>, orderId: nat, number: string) {
    (orderId, number) in ShipmentKeys(shipments)
  }

  function MessageIds(emails: seq<Email>): set<string> {
    set k | 0 <= k < |emails| :: emails[k].messageId
  }

  predicate Truthy(s: Option<string>) { s.Some? && s.value != "" }

  // ---------------------------------------------------------------- the persisting methods, as functions

  /** `_get_or_create_carrier` */
  function WithCarrier(t: Tables, name: Option<string>): (Tables, Option<nat>) {
    if !Truthy(name) then (t, None)
    else
      var found := IndexOf(t.carriers, name.value);
      if found.Some? then (t, found) else (t.(carriers := t.carriers + [name.value]), Some(|t.carriers|))
  }

  /** One shipment of an order, unless the order has the number already. */
  function WithShipment(t: Tables, orderId: nat, number: string, carrier: Option<string>): Tables {
    if HasShipment(t.shipments, orderId, number) then t
    else
      var (t', carrierId) := WithCarrier(t, carrier);
      t'.(shipments := t'.shipments + [Shipment(orderId, carrierId, number, Tracking.LabelCreated)])
  }

  /** `_persist_shipments` */
  function WithShipments(t: Tables, orderId: nat, numbers: seq<string>, carrier: Option<string>): Tables {
    if numbers == [] then t
    else WithShipment(WithShipments(t, orderId, numbers[..|numbers| - 1], carrier), orderId, numbers[|numbers| - 1], carrier)
  }

  function WithNotice(t: Tables, dispatcher: bool, n: Notice): Tables {
    if dispatcher then t.(notices := t.notices + [n]) else t
  }

  function NewOrderOf(user: nat, p: ParsedOrder): Order {
    Order(user, p.merchant, p.orderNumber, p.orderDate, Amount.ParseAmount(p.invoiceAmount),
          if Truthy(p.currency) then p.currency.value else "EUR", Confirmed)
  }

  function MarkShipped(t: Tables, orderId: nat): Tables
    requires orderId < |t.orders|
  {
    if t.orders[orderId].status == Confirmed
    then t.(orders := t.orders[orderId := t.orders[orderId].(status := Shipped)]) else t
  }

  /** `_persist_parsed_order` */
  function WithParsedOrder(t: Tables, dispatcher: bool, user: nat, p: ParsedOrder): (r: (Tables, nat))
    ensures r.1 < |r.0.orders|
  {
    var found := if Truthy(p.orderNumber) then FindOrder(t.orders, user, p.merchant, p.orderNumber.value) else None;
    var orderId := if found.Some? then found.value else |t.orders|;
    var t' := if found.Some? then t
              else WithNotice(t.(orders := t.orders + [NewOrderOf(user, p)]), dispatcher,
                              NewOrder(p.merchant, if p.orderNumber.Some? then p.orderNumber.value else ""));
    (if p.trackingNumbers != [] then MarkShipped(t', orderId) else t', orderId)
  }

  function PlaceholderOrder(user: nat, m: RawEmail, number: string, carrier: string): Order {
    Order(user, carrier, Some(number), Some(m.receivedAt.Date()), None, "EUR", Shipped)
  }

  /** `_persist_carrier_only_shipment` for a number and carrier that were found */
  function WithPlaceholder(t: Tables, dispatcher: bool, user: nat, m: RawEmail, number: string, carrier: string): (r: (Tables, nat)) {
    var found := FindOrder(t.orders, user, carrier, number);
    var orderId := if found.Some? then found.value else |t.orders|;
    var t' := if found.Some? then t
              else WithNotice(t.(orders := t.orders + [PlaceholderOrder(user, m, number, carrier)]), dispatcher,
                              NewShipment(carrier, number));
    (WithShipment(t', orderId, number, Some(carrier)), orderId)
  }

  function WithEmail(t: Tables, m: RawEmail, orderId: Option<nat>): Tables {
    t.(emails := t.emails + [Email(orderId, m.messageId, m.subject, m.sender, m.receivedAt, m.textBody, m.attachments)])
  }

  /** The tables after a message's order and shipments, and the order it belongs to. */
  function WithFinding(t: Tables, dispatcher: bool, user: nat, m: RawEmail, f: Finding): (Tables, Option<nat>) {
    match f
    case Nothing => (t, None)
    case Merchant(p) =>
      var (t', orderId) := WithParsedOrder(t, dispatcher, user, p);
      (WithShipments(t', orderId, p.trackingNumbers, p.carrierHint), Some(orderId))
    case CarrierOnly(number, carrier) =>
      var (t', orderId) := WithPlaceholder(t, dispatcher, user, m, number, carrier);
      (t', Some(orderId))
  }

  /** All that a message not seen before does to the tables. */
  function Ingest(t: Tables, dispatcher: bool, user: nat, m: RawEmail, f: Finding): Tables {
    var (t', orderId) := WithFinding(t, dispatcher, user, m, f);
    WithEmail(t', m, orderId)
  }

  // ---------------------------------------------------------------- what the tables keep

  /** No two orders share user, merchant and a non-empty order number. */
  predicate OrdersDistinct(orders: seq<Order>) {
    forall i, j :: 0 <= i < j < |orders| && Truthy(orders[i].orderNumber) ==> KeyOf(orders[i]) != KeyOf(orders[j])
  }

  /** Every row refers to rows that are there. */
  predicate References(t: Tables) {
    && (forall k :: 0 <= k < |t.shipments| ==> t.shipments[k].orderId < |t.orders|)
    && (forall k :: 0 <= k < |t.shipments| && t.shipments[k].carrierId.Some? ==> t.shipments[k].carrierId.value < |t.carriers|)
    && (forall k :: 0 <= k < |t.emails| && t.emails[k].orderId.Some? ==> t.emails[k].orderId.value < |t.orders|)
  }

  predicate Sound(t: Tables) {
    && OrdersDistinct(t.orders)
    && Distinct(ShipmentKeys(t.shipments))
    && Distinct(t.carriers)
    && References(t)
  }

  /** Rows are only ever added, and an added row keeps all but an order's status. */
  predicate Grows(t: Tables, t': Tables) {
    && t.emails <= t'.emails && t.shipments <= t'.shipments && t.carriers <= t'.carriers && t.notices <= t'.notices
    && |t.orders| <= |t'.orders|
    && (forall k :: 0 <= k < |t.orders| ==> t'.orders[k].(status := t.orders[k].status) == t.orders[k])
  }

  lemma GrowsTransitive(a: Tables, b: Tables, c: Tables)
    requires Grows(a, b) && Grows(b, c)
    ensures Grows(a, c)
  {
    assert forall k :: 0 <= k < |a.orders| ==> b.orders[k].(status := a.orders[k].status) == a.orders[k] && k < |b.orders|;
  }

  lemma DistinctSnoc<T>(xs: seq<T>, x: T)
    requires Distinct(xs) && x !in xs
    ensures Distinct(xs + [x])
  {
  }

  lemma ShipmentKeysSnoc(shipments: seq<Shipment>, s: Shipment)
    ensures ShipmentKeys(shipments + [s]) == ShipmentKeys(shipments) + [(s.orderId, s.trackingNumber)]
  {
  }

  lemma CarrierStep(t: Tables, name: Option<string>)
    requires Sound(t)
    ensures var (t', id) := WithCarrier(t, name);
            && Sound(t') && Grows(t, t') && t' == t.(carriers := t'.carriers)
            && (id.Some? <==> Truthy(name)) && (id.Some? ==> id.value < |t'.carriers| && t'.carriers[id.value] == name.value)
  {
  }

  /** Adding a shipment: the order then has the number exactly once, and the rest is as before. */
  lemma ShipmentStep(t: Tables, orderId: nat, number: string, carrier: Option<string>)
    requires Sound(t) && orderId < |t.orders|
    ensures var t' := WithShipment(t, orderId, number, carrier);
            && Sound(t') && Grows(t, t') && t' == t.(carriers := t'.carriers, shipments := t'.shipments)
            && |t'.shipments| == |t.shipments| + (if HasShipment(t.shipments, orderId, number) then 0 else 1)
            && AllCreatedFor(t, t', orderId, [number], carrier)
            && HasShipment(t'.shipments, orderId, number)
  {
    if !HasShipment(t.shipments, orderId, number) {
      CarrierStep(t, carrier);
      var (t1, id) := WithCarrier(t, carrier);
      var s := Shipment(orderId, id, number, Tracking.LabelCreated);
      ShipmentKeysSnoc(t.shipments, s);
      DistinctSnoc(ShipmentKeys(t.shipments), (orderId, number));
      assert ShipmentKeys(t.shipments + [s])[|t.shipments|] == (orderId, number);
    }
  }

  /** A shipment as the service creates it: of the order, with one of the numbers, under the carrier's name if there is one. */
  predicate CreatedFor(s: Shipment, carriers: seq<string>, orderId: nat, numbers: seq<string>, carrier: Option<string>) {
    && s.orderId == orderId && s.trackingNumber in numbers && s.status == Tracking.LabelCreated
    && (s.carrierId.Some? <==> Truthy(carrier))
    && (s.carrierId.Some? ==> s.carrierId.value < |carriers| && carriers[s.carrierId.value] == carrier.value)
  }

  ghost predicate AllCreatedFor(t: Tables, t': Tables, orderId: nat, numbers: seq<string>, carrier: Option<string>) {
    forall k :: |t.shipments| <= k < |t'.shipments| ==> CreatedFor(t'.shipments[k], t'.carriers, orderId, numbers, carrier)
  }

  ghost predicate AllShipped(t: Tables, orderId: nat, numbers: seq<string>) {
    forall n :: n in numbers ==> HasShipment(t.shipments, orderId, n)
  }

  /** The shipments of a parsed order: every listed number is there, and every new row is one of them. */
  lemma {:induction false} ShipmentsStep(t: Tables, orderId: nat, numbers: seq<string>, carrier: Option<string>)
    requires Sound(t) && orderId < |t.orders|
    ensures var t' := WithShipments(t, orderId, numbers, carrier);
            && Sound(t') && Grows(t, t') && t' == t.(carriers := t'.carriers, shipments := t'.shipments)
            && AllShipped(t', orderId, numbers) && AllCreatedFor(t, t', orderId, numbers, carrier)
    decreases |numbers|
  {
    if numbers != [] {
      var before, last := numbers[..|numbers| - 1], numbers[|numbers| - 1];
      var t1 := WithShipments(t, orderId, before, carrier);
      var t2 := WithShipment(t1, orderId, last, carrier);
      ShipmentsStep(t, orderId, before, carrier);
      ShipmentStep(t1, orderId, last, carrier);
      GrowsTransitive(t, t1, t2);
      assert numbers == before + [last];
      forall n | n in numbers ensures HasShipment(t2.shipments, orderId, n) {
        if n != last { ShipmentStays(t1, t2, orderId, n); }
      }
      forall k | |t.shipments| <= k < |t2.shipments| ensures CreatedFor(t2.shipments[k], t2.carriers, orderId, numbers, carrier) {
        if k < |t1.shipments| { assert CreatedFor(t1.shipments[k], t1.carriers, orderId, before, carrier); }
      }
    }
  }

  lemma AddOrder(t: Tables, dispatcher: bool, o: Order, n: Notice)
    requires Sound(t) && (Truthy(o.orderNumber) ==> KeyOf(o) !in OrderKeys(t.orders))
    ensures var t' := WithNotice(t.(orders := t.orders + [o]), dispatcher, n);
            && Sound(t') && Grows(t, t') && t' == t.(orders := t.orders + [o], notices := t'.notices)
            && |t'.notices| == |t.notices| + (if dispatcher then 1 else 0)
  {
    forall i | 0 <= i < |t.orders| && Truthy(t.orders[i].orderNumber) ensures KeyOf(t.orders[i]) != KeyOf(o) {
      assert OrderKeys(t.orders)[i] == KeyOf(t.orders[i]);
    }
  }

  lemma MarkStep(t: Tables, orderId: nat)
    requires Sound(t) && orderId < |t.orders|
    ensures var t' := MarkShipped(t, orderId);
            && Sound(t') && Grows(t, t') && t' == t.(orders := t'.orders) && |t'.orders| == |t.orders|
            && t'.orders[orderId].status != Confirmed
            && (forall k :: 0 <= k < |t.orders| && k != orderId ==> t'.orders[k] == t.orders[k])
  {
    var t' := MarkShipped(t, orderId);
    assert forall k :: 0 <= k < |t.orders| ==> KeyOf(t'.orders[k]) == KeyOf(t.orders[k]);
  }

  lemma ParsedOrderStep(t: Tables, dispatcher: bool, user: nat, p: ParsedOrder)
    requires Sound(t)
    ensures var (t', orderId) := WithParsedOrder(t, dispatcher, user, p);
            && Sound(t') && Grows(t, t') && t' == t.(orders := t'.orders, notices := t'.notices)
            && orderId < |t'.orders| && KeyOf(t'.orders[orderId]) == (user, p.merchant, p.orderNumber)
            && |t'.notices| == |t.notices| + (if dispatcher then |t'.orders| - |t.orders| else 0)
            && (p.trackingNumbers != [] ==> t'.orders[orderId].status != Confirmed)
            && (forall k :: 0 <= k < |t.orders| && t.orders[k].status != Confirmed ==> t'.orders[k].status != Confirmed)
  {
    var found := if Truthy(p.orderNumber) then FindOrder(t.orders, user, p.merchant, p.orderNumber.value) else None;
    var orderId := if found.Some? then found.value else |t.orders|;
    var t1 := t;
    if found.None? {
      var n := NewOrder(p.merchant, if p.orderNumber.Some? then p.orderNumber.value else "");
      AddOrder(t, dispatcher, NewOrderOf(user, p), n);
      t1 := WithNotice(t.(orders := t.orders + [NewOrderOf(user, p)]), dispatcher, n);
    }
    if p.trackingNumbers != [] {
      MarkStep(t1, orderId);
      GrowsTransitive(t, t1, MarkShipped(t1, orderId));
    }
  }

  lemma PlaceholderStep(t: Tables, dispatcher: bool, user: nat, m: RawEmail, number: string, carrier: string)
    requires Sound(t)
    ensures var (t', orderId) := WithPlaceholder(t, dispatcher, user, m, number, carrier);
            && Sound(t') && Grows(t, t') && t'.emails == t.emails
            && orderId < |t'.orders| && KeyOf(t'.orders[orderId]) == (user, carrier, Some(number))
            && |t'.notices| == |t.notices| + (if dispatcher then |t'.orders| - |t.orders| else 0)
            && HasShipment(t'.shipments, orderId, number)
            && AllCreatedFor(t, t', orderId, [number], Some(carrier))
            && t.orders <= t'.orders
            && (forall k :: |t.orders| <= k < |t'.orders| ==> t'.orders[k] == PlaceholderOrder(user, m, number, carrier))
  {
    var found := FindOrder(t.orders, user, carrier, number);
    var orderId := if found.Some? then found.value else |t.orders|;
    var t1 := t;
    if found.None? {
      AddOrder(t, dispatcher, PlaceholderOrder(user, m, number, carrier), NewShipment(carrier, number));
      t1 := WithNotice(t.(orders := t.orders + [PlaceholderOrder(user, m, number, carrier)]), dispatcher, NewShipment(carrier, number));
    }
    ShipmentStep(t1, orderId, number, Some(carrier));
    GrowsTransitive(t, t1, WithShipment(t1, orderId, number, Some(carrier)));
  }

  lemma FindingStep(t: Tables, dispatcher: bool, user: nat, m: RawEmail, f: Finding)
    requires Sound(t)
    ensures var (t', orderId) := WithFinding(t, dispatcher, user, m, f);
            && Sound(t') && Grows(t, t') && t'.emails == t.emails
            && |t'.notices| == |t.notices| + (if dispatcher then |t'.orders| - |t.orders| else 0)
            && (orderId.Some? <==> f != Nothing) && (orderId.Some? ==> orderId.value < |t'.orders|)
  {
    match f
    case Nothing =>
    case CarrierOnly(number, carrier) => PlaceholderStep(t, dispatcher, user, m, number, carrier);
    case Merchant(p) =>
      ParsedOrderStep(t, dispatcher, user, p);
      var (t1, orderId) := WithParsedOrder(t, dispatcher, user, p);
      ShipmentsStep(t1, orderId, p.trackingNumbers, p.carrierHint);
      GrowsTransitive(t, t1, WithShipments(t1, orderId, p.trackingNumbers, p.carrierHint));
  }

  /**
   Every message keeps the tables sound, only adds to them, records itself, and sends one
   notification per order it creates if there is a dispatcher, and none otherwise.
   */
  lemma {:induction false} IngestStep(t: Tables, dispatcher: bool, user: nat, m: RawEmail, f: Finding)
    requires Sound(t)
    ensures var t' := Ingest(t, dispatcher, user, m, f);
            && Sound(t') && Grows(t, t') && |t'.emails| == |t.emails| + 1
            && t'.emails[|t.emails|].messageId == m.messageId && (t'.emails[|t.emails|].orderId.Some? <==> f != Nothing)
            && |t'.notices| == |t.notices| + (if dispatcher then |t'.orders| - |t.orders| else 0)
  {
    FindingStep(t, dispatcher, user, m, f);
    var (t1, orderId) := WithFinding(t, dispatcher, user, m, f);
    assert Grows(t1, WithEmail(t1, m, orderId));
    GrowsTransitive(t, t1, WithEmail(t1, m, orderId));
  }

  // ---------------------------------------------------------------- what a message leaves behind

  /** Some order of the user has the merchant and the number. */
  predicate Stands(orders: seq<Order>, user: nat, merchant: string, number: Option<string>) {
    exists k :: 0 <= k < |orders| && orders[k].userId == user && orders[k].merchant == merchant && orders[k].orderNumber == number
  }

  lemma FoundIffStands(orders: seq<Order>, user: nat, merchant: string, number: string)
    ensures FindOrder(orders, user, merchant, number).Some? <==> Stands(orders, user, merchant, Some(number))
  {
    if Stands(orders, user, merchant, Some(number)) {
      var k :| 0 <= k < |orders| && orders[k].userId == user && orders[k].merchant == merchant && orders[k].orderNumber == Some(number);
      assert OrderKeys(orders)[k] == KeyOf(orders[k]);
    }
  }

  /** The email row of a message. */
  predicate IsRowOf(e: Email, m: RawEmail) {
    && e.messageId == m.messageId && e.subject == m.subject && e.sender == m.sender && e.receivedAt == m.receivedAt
    && e.rawContent == m.textBody && e.attachments == m.attachments
  }

  /** An order as a merchant's message creates it; without a currency it is in EUR. */
  predicate StoredOrder(o: Order, user: nat, p: ParsedOrder) {
    && o.userId == user && o.merchant == p.merchant && o.orderNumber == p.orderNumber && o.orderDate == p.orderDate
    && o.currency == (if p.currency == None || p.currency == Some("") then "EUR" else p.currency.value)
    && o.invoiceAmount == Amount.ParseAmount(p.invoiceAmount)
    && o.status == if p.trackingNumbers == [] then Confirmed else Shipped
  }

  /** An order as a carrier's message creates it, dated by the day on which that was received. */
  predicate StoredPlaceholder(o: Order, user: nat, m: RawEmail, number: string, carrier: string) {
    && o.userId == user && o.merchant == carrier && o.orderNumber == Some(number) && o.orderDate == Some(m.receivedAt.local / 86_400_000_000)
    && o.currency == "EUR" && o.invoiceAmount == None && o.status == Shipped
  }

  /**
   The message belongs to the order with this key. That is a new one exactly if the number is
   missing or no order has the key; all other orders are as before, and so is an old one but for
   its status. A new order is announced with `notice`. Every listed number is a shipment of the
   order, and every new shipment is one of them.
   */
  ghost predicate RecordedAs(t: Tables, t': Tables, dispatcher: bool, orderId: Option<nat>, user: nat, merchant: string, number: Option<string>,
                             notice: Notice, numbers: seq<string>, carrier: Option<string>)
  {
    && orderId.Some? && orderId.value < |t'.orders|
    && t'.orders[orderId.value].userId == user && t'.orders[orderId.value].merchant == merchant && t'.orders[orderId.value].orderNumber == number
    && (if number.Some? && number.value != "" && Stands(t.orders, user, merchant, number)
        then |t'.orders| == |t.orders| && t'.notices == t.notices
        else |t'.orders| == |t.orders| + 1 && orderId.value == |t.orders| && t'.notices == t.notices + if dispatcher then [notice] else [])
    && (forall k :: 0 <= k < |t.orders| ==>
          if k == orderId.value then t'.orders[k].(status := t.orders[k].status) == t.orders[k] else t'.orders[k] == t.orders[k])
    && AllShipped(t', orderId.value, numbers) && AllCreatedFor(t, t', orderId.value, numbers, carrier)
  }

  /** Tracking numbers take the order from CONFIRMED to SHIPPED; without them, or from another status, it stays. */
  predicate StatusAfter(before: OrderStatus, after: OrderStatus, p: ParsedOrder) {
    after == if p.trackingNumbers != [] && before == Confirmed then Shipped else before
  }

  /**
   Where a message ends up: its own row in the email table, with the order of its finding's key,
   that order's shipments, and what is stored of it if it is new.
   */
  lemma MessageRecorded(t: Tables, dispatcher: bool, user: nat, m: RawEmail, f: Finding)
    requires Sound(t) && (f.CarrierOnly? ==> f.number != "")
    ensures var t', row := Ingest(t, dispatcher, user, m, f), |t.emails|;
            && |t'.emails| == row + 1 && t'.emails[..row] == t.emails && IsRowOf(t'.emails[row], m)
            && var o := t'.emails[row].orderId;
               match f
               case Nothing => o == None && t' == t.(emails := t'.emails)
               case Merchant(p) =>
                 && RecordedAs(t, t', dispatcher, o, user, p.merchant, p.orderNumber, OrderNotice(p), p.trackingNumbers, p.carrierHint)
                 && if o.value < |t.orders| then StatusAfter(t.orders[o.value].status, t'.orders[o.value].status, p)
                    else StoredOrder(t'.orders[o.value], user, p)
               case CarrierOnly(number, carrier) =>
                 && RecordedAs(t, t', dispatcher, o, user, carrier, Some(number), NewShipment(carrier, number), [number], Some(carrier))
                 && if o.value < |t.orders| then t'.orders == t.orders
                    else StoredPlaceholder(t'.orders[o.value], user, m, number, carrier)
  {
    RowRecorded(t, dispatcher, user, m, f);
    match f
    case Nothing =>
    case Merchant(p) => MerchantRecorded(t, dispatcher, user, p);
    case CarrierOnly(number, carrier) => PlaceholderRecorded(t, dispatcher, user, m, number, carrier);
  }

  lemma RowRecorded(t: Tables, dispatcher: bool, user: nat, m: RawEmail, f: Finding)
    ensures var t', (t1, o), row := Ingest(t, dispatcher, user, m, f), WithFinding(t, dispatcher, user, m, f), |t.emails|;
            && |t'.emails| == row + 1 && t'.emails[..row] == t.emails && IsRowOf(t'.emails[row], m)
            && t'.emails[row].orderId == o && t' == t1.(emails := t'.emails)
  {
    EmailsAlone(t, dispatcher, user, m, f);
  }

  /** How an order is announced that a merchant's message creates. */
  function OrderNotice(p: ParsedOrder): Notice { NewOrder(p.merchant, if p.orderNumber == None then "" else p.orderNumber.value) }

  lemma ParsedOrderRecorded(t: Tables, dispatcher: bool, user: nat, p: ParsedOrder)
    requires Sound(t)
    ensures var (t', o) := WithParsedOrder(t, dispatcher, user, p);
            && o < |t'.orders| && t' == t.(orders := t'.orders, notices := t'.notices)
            && t'.orders[o].userId == user && t'.orders[o].merchant == p.merchant && t'.orders[o].orderNumber == p.orderNumber
            && (if p.orderNumber.Some? && p.orderNumber.value != "" && Stands(t.orders, user, p.merchant, p.orderNumber)
                then |t'.orders| == |t.orders| && t'.notices == t.notices
                else |t'.orders| == |t.orders| + 1 && o == |t.orders| && t'.notices == t.notices + if dispatcher then [OrderNotice(p)] else [])
            && (forall k :: 0 <= k < |t.orders| ==>
                  if k == o then t'.orders[k].(status := t.orders[k].status) == t.orders[k] else t'.orders[k] == t.orders[k])
            && if o < |t.orders| then StatusAfter(t.orders[o].status, t'.orders[o].status, p) else StoredOrder(t'.orders[o], user, p)
  {
    if Truthy(p.orderNumber) { FoundIffStands(t.orders, user, p.merchant, p.orderNumber.value); }
  }

  lemma MerchantRecorded(t: Tables, dispatcher: bool, user: nat, p: ParsedOrder)
    requires Sound(t)
    ensures var (t1, o) := WithParsedOrder(t, dispatcher, user, p);
            var t' := WithShipments(t1, o, p.trackingNumbers, p.carrierHint);
            && RecordedAs(t, t', dispatcher, Some(o), user, p.merchant, p.orderNumber, OrderNotice(p), p.trackingNumbers, p.carrierHint)
            && if o < |t.orders| then StatusAfter(t.orders[o].status, t'.orders[o].status, p) else StoredOrder(t'.orders[o], user, p)
  {
    ParsedOrderStep(t, dispatcher, user, p);
    ParsedOrderRecorded(t, dispatcher, user, p);
    var (t1, o) := WithParsedOrder(t, dispatcher, user, p);
    ShipmentsStep(t1, o, p.trackingNumbers, p.carrierHint);
  }

  lemma PlaceholderRecorded(t: Tables, dispatcher: bool, user: nat, m: RawEmail, number: string, carrier: string)
    requires Sound(t) && number != ""
    ensures var (t', o) := WithPlaceholder(t, dispatcher, user, m, number, carrier);
            && RecordedAs(t, t', dispatcher, Some(o), user, carrier, Some(number), NewShipment(carrier, number), [number], Some(carrier))
            && if o < |t.orders| then t'.orders == t.orders else StoredPlaceholder(t'.orders[o], user, m, number, carrier)
  {
    PlaceholderStep(t, dispatcher, user, m, number, carrier);
    FoundIffStands(t.orders, user, carrier, number);
  }

  /** The order that a merchant's message creates has exactly the amount that the message gives. */
  lemma OrderKeepsAmount(t: Tables, dispatcher: bool, user: nat, m: RawEmail, p: ParsedOrder, cents: nat)
    requires Sound(t) && p.invoiceAmount == Some(Amount.GermanStyle(cents))
    ensures var orders := Ingest(t, dispatcher, user, m, Merchant(p)).orders;
            |orders| > |t.orders| ==> orders[|t.orders|].invoiceAmount == Some(Amount.Decimal(cents, 2))
  {
    MessageRecorded(t, dispatcher, user, m, Merchant(p));
    Amount.GermanParses(cents, Amount.GermanStyle(cents));
  }

  lemma IngestIds(t: Tables, dispatcher: bool, user: nat, m: RawEmail, f: Finding)
    ensures MessageIds(Ingest(t, dispatcher, user, m, f).emails) == MessageIds(t.emails) + {m.messageId}
  {
    EmailsAlone(t, dispatcher, user, m, f);
    var (t1, orderId) := WithFinding(t, dispatcher, user, m, f);
    var emails := WithEmail(t1, m, orderId).emails;
    assert forall k :: 0 <= k < |t.emails| ==> emails[k] == t.emails[k];
    assert emails[|t.emails|].messageId == m.messageId;
  }

  lemma {:induction false} ShipmentsLeaveEmails(t: Tables, orderId: nat, numbers: seq<string>, carrier: Option<string>)
    ensures WithShipments(t, orderId, numbers, carrier).emails == t.emails
    decreases |numbers|
  {
    if numbers != [] { ShipmentsLeaveEmails(t, orderId, numbers[..|numbers| - 1], carrier); }
  }

  lemma EmailsAlone(t: Tables, dispatcher: bool, user: nat, m: RawEmail, f: Finding)
    ensures WithFinding(t, dispatcher, user, m, f).0.emails == t.emails
  {
    if f.Merchant? {
      var (t1, orderId) := WithParsedOrder(t, dispatcher, user, f.parsed);
      ShipmentsLeaveEmails(t1, orderId, f.parsed.trackingNumbers, f.parsed.carrierHint);
    }
  }

  // ---------------------------------------------------------------- which orders are announced

  /** A notification's metadata: merchant and order number. */
  function NoticeMeta(n: Notice): (string, string) {
    match n
    case NewOrder(merchant, number) => (merchant, number)
    case NewShipment(carrier, number) => (carrier, number)
  }

  function OrderMeta(o: Order): (string, string) {
    (o.merchant, if o.orderNumber.Some? then o.orderNumber.value else "")
  }

  function NoticeMetas(notices: seq<Notice>): (r: seq<(string, string)>)
    ensures |r| == |notices| && forall k :: 0 <= k < |r| ==> r[k] == NoticeMeta(notices[k])
  {
    seq(|notices|, k requires 0 <= k < |notices| => NoticeMeta(notices[k]))
  }

  function OrderMetas(orders: seq<Order>): (r: seq<(string, string)>)
    ensures |r| == |orders| && forall k :: 0 <= k < |r| ==> r[k] == OrderMeta(orders[k])
  {
    seq(|orders|, k requires 0 <= k < |orders| => OrderMeta(orders[k]))
  }

  /** The orders that `t'` has beyond those of `t`, as they are announced. */
  function Created(t: Tables, t': Tables): seq<(string, string)>
    requires |t.orders| <= |t'.orders|
  {
    OrderMetas(t'.orders[|t.orders|..])
  }

  /** The notifications sent are those of the orders created, one each and in their order, if there is a dispatcher. */
  predicate Announces(t: Tables, t': Tables, dispatcher: bool) {
    && |t.orders| <= |t'.orders|
    && NoticeMetas(t'.notices) == NoticeMetas(t.notices) + if dispatcher then Created(t, t') else []
  }

  lemma CreatedInTurn(a: Tables, b: Tables, c: Tables)
    requires Grows(a, b) && Grows(b, c)
    ensures |a.orders| <= |c.orders| && Created(a, c) == Created(a, b) + Created(b, c)
  {
    var whole, first, second := Created(a, c), Created(a, b), Created(b, c);
    forall k | 0 <= k < |whole| ensures whole[k] == (first + second)[k] {
      var i := |a.orders| + k;
      if i < |b.orders| { assert c.orders[i].(status := b.orders[i].status) == b.orders[i]; }
    }
  }

  lemma AnnouncesTransitive(a: Tables, b: Tables, c: Tables, dispatcher: bool)
    requires Grows(a, b) && Grows(b, c) && Announces(a, b, dispatcher) && Announces(b, c, dispatcher)
    ensures Announces(a, c, dispatcher)
  {
    CreatedInTurn(a, b, c);
    Associates(NoticeMetas(a.notices), if dispatcher then Created(a, b) else [], if dispatcher then Created(b, c) else []);
  }

  lemma NothingCreated(t: Tables, t': Tables, dispatcher: bool)
    requires |t'.orders| == |t.orders| && t'.notices == t.notices
    ensures Announces(t, t', dispatcher)
  {
    assert Created(t, t') == [];
  }

  lemma OrderAnnounced(t: Tables, dispatcher: bool, o: Order, n: Notice)
    requires NoticeMeta(n) == OrderMeta(o)
    ensures Announces(t, WithNotice(t.(orders := t.orders + [o]), dispatcher, n), dispatcher)
  {
    var t' := WithNotice(t.(orders := t.orders + [o]), dispatcher, n);
    assert Created(t, t') == [OrderMeta(o)];
  }

  lemma ParsedOrderAnnounces(t: Tables, dispatcher: bool, user: nat, p: ParsedOrder)
    requires Sound(t)
    ensures Announces(t, WithParsedOrder(t, dispatcher, user, p).0, dispatcher)
  {
    var found := if Truthy(p.orderNumber) then FindOrder(t.orders, user, p.merchant, p.orderNumber.value) else None;
    var (t2, o) := WithParsedOrder(t, dispatcher, user, p);
    var n := NewOrder(p.merchant, if p.orderNumber.Some? then p.orderNumber.value else "");
    var t1 := if found.Some? then t else WithNotice(t.(orders := t.orders + [NewOrderOf(user, p)]), dispatcher, n);
    if found.Some? { NothingCreated(t, t1, dispatcher); } else { OrderAnnounced(t, dispatcher, NewOrderOf(user, p), n); }
    Restatus(t, t1, t2, dispatcher, o);
  }

  /** A change of an order's status announces nothing. */
  lemma Restatus(t: Tables, t1: Tables, t2: Tables, dispatcher: bool, o: nat)
    requires Announces(t, t1, dispatcher) && o < |t1.orders| && (t2 == t1 || t2 == MarkShipped(t1, o))
    ensures Announces(t, t2, dispatcher)
  {
    var before, after := Created(t, t1), OrderMetas(t2.orders[|t.orders|..]);
    forall k | 0 <= k < |before| ensures after[k] == before[k] {
      assert OrderMeta(t2.orders[|t.orders| + k]) == OrderMeta(t1.orders[|t.orders| + k]);
    }
    assert after == before;
  }

  lemma PlaceholderAnnounces(t: Tables, dispatcher: bool, user: nat, m: RawEmail, number: string, carrier: string)
    requires Sound(t)
    ensures Announces(t, WithPlaceholder(t, dispatcher, user, m, number, carrier).0, dispatcher)
  {
    var found := FindOrder(t.orders, user, carrier, number);
    var o, n := PlaceholderOrder(user, m, number, carrier), NewShipment(carrier, number);
    var t1 := if found.Some? then t else WithNotice(t.(orders := t.orders + [o]), dispatcher, n);
    if found.Some? { NothingCreated(t, t1, dispatcher); } else { OrderAnnounced(t, dispatcher, o, n); }
    var t2 := WithShipment(t1, if found.Some? then found.value else |t.orders|, number, Some(carrier));
    assert t2.orders == t1.orders && t2.notices == t1.notices;
  }

  /** Every message announces exactly the order it creates, if it creates one and there is a dispatcher. */
  lemma IngestAnnounces(t: Tables, dispatcher: bool, user: nat, m: RawEmail, f: Finding)
    requires Sound(t)
    ensures Announces(t, Ingest(t, dispatcher, user, m, f), dispatcher)
  {
    match f
    case Nothing => NothingCreated(t, Ingest(t, dispatcher, user, m, f), dispatcher);
    case CarrierOnly(number, carrier) => PlaceholderAnnounces(t, dispatcher, user, m, number, carrier);
    case Merchant(p) =>
      ParsedOrderStep(t, dispatcher, user, p);
      ParsedOrderAnnounces(t, dispatcher, user, p);
      var (t1, o) := WithParsedOrder(t, dispatcher, user, p);
      ShipmentsStep(t1, o, p.trackingNumbers, p.carrierHint);
  }

  // ---------------------------------------------------------------- orders with shipments are not CONFIRMED

  /** No order that has a shipment is still CONFIRMED. */
  predicate NoneConfirmed(t: Tables) {
    forall k :: 0 <= k < |t.shipments| && t.shipments[k].orderId < |t.orders| ==> t.orders[t.shipments[k].orderId].status != Confirmed
  }

  /** A carrier-only number for which a merchant's order stands that is CONFIRMED and named like the carrier. */
  predicate Clashes(t: Tables, user: nat, f: Finding) {
    && f.CarrierOnly?
    && var found := FindOrder(t.orders, user, f.carrier, f.number);
       found.Some? && t.orders[found.value].status == Confirmed
  }

  lemma MerchantKeepsStatus(t: Tables, dispatcher: bool, user: nat, m: RawEmail, p: ParsedOrder)
    requires Sound(t) && NoneConfirmed(t)
    ensures NoneConfirmed(WithFinding(t, dispatcher, user, m, Merchant(p)).0)
  {
    ParsedOrderStep(t, dispatcher, user, p);
    var (t1, orderId) := WithParsedOrder(t, dispatcher, user, p);
    ShipmentsStep(t1, orderId, p.trackingNumbers, p.carrierHint);
    var t2 := WithShipments(t1, orderId, p.trackingNumbers, p.carrierHint);
    forall k | 0 <= k < |t2.shipments| ensures t2.orders[t2.shipments[k].orderId].status != Confirmed {
      if k < |t.shipments| {
        assert t2.shipments[k] == t.shipments[k];
      } else {
        assert t2.shipments[k].orderId == orderId && p.trackingNumbers != [];
      }
    }
  }

  lemma PlaceholderKeepsStatus(t: Tables, dispatcher: bool, user: nat, m: RawEmail, number: string, carrier: string)
    requires Sound(t) && NoneConfirmed(t)
    ensures NoneConfirmed(WithPlaceholder(t, dispatcher, user, m, number, carrier).0)
       <==> !Clashes(t, user, CarrierOnly(number, carrier))
  {
    PlaceholderStep(t, dispatcher, user, m, number, carrier);
    var (t', orderId) := WithPlaceholder(t, dispatcher, user, m, number, carrier);
    if Clashes(t, user, CarrierOnly(number, carrier)) {
      var k :| 0 <= k < |t'.shipments| && ShipmentKeys(t'.shipments)[k] == (orderId, number);
      assert t'.orders[t'.shipments[k].orderId].status == Confirmed;
    } else {
      forall k | 0 <= k < |t'.shipments| ensures t'.orders[t'.shipments[k].orderId].status != Confirmed {
        if k < |t.shipments| {
          assert t'.shipments[k] == t.shipments[k];
        } else {
          assert t'.shipments[k].orderId == orderId;
        }
      }
    }
  }

  /** A message keeps every order with a shipment out of CONFIRMED exactly if it does not clash. */
  lemma StatusKept(t: Tables, dispatcher: bool, user: nat, m: RawEmail, f: Finding)
    requires Sound(t) && NoneConfirmed(t)
    ensures NoneConfirmed(Ingest(t, dispatcher, user, m, f)) <==> !Clashes(t, user, f)
  {
    match f
    case Nothing =>
    case Merchant(p) => MerchantKeepsStatus(t, dispatcher, user, m, p);
    case CarrierOnly(number, carrier) => PlaceholderKeepsStatus(t, dispatcher, user, m, number, carrier);
  }

  /** Orders named like a carrier are never CONFIRMED, if no merchant is named like one. */
  predicate CarriersShipped(t: Tables, carriers: set<string>) {
    forall k :: 0 <= k < |t.orders| && t.orders[k].merchant in carriers ==> t.orders[k].status != Confirmed
  }

  predicate Apart(f: Finding, carriers: set<string>) {
    && (f.Merchant? ==> f.parsed.merchant !in carriers)
    && (f.CarrierOnly? ==> f.carrier in carriers)
  }

  lemma CarriersStayShipped(t: Tables, dispatcher: bool, user: nat, m: RawEmail, f: Finding, carriers: set<string>)
    requires Sound(t) && CarriersShipped(t, carriers) && Apart(f, carriers)
    ensures CarriersShipped(Ingest(t, dispatcher, user, m, f), carriers) && !Clashes(t, user, f)
  {
    match f
    case Nothing =>
    case CarrierOnly(number, carrier) =>
      PlaceholderStep(t, dispatcher, user, m, number, carrier);
      var t' := WithPlaceholder(t, dispatcher, user, m, number, carrier).0;
      assert forall k :: 0 <= k < |t.orders| ==> t'.orders[k] == t.orders[k];
    case Merchant(p) =>
      ParsedOrderStep(t, dispatcher, user, p);
      var (t1, orderId) := WithParsedOrder(t, dispatcher, user, p);
      ShipmentsStep(t1, orderId, p.trackingNumbers, p.carrierHint);
      MerchantOrders(t, dispatcher, user, p);
  }

  /** A parsed order touches one order only, and its merchant is the parsed one. */
  lemma MerchantOrders(t: Tables, dispatcher: bool, user: nat, p: ParsedOrder)
    requires Sound(t)
    ensures var (t', orderId) := WithParsedOrder(t, dispatcher, user, p);
            && orderId < |t'.orders| && t'.orders[orderId].merchant == p.merchant
            && forall k :: 0 <= k < |t'.orders| && k != orderId ==> k < |t.orders| && t'.orders[k] == t.orders[k]
  {
    ParsedOrderStep(t, dispatcher, user, p);
  }

  // ---------------------------------------------------------------- placeholders

  lemma FoundStays(t: Tables, t': Tables, user: nat, carrier: string, number: string, o: nat)
    requires Sound(t') && Grows(t, t') && number != "" && o < |t.orders| && KeyOf(t.orders[o]) == (user, carrier, Some(number))
    ensures FindOrder(t'.orders, user, carrier, number) == Some(o)
  {
    assert KeyOf(t'.orders[o]) == KeyOf(t.orders[o]);
    assert OrderKeys(t'.orders)[o] == (user, carrier, Some(number));
    var found := FindOrder(t'.orders, user, carrier, number).value;
    assert KeyOf(t'.orders[found]) == KeyOf(t'.orders[o]);
  }

  lemma ShipmentStays(t: Tables, t': Tables, o: nat, number: string)
    requires Grows(t, t') && HasShipment(t.shipments, o, number)
    ensures HasShipment(t'.shipments, o, number)
  {
    var k :| 0 <= k < |t.shipments| && ShipmentKeys(t.shipments)[k] == (o, number);
    assert ShipmentKeys(t'.shipments)[k] == (o, number);
  }

  /**
   A second carrier-only message with the same number, however much later, finds the order and
   the shipment of the first and changes neither.
   */
  lemma PlaceholderIsReused(t: Tables, t': Tables, dispatcher: bool, dispatcher': bool, user: nat, m: RawEmail, m': RawEmail, number: string, carrier: string)
    requires Sound(t) && Sound(t') && number != ""
    requires Grows(Ingest(t, dispatcher, user, m, CarrierOnly(number, carrier)), t')
    ensures var f := CarrierOnly(number, carrier);
            var first, (t2, second) := WithFinding(t, dispatcher, user, m, f).1, WithFinding(t', dispatcher', user, m', f);
            && first == second && first.Some? && t2 == t'
            && first.value < |t'.orders| && KeyOf(t'.orders[first.value]) == (user, carrier, Some(number))
            && HasShipment(t'.shipments, first.value, number)
  {
    PlaceholderStep(t, dispatcher, user, m, number, carrier);
    var (t1, o) := WithPlaceholder(t, dispatcher, user, m, number, carrier);
    var t2 := WithEmail(t1, m, Some(o));
    IngestStep(t, dispatcher, user, m, CarrierOnly(number, carrier));
    FoundStays(t2, t', user, carrier, number, o);
    ShipmentStays(t2, t', o, number);
  }
}
