# Parcel server: a verified model of its backend

The parcel server reads order and shipping emails from IMAP mailboxes, finds tracking numbers
in them, keeps orders and shipments in tables, polls a tracking provider for their status, and
signs mail accounts in with the OAuth device flow. This project models the parts of its Python
backend that hold state or do arithmetic and proves what they promise, for every input, every
run and every interleaving.

| file | what it models |
|---|---|
| `Prelude.dfy` | optional values and points in time |
| `Regex.dfy` | the part of Python's `re` that is used: classes, counted repetition, alternation, `*`, `\b`, `fullmatch`, `search`, `finditer`; words as maximal runs |
| `Carriers.dfy`, `Scanner.dfy` | `tracking/carriers.py` |
| `Amount.dfy` | `extract_amount` and `_parse_amount` |
| `Mailbox.dfy` | `ImapMailbox.fetch_since` |
| `Tables.dfy`, `Ingestion.dfy` | the rows, and `EmailIngestionService` as a class that changes them |
| `Backlog.dfy`, `MailRuns.dfy` | series of syncs of one mailbox, and runs over interleaved accounts |
| `Tracking.dfy` | `TrackingSyncService`, `ShipmentService.update_status` and the delayed count |
| `DeviceFlow.dfy` | both OAuth modules, and every interleaving of their calls |
| `Calendar.dfy` | `monthly_counts_for_user` |
| `Schedule.dfy` | the tracking worker's two periodic jobs |

`dafny verify dfyconfig.toml` checks everything.

Code that changes things in place is a class or a method with loops, proved against a function
of its inputs or of the old state; the lemmas then say what that function promises. What the
backend gets from outside is a parameter: the mailbox (a list of messages with UIDs, as in
section 2.3.1.1 of RFC 3501), the provider's answers, the token server's answers, the clock, the
merchant parsers (an arbitrary pure function from a message to an order or nothing), whether a sync
has a notification dispatcher (the worker's has, the one started by hand has none), the batch limit
(200 in the code, any number here), and Python's Unicode tables behind `\d`, `\w`, `\s` and
case folding (any tables that agree with ASCII where the code relies on it, and in which a new line
is no other character's case variant).

## What turned out differently from the documentation

* `MAX_EMAILS_PER_SYNC` is said to make steady progress through a backlog
  (backend/app/services/email_ingestion_service.py:37-43). It does, unless as many messages in a row
  as the limit are stored already or repeat an earlier id: the `continue` for a stored message skips
  the watermark. `MailRuns.FolderEndsIff` gives the exact condition, `MailRuns.RepeatsNeverDrain` a
  mailbox that never drains, and `Backlog.NeverPassed` what is lost behind such a stretch.
* No order with a shipment is still CONFIRMED only if no merchant is named like a carrier. A
  carrier-only email whose number and carrier are those of a CONFIRMED merchant order adds a
  shipment to it and leaves its status (`Tables.StatusKept`); two messages are enough
  (`MailRuns.CarrierMerchantConfirms`). The twelve merchants that have a parser are not named like a
  carrier (`MailRuns.MerchantsAreApart`).
* "DHL Express" is in the pattern table but is never an answer (`Carriers.NeverDhlExpress`).
* An amount with commas between thousands, or without separators, is read correctly exactly below
  1000.00 (`Amount.EnglishRoundTrip`, `Amount.UngroupedIsReduced`).
* The status follows the last appended event, not the latest one in time
  (`Tracking.LateEventMovesStatusBack`). `Tracking.LatestIff` says when it is that of a latest event,
  and `Tracking.OneShotIff` when syncing answer by answer ends where the last answer alone does.
* The delayed count can fall: exactly when a shipment created as DELAYED gets its first events and
  none of them is DELAYED (`Tracking.CountFallsIff`).
* A poll goes on answering True after the tokens have expired (`DeviceFlow.PollOutlivesTokens`).
* Two sets of tokens can be delivered for one flow, exactly when two polls of it overlap
  (`DeviceFlow.DeliversTwiceIffOverlap`).
* A take can find tokens and still fail at its `del`: when a purge past their expiry or another take
  of the flow comes in between (`DeviceFlow.LookupDeliversIff`).
* `RawEmail.body` is said to fall back to a tag-stripped HTML body (importer/emails.py:22-25); the
  tags stay in, and the model keeps them.

## Model

| member | source | states |
|---|---|---|
| Regex.EndsIffMatches | tracking/carriers.py:14-29 | The backtracking matcher's list of ends holds exactly the ends that the pattern's language allows, for every pattern and position |
| Regex.WordsAreRuns | tracking/carriers.py:14-29 | The tokeniser's words are exactly the maximal runs of word characters |
| Regex.WholeEnds | tracking/carriers.py:14-29 | A pattern of word characters between two `\b` matches exactly whole runs that its core matches |
| Regex.FindIterIsTokenFilter | tracking/carriers.py:76-80 | For such a pattern, the leftmost non-overlapping matches of a text are its words that fully match, in order |
| Carriers.FitsIffShape | tracking/carriers.py:14-29 | Each of the fourteen patterns fully matches exactly the numbers of its documented format |
| Carriers.DetectIsForm | tracking/carriers.py:51-58 | Trying the patterns in order answers what a definition without any order of trial says: lettered formats by their letters, digit strings by length |
| Carriers.NameByForm | tracking/carriers.py:14-58 | With any white space around it, a number is named by its form, in the literal names: "DPD" for fourteen digits, "GLS" for eleven, "UPS" for "1Z" and sixteen capitals or digits, and so on; one of any other form has no name |
| Carriers.LetteredIsExclusive | tracking/carriers.py:31-48 | A number in a format with letters fits no other carrier; overlaps are among digit strings only |
| Carriers.NeverDhlExpress | tracking/carriers.py:51-58 | No number is ever detected as "DHL Express" |
| Scanner.FindTrackingNumbers | tracking/carriers.py:61-92 | The method with its loops and early returns yields the filtered scan: the eligible words, named by their forms, in the order of the forms |
| Scanner.Collect | tracking/carriers.py:75-80 | The fourteen passes with first-wins insertion build the list that tokenising, detecting and stably sorting by rank gives |
| Scanner.CollectMatches | tracking/carriers.py:78-80 | One pass adds the words of its carrier, in order of first appearance, that no earlier pass has taken |
| Scanner.Restrict | tracking/carriers.py:92 | The closing comprehension keeps the numbers of mentioned carriers in order |
| Scanner.ScanIsTokenised | tracking/carriers.py:75-80 | Before the filter the result maps exactly the maximal word runs that `detect_carrier` recognises, each to its answer |
| Scanner.ScanIsSorted | tracking/carriers.py:75-80 | The result is ordered by detection rank, equal ranks by first appearance in the text, each number once |
| Scanner.ReportIsFilteredScan | tracking/carriers.py:82-92 | The report is a subsequence of the scan, empty only if the scan is, and keeps a number exactly if its carrier is mentioned or none of the found carriers is |
| Scanner.ReportByForm | tracking/carriers.py:61-92 | The report without patterns, passes and dictionary: its numbers are exactly the words with a carrier's form whose carrier the text names, or all words with a form if it names none of their carriers; each under the name of its form, in the order of the forms, equal ones in the order of the text |
| Scanner.MentionMeaning | tracking/carriers.py:85-89 | A carrier is mentioned exactly if its name stands in the text between word boundaries, each letter itself or its case variant |
| Amount.GermanRoundTrip | importer/parsers/_extract.py:14-48 | For every number of cents, the rendering with dots between thousands and a comma, followed by a currency, is extracted whole from any text in which no price begins earlier, and parsed as exactly that amount, with the currency normalised |
| Amount.PlainTextEarlier | importer/parsers/_extract.py:14-17 | No price begins where no digit stands and no currency begins |
| Amount.EnglishRoundTrip | importer/parsers/_extract.py:14-48 | The rendering with commas between thousands and a dot is extracted whole, and parsed as that amount if and only if it is below 1000.00 |
| Amount.UngroupedIsExtracted | importer/parsers/_extract.py:14-17 | Of an amount without separators only the last three digits before the comma are extracted |
| Amount.UngroupedIsReduced | backend/app/services/email_ingestion_service.py:259-266 | What is extracted of it parses as the amount modulo 1000.00, which is the amount exactly below 1000.00 |
| Amount.GermanParses | backend/app/services/email_ingestion_service.py:259-266 | Removing dots and turning the comma into a dot gives the exact number of cents for every amount |
| Amount.ParsedIff | backend/app/services/email_ingestion_service.py:259-266 | Exactly these texts are read as amounts: digits, dots and commas with at least one digit, and one comma or, without a comma, at most one dot; the number has all their digits in order |
| Amount.CurrencyMatch | importer/parsers/_extract.py:15-16 | The currency alternatives match exactly the six codes and symbols |
| Amount.ExtractsIff | importer/parsers/_extract.py:14-48 | Something is extracted if and only if somewhere in the text an amount stands before a currency or a currency before an amount, with nothing but white space between |
| Amount.OnePrice | importer/parsers/_extract.py:15 | With the currency behind it, an amount can be matched in one way only, so backtracking cannot change the result |
| Amount.CurrencyFirst | importer/parsers/_extract.py:16 | With the currency first, what is extracted is the longest amount behind its white space, and nothing if none begins there |
| Amount.CurrencyFirstRoundTrip | importer/parsers/_extract.py:14-48 | A grouped amount of either style behind its currency is extracted whole unless the text goes on with a digit and a separator; with dots between thousands it is parsed as exactly that amount |
| Mailbox.AboveElements | importer/imap_client.py:176-178 | Although `UID n:*` always answers with the last message, the fetched UIDs are exactly those above the watermark, ascending |
| Mailbox.FetchIsSmallest | importer/imap_client.py:169-185 | `fetch_since(s, k)` yields the k smallest UIDs above s in order, or all of them if there are fewer |
| Mailbox.AboveSuffix | importer/imap_client.py:176-183 | Above the p-th UID found lie exactly the ones behind it |
| Backlog.FetchIsCut | importer/imap_client.py:181-185 | A limited fetch is a prefix of the unlimited one |
| Backlog.FoldersAreOrdered | importer/imap_client.py:176-185 | Every folder, in whatever order the server lists it, serves its messages above a UID in ascending order, and above each of them exactly the rest |
| Backlog.FoldIds | backend/app/services/email_ingestion_service.py:97-125 | After a batch the stored message ids are the earlier ones and those of the batch |
| Backlog.FoldToLastFresh | backend/app/services/email_ingestion_service.py:97-125 | A batch has the effect of its messages up to the last one not stored before, and leaves the watermark there |
| Backlog.SyncLands | backend/app/services/email_ingestion_service.py:97-125 | Where one sync ends, what it has stored, and that above the new watermark lies exactly what it did not reach |
| Backlog.SyncProgressOrIdle | backend/app/services/email_ingestion_service.py:97-125 | Every sync strictly shrinks the messages above the watermark, or its whole batch was stored and it changed neither tables nor watermark |
| Backlog.UntruncatedIsAll | backend/app/services/email_ingestion_service.py:130-135 | A sync that does not report `truncated` has the effect of one without a limit |
| Backlog.BatchingIsInvisible | backend/app/services/email_ingestion_service.py:78-135 | In any mailbox, once a sync of a series is not truncated, tables and watermark are those of one unlimited sync |
| Backlog.SyncsEndIff | backend/app/services/email_ingestion_service.py:97-135 | A series of syncs comes to an untruncated one if and only if no `limit` messages in a row above the watermark are stored or repeated |
| Backlog.NeverPassed | backend/app/services/email_ingestion_service.py:97-125 | No number of syncs gets past such a stretch: all behind its start stays above the watermark, and no id that does not occur before it is ever stored |
| Backlog.SyncCount | backend/app/services/email_ingestion_service.py:130-135 | With n new and different messages waiting, the j-th sync is truncated exactly if j is below n / limit rounded down |
| Backlog.DrainsInBatches | backend/app/services/email_ingestion_service.py:78-135 | n new and different messages take exactly n / limit + 1 syncs, which end where one unlimited sync does |
| Tables.CarrierStep | backend/app/services/email_ingestion_service.py:250-256 | Getting or creating a carrier keeps names unique, returns the row with the name, and none for an empty name |
| Tables.ShipmentsStep | backend/app/services/email_ingestion_service.py:232-248 | Afterwards every listed number is a shipment of the order, every new row is one of them under the hinted carrier, and keys stay unique |
| Tables.ParsedOrderStep | backend/app/services/email_ingestion_service.py:137-172 | The order found or created has the parsed key, the order notification goes out exactly with creation, and with tracking numbers it is not left CONFIRMED |
| Tables.PlaceholderStep | backend/app/services/email_ingestion_service.py:189-230 | The placeholder has the carrier and number as its key and holds the shipment; other orders are as before |
| Tables.IngestStep | backend/app/services/email_ingestion_service.py:97-125 | A message keeps all keys unique and all references valid, only adds rows, records itself, and sends one notification per order created if there is a dispatcher |
| Tables.IngestAnnounces | backend/app/services/email_ingestion_service.py:154-212 | The notifications that a message sends name the merchant and number of the order it creates, if it creates one and there is a dispatcher, and no other |
| Tables.MessageRecorded | backend/app/services/email_ingestion_service.py:97-123 | A message's row has all its fields and belongs to the order of its finding's key, created exactly if there was none, with its notification; a new order has the parsed date, amount, currency or "EUR", and status, a placeholder the day of receipt and SHIPPED; an old order keeps all but its status, all others everything; every listed number is a shipment of it, and every new shipment is one of them |
| Tables.OrderKeepsAmount | backend/app/services/email_ingestion_service.py:145-155 | For every number of cents, an order created from a message that gives it with dots and a comma is stored with exactly that amount |
| Tables.StatusKept | backend/app/services/email_ingestion_service.py:169-170 | A message keeps every order with a shipment out of CONFIRMED if and only if it is not a carrier-only one that hits a CONFIRMED order of the same name and number |
| Tables.CarriersStayShipped | backend/app/services/email_ingestion_service.py:189-199 | If merchants are not named like carriers, orders under a carrier's name are never CONFIRMED, so that clash never occurs |
| Tables.PlaceholderIsReused | backend/app/services/email_ingestion_service.py:189-218 | A later carrier-only message with the same number finds the same order and shipment and changes neither |
| Ingestion.ReadMeaning | backend/app/services/email_ingestion_service.py:189-193 | The words read are the maximal runs of the subject and of the text body, or of the HTML body where that is empty. The number of a carrier-only message is the first of them, by the order of the forms and then of reading, that has the form of a carrier that subject or body names, or of any carrier if they name none of those; it goes by the name of its form, and there is none exactly if no word has a form |
| Ingestion.EmailIngestionService.SyncAccount | backend/app/services/email_ingestion_service.py:78-135 | One sync changes tables and watermark as the specified fold over the fetched batch; its counters are the growth of the tables and `truncated` is a full batch |
| Ingestion.EmailIngestionService.Process | backend/app/services/email_ingestion_service.py:94-125 | The loop with its `continue`, its counters and the watermark update realises that fold |
| Ingestion.EmailIngestionService.PersistParsedOrder | backend/app/services/email_ingestion_service.py:137-172 | The in-place get-or-create realises the specified order step, row by row |
| Ingestion.EmailIngestionService.PersistCarrierOnlyShipment | backend/app/services/email_ingestion_service.py:174-230 | The carrier-only branch realises the specified placeholder step and returns the shipments created |
| Ingestion.EmailIngestionService.PersistShipments | backend/app/services/email_ingestion_service.py:232-248 | The loop realises the specified shipments step and returns the growth of the table |
| Ingestion.EmailIngestionService.GetOrCreateCarrier | backend/app/services/email_ingestion_service.py:250-256 | The carrier lookup or insertion, and nothing else changed |
| MailRuns.FolderDrains | backend/app/services/email_ingestion_service.py:78-135 | Batching is invisible for the service itself: n new and different messages take exactly n / limit + 1 syncs and leave the same emails, orders, shipments, carriers, notifications and watermark as one unlimited sync |
| MailRuns.FolderEndsIff | backend/app/services/email_ingestion_service.py:97-135 | For the service itself and any folder, the exact condition under which repeated syncs come to an end |
| MailRuns.RepeatsNeverDrain | backend/app/services/email_ingestion_service.py:37-44 | For every limit, a mailbox whose last message no number of syncs ever stores |
| MailRuns.IterationsKeepStored | backend/app/services/email_ingestion_service.py:97-125 | After any number of iterations the watermark has passed no message that is not stored |
| MailRuns.WatermarkNeverPasses | backend/app/services/email_ingestion_service.py:97-125 | In every run of arrivals, expunges and syncs over any accounts, after every iteration, each message up to an account's watermark has its id in the email table |
| MailRuns.FullSyncIsSyncOnce | backend/app/services/email_ingestion_service.py:78-135 | A sync event of a run with as many iterations as the limit is one `sync_account` |
| MailRuns.UntruncatedStoresAll | backend/app/services/email_ingestion_service.py:130-135 | A sync that is not truncated leaves every message of the mailbox stored |
| MailRuns.TablesOverAllRuns | backend/app/services/email_ingestion_service.py:97-256 | Over all runs from an empty store, in which syncs with and without a dispatcher may take turns, keys, carrier names and message ids are unique, the notifications are those of the orders that the syncs with a dispatcher create, one each and in their order, and, merchants apart from carriers, no order with a shipment is CONFIRMED |
| MailRuns.OneDispatcher | backend/app/services/email_ingestion_service.py:154-212 | If every sync of a run has a dispatcher, every order is announced, in order; if none has, none is |
| MailRuns.FreshIsKept | backend/app/services/email_ingestion_service.py:97-123 | After a batch every message of it that was new has its own row with all its fields, with the account user's order that its parser reads and all its tracking numbers, or else the order of the number that it is read as, or none |
| MailRuns.NewOrdersAreOwn | backend/app/services/email_ingestion_service.py:101-107 | A sync creates orders for the account's user only |
| MailRuns.MerchantsAreApart | backend/app/services/email_ingestion_service.py:189-199 | That condition holds of every detector that reports only the twelve merchants there are parsers for |
| MailRuns.CarrierMerchantConfirms | backend/app/services/email_ingestion_service.py:146-170 | Without it, for every detected number, a merchant named like the number's carrier and two messages from an empty store leave a CONFIRMED order with a shipment |
| MailRuns.BareNumberIsRead | backend/app/services/email_ingestion_service.py:189-193 | A message that says nothing but a detected number is read as that number |
| MailRuns.PlaceholderOverRuns | backend/app/services/email_ingestion_service.py:189-230 | Two carrier-only messages of a user with the same first number, with any run between and whatever else they say, resolve to one order keyed by the number and the name of its form, with one shipment for it |
| Tracking.SortIsStable | backend/app/services/tracking_sync_service.py:54 | The sort puts events in time order and keeps the order of those at the same time |
| Tracking.SyncHistory | backend/app/services/tracking_sync_service.py:52-75 | A sync keeps the old history as a prefix and keys unique, its keys are the old and the fetched ones, and the order of two syncs does not matter to them |
| Tracking.SyncIsIdempotent | backend/app/services/tracking_sync_service.py:52-75 | Syncing the same answer again changes nothing |
| Tracking.IncrementalIsOneShot | backend/app/services/tracking_sync_service.py:47-75 | Syncing answers that only grow by later events, one by one, is syncing the last one only, from any shipment |
| Tracking.OneShotIff | backend/app/services/tracking_sync_service.py:47-75 | For any answers, syncing each in turn is syncing only the last if and only if the rows appended by the earlier ones begin the fresh rows of the last one in time order, and an empty last answer hides no earlier last update |
| Tracking.RecordAppendsFresh | backend/app/services/tracking_sync_service.py:52-69 | A sync appends to the history exactly the rows of the sorted answer whose keys it does not have, each key once |
| Tracking.FreshRowsCopy | backend/app/services/tracking_sync_service.py:54-69 | These rows are, in order, the events that are neither known nor a repeat of an earlier one, each with its status, description and location and its instant in UTC without a zone |
| Tracking.SameKeyIff | backend/app/services/tracking_sync_service.py:52-60 | Two events are the same exactly if they mean the same status and happened at the same instant, whatever zone they are given in |
| Tracking.MapStatusMeaning | backend/app/services/tracking_sync_service.py:126-135 | Each of the eight status names means its status, and every other text means in transit |
| Tracking.LatestIff | backend/app/services/tracking_sync_service.py:54-72 | After a sync the last row, whose status is the shipment's, is a latest one if and only if some fetched event is new and not before any stored row, or nothing fetched is new and it was a latest one already |
| Tracking.LateEventMovesStatusBack | backend/app/services/tracking_sync_service.py:54-72 | An older event that arrives late moves the status back, where syncing only the last answer does not |
| Tracking.FailureChangesNothing | backend/app/services/tracking_sync_service.py:97-103 | An HTTP failure or a mix of zoned and unzoned times leaves history, status and dates alone and notifies no one |
| Tracking.AnswerMeaning | backend/app/services/tracking_sync_service.py:39-86 | One answer in full: when a sync fails and how; registered exactly if it was or registering succeeded; the appended rows, the status of the last one, the delivery date of the last DELIVERED one, the last update at the latest fetched instant or as before if nothing was fetched; and a notification exactly if there is a dispatcher and the status has become DELIVERED or DELAYED |
| Tracking.RepeatIsSilent | backend/app/services/tracking_sync_service.py:77-82 | A repeated answer succeeds and notifies no one |
| Tracking.TrackingSyncService.SyncShipment | backend/app/services/tracking_sync_service.py:39-86 | The method realises the specified result of one answer, with its notification, and changes no other shipment; its fields are those of `AnswerMeaning` |
| Tracking.TrackingSyncService.AppendNew | backend/app/services/tracking_sync_service.py:52-72 | The loop with its growing set of known keys realises the fold over the sorted events |
| Tracking.TrackingSyncService.SyncDueShipments | backend/app/services/tracking_sync_service.py:88-105 | The pass over the rows that were not terminal at its start: states, notifications, count, and whether an exception ends it |
| Tracking.Shipment.UpdateStatus | backend/app/services/shipment_service.py:40-55 | A manual update sets exactly the given fields, and with a status also the last update and a new last event; a null status alone fails, and changes nothing |
| Tracking.UpdateMeaning | backend/app/services/shipment_service.py:40-55 | A parcel is the result of an update if and only if each given date has its value, each absent one is as before, the status brings its last update and one event, or without one all three stay, and nothing else differs |
| Tracking.PassIsPointwise | backend/app/services/tracking_sync_service.py:88-105 | A pass syncs each due shipment on its own, whatever fails over HTTP; it raises if and only if some due shipment's answer mixes zoned and unzoned times, and has then done all up to the first of these and nothing behind it: shipments, notifications and count |
| Tracking.DueIffOpen | backend/app/repositories/shipment_repository.py:14-59 | The worker passes over shipments that are delivered or returned and syncs all others |
| Tracking.RunIsPointwise | backend/app/services/tracking_sync_service.py:88-105 | Over any run of passes, each of which may raise, and of shipments that join the table between them, a shipment ends where the answers that reached it take it on its own from what it joined as |
| Tracking.RunNotifiesPointwise | backend/app/services/tracking_sync_service.py:77-105 | Such a run sends every notification as often as its shipments, each over its own answers, send it between them |
| Tracking.TerminalIsAbsorbing | backend/app/repositories/shipment_repository.py:16-59 | Under the worker a delivered or returned shipment never changes again |
| Tracking.DeliveredOnce | backend/app/services/tracking_sync_service.py:77-82 | Over any worker run a shipment causes exactly one delivered notification if the run delivers it and there is a dispatcher, and none otherwise |
| Tracking.StatusFollowsHistory | backend/app/services/shipment_service.py:34-55 | Over any mix of creations, syncs and manual updates, the status is that of the last appended event, or of creation |
| Tracking.DelayedCountIsHistory | backend/app/repositories/shipment_repository.py:144-161 | The delayed count is the number of shipments with a DELAYED event plus those created DELAYED without any event, and at most the user's shipments |
| Tracking.CountIsByRow | backend/app/repositories/shipment_repository.py:144-161 | The union of the two queries counts each of the user's shipments that is DELAYED or has a DELAYED event once, and no other user's |
| Tracking.DelayedCountNeverFalls | backend/app/repositories/shipment_repository.py:144-161 | Without shipments created as DELAYED it equals the shipments with a DELAYED event and never falls |
| Tracking.CountFallsIff | backend/app/repositories/shipment_repository.py:144-161 | A sync or a manual update makes a user's delayed count fall, by one, if and only if it gives a shipment of the user that was created DELAYED its first events and none of them is DELAYED |
| Tracking.BornDelayedCanFall | backend/app/repositories/shipment_repository.py:144-161 | From no shipments, a creation as DELAYED and one update reach such a fall |
| DeviceFlow.DeviceFlows.PurgeExpired | backend/app/services/oauth_microsoft.py:76-81 | The two loops remove exactly the expired entries |
| DeviceFlow.DeviceFlows.StartDeviceFlow | backend/app/services/oauth_google.py:97-108 | One pending flow is added and returned, with the codes, address, lifetime and interval of the answer, or the module's default lifetime and five seconds |
| DeviceFlow.DeviceFlows.PollDeviceFlow | backend/app/services/oauth_microsoft.py:106-153 | A poll without overlap, in every branch: complete, foreign, unknown, expired, and each answer of the token server |
| DeviceFlow.AnswerEndsIff | backend/app/services/oauth_microsoft.py:119-153 | An answer leaves a flow pending if and only if it is authorization_pending, slow_down or undecodable; each result comes of exactly its own answers, only a 200 answer with tokens completes the flow, for 600 seconds, and no other flow changes |
| DeviceFlow.PollAnswers | backend/app/services/oauth_microsoft.py:106-117 | In any run, a flow's owner is told that it is complete, expired or unknown, or the poll is sent, each exactly in its case, and only an expired flow is dropped |
| DeviceFlow.StrangersFindNothing | backend/app/services/oauth_microsoft.py:106-164 | In any run, whoever did not start a flow is answered as if there were none, by polls and takes |
| DeviceFlow.DeviceFlows.TakeCompletedTokens | backend/app/services/oauth_microsoft.py:156-164 | A take without overlap purges, then removes and returns the owner's tokens, or none |
| DeviceFlow.RunIsSafe | backend/app/services/oauth_microsoft.py:76-164 | Over every interleaving of purge, start, the two halves of poll and the two halves of take: no flow is pending and completed, everything belongs to who started it, only granted tokens are delivered, and deliveries never exceed the 200 answers |
| DeviceFlow.DeliveredAtMostOnce | backend/app/services/oauth_microsoft.py:106-164 | If no two polls of a flow overlap, it has at most one 200 answer and one delivery |
| DeviceFlow.OverlapDeliversTwice | backend/app/services/oauth_microsoft.py:115-164 | In every world in which two polls of a flow are under way, at whatever clock, a continuation at that clock and without any further poll delivers two more sets of tokens for it |
| DeviceFlow.DeliversTwiceIffOverlap | backend/app/services/oauth_microsoft.py:106-164 | Overlap is the exact condition: after a run without any, one more poll makes two deliveries possible, from any clock on, by a clock that does not go back and without a poll after it, if and only if another poll of the flow is under way when it begins |
| DeviceFlow.PendsIffNeverDropped | backend/app/services/oauth_microsoft.py:76-153 | Over any run a pending flow is pending in the end, and unchanged, if and only if no step drops it: a purge or its owner's poll past its expiry, or an answer that ends it |
| DeviceFlow.FlowStaysPending | backend/app/services/oauth_google.py:89-157 | From a start over any run: if nothing drops the flow, its owner's next poll sends the granted device code up to the expiry and reports it as expired past it; a poll is sent only if nothing has dropped it |
| DeviceFlow.NextPollSends | backend/app/services/oauth_google.py:111-157 | So, over any run whose answers for the flow are pending, slow-down or undecodable and whose clocks are up to its expiry, the owner's next poll sends the same device code and changes nothing |
| DeviceFlow.TokensStayAvailable | backend/app/services/oauth_google.py:140-170 | After a first 200 answer at t and any run of starts, polls, purges and foreign takes, without a second 200 answer for the flow, the owner's first lookup, at a clock that none before it has passed, finds exactly those tokens up to t + 600 and none after |
| DeviceFlow.NoneAfter | backend/app/services/oauth_google.py:149-170 | Past t + 600 nobody's lookup finds tokens of the flow, whatever clocks, purges, takes and deletes came before, as long as there is no second 200 answer |
| DeviceFlow.FirstTakeDelivers | backend/app/services/oauth_google.py:140-170 | From answer to delivery: the owner's first take delivers exactly the granted tokens if and only if they remain between its lookup and its delete, always if nothing comes between; begun past t + 600 it finds nothing |
| DeviceFlow.LookupDeliversIff | backend/app/services/oauth_google.py:166-170 | A take that has looked tokens up delivers them if and only if no purge past their expiry and no delete of another take of the flow comes before its delete, or a later 200 answer refills the flow after the last of these; otherwise it delivers nothing |
| DeviceFlow.StepHolds | backend/app/services/oauth_microsoft.py:76-164 | The steps that take a flow's tokens away are exactly a purge past their expiry and the delete of a take of it; only a 200 answer puts tokens there, and no other step alters them |
| DeviceFlow.TakesFollowAnswers | backend/app/services/oauth_microsoft.py:156-164 | Nothing of a flow is being taken before its first 200 answer |
| DeviceFlow.PollOutlivesTokens | backend/app/services/oauth_microsoft.py:110-113 | A poll answers True for a completed flow whose tokens can no longer be taken |
| Calendar.MonthlyCounts | backend/app/repositories/order_repository.py:34-60 | The method with its dictionary returns a count per month of the window, and fails exactly if the first month is outside the calendar |
| Calendar.EmptyBuckets | backend/app/repositories/order_repository.py:44-47 | The first loop gives each month of the window its own zero, in order |
| Calendar.Bucket | backend/app/repositories/order_repository.py:55-58 | The second loop counts each of the user's orders in its own month and no other |
| Calendar.BucketsAreMonths | backend/app/repositories/order_repository.py:41-60 | The entries are consecutive months ending in the current one, labelled in the order of time, each with the user's orders of that month, and sum to the orders in the window |
| Calendar.LabelsFollowTime | backend/app/repositories/order_repository.py:47 | The string order of the "YYYY-MM" labels is the order of the months |
| Calendar.LabelParts | backend/app/repositories/order_repository.py:47 | A label is the four digits of the year, a hyphen and the two digits of the month |
| Schedule.RunJobs | backend/app/tracking_worker.py:72-91 | The loop starts each job exactly at the ticks of its own schedule, whatever the other one does |
| Schedule.StartsIffSchedule | backend/app/tracking_worker.py:38-41 | A list of ticks is a job's schedule if and only if it begins with the first, each start is an interval behind the one before, and no tick that is due is missed |
| Schedule.GapBounds | backend/app/tracking_worker.py:38-41 | Consecutive starts are at least the interval apart and less than the interval plus the last tick gap |
| Schedule.RunCount | backend/app/tracking_worker.py:72-91 | The i-th start lies between i intervals and i times interval plus largest tick gap after the first |

## Left out

- Amount.GermanRoundTrip: the value is an exact decimal before the conversion to a binary float.
- Amount.EnglishRoundTrip: `float()` is modelled on plain decimal numerals; exponents, signs, underscores and non-ASCII digits are not.
- Tracking.OneShotIff: history is the order in which rows are inserted; the order in which the database returns them later is not modelled.
- Tracking.TrackingSyncService.SyncDueShipments: after an HTTP failure the in-memory `registered` flag is kept; what a later commit of the session does with it is not modelled.
- Tracking.RunIsPointwise: a pass that raises ends the worker process; a run goes on with the next pass, as a restarted worker does.
- Tracking.StatusFollowsHistory: deletion of shipments or events is not modelled.
- DeviceFlow.RunIsSafe: each half of a poll or take is one atomic step; a dictionary that changes between two lookups of the same half, or while purge lists it, is not modelled, and flow ids are assumed never to repeat.
- DeviceFlow.DeviceFlows.StartDeviceFlow: the purge with which the code begins a start, before it asks the authorization server, is a step of its own here.
- DeviceFlow.DeliveredAtMostOnce: the `slow_down` rule of section 3.5 of RFC 8628 is not followed by the code, so nothing is said about the interval between polls.
- Ingestion.EmailIngestionService.SyncAccount: the OAuth refresh before the fetch, IMAP errors and the commit are not modelled; a failed sync is one that did not happen.
- MailRuns.WatermarkNeverPasses: an account keeps its folder; changing the folder does not reset the watermark in the code.
- MailRuns.TablesOverAllRuns: orders and shipments created or edited by hand, and databases that compare strings without case or cut them to a column's width, are not modelled.
- MailRuns.PlaceholderOverRuns: ids generated for messages without a Message-ID can coincide between accounts; they are ids like any others here.
- Schedule.RunJobs: the loop is cut after a finite list of ticks, time differences are exact, and a job that raises something else than it catches ends the worker.
- The merchant parsers and their registry: data tables; any pure detector is allowed.
- Provider response parsing, HTTP, IMAP, SMTP, MQTT and notification channels: only their abstract answers appear.
- FastAPI routes, schemas, authentication, encryption, migrations, the frontend and the Home Assistant integration.
- The other statistics queries of the repositories: simple aggregates.
