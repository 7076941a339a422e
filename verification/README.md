# QuantFabric verification model

QuantFabric is a trading system: strategies and gateways talk through shared-memory rings, orders pass a
pre-trade risk engine, a control plane publishes the policy they are checked against, and ticks become bars,
charts and backtests. This project models its stateful cores in Dafny and proves what they promise over every
input, every run or every interleaving.

| files | what they model |
|---|---|
| `Bits`, `SpscQueue`, `SpscProtocol` | the one-producer one-consumer ring, as an object and as two threads step by step |
| `MpmcQueue`, `MpmcAlone`, `MpmcObject` | the ticketed ring, any number of threads step by step, calls that do not overlap, and as an object used by one thread at a time |
| `ShmProtocol`, `ShmSessions`, `ShmRings`, `ShmObjects` | client/server mode of the shared-memory transport, and that its rings are those rings |
| `ShmProgress`, `ShmDelivery`, `ShmNames` | that handshakes can complete and messages arrive from every reachable state, and the names on the channels |
| `Text`, `TextNumbers`, `PolicyModel`, `PolicyTheory`, `PolicyDocuments`, `RuntimePolicy` | the published policy's text, its reader and the admission checks |
| `PolicyOrders`, `PolicyRecords`, `PolicyOutcomes` | what a line, an order and a whole document must be, said without the reader, and every refusal |
| `PolicyConfig`, `PolicyValidator`, `PolicyIntegrity`, `PolicyAcceptance` | the configuration tables, their printer and validator, and what the validator guarantees |
| `ConfigVersions`, `VersionEdits`, `BusinessService`, `ConfigPublication` | the life of configuration versions, up to acceptance of the published document |
| `RiskModel`, `RiskLedger`, `RiskFlow`, `RiskPending`, `RiskEngine` | the risk engine's books, their laws over runs, and the handlers |
| `RiskReplies`, `RiskAdmission` | what the engine answers in every run, and exactly when it admits |
| `KLineWindow`, `KLine`, `KLineHistory`, `KLineGenerator` | bars of several intervals from ticks, which of them close and which are published |
| `HistoryBars`, `HistoryCuts`, `HistoryFetch` | chart bars from minute rows, and when a bounded fetch is enough for them |
| `Backtest`, `BacktestOrders` | the accounting of a backtest for any signals, and which orders it fills |
| `Numbers`, `Wrappers` | minima, maxima and multiples, options and results |

Threads are state machines at the granularity of single loads, stores, exchanges and copies, in a sequentially
consistent memory. Objects that one thread updates are classes whose methods are proved against specification
functions; the laws are lemmas about those functions. Money and prices are reals, integers and tickets are
unbounded except where the width matters (32-bit fields of the policy text, the order token), map entries read
before being written read as zero or empty. The clock, the moment a silent client times out, the signals of the
strategy and the rows of the database are parameters.

Some promises hold only under a condition. The condition is then proved exact, and an input is given that fails:

- A multi-producer push can be refused although the ring is not full, and a pop although it is not empty:
  `MpmcQueue.PushRefusedIff` and `MpmcQueue.PopRefusedIff` say exactly when, `MpmcAlone.RefusedWhileEmpty` is a run
  in which the ring is even empty.
- A handshake can complete from every reachable state exactly when the rings have at least two slots
  (`ShmProgress.EveryHandshakeCanComplete`, `ShmProgress.OneSlotNeverConnects`). A running client that is disconnected
  stays so (`ShmProgress.CutOffForGood`): it sends no second CLIENT_ACK.
- The validator's silence does not make the core accept the document: `PolicyAcceptance.SilentVersionAcceptedIff`
  names the three missing conditions; `SharedExchangeRefused`, `OddStatusRefused` and `NoAllowedMarketRefused` are
  silent versions that break one each, which requests can publish (`ConfigPublication.SharedExchangePublished`,
  `OddStatusPublished`, `NoAllowedMarketPublished`). The markets a product is granted are those that were checked exactly when no
  name has outer blanks (`PolicyAcceptance.GrantedAreCheckedIff`).
- A terminal report under another ticker strands reserved volume (`RiskLedger.ReleaseKeepsIff`, with the run
  `RiskLedger.WrongTickerStrandsVolume`), frees stock that is still committed (the run
  `RiskLedger.WrongTickerOversells`) and, for a pending order, a list entry (`RiskPending.TrackKeepsIff`, with the
  run `RiskPending.WrongTickerBreaksIndexes`).
- A clock that makes windows due at the start of a window loses ticks there: one-second bars with one slice a second
  or more than a thousand, and without slices a snapshot interval that is a multiple of the bar's (`KLine.DroppedIff`,
  with the run `KLine.SecondTickIsLost` for every such clock). Closed bars start an interval apart unless a window is due
  before its last second (`KLine.ClosedStartsIncrease`, with `KLine.WindowReopens` otherwise). Turnover that comes before
  the first volume of a bar is overwritten (`KLine.TurnoverKeptIff`, with `KLine.TurnoverCanBeLost`).
- A backtest never trades a negative volume exactly when no buy is filled while the account owes the price of a lot
  (`Backtest.VolumesPositiveIff`); commissions can bring that about (`Backtest.BuyCanOpenShort`), and without them it
  cannot happen (`Backtest.FreeBuysStayLong`).
- A chart from a bounded fetch is whole exactly when the rows of its bars number at most the fetch
  (`HistoryFetch.ChartIsWholeIff`). Intraday charts always are; for a daily chart of `limit` bars with at most K rows a
  day, `limit * K <= 240 * (limit + 1)` suffices (`HistoryFetch.DailyFits`), and days that are all longer lose rows
  (`HistoryFetch.OverlongDayIsCut`, with `HistoryFetch.OneLongDay`).

Assumptions the results state: orders carry no negative price or volume (the policy check refuses them), market
codes and fields carry no colon, tab or newline (the request schema's patterns are unanchored and do not enforce
it), and intervals are positive and divide a day.

## Model

| member | source | states |
|---|---|---|
| Bits.AndMask | SHMServer/SPSCQueue.hpp:71 | masking with N - 1 is arithmetic modulo N for powers of two |
| Bits.GuardIffPowerOfTwo | SHMServer/SPSCQueue.hpp:54 | the compile-time guard accepts exactly the powers of two |
| SpscQueue.Ring.constructor | SHMServer/SPSCQueue.hpp:54-59 | a guarded size gives an empty ring |
| SpscQueue.Ring.Reset | SHMServer/SPSCQueue.hpp:61-66 | empties the ring and zeroes every slot |
| SpscQueue.Ring.Push | SHMServer/SPSCQueue.hpp:68-82 | appends, and refuses exactly when N - 1 elements wait |
| SpscQueue.Ring.Pop | SHMServer/SPSCQueue.hpp:100-112 | takes the oldest element, and fails exactly when there is none |
| SpscProtocol.StepRefinesFifo | SHMServer/SPSCQueue.hpp:68-112 | each load, copy or store of either thread is a step of a FIFO of capacity N - 1 |
| SpscProtocol.InvNoRace | SHMServer/SPSCQueue.hpp:78-109 | the slot being copied in is never the slot being copied out |
| SpscProtocol.EveryScheduleIsAFifo | SHMServer/SPSCQueue.hpp:61-112 | under every interleaving the callers see a bounded FIFO and nothing popped is torn |
| MpmcQueue.StepKeepsInv | SHMServer/MPMCQueue.hpp:89-127 | one step of any thread keeps the ticket protocol and never rewrites history |
| MpmcQueue.InvExclusive | SHMServer/MPMCQueue.hpp:104-127 | two threads inside the ring never own the same slot |
| MpmcQueue.EveryScheduleIsSafe | SHMServer/MPMCQueue.hpp:55-127 | for any threads and interleaving, tickets are won once, at most N are outstanding, and pop h returns the value of push h |
| MpmcQueue.SchedulesExtend | SHMServer/MPMCQueue.hpp:89-127 | continuing a schedule keeps every ticket's winner and every finished pop |
| MpmcQueue.PushRefusedIff | SHMServer/MPMCQueue.hpp:92-99 | a push is refused exactly when its ticket has been popped by others or the pop one lap back is unfinished |
| MpmcQueue.PopRefusedIff | SHMServer/MPMCQueue.hpp:112-119 | in every run a pop is refused exactly when the push of its ticket is unpublished or the push one lap on is published, which takes another thread's pop of the ticket |
| MpmcAlone.RefusedWhileEmpty | SHMServer/MPMCQueue.hpp:92-99 | three threads by which a push is refused by an empty ring |
| MpmcAlone.PushAloneFifo | SHMServer/MPMCQueue.hpp:89-107 | with nobody inside a call, a push is refused exactly when N elements wait |
| MpmcAlone.PopAloneFifo | SHMServer/MPMCQueue.hpp:109-127 | with nobody inside a call, a pop takes the oldest element or finds none |
| MpmcObject.Queue.constructor | SHMServer/MPMCQueue.hpp:54-67 | a guarded size gives an empty ring |
| MpmcObject.Queue.Size | SHMServer/MPMCQueue.hpp:82-87 | the number of elements waiting |
| MpmcObject.Queue.Push | SHMServer/MPMCQueue.hpp:89-107 | appends, and refuses exactly when N elements wait, however often the weak exchange fails |
| MpmcObject.Queue.Pop | SHMServer/MPMCQueue.hpp:109-127 | takes the oldest element, and fails exactly when there is none |
| ShmSessions.StepKeepsInv | SHMServer/SHMServer.hpp:80-101 | every client, server and user step keeps the handshake order, the routing and the account of every message |
| ShmSessions.EveryRunDeliversInOrder | SHMServer/SHMServer.hpp:196-265 | per channel and direction, what is popped is an ordered subsequence of what was pushed for that channel; the rest is in flight or recorded as lost |
| ShmSessions.EveryRunKeepsSessions | SHMServer/SHMConnection.hpp:72-193 | clients never share a channel, connected means the client has sent CLIENT_ACK, and the reused message stays DATA under the client's own number; that connections come about is `ShmProgress.EveryHandshakeCanComplete` |
| ShmSessions.LossHasCause | SHMServer/SHMConnection.hpp:165-193 | a message is lost only in a step that finds the next ring full or the channel unconnected |
| ShmProgress.EveryHandshakeCanComplete | SHMServer/SHMConnection.hpp:72-114 | with rings of at least two slots, from every reachable state in which a client waits to be connected there are steps, none of them a timeout, after which it runs and its channel is connected |
| ShmProgress.OneSlotNeverConnects | SHMServer/SHMServer.hpp:211-227 | with rings of one slot, which hold nothing, no run connects a channel |
| ShmProgress.TimeoutDisconnects | SHMServer/SHMServer.hpp:233-238 | a timeout disconnects the channel just polled and no other |
| ShmProgress.CutOffForGood | SHMServer/SHMServer.hpp:222-238 | a running client that is disconnected, with no CLIENT_ACK under way, is connected in no continuation |
| ShmDelivery.EveryPushCanArrive | SHMServer/SHMConnection.hpp:165-193 | in every reachable state what a running client pushes into its outbox can be handed out to the server's user, unchanged and under the client's channel number |
| ShmDelivery.EveryServerPushCanArrive | SHMServer/SHMServer.hpp:239-266 | in every reachable state what the server's user pushes for a connected client can be handed out to that client's user, unchanged |
| ShmNames.EveryNameIsAsked | SHMServer/SHMConnection.hpp:27-28 | in every run a channel that is not free is under the whole name of a started client or, when that is longer, its first 31 characters |
| ShmRings.AnswersAreForced | SHMServer/SPSCQueue.hpp:68-112 | a FIFO holding what the ring holds may answer a push or a pop only as the protocol's rings do |
| ShmRings.EveryStepIsFifo | SHMServer/SHMServer.hpp:193-269 | each step of client, server or user is at most one FIFO operation on each ring, and claiming a channel clears none |
| ShmRings.OneProducerOneConsumer | SHMServer/SHMConnection.hpp:352-374 | each ring is pushed to by one side and popped from by the other |
| ShmRings.EveryRingIsAFifo | SHMServer/SHMServer.hpp:24-29 | in every run the operations on a ring are a FIFO history of capacity N - 1, the kind every schedule of the ring's two threads is |
| ShmRings.EveryClientQueueIsAFifo | SHMServer/SHMConnection.hpp:30-31 | the same of the queues between a client's user and its handler |
| ShmObjects.Connect | SHMServer/SHMConnection.hpp:253-281 | finds the first channel that is free or already the client's |
| ShmObjects.Connection.HandleMsg | SHMServer/SHMConnection.hpp:165-202 | one call is one round of the protocol's handler steps |
| ShmObjects.Poller.constructor | SHMServer/SHMServer.hpp:272-321 | starts in the protocol's initial state |
| ShmObjects.Poller.Receive | SHMServer/SHMServer.hpp:198-232 | taking and acting on one message is a run of the protocol's poll steps |
| ShmObjects.Poller.TimeOut | SHMServer/SHMServer.hpp:233-238 | dropping a silent channel is a poll step |
| ShmObjects.Poller.Forward | SHMServer/SHMServer.hpp:241-266 | sending one queued message is a run of poll steps |
| ShmObjects.Poller.PollMsg | SHMServer/SHMServer.hpp:193-269 | one call is a run of poll steps from the first channel back to it |
| Text.Split | XServer/RuntimePolicy.cpp:25-40 | cuts a string into the pieces between delimiters |
| Text.FieldsOfJoin | XServer/RuntimePolicy.cpp:25-40 | cutting what was joined gives the fields back |
| Text.JoinOfFields | XServer/RuntimePolicy.cpp:25-40 | joining what was cut gives the string back, and no piece holds the delimiter |
| Text.ParseIntText | XServer/RuntimePolicy.cpp:57-73 | a printed integer is read back exactly when it fits 32 bits |
| Text.ParseTickText | XServer/RuntimePolicy.cpp:75-85 | a printed price tick of up to eighteen digits is in the double's range and read back as the same number |
| TextNumbers.ParseIntIff | XServer/RuntimePolicy.cpp:57-73 | a string reads as an integer exactly when it is blanks, a sign or none, and that integer's digits, within 32 bits |
| TextNumbers.ParseDoubleIff | XServer/RuntimePolicy.cpp:75-85 | a string reads as a double exactly when it is blanks, a sign or none, and a decimal or hexadecimal number, with or without exponent, in the range of doubles |
| PolicyOutcomes.LinesAre | XServer/RuntimePolicy.cpp:108-128 | the lines of a document, joined, are the document but for a newline at its end |
| PolicyTheory.AddAllIff | XServer/RuntimePolicy.cpp:126-220 | records are entered exactly when their keys are distinct, and the maps then hold exactly them |
| PolicyTheory.AddLinksIff | XServer/RuntimePolicy.cpp:222-249 | links are accepted exactly when each is sound on its own, and grant exactly the product markets in force |
| PolicyTheory.InterpretIff | XServer/RuntimePolicy.cpp:126-266 | a document's records are accepted exactly under distinct keys, sound links and listed markets |
| PolicyTheory.OrderIsIrrelevant | XServer/RuntimePolicy.cpp:126-266 | with distinct product codes, reordering the records changes neither acceptance nor the policy |
| PolicyTheory.SecurityKeyInjective | XServer/RuntimePolicy.cpp:393-396 | colon-free market codes make security keys unambiguous |
| PolicyTheory.CanSubscribeIff | XServer/RuntimePolicy.cpp:268-283 | admitted exactly when the records hold an enabled market and an unsuspended security of it |
| PolicyTheory.CanOrderIff | XServer/RuntimePolicy.cpp:285-336 | an order is admitted exactly when the records hold an open market and security, an active account and a link for it, and direction, lots, limits and tick fit the security, said without the code of the checks |
| PolicyTheory.CanCancelIff | XServer/RuntimePolicy.cpp:338-373 | a cancel is admitted exactly when account, link, market and security records allow it |
| PolicyOrders.OrderFitsIff | XServer/RuntimePolicy.cpp:311-334 | direction, quantity and price pass exactly for a side that is open, a positive number of that side's lots between the limits, and a positive price within 1e-7 of a multiple of the tick |
| PolicyRecords.ReadRecordIff | XServer/RuntimePolicy.cpp:136-219 | a line is read as a record exactly when its fields say that record, column by column, and the record is valid |
| PolicyRecords.FirstBadLine | XServer/RuntimePolicy.cpp:128-219 | the line refused is the first bad one, named by its kind and its number |
| PolicyRecords.AcceptedIff | XServer/RuntimePolicy.cpp:126-266 | records are accepted exactly when keys are distinct, every link's three records are among them and agree, and every security's market is |
| PolicyRecords.OrderRefusal | XServer/RuntimePolicy.cpp:285-336 | after any accepted document an order is refused for the first objection its records make, in this order: market, security, account, product, market of the product, direction, lots, tick |
| PolicyRecords.CancelRefusal | XServer/RuntimePolicy.cpp:338-373 | after any accepted document a cancel is refused for the first objection its records make |
| PolicyOutcomes.DocumentOutcome | XServer/RuntimePolicy.cpp:103-266 | every document is refused for the first thing wrong with it, head, line, link or security, and otherwise accepted under its version |
| PolicyOutcomes.FirstGrantWins | XServer/RuntimePolicy.cpp:222-249 | of several links in force that give an account products of one code, the first one's markets are kept |
| PolicyDocuments.DocumentMeans | XServer/RuntimePolicy.cpp:103-266 | a document is accepted exactly under a sound head, readable lines and acceptable records, and means the policy of those records |
| PolicyDocuments.DocumentAdmits | XServer/RuntimePolicy.cpp:285-373 | after any accepted document orders and cancels are admitted exactly as its records say |
| PolicyDocuments.DocumentOrderIsIrrelevant | XServer/RuntimePolicy.cpp:126-266 | documents with the same records in any order mean the same |
| RuntimePolicy.ReadBody | XServer/RuntimePolicy.cpp:126-220 | reads the record lines up to the first bad one |
| RuntimePolicy.ResolveLinks | XServer/RuntimePolicy.cpp:222-249 | resolves the links up to the first unsound one |
| RuntimePolicy.CheckSecurities | XServer/RuntimePolicy.cpp:251-261 | tells whether every security's market is listed |
| RuntimePolicy.Runtime.Parse | XServer/RuntimePolicy.cpp:103-266 | replaces the policy by what the document means, or keeps it and names the first error |
| PolicyConfig.PrintPolicy | BusinessAdminService/service.py:203-244 | prints the head and one line a row |
| PolicyConfig.ReadRow | BusinessAdminService/service.py:214-243 | a printed row is read back as its record, or refused exactly when its status or quantities are unreadable |
| PolicyConfig.RenderThenParse | BusinessAdminService/service.py:203-244 | printing then parsing rebuilds exactly the records, and fails exactly when a row is unreadable or the records are unacceptable |
| PolicyValidator.CheckLinks | BusinessAdminService/service.py:555-586 | lists the link issues in order and the projects with a default link |
| PolicyValidator.ValidationIssues | BusinessAdminService/service.py:524-613 | lists exactly the issues of all passes, in order |
| PolicyValidator.IssuesToEmpty | BusinessAdminService/service.py:539-612 | a pass is silent exactly when each of its rows is |
| PolicyIntegrity.SilentIff | BusinessAdminService/service.py:524-613 | there are no issues exactly when a market is enabled and products, projects, accounts, links, defaults, securities and futures all fit one another |
| PolicyIntegrity.EveryIssueIsTrue | BusinessAdminService/service.py:524-613 | every issue is true: no market is enabled, or the row it names has the problem it states |
| PolicyIntegrity.StripCuts | BusinessAdminService/service.py:543 | a name is checked without its outer blanks, and with all else it holds |
| PolicyAcceptance.SoundLink | BusinessAdminService/service.py:557-579 | silence means a link's project, product and account exist and agree with it |
| PolicyAcceptance.KeysDistinctIff | BusinessAdminService/service.py:212-243 | under the table constraints the printed keys are distinct exactly when exchange codes are |
| PolicyAcceptance.SilentVersionAcceptedIff | BusinessAdminService/service.py:524-613 | a version without issues is accepted exactly under distinct exchange codes, statuses 0 or 1, and a market for every product in force |
| PolicyAcceptance.SharedExchangeRefused | BusinessAdminService/service.py:538-541 | two markets with one exchange code raise no issue and no document of them is accepted |
| PolicyAcceptance.OddStatusRefused | BusinessAdminService/service.py:551-554 | an account with status 2 raises no issue and no document of it is accepted |
| PolicyAcceptance.NoAllowedMarketRefused | BusinessAdminService/service.py:566-590 | a default link to an active product without markets raises no issue and no document of it is accepted |
| PolicyAcceptance.GrantedAreCheckedIff | BusinessAdminService/service.py:542-546 | the markets granted are the markets checked exactly when no name has outer blanks |
| PolicyAcceptance.SilentProductMarkets | BusinessAdminService/service.py:542-546 | silence means every market checked for a product exists, and every one granted when no name has outer blanks |
| ConfigVersions.PutMeans | BusinessAdminService/service.py:401-411 | an upsert displaces exactly the row with its key |
| ConfigVersions.DeleteMeans | BusinessAdminService/service.py:421-427 | a delete takes out exactly the row with that key |
| VersionEdits.UpsertMeans | BusinessAdminService/service.py:392-415 | an upsert goes through exactly for a draft, a readable payload that agrees with its key, and a code no other product has; it displaces exactly the row with the key, of whatever kind, in that version only |
| VersionEdits.DeletionMeans | BusinessAdminService/service.py:417-429 | a delete goes through exactly for a draft with such a row, and takes out that row only |
| VersionEdits.ReplacementMeans | BusinessAdminService/service.py:431-461 | replacing securities goes through exactly for a draft and distinct pairs, and changes the securities of that version only |
| VersionEdits.CreationMeans | BusinessAdminService/service.py:344-372 | a new draft copies the published or retired version asked for or, with none asked for, the published one, and is empty when there is none |
| VersionEdits.ValidationMeans | BusinessAdminService/service.py:463-474 | validation validates exactly the drafts without issues and changes nothing else |
| VersionEdits.PublicationMeans | BusinessAdminService/service.py:663-679 | publishing goes through exactly for validated versions; the version is then the only published one and the one before it retired |
| VersionEdits.QuickPublicationMeans | BusinessAdminService/service.py:476-522 | quick publication retires the published version and publishes a copy in which the security named, and nothing else, has the buy permission asked for |
| VersionEdits.KeyedIff | BusinessAdminService/database.py:61-180 | a configuration meets the unique constraints exactly when no two rows of a table share their identifying columns and no two products their code |
| ConfigVersions.StepKeepsInv | BusinessAdminService/service.py:330-522 | every operation keeps one published version, checked non-drafts and unique keys, and freezes what is no draft |
| ConfigVersions.EveryRunKeepsInv | BusinessAdminService/service.py:330-522 | in every run with rollbacks at most one version is published and none past draft has issues |
| ConfigVersions.ContentNeverChanges | BusinessAdminService/service.py:330-334 | whatever follows, a version past its draft keeps its content and its status only moves on |
| ConfigVersions.BuyAllowedUnchecked | BusinessAdminService/service.py:476-503 | changing one buy permission changes no validation issue |
| ConfigVersions.QuickPublishSucceeds | BusinessAdminService/service.py:476-522 | quick publish of a published security always succeeds and differs in that one permission |
| BusinessService.Service.CreateVersion | BusinessAdminService/service.py:344-364 | copies a published or retired version, the current one by default, as the next draft |
| BusinessService.Service.UpsertResource | BusinessAdminService/service.py:392-415 | edits a draft only, or fails for the first reason and changes nothing |
| BusinessService.Service.DeleteResource | BusinessAdminService/service.py:417-429 | deletes from a draft only |
| BusinessService.Service.ReplaceSecurities | BusinessAdminService/service.py:431-461 | replaces a draft's securities as a whole, unless the input repeats a key |
| BusinessService.Service.ValidateVersion | BusinessAdminService/service.py:463-474 | reports the issues and validates a clean draft |
| BusinessService.Service.RetirePublished | BusinessAdminService/service.py:672-674 | retires every published version and touches no other |
| BusinessService.Service.PublishVersion | BusinessAdminService/service.py:663-679 | publishes a validated version that still has no issues, in place of the current one |
| BusinessService.Service.PublishSecurityBuyAllowed | BusinessAdminService/service.py:476-522 | copies, changes, validates and publishes, or leaves the store as it was |
| ConfigPublication.SharedExchangePublished | BusinessAdminService/service.py:538-541 | requests that publish two markets with one exchange code, whose document is refused |
| ConfigPublication.OddStatusPublished | BusinessAdminService/service.py:551-554 | requests that publish an account with status 2, whose document is refused |
| ConfigPublication.NoAllowedMarketPublished | BusinessAdminService/service.py:566-590 | requests that publish a default link to an active product without markets, whose document is refused |
| BusinessService.Service.Request | BusinessAdminService/service.py:651-732 | whatever the requests so far, the store is their outcome, one version at most is published, those past draft are clean and frozen |
| ConfigPublication.RowOrderIsIrrelevant | BusinessAdminService/service.py:212-243 | the order in which rows are printed makes no difference to the core |
| ConfigPublication.EveryCheckedVersionAcceptedIff | BusinessAdminService/service.py:203-244 | in every run of the control plane a checked version prints to an accepted document exactly under the three conditions |
| RiskLedger.TokenKeyInjective | XRiskJudge/RiskEngine.cpp:544-547 | account and 32-bit token are determined by the reservation key |
| RiskLedger.ReserveKeeps | XRiskJudge/RiskEngine.cpp:580-639 | an admitted order keeps the reserved totals equal to the sums over live orders |
| RiskLedger.ReleaseKeepsIff | XRiskJudge/RiskEngine.cpp:549-578 | a report keeps them exactly when the end of a live sell names the sell's ticker |
| RiskLedger.ClampsAreIdle | XRiskJudge/RiskEngine.cpp:566-576 | the clamps to zero never change a value |
| RiskLedger.WrongTickerStrandsVolume | XRiskJudge/RiskEngine.cpp:571-577 | a run: an admitted sell ended under another ticker leaves its volume reserved with no order behind it, and the next sell is refused |
| RiskLedger.WrongTickerOversells | XRiskJudge/RiskEngine.cpp:571-577 | a run: a sell ended under another ticker frees that ticker's stock, and the next sell is admitted beyond what may be sold |
| RiskLedger.EveryRunBalances | XRiskJudge/RiskEngine.cpp:549-639 | in every proper run reserved cash and volume are the sums over the live reservations |
| RiskLedger.StepKeepsCover | XRiskJudge/RiskEngine.cpp:353-391 | every step but a new snapshot keeps live orders within cash and sellable stock |
| RiskLedger.CoverLastsBetweenSnapshots | XRiskJudge/RiskEngine.cpp:592-638 | what was covered at one snapshot stays covered until the next |
| RiskReplies.EveryOrderIsAnswered | XRiskJudge/RiskEngine.cpp:325-434 | in every run each order to be checked gets exactly one reply, passed exactly when it is admitted, else with an error and a risk event before it |
| RiskReplies.OtherOrdersChangeNothing | XRiskJudge/RiskEngine.cpp:325-340 | an order not yet sent for checking is answered with error -1, any other is not answered, and neither changes the books |
| RiskReplies.PassedIsHeld | XRiskJudge/RiskEngine.cpp:580-639 | an order with a token that is passed is held afterwards with its amount and volume; one that is refused leaves all holds as they were |
| RiskReplies.EveryCancelIsAnswered | XRiskJudge/RiskEngine.cpp:341-434 | in every run each cancel to be checked gets exactly one reply, passed exactly when flow and both cancel counters allow it, else with the code of the limit it breaks |
| RiskAdmission.PassesIff | XRiskJudge/RiskEngine.cpp:477-526 | in every run a request is within the flow limit exactly when the requests since the opening of its window, itself included, number at most the limit |
| RiskAdmission.LockedIff | XRiskJudge/RiskEngine.cpp:641-708 | an order is locked out exactly by a lock on its account that covers everything, or its side and its ticker |
| RiskAdmission.CrossesIff | XRiskJudge/RiskEngine.cpp:710-762 | a resting order crosses exactly when it takes the other side at a price the new one meets |
| RiskAdmission.PairKeyInjective | XRiskJudge/RiskEngine.cpp:535-542 | colon-free accounts and their tickers have positions of their own |
| RiskAdmission.CapacityIs | XRiskJudge/RiskEngine.cpp:580-639 | an order fits exactly when the last snapshot covers it beside the orders still live |
| RiskAdmission.AdmittedIff | XRiskJudge/RiskEngine.cpp:346-434 | in every proper run an order is admitted exactly when flow, locks, pending orders, its token and the snapshots allow it; a refused one is answered with the code of the first that does not |
| RiskAdmission.ReportByStage | XRiskJudge/RiskEngine.cpp:192-263 | a working order is pending and keeps its hold, an ended one neither, and one in any other state keeps its hold but is no longer pending |
| RiskAdmission.CountsIff | XRiskJudge/RiskEngine.cpp:264-310 | the cancelled counter counts limit orders that ended cancelled, in part or whole, or refused by the exchange |
| RiskFlow.RequestKeepsBound | XRiskJudge/RiskEngine.cpp:490-500 | one request keeps the bound of every second |
| RiskFlow.EverySecondIsBounded | XRiskJudge/RiskEngine.cpp:477-500 | at most the limit passes in a window and at most twice the limit in any 1000 ms of any run |
| RiskPending.PendingIffLatestIsLive | XRiskJudge/RiskEngine.cpp:196-263 | an order is pending exactly when its latest report is live |
| RiskPending.TrackKeepsIff | XRiskJudge/RiskEngine.cpp:196-263 | the two indexes stay in agreement exactly when orders end under their ticker |
| RiskPending.WrongTickerBreaksIndexes | XRiskJudge/RiskEngine.cpp:218-246 | a run: an order that ends under another ticker stays in the first ticker's list though it is no longer pending |
| RiskPending.EveryRunAgrees | XRiskJudge/RiskEngine.cpp:192-263 | with one ticker an order, pending orders and ticker lists match one to one in every run |
| RiskPending.AdmittedCrossesNothing | XRiskJudge/RiskEngine.cpp:710-762 | an admitted order could trade against no pending order of its ticker |
| RiskPending.CancelsAreLimited | XRiskJudge/RiskEngine.cpp:764-818 | cancel counters exist for pending orders only, and no more cancels pass than the limit while an order is pending |
| RiskPending.TickerCancelsAreCounted | XRiskJudge/RiskEngine.cpp:264-310 | the ticker counter is the number of limit orders that ended cancelled |
| RiskPending.PassedCancelIsWithinTickerLimit | XRiskJudge/RiskEngine.cpp:770-797 | a cancel of a pending order passes only below the ticker's limit |
| RiskEngine.Engine.FlowLimited | XRiskJudge/RiskEngine.cpp:477-526 | counts the request in its window and tells whether it is within the limit |
| RiskEngine.Engine.SelfMatched | XRiskJudge/RiskEngine.cpp:710-762 | tells whether no resting order could trade against this one |
| RiskEngine.Engine.CancelLimited | XRiskJudge/RiskEngine.cpp:764-818 | counts the cancel and gives the limit it breaks |
| RiskEngine.Engine.AccountCapacity | XRiskJudge/RiskEngine.cpp:580-639 | refuses for the first reason, or reserves |
| RiskEngine.Engine.ReleaseOrderReservation | XRiskJudge/RiskEngine.cpp:549-578 | gives back what an ended order holds |
| RiskEngine.Engine.UpdatePendingOrders | XRiskJudge/RiskEngine.cpp:196-263 | files a live order once, and removes it on any other status |
| RiskEngine.Engine.HandleOrderStatus | XRiskJudge/RiskEngine.cpp:192-323 | releases, files and counts, as the books' report step |
| RiskEngine.Engine.CheckOrder | XRiskJudge/RiskEngine.cpp:346-379 | runs the checks in order up to the first error, reserving only when there is none |
| RiskEngine.Engine.HandleOrderRequest | XRiskJudge/RiskEngine.cpp:325-434 | the check and the reply of the books' order step, whose meaning over runs is `RiskReplies.EveryOrderIsAnswered` and `RiskAdmission.AdmittedIff` |
| RiskEngine.Engine.HandleActionRequest | XRiskJudge/RiskEngine.cpp:341-434 | checks a cancel and replies once |
| RiskEngine.Engine.HandleRequest | XRiskJudge/RiskEngine.cpp:131-162 | the books stay those of the run of all messages handled; replies are the step's, and an event log is passed on |
| RiskEngine.Engine.KeepsLaws | XRiskJudge/RiskEngine.cpp:131-162 | the engine's own books balance, agree and bound every second, under the conditions of the run laws |
| KLineWindow.InItsWindow | XQuant/KLineGenerator.hpp:219-243 | a timestamp lies in the aligned window that starts at its window start |
| KLineWindow.LastSlice | XQuant/KLineGenerator.hpp:68-71 | the last slice falls in the window's last second, and on its start only for one-second bars without later slices |
| KLineWindow.DueAlignedIff | XQuant/KLineGenerator.hpp:68-75 | a window is due at the start of a window exactly for one-second bars without later slices or, without slices, a snapshot interval the bar's interval divides |
| KLineHistory.DueTime | XQuant/KLineGenerator.hpp:68-75 | with slices a window is due at the latest of all its slices, with none at the snapshot interval before its end |
| KLine.AbsorbDescribes | XQuant/KLineGenerator.hpp:82-99 | a tick keeps the bar a summary of its ticks |
| KLine.DroppedIff | XQuant/KLineGenerator.hpp:79-163 | a tick is lost exactly when its window starts as the current bar is due, for such clocks only |
| KLine.SecondTickIsLost | XQuant/KLineGenerator.hpp:79-163 | for every such clock and interval a run of two ticks whose bars hold the first only |
| KLine.EveryTickInOneBar | XQuant/KLineGenerator.hpp:62-204 | the ticks of closed bars and the current one are the run's ticks, in order, each once |
| KLine.VolumeIsConserved | XQuant/KLineGenerator.hpp:62-204 | published plus discarded plus current volume is the sum of the positive volume changes |
| KLine.ClosedStartsIncrease | XQuant/KLineGenerator.hpp:79-201 | closed bars start at least one interval apart, whatever order ticks arrive in, if no window is due before its last second |
| KLine.WindowReopens | XQuant/KLineGenerator.hpp:169-201 | otherwise, for every window, a run that closes it twice |
| KLine.ClosedBarsAreSound | XQuant/KLineGenerator.hpp:82-107 | a closed bar with volume has the first, last, highest and lowest price since volume first grew |
| KLine.TurnoverKeptIff | XQuant/KLineGenerator.hpp:82-99 | a bar keeps all turnover exactly when there was none before volume first grew |
| KLine.TurnoverCanBeLost | XQuant/KLineGenerator.hpp:91-99 | two ticks whose turnover the bar does not hold |
| KLineHistory.StepCloses | XQuant/KLineGenerator.hpp:79-201 | a tick or forced close closes the current bar exactly when it is due, and publishes it exactly when forced or within the section |
| KLineHistory.EveryRunPublishes | XQuant/KLineGenerator.hpp:62-204 | in every run the bars closed are those that were due, in order, each published exactly when closed by force or by a tick from the 59th second of the section's start up to that of its end |
| KLineHistory.InsideNothingIsDiscarded | XQuant/KLineGenerator.hpp:103-107 | with every tick within the section all closed bars are published, and published plus current volume is the whole |
| KLineHistory.OutsideOnlyForcedArePublished | XQuant/KLineGenerator.hpp:146-151 | with every tick outside the section the bars published are exactly those closed by force |
| KLineHistory.InsideVolumeIsTheReading | XQuant/KLineGenerator.hpp:77-78 | with ticks in the section and a cumulative volume that never falls, published and current volume make up its last reading |
| KLineHistory.EveryTickLandsOnTime | XQuant/KLineGenerator.hpp:79-163 | with operations in time order every tick is in the bar of its window, or in the next one when its window closed within its last second |
| KLineGenerator.FedMeans | XQuant/KLineGenerator.hpp:65-163 | each interval gets the tick once for each time it is listed |
| KLineGenerator.ForcedMeans | XQuant/KLineGenerator.hpp:171-201 | each interval gets one forced close for each time it is listed, at the call's time or up to a second later for each bar closed before |
| KLineGenerator.Generator.constructor | XQuant/KLineGenerator.hpp:42-54 | one empty bar and history an interval, repeated or not, with or without slices |
| KLineGenerator.Generator.ProcessTick | XQuant/KLineGenerator.hpp:62-167 | feeds every listed interval the same tick with the changes since the last, each keeping the bar and the published history of its run, which `KLineHistory.EveryRunPublishes` describes |
| KLineGenerator.Generator.CloseKLine | XQuant/KLineGenerator.hpp:169-204 | closes what is due, the clock moving one second for each earlier interval closed |
| HistoryBars.AggregateBars | HistoryDataService/service.py:367-390 | the dictionary loop gives the last bars of the grouping, which `HistoryCuts.BarsAreTheCuts` and `HistoryBars.BarsSummarise` describe |
| HistoryCuts.CutIsMultiple | HistoryDataService/service.py:344-349 | for every interval offered a row's bar starts at the greatest multiple of the bar's length not after it |
| HistoryCuts.SameBarIff | HistoryDataService/service.py:344-349 | two rows share a bar exactly when they are of one day or, intraday, of one interval of minutes |
| HistoryCuts.BarsAreTheCuts | HistoryDataService/service.py:367-390 | every row lies in the span of exactly one bar, and every bar's span holds a row |
| HistoryCuts.OneCutOneBar | HistoryDataService/service.py:367-390 | rows of one day or one interval make one bar |
| HistoryCuts.ChartIsGivenIff | HistoryDataService/service.py:437-461 | a chart is refused exactly for an interval not offered or when one bar more than asked for needs more rows than may be fetched |
| HistoryBars.BarsSummarise | HistoryDataService/service.py:370-389 | each bar has first open, last close, extremes and sums of exactly its bucket's rows |
| HistoryFetch.ChartIsWholeIff | HistoryDataService/service.py:437-483 | for any table, interval, limit and fetch, no bar of the chart misses a row exactly when the chart's rows number at most the fetch |
| HistoryFetch.FewRowsABar | HistoryDataService/service.py:344-349 | with one row a minute a bar has at most as many rows as minutes |
| HistoryFetch.DailyFits | HistoryDataService/service.py:354-357 | with at most K rows a day the fetch is enough when limit times K is at most 240 times limit plus one |
| HistoryFetch.BoundedFetchIsEnough | HistoryDataService/service.py:352-359 | the bounded fetch gives the bars of the whole table, intraday always, daily whenever the chart's rows fit it |
| HistoryFetch.AnswersAreWhole | HistoryDataService/service.py:437-483 | every bar of an answer summarises all the table's rows of its bucket, under the same condition |
| HistoryFetch.OverlongDayIsCut | HistoryDataService/service.py:354-357 | when every day shown has so many rows that they exceed the fetch, some bar misses rows, for any limit |
| HistoryFetch.OneLongDay | HistoryDataService/service.py:354-357 | a day of more than 480 rows of volume one gives a bar of volume 480 |
| Backtest.SettledBooks | BacktestService/engine.py:156-215 | for any signals trades pair up, cash is capital plus sell profits less buy commissions, totals are the trades', and nothing stays open |
| BacktestOrders.FillsFollowSignals | BacktestService/engine.py:162-201 | in every run each bar fills at its open what the signal of the bar before asks for: a buy with nothing held, of whole lots, a sell of all that is held, and nothing else; buys pay slippage and commission, sells pay both and stamp duty |
| BacktestOrders.RestIsSoldAtTheClose | BacktestService/engine.py:204-213 | what is held after the last bar is sold at its close less slippage, and nothing else is traded |
| BacktestOrders.RoundTripCosts | BacktestService/engine.py:164-180 | buying and selling again at one market price costs exactly slippage and commission both ways and stamp duty on the sell |
| BacktestOrders.LotsAreTheMost | BacktestService/engine.py:167 | a buy is of as many whole lots as the cash pays for |
| BacktestOrders.EquityIsMarked | BacktestService/engine.py:202 | every equity value is the cash after its bar and the position at its close |
| BacktestOrders.WinsAreCounted | BacktestService/engine.py:220-221 | the wins are the number of sells with a profit |
| Backtest.BuyLeaves | BacktestService/engine.py:165-171 | a buy from cash that is not negative leaves at least minus rate times that cash |
| Backtest.LotsNegativeIff | BacktestService/engine.py:164-167 | the volume of a buy is negative exactly when the account owes at least the price of one lot |
| Backtest.VolumesPositiveIff | BacktestService/engine.py:162-212 | for any signals every volume is positive exactly when no waiting buy is filled in such a debt, and then no position is short |
| Backtest.FreeBuysStayLong | BacktestService/engine.py:162-186 | without commissions on non-negative prices cash stays non-negative and no buy opens a short |
| Backtest.BuyCanOpenShort | BacktestService/engine.py:163-173 | a run whose second buy, after a commission and a price collapse, is of minus 9900 |
| Backtest.LastEquityIsCash | BacktestService/engine.py:201-214 | the last equity value is the final cash |
| Backtest.FillPending | BacktestService/engine.py:163-186 | fills the waiting order at the open, or fails on a zero lot price |
| Backtest.TradeBars | BacktestService/engine.py:162-202 | the loop computes the replay of the signals |
| Backtest.WorstMeans | BacktestService/engine.py:218-219 | no value is further below the capital or an earlier value than the maximum drawdown |
| Backtest.MaxDrawdown | BacktestService/engine.py:218-219 | the largest fall from the running peak, attained at some bar |
| Backtest.HalfAreSells | BacktestService/engine.py:220-221 | the win rate divides by exactly half the trades |
| Backtest.RunBacktest | BacktestService/engine.py:136-224 | the report of the settled run, or the error, or no trades when bars are too few |
| Backtest.EquityPoints | BacktestService/engine.py:236-248 | returns and drawdowns reproduce the values, with no drawdown exactly at a peak |

## Left out

- SpscProtocol.EveryScheduleIsAFifo: memory is sequentially consistent; weaker orderings are not modelled.
- MpmcQueue.EveryScheduleIsSafe: tickets are unbounded, so wrap-around of 64-bit counters is not modelled, nor is the destructor.
- ShmSessions.EveryRunDeliversInOrder: a client name claims a channel once, one claim at a time on a quiet channel; reconnecting, reset under traffic and an empty name are not modelled.
- ShmSessions.LossHasCause: a server message for a channel number outside the table has no step, since the code would index out of bounds.
- ShmProgress.EveryHandshakeCanComplete: some continuation connects the client; that the operating system schedules it, and in time, is not modelled.
- ShmProtocol: a timeout is a free choice of the schedule; RDTSC, mmap, signals, CPU binding and the publish mode are left out.
- ShmObjects.Poller.PollMsg: the call runs undisturbed; interleavings with clients are those of the step model.
- Text.ParseTickText: a number keeps its exact value; the double reader's rounding, also at the edge of its subnormal range, is not modelled.
- PolicyModel: price and tick are reals, so the 1e-7 test is exact arithmetic.
- PolicyValidator.ValidationIssues: messages are constructors, `strip` removes ASCII blanks, and the set of futures products is walked in table order.
- PolicyConfig: columns that neither the printer nor the validator reads are one text field a row.
- ConfigVersions: item keys are tuples, not colon-joined text; audit events, authorization and HTTP status codes are left out.
- RiskModel: limits and locks are fixed during a run; risk commands, their parsing, SQLite and message texts are left out.
- RiskEngine.Engine.HandleRequest: the response queue is unbounded, and what drains it is left out.
- RiskEngine.Engine.SelfMatched: the empty list the lookup inserts for an unknown ticker is not stored, since nothing can observe it.
- KLineWindow.InItsWindow: local time is a fixed offset from UTC, without daylight saving.
- KLineGenerator.Generator.ProcessTick: the callback is the history it fills; ticker names are left out.
- HistoryFetch.AnswersAreWhole: the stale cache, authorization, SQL and HTTP are left out.
- Backtest.RunBacktest: signals are an arbitrary input, and annualised return and Sharpe ratio are left out (powers and square roots).
- Sockets, curl, Casbin, YAML, the desktop UI, gateways and the single-threaded `RingBuffer` and `LockFreeQueue` are not part of this model.
