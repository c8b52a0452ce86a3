# A Dafny model of a multi-book trading system's accounting, lifecycles and caches

Several virtual books share one broker account. The broker reports account-level events (dividends, fees, option
expiries and assignments, settlements, cash mergers); every book runs its own pass over them, works out all books'
shares, and books only its own. An audit then compares the sum of the books with the broker. Around this core run a
strategy-decay lifecycle, an alert table, an outcome tracker, a JSON-schema rewrite with a reply extractor, and a
two-layer data cache. The project models these parts and proves what they keep over all inputs and all runs.

| module | models | main results |
|---|---|---|
| `Money`, `Sums` | cents, Python's `round`, sums over tables | helpers |
| `LargestRemainder`, `SplitCents` | the cent split of a fee | conservation, fairness, optimality, independence of listing order |
| `Journal`, `Writers`, `CapturePass`, `Bookings` | a book's trades table, the five activity writers with the split of a stock event | what each writer books and when; equity identity over runs, with its exact conditions; exactly-once |
| `Accounts`, `AccountPass`, `StockEvents` | the sibling books of an account, a whole capture pass, any interleaving of passes over a stock event | a pass is a run of its own book; nothing is booked without a split that adds up; dividends decompose |
| `FeeCapture`, `FeeProtocol`, `FeeNetAudit` | fill ownership, the split of a fee, the interleaved passes of all siblings, the fee side of the audit | ownership is a partition; parity at every reachable state; the whole fee booked exactly once |
| `CashParity`, `ParityAudit` | the in-flight attribution and the cash-parity verdict, and their bridge to the fee protocol | the attribution is sound; completed bookings cannot tip the verdict |
| `AlphaDecay` | the daily decay cycle | 29-day hysteresis, bounded deprecation spells |
| `AuditRunner` | the alert table | alerts are exactly the rising edges |
| `HorizonOutcomes` | measuring predictions at 1/3/5/10/20 bars | incremental equals batch, excursion sandwich |
| `StrictSchema`, `BraceExtract` | the strict-schema rewrite, the JSON extractor | exact meaning of the output; minimal, idempotent extraction |
| `TwoLayerCache` | the alternative-data cache over the older one | bounded staleness, invisible eviction |

Classes stand for what the source updates in place: `Journal.Book` for a trades table,
`FeeNetAudit.FeeCache` for the fee-list cache, `AlphaDecay.Store`, `AuditRunner.Alerts`, `HorizonOutcomes.Tracker` and
`TwoLayerCache.Bundle` for their tables. Their methods are proved equal to specification functions, and the theorems
are about those functions. Amounts, prices and quantities are exact reals; `round(x, 2)` is round-half-to-even on
cents. What reads, fetches, regular expressions and clocks return are parameters, with flags or `None` for failures.

Where the code does not keep a claim as made, the model keeps the code and says when the claim holds:

- The equity identity does not survive every option close: `OptionKeepsIdentityIff` says for any mix of rows when it
  does, `OneSidedKeepsIdentityIff` and `MergerKeepsIdentityIff` in terms a caller can check, and
  `TwoSidedLegBreaksIdentity` is a counterexample.
- A fee can be accepted and then booked by nobody: for fills without negative figures exactly when it rounds to a cent
  or more, no fill carries base, and the broker names a base of at most 0.02 for the dollar-based kinds or 0.5 for the
  others (`FeeIsLostIff`; `TinyBaseIsLost` is such a fee). Every other accepted fee is handed out whole
  (`SplitIsWholeIff`).
- A leg order that a second book journals after a first one, the owner through the parent order, has booked the fee
  takes the whole split over, and the books end up with the fee twice (`LateOrderBooksTwice`). That they end up with it
  exactly is therefore proved for runs in which no trade, once the fee is accepted, takes a fill of its day from its
  owner; a trade that makes a fill contested does no harm, since every later pass is refused. Where every fill is owned
  by its own order no trade can do either harm (`DirectBooksAll`). Parity and exactly-once per book need no such
  condition.
- A journal that cannot be opened makes its account unverifiable (`UnverifiableIff`). One that opens but whose query
  fails does not, although that is the audit's stated rule: the virtual account info falls back to the initial capital
  and the audit judges a book that never traded (`FailedQueryReadsAsUntraded`).
- A time-to-live restoration does not wait for fresh samples, against the comment in the cycle: the next cycle
  deprecates again exactly when the newest snapshots, old ones included, are still bad (`AgedStrategyRelapsesIff`, with
  the instance `AgedStrategyRelapses`).
- An alert whose delivery failed is not sent again while its drift lasts (`FailedAlertIsNotRetried`).
- The schema rewrite loses a property named `minimum` or `maximum` (`RangeNameIsLost`), and an input that requires a
  name it does not keep refuses every value of the output (`SoundIffRequiresKept`).
- The extractor removes an object's own lines when they look like fences: an object comes back exactly if and only if
  it has no such line (`ReturnedIffUnmarked`).

## Model

| member | source | states |
|---|---|---|
| SplitCents.Split | activities_capture.py:1125-1137 | The loop over the books computes `Shares(total, weights)` for every listing order of the same books, so siblings that compute it on their own agree; the `[:short]` slice never overruns. |
| SplitCents.ShareIsQuotaRounded | activities_capture.py:1131-1133 | Each share is the floor of the book's exact pro-rata quota or one cent more. |
| SplitCents.SharesConserve | activities_capture.py:1125-1137 | The shares add up to the total to the cent, or to zero when no book has positive weight. |
| SplitCents.ShareIsProRata | activities_capture.py:1131-1137 | A book's share is its weight's part of all weights, to within less than one cent. |
| SplitCents.NoWeightNoShare | activities_capture.py:1128-1132 | A book with weight zero or less gets nothing, whatever the others weigh. |
| SplitCents.HeavierGetsNoLess | activities_capture.py:1131-1137 | A strictly heavier book never gets fewer cents. |
| SplitCents.EqualWeightsDifferByOne | activities_capture.py:1131-1137 | Books of equal weight differ by at most one cent, and it is the smaller id that gets it. |
| SplitCents.SplitIsOptimal | activities_capture.py:1125-1137 | No other whole-cent split with the same total has a smaller sum of distances to the exact quotas. |
| LargestRemainder.ShortBounds | activities_capture.py:1133-1135 | The number of missing cents is at least zero and at most the number of books with a remainder. |
| LargestRemainder.CutIsRank | activities_capture.py:1134-1136 | Cutting the sorted books after k of them selects exactly those with fewer than k books ahead in (larger remainder, smaller id) order, so the order of the input does not matter. |
| LargestRemainder.SplitIsOptimal | activities_capture.py:1125-1137 | Optimality for arbitrary exact quotas, by a charge at which each share is the book's own cheapest whole number. |
| Journal.CloseLiveAt | journal.py:1341-1398 | Exactly the live rows of the contract, or the live entry rows of the stock on one side, become closed; every other row keeps its place and content. |
| Journal.CloseLiveFlattens | journal.py:1341-1398 | Closing leaves no live row of its target and opens none of any other. |
| Journal.Book.VirtualCash | journal.py:2857-2976 | The two running sums give initial capital plus the signed executed notionals: fill price first, options times 100, dead statuses out, an externally closed row only with its fill, dividends in and debits out. |
| Journal.RowMoves | journal.py:2857-2976 | What one row does to virtual cash, by its own fields: who pays, at which execution price, the hundred of an option, and the rows that move nothing. |
| Journal.RoundTripMoves | journal.py:2857-2976 | Opening and closing one quantity moves virtual cash by the difference of the two fills, long or short. |
| Journal.CloseLiveKeeps | journal.py:1341-1398 | Closing rows moves no cash and no realized pnl, and the table mentions the same orders. |
| Journal.CloseLiveCost | journal.py:1341-1398 | Closing takes exactly the open cost of its target out of the cost basis. |
| Writers.EventLeak | activities_capture.py:655-706 | For each of the five writers, one booking moves Σ pnl − cash − open cost by the cost it leaves unexplained, within half a cent. |
| Writers.RunKeepsIdentity | activities_capture.py:497-516 | Over any run of the five writers the equity identity moves by the unexplained basis of its closes and at most half a cent per booked row. |
| Writers.OptionUnexplained | activities_capture.py:647-676 | What an option close leaves unexplained, for any mix of rows: the contracts it does not cover at the average premium, what offsetting rows cost against that average, and rows under sides the net does not count. |
| Writers.OptionKeepsIdentityIff | activities_capture.py:647-676 | For any mix of rows an option close keeps the identity if and only if those parts cancel. |
| Writers.OneSidedKeepsIdentityIff | activities_capture.py:647-676 | On a one-sided leg it does if and only if the event covers the position or the position cost nothing. |
| Writers.MergerKeepsIdentityIff | activities_capture.py:893-924 | A cash merger keeps the identity if and only if it removes just the quantity its live entry rows hold, or they cost nothing. |
| Writers.CleanRunKeepsIdentity | activities_capture.py:1334-1352 | In a run whose bookings take whole one-sided positions the identity holds to half a cent per booked row. |
| Writers.TwoSidedLegBreaksIdentity | activities_capture.py:558-580 | Two contracts bought at 3.00 and one sold at 1.00 on the same leg: the expiry leaves 200 dollars unexplained. |
| Writers.RunBooksOnce | activities_capture.py:367-382 | However passes repeat, refuse or defer, a journal never holds two rows for one activity id, and never loses one. |
| Writers.LegClosesOnce | activities_capture.py:643-655 | After an option event closed a leg, no later event on the contract books anything, whatever its id and whatever activities and trades lie between, until a trade opens the leg again: the typed and the MISC copy close it once. |
| Writers.ForeignBookBooksNothing | activities_capture.py:531-555 | A book that never traded a contract never books an event or settlement of it, over any run. |
| Writers.OwnerBooksSettlement | activities_capture.py:728-818 | A book that owns a contract books its settlement after any run, exactly if it has not already, even when the leg was closed before. |
| CapturePass.ReadShares | activities_capture.py:322-330 | The readings of all books, or nothing as soon as one is unreadable. |
| CapturePass.Attribute | activities_capture.py:311-343 | The shares of an event if and only if the books can be listed, all are readable and their quantities sum to the broker's within half a share. |
| CapturePass.WholeSplitIsExact | activities_capture.py:331-341 | Whole shares that pass the half-share test sum exactly to the broker's position. |
| CapturePass.DividendDecomposes | activities_capture.py:459-496 | With whole-share books, long and short, the amounts of an attributed split differ from the broker's net by at most half a cent per holder plus 1.1 cents. |
| CapturePass.DividendBooksOwnShare | activities_capture.py:490-516 | A dividend pass moves the book's cash, its realized pnl and its cash for the activity by exactly the book's own rounded share, books a row if and only if that is not zero, and only from an attributed split. |
| CapturePass.WriteOptionClose | activities_capture.py:583-725 | The method's table is the specified step: refuse, defer, or append the close at zero and flip the live rows. |
| CapturePass.WriteSettlement | activities_capture.py:728-818 | The same for settlement cash. |
| CapturePass.WriteDividend | activities_capture.py:385-528 | The same for a dividend, with the attribution of the pass's readings. |
| CapturePass.WriteCashMerger | activities_capture.py:821-938 | The same for a cash merger, with the attribution of the removed quantity and the flip of the entry rows. |
| CapturePass.GroupsOf | activities_capture.py:1374-1382 | The group table maps each group to the contract of its last event row. |
| CapturePass.BookMisc | activities_capture.py:1383-1410 | The MISC rows act as the run of their routed events in order, and the count is the number of booked rows. |
| Bookings.OptionBooks | activities_capture.py:583-725 | A book, long or short the contract by half a contract or more, books its option event exactly once, at no cash: pnl is what the closed contracts cost, lost by a long and kept by a short, and no live row of the contract is left; any other event changes nothing. |
| Bookings.SettlementBooks | activities_capture.py:728-818 | A book that traded the contract books its settlement exactly once: cash rises by the broker's signed amount, pnl by that to the cent, positions stay; any other event changes nothing. |
| Bookings.RunSettles | activities_capture.py:784-807 | Over any run a journal's cash for a settlement id is zero until it is booked and the broker's amount afterwards. |
| Bookings.DividendBooks | activities_capture.py:385-528 | Exactly when a dividend is booked, by the broker's amount, its rate and the books' readings, and that cash and pnl move by the own shares at the rate, received by a long and paid by a short. |
| Bookings.MergerBooks | activities_capture.py:821-938 | Exactly when a cash merger is booked, that a long is paid the price for its shares and a short pays it, the pnl against the own entries' cost, and that no live entry row is left. |
| Bookings.FeeBooks | activities_capture.py:1245-1266 | A positive share of a fee is booked exactly once, with the fee's sign, in cash and pnl. |
| Bookings.HeldIs | activities_capture.py:531-580 | The quantity and cost the writers work with are the sums over the live rows of the contract, or of the stock entries on one side, at fill before price. |
| Bookings.GroupsAre | activities_capture.py:1374-1382 | A group stands for the contract of the last row in the batch that names one, and for none where no row does. |
| Bookings.MiscTradeSettles | activities_capture.py:1353-1410 | The cash row of a MISC batch settles the contract its group names, in whatever order the rows come: after the batch a book that traded it holds the broker's amount. |
| Bookings.MiscEventCloses | activities_capture.py:1383-1396 | The event row of a MISC batch books and closes its contract like the typed event. |
| AccountPass.VisitsAreRun | activities_capture.py:1334-1352 | Working out every share in the pass, from the journals as they are, makes the pass a run of events over its own book that changes no sibling, so all results about runs hold of passes. |
| AccountPass.Capture | activities_capture.py:1334-1410 | A whole pass, fees and stock events split in it, is the run of its resolved typed activities followed by its MISC rows; its count is the number of booked rows and no sibling's book changes. |
| StockEvents.BookedOnlyIfBacked | activities_capture.py:322-343 | Under any interleaving of passes and trades, a journal holds a row of a dividend or cash merger only if a pass of that very book had all books readable and adding up to the broker's quantity within half a share. |
| StockEvents.DividendState | activities_capture.py:367-382 | Under any interleaving, whatever each pass reads, a book holds exactly its own share of its first pass that owes it one, and nothing before, however often passes repeat or refuse. |
| StockEvents.BookedIsShares | activities_capture.py:459-516 | So at any moment the cash booked for the dividend over all journals is the sum of those shares. |
| StockEvents.AllPassedDecomposes | activities_capture.py:459-496 | Once every sibling has passed, by readings that may differ but owe each book the same, the cash booked over all journals differs from the broker's net by at most half a cent per holding book plus 1.1 cents. |
| FeeCapture.FeeMetric | activities_capture.py:1101-1122 | The loop computes the base of each of the seven fee kinds over a list of fills. |
| FeeCapture.ClaimDirect | activities_capture.py:1192-1204 | The owners of the fills by the books' own orders; refused if and only if two books recorded the order of some fill. |
| FeeCapture.ClaimParents | activities_capture.py:1205-1222 | A fill still unowned goes to the first listed book that recorded its parent order. |
| FeeCapture.AttributeFills | activities_capture.py:1189-1226 | The whole attribution: refused, deferred, or each fill with its one owner. |
| FeeCapture.OwnersAreListed | activities_capture.py:1189-1226 | Every fill of an accepted attribution is owned, by one of the listed books. |
| FeeCapture.OwnedIff | activities_capture.py:1176-1226 | Exactly when a fee gets owners, in terms of the journals: recognized, everything readable, no fill on record in two books, each fill claimed by its own or its parent's order. |
| FeeCapture.OwnerHasOrder | activities_capture.py:1192-1222 | The owner of a fill has its order on record; where nobody has, it is the first listed book with the parent's. |
| FeeCapture.MetricsPartition | activities_capture.py:1227-1229 | Each fill is in exactly one book's list: for all seven kinds the books' metrics sum to the metric of all fills. |
| FeeCapture.MetricIsChargedOn | activities_capture.py:1101-1122 | The metric of each kind by the fills' own fields: stock or option sell proceeds, fill events, shares or contracts sold, contracts traded. |
| FeeCapture.BaseTestIgnoresAttribution | activities_capture.py:1230-1241 | Whether the base test passes depends on the account's fills only, not on who owns them. |
| FeeCapture.AcceptedIff | activities_capture.py:1230-1241 | A fee with owners is accepted if and only if its fills' base is positive where none is named, within two cents or a thousandth of the named base for REG and OPT_REG, and within a half for the other kinds. |
| FeeCapture.FarBaseIsRefused | activities_capture.py:1234-1237 | An instance: fills of 4000 against a named base of 10000 have an owner and are refused. |
| FeeCapture.SplitConserves | activities_capture.py:1242-1245 | For any fills, an accepted split hands out the whole fee to the cent if some book carried base, and nothing otherwise. |
| FeeCapture.SplitIsWholeIff | activities_capture.py:1230-1245 | On fills without negative figures an accepted split is whole if and only if the fills carry base or the fee rounds to nothing. |
| FeeCapture.ShareIsOwnPart | activities_capture.py:1227-1245 | A book's share of an accepted fee is the part of the base that its own fills carry, to within less than one cent. |
| FeeCapture.FeeIsLostIff | activities_capture.py:1230-1248 | A fee with one owner per fill is accepted and handed out to nobody if and only if it rounds to a cent or more, no fill carries base and the named base is at most 0.02 for REG and OPT_REG or 0.5 for the other kinds. |
| FeeCapture.TinyBaseIsLost | activities_capture.py:1234-1245 | An instance: a regulatory fee naming a base of two cents is accepted without any fill and split into zero. |
| FeeCapture.WriteFee | activities_capture.py:1140-1274 | One book's pass changes only its own table, by the row of its share of the split; the other books' tables are as before. |
| FeeProtocol.SplitIgnoresFailures | activities_capture.py:1180-1220 | A pass that was neither refused nor deferred computed the split that a pass without failures computes. |
| FeeProtocol.SplitKept | activities_capture.py:1083-1098 | A row that is not a new order of the day for its book leaves the split of the day's fee unchanged, in every sibling's eyes. |
| FeeProtocol.HarmlessKeepsSplit | activities_capture.py:1189-1226 | A trade that takes no fill from its owner leaves the split of the day's fee as it is; one that makes a fill contested has every pass refused. |
| FeeProtocol.DirectIsHarmless | activities_capture.py:1192-1204 | If every fill of the day is owned by its own order, every trade of every book is one or the other. |
| FeeProtocol.LateOrderMovesSplit | activities_capture.py:1205-1222 | A fill owned through its parent order goes, with the whole fee, to another book as soon as that one journals the leg order: both splits hand out the fee in full. |
| FeeProtocol.LateOrderBooksTwice | activities_capture.py:1205-1266 | For every such fee: the owner's pass, the other book's trade of the leg order and its pass leave the books with exactly twice the fee, on a two-book account with every sibling passed; the trade is the step the guard excludes. |
| FeeProtocol.NextKeeps | activities_capture.py:1140-1274 | Every step that spares a fee keeps its invariant: the split on record is a split of its cents and is the current one unless a fill is contested, and each book holds at most one row, of exactly its share on record. |
| FeeProtocol.RunKeeps | activities_capture.py:1277-1352 | The invariant of a fee holds at every state reached by steps that spare it, whatever happens to other fees. |
| FeeProtocol.FeesBookedOnce | activities_capture.py:367-382 | Under any run of charges, trades and passes, no journal ever holds two rows for one fee. |
| FeeProtocol.NextSettled | aggregate_audit.py:1202-1207 | No charge, no trade of whatever order and no pass moves broker cash minus journal cash minus outstanding fees. |
| FeeProtocol.ParityIsUnbookedShares | aggregate_audit.py:936-982 | At every reachable state the parity less the unbooked signed shares of the partly booked fees is what it was at the start, also when every pass is told other fills. |
| FeeProtocol.AllPassedBooksAll | activities_capture.py:1242-1266 | Once every sibling's pass on a fee went through, in a run that spared it, the books hold its net, rounded to the cent, exactly, if its fills carry base; on clean fills if and only if they do or the fee rounds to nothing. |
| FeeProtocol.ParityRestored | aggregate_audit.py:1202-1207 | When every fee is untouched or fully passed, and those that somebody booked were spared, the parity is exactly what it was before the first fee. |
| FeeProtocol.DirectBooksAll | activities_capture.py:1192-1204 | The total of `AllPassedBooksAll` for a fee whose fills were all owned by their own orders when it was accepted, with no condition on the trades. |
| FeeProtocol.NoLegsIsDirect | activities_capture.py:1205-1222 | A fee without leg orders among its fills is only ever accepted with every fill owned by its own order. |
| FeeNetAudit.FeeCache.JournaledIds | aggregate_audit.py:985-999 | The collected ids are exactly the activity-shaped order ids, cut back where voided, of the journals that can be read. |
| FeeNetAudit.FeeCache.AccountFeeNet | aggregate_audit.py:936-982 | The nets that no readable journal mentions, over the cached list while it is younger than six hours, else the fetched one, else the old one, else nothing; with every journal read and none voided, the fee net of the protocol. The cache changes only on a successful fetch. |
| FeeNetAudit.ColonsIff | aggregate_audit.py:985-999 | An order id counts as an activity id exactly if it has two colons in a row. |
| FeeNetAudit.UnvoidedCuts | aggregate_audit.py:985-999 | A voided id is cut back to what stands before its first mark. |
| FeeNetAudit.NetOfIsFeeNet | aggregate_audit.py:982-999 | With every journal read and nothing voided, being outside the collected ids is being in no journal. |
| FeeNetAudit.UnreadableAdjustsAgain | aggregate_audit.py:989-998 | An unreadable journal adds to the adjustment exactly the nets of the fees mentioned nowhere else. |
| FeeNetAudit.StaleListMissesUnbooked | aggregate_audit.py:951-982 | A stale fee list shifts the parity by exactly the unbooked fees it misses; booked ones do not matter. |
| CashParity.AttributeInFlight | aggregate_audit.py:1025-1111 | The nested loops compute the specified total and order list, although the total is rounded after every addition. |
| CashParity.SelectedAreFirst | aggregate_audit.py:1053-1066 | The rows looked up are the first forty candidates of a journal. |
| CashParity.InFlightIff | aggregate_audit.py:1053-1064 | A row is a candidate exactly if it is live, young, has an order id and its fill is not settled. |
| CashParity.SettledExplainsNothing | aggregate_audit.py:1073-1104 | An order filled at the broker as its row has it explains nothing, and the broker's side of it is the row's cash. |
| CashParity.PendingExplainsAll | aggregate_audit.py:1073-1104 | A row the journal carries at no price explains all that the broker moved for it, signed by its side, times a hundred for an option. |
| CashParity.AuditAccount | aggregate_audit.py:1140-1245 | The audit's verdict on one account is the specified one, with the profiles that cannot be opened. |
| CashParity.UnverifiableIff | aggregate_audit.py:1161-1191 | The verdict is unverifiable if and only if the broker's cash or some journal's connection fails. |
| CashParity.VerdictIs | aggregate_audit.py:1207-1245 | Every other verdict exactly: a match within 50 dollars or a thousandth of the broker's cash, in flight when some own order explains part of the gap and the rest is within that, else orphan or phantom by the sign of the gap. |
| CashParity.MatchIsSound | aggregate_audit.py:1216-1217 | A match bounds the exact gap between the broker's cash and the journals with the fees by the tolerance and the counted roundings, so a wider gap never reads as one. |
| CashParity.TableIsExplained | aggregate_audit.py:1073-1110 | For one journal, broker minus journal cash of its own orders is what the attribution explains plus the rows it cannot see, within half a cent per qualified row. |
| CashParity.AttributionIsSound | aggregate_audit.py:1207-1235 | Drift minus attributed is external movements plus the orders that do not qualify or cannot be read, within half a cent per qualified row and readable book and four roundings. |
| CashParity.InFlightIsSound | aggregate_audit.py:1229-1235 | An `in_flight` verdict, also one reached with a failed query, bounds everything the account's own readable orders do not explain by the tolerance and the roundings. |
| CashParity.ExplainedGapIsInFlight | aggregate_audit.py:1229-1235 | Conversely, a gap beyond the tolerance that the own orders explain up to the tolerance less the roundings is in flight. |
| CashParity.FailedQueryReadsAsUntraded | journal.py:3056-3084 | The audit judges a journal that opens but whose query fails exactly as a book of the same capital that never traded. |
| ParityAudit.DriftIsParity | aggregate_audit.py:1194-1207 | The drift the audit computes over the journals of an account is the protocol's parity, within half a cent per book and three roundings. |
| ParityAudit.DriftMovesByUnbooked | aggregate_audit.py:1194-1207 | Over any run the audit's drift moves by the change of the unbooked shares, up to the roundings of two audits, so completed bookings cannot change the verdict by more. |
| AlphaDecay.DecayIff | alpha_decay.py:331-380 | Decay is detected if and only if the 30 newest snapshots exist, have ten predictions each and lie below the bad line, with enough lifetime history and a positive lifetime Sharpe. |
| AlphaDecay.DetectDecay | alpha_decay.py:281-398 | The streak loop computes that test. |
| AlphaDecay.CheckRestoration | alpha_decay.py:460-512 | The loop returns true if and only if the lifetime Sharpe is positive and the newest snapshots, as many as required, all exist, have ten predictions and reach the recovery line. |
| AlphaDecay.OneChangePerCycle | alpha_decay.py:536-564 | A strategy's status changes at most once per cycle. |
| AlphaDecay.CycleDeprecatesIff | alpha_decay.py:536-549 | An active strategy, also one never deprecated, is deprecated at the cycle's clock if and only if the cycle looks at it, its lifetime edge rests on 50 predictions and is positive, and its 30 newest snapshots rest on 10 each and lie below 0.70 of it. |
| AlphaDecay.CycleRestoresIff | alpha_decay.py:536-564 | A deprecated strategy is restored at the cycle's clock if and only if its 14 newest snapshots rest on 10 predictions and reach 0.85 of a positive lifetime edge, or its deprecation is 14 days old; otherwise its row stays. |
| AlphaDecay.SnapshotsAre | alpha_decay.py:229-278 | After a cycle a strategy's snapshots are the old ones of other dates and the day's own metrics, one per date in order. |
| AlphaDecay.Store.SnapshotAll | alpha_decay.py:229-278 | Every surviving strategy's snapshot is upserted by date; deprecations are untouched. |
| AlphaDecay.Store.RestoreExpired | alpha_decay.py:568-610 | Exactly the deprecations as old as the time to live are restored. |
| AlphaDecay.Store.RunCycle | alpha_decay.py:515-564 | For every strategy the table change of a cycle is the specified one, and the summary lists name just the strategies that changed. |
| AlphaDecay.PutKeepsOrder | alpha_decay.py:262-275 | Upserting by date keeps one snapshot per date in date order: exactly the new one and the old ones of other dates. |
| AlphaDecay.NoOldSpells | alpha_decay.py:550-564 | After a completed cycle nothing has been deprecated for 14 days or more. |
| AlphaDecay.SpellsAreBounded | alpha_decay.py:515-610 | With cycles at most g after the last completed one, every spell, finished or running, is at most 14 days plus g. |
| AlphaDecay.GoodIsNotBad | alpha_decay.py:42-50 | A snapshot above one recovery line is above every bad line up to 17/14 of that lifetime Sharpe. |
| AlphaDecay.RecoveredStaysActive | alpha_decay.py:357-380 | A strategy that recovered in one daily cycle is not deprecated in any of the next 29 while its lifetime Sharpe stays within 17/14. |
| AlphaDecay.RecoveredStaysActiveFor29Days | alpha_decay.py:482-508 | So it is still active after any of the next 29 daily cycles. |
| AlphaDecay.AgedStrategyRelapsesIff | alpha_decay.py:550-558 | A strategy restored by age alone is deprecated again by the next cycle if and only if that cycle judges it and the 30 newest snapshots are bad against a measured positive lifetime edge; without a new sample those are the snapshots of its restoration. |
| AlphaDecay.AgedStrategyRelapses | alpha_decay.py:550-558 | An instance: thirty worthless snapshots, restored after 14 days, deprecated on the fifteenth without a sample. |
| AuditRunner.Alerts.Detect | audit_runner.py:166-262 | A whole run over the table: every signature's row, the new items and the resolved signatures are the specified ones. |
| AuditRunner.Alerts.Upsert | audit_runner.py:206-229 | The insert loop reopens or bumps exactly the signatures of the run and collects the rising edges once each. |
| AuditRunner.Alerts.Resolve | audit_runner.py:231-243 | The second loop closes exactly the open signatures the run does not show. |
| AuditRunner.OpenIsCurrent | audit_runner.py:188-245 | After a run the unresolved signatures are the run's drift signatures. |
| AuditRunner.EdgesAreDifferences | audit_runner.py:203-243 | New are the run's signatures that were not open; resolved the open ones it lacks. |
| AuditRunner.EdgesBalance | audit_runner.py:256-262 | Over any runs, Σ new − Σ resolved is the change in the number of open signatures. |
| AuditRunner.RunRow | audit_runner.py:188-245 | After any runs the table holds, for each signature, the row that the runs leave of it alone. |
| AuditRunner.RowDates | audit_runner.py:214-243 | After any runs a row was last seen by the last run that shows its signature, and is resolved at the clock of the next. |
| AuditRunner.FirstSeenIsFirst | audit_runner.py:206-213 | A new signature's row is first seen by, and typed after, the first run that shows it. |
| AuditRunner.DetailsAreOfEdge | audit_runner.py:214-229 | While a drift lasts its row keeps the details of the run that raised it. |
| AuditRunner.AlertedIffRisingEdge | audit_runner.py:206-224 | A signature is among the new items of a run, as `Detect` returns them, if and only if the run shows it and the run before did not. |
| AuditRunner.NotificationsAreSeparated | audit_runner.py:206-243 | Between two notifications for a signature lies a run without it. |
| AuditRunner.RowsPersist | audit_runner.py:214-221 | A row is never lost, its first detection never moves and a sent mark never reverts. |
| AuditRunner.SentMeansDelivered | audit_runner.py:299-328 | A sent mark comes from a run that alerted the signature, delivered and marked it. |
| AuditRunner.DeliveredIsSent | audit_runner.py:299-328 | An alert that was delivered and marked leaves its row marked for good. |
| AuditRunner.FailedAlertIsNotRetried | audit_runner.py:248-251 | An undelivered alert is not sent again while its drift lasts. |
| HorizonOutcomes.Tracker.MeasureOne | ai_tracker.py:640-767 | One prediction: each missing elapsed horizon gets the outcome the bars give, no row is replaced, and the count is the number of new rows. |
| HorizonOutcomes.Tracker.MeasureSymbol | ai_tracker.py:838-901 | One symbol: pruning finished predictions and fetching from the oldest pending day loses nothing. |
| HorizonOutcomes.Tracker.GroupBySymbol | ai_tracker.py:826-830 | Each group holds its symbol's predictions in order, and no other. |
| HorizonOutcomes.Tracker.MeasureAll | ai_tracker.py:770-907 | A whole run fills every cell of the predictions in scope from the visible history and touches no other. |
| HorizonOutcomes.MeasureMeans | ai_tracker.py:678-767 | With bar i the first on or after the prediction: there is an outcome if and only if bar i + h exists; its price is that bar's close, its return the signed percentage to it, its excursions those of the best and worst price reached in exactly bars i + 1 to i + h, rounded to four places, and its class goes by the thresholds 1 and 5 of the unrounded return. |
| HorizonOutcomes.TooYoung | ai_tracker.py:678-691 | Without a bar on or after the day there is no outcome. |
| HorizonOutcomes.StartDoesNotMatter | ai_tracker.py:853-874 | A fetch from any day not after the prediction gives the same measurement. |
| HorizonOutcomes.PrefixMeasures | ai_tracker.py:707-758 | Longer history changes no measurement that was already possible. |
| HorizonOutcomes.IncrementalIsBatch | ai_tracker.py:770-907 | Under any schedule of runs and failed fetches a cell holds nothing or the one-shot result on the full history; after a run that could look, exactly the one-shot result on the visible history. |
| HorizonOutcomes.RowsNeverChange | ai_tracker.py:745-765 | A row, once written, stays. |
| HorizonOutcomes.TableIsBatch | ai_tracker.py:770-907 | The same over whole tables: after any runs over any scopes, every row of a prediction is the one-shot result on the full history, and a run that had it in scope and could fetch leaves exactly the rows whose horizon the visible history has. |
| HorizonOutcomes.ExcursionSandwich | ai_tracker.py:713-741 | With closes inside their bars, the stored MAE ≤ return ≤ MFE, for longs and shorts, after rounding. |
| HorizonOutcomes.ExcursionsWiden | ai_tracker.py:720-741 | A wider horizon has no smaller MFE and no larger MAE. |
| HorizonOutcomes.ShortMirrorsLong | ai_tracker.py:713-741 | A short's return is the negated return of the same long, its MFE the negated MAE and vice versa. |
| StrictSchema.WalkIsStrict | ai_providers.py:654-679 | For every input, no range keyword is left at any depth and every object with properties is closed and requires them all. |
| StrictSchema.FixedIffStrict | ai_providers.py:663-679 | The rewrite leaves a document alone if and only if it is strict already. |
| StrictSchema.WalkTwice | ai_providers.py:663-679 | A second application changes nothing. |
| StrictSchema.Rewritten | ai_providers.py:664-674 | Under every keyword but the two it sets, the output holds the rewritten value of the input, and nothing under range keywords. |
| StrictSchema.ObjectSchemaBecomes | ai_providers.py:664-674 | An object schema with properties, keyword by keyword: no range keywords, closed, requiring the properties it keeps, all else rewritten. |
| StrictSchema.OtherSchemaBecomes | ai_providers.py:664-674 | Any other schema only loses its range keywords and has its parts rewritten. |
| StrictSchema.SmallSchemaBecomes | ai_providers.py:654-679 | An instance: a schema of one bounded number and its strict form. |
| StrictSchema.WalkMeans | ai_providers.py:654-679 | The exact meaning: the output accepts a value if and only if the input does with ranges ignored and every object closed and complete, also under anyOf, oneOf, allOf and not. |
| StrictSchema.WalkIsSound | ai_providers.py:654-679 | If at every depth only kept properties are required, every value the output accepts is accepted by the input with ranges ignored. |
| StrictSchema.SoundIffRequiresKept | ai_providers.py:671-674 | For a closed object schema with convertible parts, a value of the output is accepted by the input if and only if the input requires only kept properties. |
| StrictSchema.RangeNameIsLost | ai_providers.py:666-668 | A required property named `minimum` is dropped, and the output accepts an object the input refuses. |
| BraceExtract.Extract | ai_providers.py:345-374 | The depth-counting scan returns the part of the cleaned text from the first brace to the first balance, or all of it. |
| BraceExtract.ObjectInCases | ai_providers.py:363-374 | The result is the piece that starts at the first brace, with equal braces and positive depth in every shorter non-empty prefix, or the whole cleaned text if and only if nothing balances from there. |
| BraceExtract.ObjectsAreMinimal | ai_providers.py:365-372 | No two different objects start at the same brace, so the result is the shortest. |
| BraceExtract.EnclosedIff | ai_providers.py:365-372 | A text in braces is an object if and only if inside it no brace closes before it opens and all are closed. |
| BraceExtract.ContentIsClosed | ai_providers.py:365-372 | Objects nest: text without braces and objects, one after the other, make the inside of an object. |
| BraceExtract.CleanIsCleaned | ai_providers.py:354-360 | After cleaning there is nothing to strip and no fence line. |
| BraceExtract.FenceLineIsDropped | ai_providers.py:357-360 | Between two texts without fence lines a fence line goes, and both come back as they were. |
| BraceExtract.PlainReplyIsStripped | ai_providers.py:354-364 | A reply without fences and braces comes back stripped and otherwise unchanged. |
| BraceExtract.ExtractTwice | ai_providers.py:345-374 | Extracting again changes nothing, for every text. |
| BraceExtract.WrappedObjectIsReturned | ai_providers.py:345-374 | An object after brace-free text is returned exactly, whatever follows; where the reply has fences, none may be on a line of the object. |
| BraceExtract.FencedBlockIsReturned | ai_providers.py:348-352 | The usual reply, prose, a tagged fence, the object, a closing fence and any text: the object comes back exactly. |
| BraceExtract.ReturnedIffUnmarked | ai_providers.py:357-360 | Starting on a line that is no fence, an object comes back exactly if and only if it has no fence line of its own. |
| TwoLayerCache.Bundle.CacheSet | alt_data_cache.py:192-255 | The row is replaced with the source's lifetime, at most an hour for an empty payload; unknown sources are not cached. |
| TwoLayerCache.Bundle.CacheOrFetch | alt_data_cache.py:284-318 | The two layers, the kill switch and the exception guard together compute the specified answer and tables. |
| TwoLayerCache.Life | alt_data_cache.py:222-223 | A cached payload lives a positive time, never longer than its source's, and at most 3600 seconds if it is empty. |
| TwoLayerCache.CachedIff | alt_data_cache.py:284-312 | A call is answered from the outer table if and only if the layer is on and has a readable, unexpired row for the upper-cased symbol and the source; then nothing changes. |
| TwoLayerCache.InnerRowAnswers | alternative_data.py:97-118 | Otherwise the source's own row, if it is young and not empty, answers without a fetch. |
| TwoLayerCache.LiveResultAnswers | alternative_data.py:121-150 | Otherwise a live result is handed out as it is, and kept by its source unless it is empty. |
| TwoLayerCache.FailureAnswers | alternative_data.py:2544-2557 | A source that fails gives an empty result where the bundle guards it and an exception where it does not. |
| TwoLayerCache.HandedOutIsStored | alt_data_cache.py:192-318 | Whatever is handed out past the outer table is stored there under its key, until the end of the call plus its source's lifetime, at most an hour for an empty payload. |
| TwoLayerCache.NothingIsStored | alt_data_cache.py:192-318 | Nothing is stored for a failure, a null, an unknown source, an empty key or with the layer off. |
| TwoLayerCache.FetchServesNext | alt_data_cache.py:284-318 | The next call for the source and symbol, in any capitals and within that lifetime, gets it without a fetch. |
| TwoLayerCache.AnswerIsRecent | alternative_data.py:2544-2557 | From sound tables, an answered payload came from a live fetch for this source and symbol, during the call or less than both lifetimes before it (an hour for an empty one), up to call time, and the tables stay sound. |
| TwoLayerCache.CacheIsBoundedStale | alt_data_cache.py:284-318 | So it is at any point of any run, with any failures, evictions and clock jumps between calls. |
| TwoLayerCache.InnerHitReaches | alternative_data.py:97-130 | The inner layer never returns an empty payload, and what it returns was fetched less than its lifetime ago. |
| TwoLayerCache.EvictionIsInvisible | alt_data_cache.py:321-343 | Dropping every eviction from a run changes no answer, no inner row and no fetch. |
| TwoLayerCache.RowServes | alt_data_cache.py:302-308 | A stored payload answers every call for its key until it expires, through any other calls and evictions, without another fetch. |

## Left out

- Floating point: all arithmetic is on exact reals and integers; float error inside one expression is not modelled.
- Reads behind the writers (`_own_stock_qty_at`, the entitlement snapshot, record-date and merger regular expressions, the fee-description patterns): their results are parameters.
- Memos and lifetimes of attributions and fills (an hour each) and of order ids (five minutes): every pass reads afresh.
- `_has_activity` answering False on a read error, and a flip that fails after its trade was logged and is never retried: reads and flips of a book whose pass is not refused succeed.
- SplitCents.Split: totals are not negative; the one caller passes an absolute value.
- A parent order recorded by two books: the code gives its fills to the first, without a check, and so does the model.
- FeeProtocol.AllPassedBooksAll: for runs that spare the fee; `LateOrderBooksTwice` shows what happens in others. Activity ids are assumed not to be order ids of the fee's day.
- FeeProtocol.RunKeeps: the passes that go through are told the same fills and leg parents; parity and exactly-once allow other lists in every pass (an options-clearing fee names no base to pin them). Later corrections of a trade row are not modelled.
- Journal.Book.VirtualCash: rows tagged by `data_quality` are not part of the modelled table; the cash and position lenses skip them, the writers' ownership queries do not.
- CapturePass.WriteDividend: what a book held at the snapshot is a reading, not computed from its rows.
- CapturePass.WriteCashMerger: the same, and the live quantity of the position lens is a parameter.
- Alerts raised by the writers, the reorg explanation, voiding of activity rows, and an inactive profile missing from its own sibling list.
- Loading of profiles, brokers and accounts in the audits; one account's books are given.
- CashParity.InFlightIsSound: in-flight rows are single-row orders with a truthful broker answer; rows that share a multileg parent would each be valued at the parent's fill.
- FeeNetAudit.FeeCache.AccountFeeNet: the broker's pages are one list.
- CashParity.AttributeInFlight: `LIMIT` without an order takes the rows in table order.
- The quantity audit with its re-check (`audit_aggregate_drift`), value parity and the manual-order detector: the quantity case repeats the cash argument, and its re-check asks whichever account was loaded last.
- Sharpe ratios and win rates: a snapshot's figures are arbitrary.
- An audit that raises is an audit that found nothing; drift items are given with their signatures.
- HorizonOutcomes.Tracker.MeasureOne: net return (it depends on when the exit leg was journaled), malformed timestamps and missing columns.
- HorizonOutcomes.IncrementalIsBatch: the bar history is append-only; a partial bar of the current day that changes later is not modelled.
- StrictSchema.WalkMeans: covers type, properties, required, additionalProperties, items, enum, const, anyOf, oneOf, allOf, not, minimum and maximum; other keywords count as annotations. Values under enum and const are ones the rewrite leaves alone.
- StrictSchema.WalkIsSound: not under oneOf and not, where accepting less inside can accept more outside.
- BraceExtract.WrappedObjectIsReturned: braces inside JSON strings are counted like any other, as in the code.
- TwoLayerCache.AnswerIsRecent: the two annotation keys are one flag (the age in minutes is not modelled), a shared dict that leaks them is not modelled, and expiry stamps compare as instants. A getter built from other getters counts as a source of its own, and the in-memory chart cache below the app-store getter is not modelled.
- TwoLayerCache.EvictionIsInvisible: calls follow each other; concurrent callers inside one call are not interleaved.
- TwoLayerCache.Bundle.CacheSet: the explicit lifetime argument, which the bundle never passes; symbols are upper-cased as ASCII.
- Provider calls with retry and circuit breaking, prompt and digest rendering, scrapers and small single-branch helpers: plumbing or easy members.
