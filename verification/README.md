# Verified models of the cash-flow engine, the terminal client, the path search and the numeric cores

This project models five parts of the repository in Dafny and proves what they promise.

* **Securitisation cash flows** (`cmo/cashflow.py`). `RealPowers`, `Pool`, `Waterfall`, `Seniority`, `Tranches`,
  `Deal`, `DealStart`, `Settlement`, `Yield`, `PoolLosses`, `AverageLife`. A loan pool is amortised month by month with
  defaults, prepayments and recoveries that arrive late;
  a stack of `Tranche` objects is seasoned and then paid from the top and written down from the bottom; a bisection
  finds the yield. The classes and loops of the program are a class and loops here; `Waterfall.Run` is the value they
  are proved to compute. The results hold for every run: conservation of the pool's balance, the closed form of that
  balance, losses that are the severity of the defaults, bonds that never outgrow their backing and fall no faster than
  it, subordination, sequential order, average life, the par identity, a yield within 10^-51.
* **Byte-level machines of the client** (`dsc.c`). `CText`, `JsonScan`, `JsonGrammar`, `JsonRfc`, `JsonStrings`, `JsonHex`,
  `Utf8` (JSON reading and writing, RFC 8259 and RFC 3629), `Splice`, `SpliceTree` (the credential edited inside a
  stored text), `JsonCases` (texts that are read differently from what they mean), `Protocol`, `Sse`, `SseBlocks`,
  `SseWire`, `Replies` (the streamed reply: chunks to lines to events to blocks to JSON), `Composer` (the line editor),
  `Markdown`, `MarkdownRun`, `MarkdownFence`, `MarkdownText`, `MarkdownSpans`, `MarkdownLatex`, `MarkdownLines`,
  `MarkdownInline` (the streaming renderer), `MarkdownColour`, `MarkdownShown`, `MarkdownLinesShown` (what it shows with
  and without colour), `Terminal`, `MarkdownScreen` (what a terminal makes of its escape sequences). Scanners are stated
  on indices into a text and proved against syntax trees, which cover every text of the standard; the reader of the
  event stream is proved against the names of the protocol and a writer of such streams; streaming is proved equal to
  batch; byte buffers are proved to be editors of characters; a coloured run is proved to be the colourless run with
  escape sequences in between, and these are followed to the attributes that a terminal shows (ECMA-48,
  section 8.3.117).
* **Shortest paths** (`graph_algorithms.py`). `Walks`, `BellmanFord`, `Dijkstra`. Full correctness of both searches,
  with walk surgery and a pigeonhole argument.
* **Simplex search and calibration** (`calibration.py`). `NelderMead`, `SimplexShift`, `SimplexGeometry`,
  `Calibration`, `CalibrationLaws`.
* **Chunked simulation** (`quant_strategy_sim.py`). `Histogram` (quantiles of binned values), `Simulation` (the loops
  over chunks and strategies), `Moments`, `Deviations` (variances and correlations from accumulated sums).

`Options` holds the one datatype for a value that may be missing. `dafny verify dfyconfig.toml` checks the whole
project.

## How to read the model

Reals are exact. `float('inf')` is a constructor (`Walks.Inf`). A byte is a `char` below 256, a C string a sequence of
non-zero bytes, and a pointer into it an index; the byte at index `|s|` is the terminator. A growing `buf_t` is
`CText.Buf` where its growth matters (emitter, decoder, splicer, block writer) and a sequence field where it is only
appended to (the `sse_t` buffers).

Where the code and what one would expect of it part, the model follows the code and a lemma gives the exact condition
or an input that shows it:

* a member is looked up by its name as written, so in any object it is found under the string its name means exactly
  when the name has no escapes (`JsonStrings.FoundUnderItsMeaning`); `JsonCases.SpeltNameIsMissed` is one that is not;
* a decoded string reaches its caller whole exactly when the literal does not spell U+0000
  (`JsonStrings.WholeUnlessZero`); `JsonCases.ZeroCutsString` is one that is cut;
* after the program has replaced the credential in a stored object, the reader finds the new one exactly when the first
  textual occurrence of the quoted key is the name of the member the reader finds and that member holds an object, or
  when there is no such span, no such member, no space behind the object, and the object has members or is the two
  bytes `{}`; in every other case it finds what it found before (`SpliceTree.ReaderAfterReplace`,
  `SpliceTree.ReplaceReadsBackExactlyWhen`). A member that holds `null`, the key inside a nested object, and the key as
  the value of another member are inputs that fail (`SpliceTree.NullMemberStays`, `SpliceTree.NestedKeyIsHit`,
  `SpliceTree.KeyAsValueHidesName`); blank space in an empty object gets a comma first (`Splice.AppendedToBlank`), and
  white space behind the object keeps the text as it is (`SpliceTree.TailKeepsText`);
* a block that ends inside the language tag of a fence leaves the tag open, and `md_begin_block` is what closes it
  (`MarkdownRun.EndedIsSane`; `MarkdownText.TagStaysOpen` is such a block);
* text between two runs of stars leaves bold and italic as they were, except for runs of three or more where only one
  of the two was on (`MarkdownShown.EmphasisShown`; `MarkdownText.BoldIsLost` is such a state);
* of a number at the start of a line only the first 14 digits are ever shown, also where it turns out to be text
  (`MarkdownLinesShown.NumberShownAsText`), and dollars that are pending when a block ends are lost
  (`MarkdownLinesShown.PendingMarksShown`);
* after inline code, math, a quote mark, a rule, a fence or a header the terminal does not show what the renderer counts
  as on: strike is never put back, and after code or math in a header of any level comes the style of the first. It
  agrees again exactly when nothing was struck out and, in a header, bold was on (`MarkdownScreen.CodeOnScreen`,
  `MarkdownScreen.DollarsSeen`), when nothing was struck out (`MarkdownScreen.QuoteSeen`), or when nothing was bold,
  italic or struck out (`MarkdownScreen.LineEndSeen`, `MarkdownScreen.RuleSeen`, `MarkdownScreen.FenceSeen`);
  `MarkdownScreen.StrikeIsLost` is one text;
* a LaTeX command whose argument does not come is shown as text, and the space behind it is lost
  (`MarkdownShown.MissingArgumentShown`);
* recoveries that fall due after the last row reach no bond. When the pool is done none is on its way exactly when there
  is no lag, or nothing defaults, or nothing is recovered, or the pool never starts
  (`Settlement.NothingWaitsExactlyWhen`), and exactly then what `Settlement.EndsSettled` leaves of a class comes down to
  the tolerances (`Settlement.OnlyTolerancesLeftExactlyWhen`). Otherwise, without interest, the bonds stay at what is
  still on its way (`Settlement.LateRecoveriesStayOwed`); `Settlement.LateRecoveryReachesNobody` is one input.

## Model

| member | source | states |
|---|---|---|
| `Walks.Split` | graph_algorithms.py:57-61 | a walk cut at any node is two walks whose weights add up |
| `Walks.Join` | graph_algorithms.py:57-61 | two walks that meet are one walk whose weight is the sum |
| `Walks.CutCycle` | graph_algorithms.py:57-61 | without a reachable negative cycle, a walk with as many edges as nodes has a shorter one that is no heavier |
| `Walks.ShortWalk` | graph_algorithms.py:57-61 | hence every walk has one of fewer edges than nodes that is no heavier |
| `Walks.SettledAlongWalk` | graph_algorithms.py:64-68 | if no edge improves the table, entries along any walk grow by at most its weight |
| `Walks.SettledMeansNoNegativeCycle` | graph_algorithms.py:63-71 | a table no edge can improve, finite at the start, rules out reachable negative cycles |
| `Walks.DistanceIsUnique` | graph_algorithms.py:14-36 | the least walk weight to a node is one value, infinite exactly when there is no walk |
| `BellmanFord.CollectNodes` | graph_algorithms.py:49-52 | the gathered set is exactly the keys and the ends of their edges |
| `BellmanFord.RelaxEdgesOf` | graph_algorithms.py:59-61 | one node's edges relaxed in place: entries only fall, stay weights of walks, and every edge has been used |
| `BellmanFord.RelaxAll` | graph_algorithms.py:58-61 | one round over all keys against live entries |
| `BellmanFord.RoundExtendsCover` | graph_algorithms.py:57-61 | a round in place covers every walk of one more edge |
| `BellmanFord.CoverAfterAllRounds` | graph_algorithms.py:57 | the number of rounds is enough, also when the start is no node of the graph |
| `BellmanFord.FindImprovableEdge` | graph_algorithms.py:63-68 | the last pass reports an improvable edge, or the table is settled |
| `BellmanFord.ImprovableMeansNegativeCycle` | graph_algorithms.py:63-71 | an edge still improvable after all rounds implies a reachable negative cycle |
| `BellmanFord.CoverWithoutNegativeCycleIsSettled` | graph_algorithms.py:57-68 | without one, no edge is improvable after all rounds |
| `BellmanFord.SettledWitnessedIsDistance` | graph_algorithms.py:73 | settled entries that are walk weights are the distances |
| `BellmanFord.Search` | graph_algorithms.py:39-73 | (None, True) exactly when a negative cycle is reachable; otherwise every entry is the least walk weight, inf iff no walk |
| `Dijkstra.PopLeast` | graph_algorithms.py:22 | heappop gives some entry of least distance; ties may fall either way |
| `Dijkstra.RelaxEdge` | graph_algorithms.py:28-34 | a neighbour is entered at infinity and lowered and queued when the new distance is less |
| `Dijkstra.RelaxEdgeKeeps` | graph_algorithms.py:28-34 | one edge keeps table, queue and visited set consistent; with no negative weight the entry of no visited node changes |
| `Dijkstra.PopStartsVisit` | graph_algorithms.py:22-26 | the least entry of an unvisited node carries the table's distance, stale entries or not |
| `Dijkstra.RelaxEdges` | graph_algorithms.py:28-34 | the inner loop uses every edge of the visited node and revises no visited one |
| `Dijkstra.UsedAlongWalk` | graph_algorithms.py:21-36 | with an empty queue no walk is lighter than the entry of its end |
| `Dijkstra.Search` | graph_algorithms.py:9-36 | terminates for all weights; with none negative every entry is the least walk weight, every reachable node has one, and nodes are visited once each, in order of distance, with the distance they keep |
| `Dijkstra.SearchBothWays` | graph_algorithms.py:9-73 | on non-negative graphs both searches agree on all of Dijkstra's keys; the others are unreachable |
| `Pool.AmortizeMonth` | cmo/cashflow.py:50-71 | one month: row, end balance and recovery queue |
| `Pool.Amortize` | cmo/cashflow.py:35-72 | the rows are the months up to the term or the first that opens at 1e-6 or less |
| `Pool.MonthConserves` | cmo/cashflow.py:50-71 | a month moves balance and queue into principal and loss and loses nothing |
| `Pool.OpeningBalanceIsConserved` | cmo/cashflow.py:47-72 | after k months: opening balance = principal + losses + recoveries pending + balance, for all rates and lags |
| `Pool.QueueIsLastMonths` | cmo/cashflow.py:61-65 | the queue is exactly the recoveries of the last lag months, and a row receives that of lag months before |
| `Pool.NoLagNoQueue` | cmo/cashflow.py:60-65 | without a lag nothing ever waits |
| `Pool.FactorAtMostEqualShare` | cmo/cashflow.py:55-56 | the annuity factor is positive and at most 1/n, so the min never binds |
| `Pool.LevelStep` | cmo/cashflow.py:55-58 | retiring the factor's share turns one level-pay balance into the next |
| `Pool.LevelEnds` | cmo/cashflow.py:55-58 | the level-pay balance starts whole and ends at zero |
| `Pool.MonthThins` | cmo/cashflow.py:51-58 | a month leaves (1-mdr)(1-smm)(1-factor) of the balance |
| `Pool.BalanceClosedForm` | cmo/cashflow.py:47-71 | balance after k months = ((1-mdr)(1-smm))^k times the level-pay balance |
| `Pool.YearsThin` | cmo/cashflow.py:27-58 | with the monthly rates of yearly cpr and cdr, balance after y years = ((1-cdr)(1-cpr))^y times the level-pay balance |
| `Pool.LevelPayment` | cmo/cashflow.py:53-56 | interest share plus scheduled share of the level-pay balance is the same in every month |
| `Pool.InstalmentsAreLevel` | cmo/cashflow.py:53-56 | hence each row's interest and scheduled principal make the level instalment on what still performs |
| `Pool.RunEndsAtStop` | cmo/cashflow.py:47-49 | every month of a run opens above 1e-6; it leaves between 0 and 1e-6, and exactly 0 over the whole term |
| `Pool.RowAddsUp` | cmo/cashflow.py:50-70 | a month opens with what it defaults, schedules, prepays and leaves; prepaid and kept are as smm and 1 - smm; principal is scheduled, prepaid and received |
| `Pool.RowsAreNotNegative` | cmo/cashflow.py:66-70 | with shares in [0, 1] no row carries a negative amount |
| `PoolLosses.LossesAreSeverity` | cmo/cashflow.py:51-65 | over any number of months the losses are severity times the defaults, and recoveries received or pending are the rest; a month defaults mdr times its opening balance |
| `Waterfall.InterestAt` | cmo/cashflow.py:108-112 | each class gets the lesser of its due and what the classes above left |
| `Waterfall.PaidInFullFromTheTop` | cmo/cashflow.py:108-114 | a class and all above it are paid in full exactly when the cash covers their dues |
| `Waterfall.PrincipalRetires` | cmo/cashflow.py:116-121 | principal retires exactly the cash, or the whole stack |
| `Waterfall.PrincipalAt` | cmo/cashflow.py:117-121 | the payment of one class and what it leaves |
| `Waterfall.PrincipalIsSequential` | cmo/cashflow.py:115-121 | a class with a balance left leaves nothing for the classes below |
| `Waterfall.LossIsAbsorbed` | cmo/cashflow.py:122-130 | the loss is written off up to 1e-9 or the stack is gone |
| `Waterfall.LossAt` | cmo/cashflow.py:124-130 | a class takes a loss only when every class below is at zero |
| `Waterfall.LossReaches` | cmo/cashflow.py:123-130 | what the classes below have not taken hits a class, unless no more than 1e-9 is left |
| `Seniority.MonthShape` | cmo/cashflow.py:106-130 | one flow is booked, principal and loss lower the balance, the loss raises the write-down: for every row |
| `Seniority.MonthKeepsSolid` | cmo/cashflow.py:106-130 | no balance or payment turns negative |
| `Seniority.MonthSeniority` | cmo/cashflow.py:115-130 | within a month: a balance above shuts off principal below, a loss above finds all below at zero |
| `Seniority.RunShape` | cmo/cashflow.py:106-131 | face and coupon stay, and each row adds one flow |
| `Seniority.FaceIsAccountedFor` | cmo/cashflow.py:106-131 | on every run, face = principal received + write-down + balance |
| `Seniority.RunKeepsRanks` | cmo/cashflow.py:106-131 | what seniority means between two classes is kept by every run |
| `Seniority.SubordinationProtects` | cmo/cashflow.py:122-130 | a class is written down only if every junior class got no principal ever and lost its full face |
| `Seniority.WritedownsWithinLosses` | cmo/cashflow.py:122-130 | write-downs never exceed the losses of the rows |
| `Seniority.JuniorFacesAbsorbLosses` | cmo/cashflow.py:122-130 | losses up to the faces below a class leave it untouched |
| `Seniority.RetiredStaysRetired` | cmo/cashflow.py:106-131 | no balance ever rises |
| `Seniority.FlowOfMonth` | cmo/cashflow.py:121 | flow k is what month k paid |
| `Seniority.SeniorsRetiredFirst` | cmo/cashflow.py:115-121 | once a class receives principal, every class above it is and stays at zero |
| `Seniority.NoPrincipalAfterJunior` | cmo/cashflow.py:115-121 | and receives no principal any more |
| `Seniority.WalFollowsSeniority` | cmo/cashflow.py:134-139 | of two classes that receive principal the senior one has the shorter average life |
| `AverageLife.LifeOfOneMonth` | cmo/cashflow.py:134-139 | principal that all falls in month m has an average life of m/12 years |
| `AverageLife.LifeOfNothing` | cmo/cashflow.py:136-138 | without principal the average life is zero |
| `AverageLife.EmptyMonthAddsOne` | cmo/cashflow.py:134-139 | a month without principal put in front adds a twelfth of a year |
| `AverageLife.LifeOfBoth` | cmo/cashflow.py:134-139 | the average life of two flow lists together is the mean of theirs weighted by principal |
| `Tranches.Tranche.constructor` | cmo/cashflow.py:76-83 | a listed class: percent coupon or none, full balance, no flows |
| `Tranches.Tranche.BurnDown` | cmo/cashflow.py:95-98 | seasoning cuts one class and resets its face |
| `Tranches.Tranche.TakeInterest` | cmo/cashflow.py:110-114 | interest paid and set aside for booking |
| `Tranches.Tranche.TakePrincipal` | cmo/cashflow.py:118-121 | principal paid and the flow booked |
| `Tranches.Tranche.TakeLoss` | cmo/cashflow.py:125-128 | a write-down of one class |
| `Tranches.SeasonStack` | cmo/cashflow.py:86-99 | objects burnt down in order; classes above one dollar are returned in order |
| `Tranches.CollectInterest` | cmo/cashflow.py:107-114 | the interest loop computes the waterfall's interest |
| `Tranches.DistributePrincipal` | cmo/cashflow.py:115-121 | the principal loop computes the waterfall's principal |
| `Tranches.LossLoopEnds` | cmo/cashflow.py:124-130 | stopping at 1e-9 leaves the classes above as they are |
| `Tranches.AllocateLoss` | cmo/cashflow.py:122-130 | the loss loop from the bottom computes the write-downs |
| `Tranches.RunMonth` | cmo/cashflow.py:106-130 | the three loops make one month |
| `Tranches.RunWaterfall` | cmo/cashflow.py:102-131 | the objects end as Waterfall.Run says |
| `Deal.SeasonBurns` | cmo/cashflow.py:93-98 | seasoning burns off exactly what was paid, or everything, and leaves fresh classes |
| `Deal.SeasonIsSequential` | cmo/cashflow.py:94-98 | a class is cut only when those above are gone |
| `Deal.SurvivorsTotal` | cmo/cashflow.py:99 | dropping classes of a dollar or less costs at most a dollar a class |
| `DealStart.SeasonAt` | cmo/cashflow.py:93-98 | what seasoning leaves of a class: its face, or what the faces down to it exceed the principal paid by, and never less than zero |
| `DealStart.SurvivorAt` | cmo/cashflow.py:99 | a class of more than a dollar survives behind the survivors above it, and no other does |
| `Deal.MonthTotal` | cmo/cashflow.py:106-130 | a month lowers the bonds by at least principal and loss, up to 1e-9 |
| `Deal.BondsStayBacked` | cmo/cashflow.py:102-131 | after month k: bonds <= pool + recoveries pending + k * 1e-9, at any lag and coupons |
| `Settlement.EndsSettled` | cmo/cashflow.py:195-206 | every class ends repaid or written down up to the stop, the tolerances and late recoveries |
| `Settlement.NothingWaitsExactlyWhen` | cmo/cashflow.py:60-65 | at the end no recovery is on its way exactly when: no lag, no default, no recovery, or no first month |
| `Settlement.OnlyTolerancesLeftExactlyWhen` | cmo/cashflow.py:47-65 | and exactly then only 1e-6 and k * 1e-9 are left |
| `Settlement.MonthTotalAtLeast` | cmo/cashflow.py:106-130 | a month lowers the bonds by no more than the row's interest, principal and loss |
| `Settlement.BondsFallNoFaster` | cmo/cashflow.py:102-131 | after month k bonds and collected interest are at least the opening bonds less what the pool and its queue have lost |
| `Settlement.LateRecoveriesStayOwed` | cmo/cashflow.py:61-65 | without interest, bonds that the pool just covers end between their backing and k * 1e-9 above it: late recoveries stay owed |
| `Settlement.LateRecoveryReachesNobody` | cmo/cashflow.py:61-65 | an input where the bond is neither repaid nor written down |
| `Deal.BuildStack` | cmo/cashflow.py:194 | the listed classes become tranches |
| `Deal.StartOf` | cmo/cashflow.py:194-204 | the stack and pool a deal starts from, at issuance or seasoned to the current pool |
| `Deal.StartIsBacked` | cmo/cashflow.py:194-204 | both ways of starting leave fresh bonds that sum to at most the pool |
| `DealStart.IssuedMeetsPool` | cmo/cashflow.py:194-198 | at issuance the pool is the size of the bonds, each at its listed face |
| `DealStart.SeasonedMeetsPool` | cmo/cashflow.py:199-204 | otherwise the bonds are the lesser of the pool and the listed faces, short by at most a dollar a class |
| `DealStart.CouponIsPercent` | cmo/cashflow.py:80 | a hundred of a class is due its listed percent in twelve months, nothing when none is listed |
| `Deal.RunDeal` | cmo/cashflow.py:194-206 | the whole program computes the pool's run and the waterfall on it |
| `Deal.DealStaysBacked` | cmo/cashflow.py:194-206 | and its bonds are backed in every month |
| `Yield.NpvFalls` | cmo/cashflow.py:147-148 | value falls as the rate rises, strictly with a positive payment |
| `Yield.Bisect` | cmo/cashflow.py:149-154 | 200 halvings end at width 2.99 / 2^200 and keep the sign change bracketed |
| `Yield.YieldToPrice` | cmo/cashflow.py:142-156 | None exactly for no face or when the price is above, or below, the discounted payments at both ends; otherwise the yearly rate of the middle of the bracket, within 10^-51 of every rate at which the discounted payments are the price |
| `Yield.FirstBracket` | cmo/cashflow.py:149-151 | ends of different sign bracket the price |
| `Yield.BracketHoldsTheYield` | cmo/cashflow.py:152-155 | the one rate that meets the price stays inside |
| `Yield.MiddleIsTheYield` | cmo/cashflow.py:149-156 | the middle of the last bracket lies within half its width of that rate, and the yearly yields within 10^-51 |
| `Yield.YieldInRange` | cmo/cashflow.py:149-151 | a yield lies in [-0.99, 2] exactly when the ends do not miss on the same side |
| `Yield.HigherPriceLowerBracket` | cmo/cashflow.py:147-154 | for any payments, a higher price never gets a higher bracket |
| `Yield.HigherPriceLowerYield` | cmo/cashflow.py:142-156 | nor a higher yield |
| `Yield.OnePaymentHasItsRate` | cmo/cashflow.py:147-148 | a class of one payment, in the first month and c per 100 of face, at price c / (1 + y): it is worth its price at y and at no other rate |
| `Yield.ParStep` | cmo/cashflow.py:106-128 | one month's part of the par identity |
| `Yield.ParIdentity` | cmo/cashflow.py:106-148 | at its coupon a class is worth face less discounted shortfalls less discounted final balance, on every run |
| `Yield.ShortfallsVanish` | cmo/cashflow.py:106-128 | shortfalls come to nothing exactly when no loss was taken and no interest missed |
| `Yield.ParExactlyWhenMadeWhole` | cmo/cashflow.py:142-148 | npv(coupon/12) = 0 at price 100 exactly when the run makes the class whole |
| `Yield.WholeClassYieldsItsCoupon` | cmo/cashflow.py:142-156 | such a class gets a yield, and every bracket holds its coupon |
| `CText.NoZeroIsWhole` | dsc.c:610 | strlen and strcpy see all bytes exactly when none is zero |
| `CText.Buf.constructor` | dsc.c:586-591 | an empty buffer with its terminator |
| `CText.Buf.Grow` | dsc.c:596-601 | room by doubling, contents kept |
| `CText.Buf.Append` | dsc.c:603-608 | the bytes are appended and the terminator follows |
| `CText.Buf.Char` | dsc.c:611 | one byte is appended |
| `CText.Buf.Reset` | dsc.c:594 | the buffer is empty again |
| `JsonScan.JskipValue` | dsc.c:655-683 | the skipper as a loop |
| `JsonScan.Jfind` | dsc.c:686-710 | the member loop: position of the value, or nothing |
| `JsonScan.Jraw` | dsc.c:775-784 | the text of the value |
| `JsonScan.RawIsSafe` | dsc.c:775-784 | a value found by lookup can be searched in turn |
| `JsonGrammar.NestValue` | dsc.c:664-679 | a rendered value inside brackets leaves the depth counter as it found it |
| `JsonGrammar.SkipsExactlyTheValue` | dsc.c:655-683 | before a delimiter, the skipper stops exactly at the end of every well-formed value (RFC 8259) |
| `JsonRfc.StandardIsWellFormed` | dsc.c:655-710 | every value of RFC 8259, sections 2 to 7, white space, numbers, literal names and escapes included, is one that these theorems are about |
| `JsonGrammar.MemberTurn` | dsc.c:691-708 | one turn of the member loop takes or passes over exactly one member |
| `JsonGrammar.FindsFirstMember` | dsc.c:691-709 | the loop finds the first member whose name is written so, or reports none |
| `JsonGrammar.LookupInObject` | dsc.c:686-784 | on every rendered object, jfind and jraw agree with the tree |
| `Utf8.EncodeDecodes` | dsc.c:742-757 | a UTF-8 reader gets every scalar back from the bytes written (RFC 3629, section 3) |
| `Utf8.DecodeEncodes` | dsc.c:742-757 | and accepts nothing but those bytes |
| `JsonStrings.BufJsonStr` | dsc.c:625-646 | the emitter writes the quoted text |
| `JsonStrings.ScanHex` | dsc.c:726-731 | up to four digits are read |
| `JsonStrings.ScanUnicode` | dsc.c:724-759 | an escape, with the low surrogate after a high one |
| `JsonStrings.DecodeLiteral` | dsc.c:716-771 | the decoding loop |
| `JsonStrings.Jstr` | dsc.c:712-773 | the decoded string up to a zero byte, or nothing |
| `JsonStrings.DecodesPieces` | dsc.c:716-771 | every well-formed body decodes to its meaning: escapes, \uXXXX as UTF-8, surrogate pairs joined (RFC 8259, section 7) |
| `JsonStrings.EmitterWritesPieces` | dsc.c:627-645 | what the emitter writes is a well-formed body that means the bytes it was given |
| `JsonHex.EscapedScalarDecodes` | dsc.c:724-759 | every scalar but zero, escaped as \uXXXX or as a pair in digits of either case, decodes to its UTF-8 bytes |
| `JsonHex.JunkIsZero` | dsc.c:728-734 | an escape with other bytes in the place of digits is read as if they were zeros |
| `JsonHex.ShortEscapeDecodes` | dsc.c:719-726 | the eight short escapes stand for the bytes of RFC 8259, section 7 |
| `JsonHex.EmitterEscapes` | dsc.c:627-645 | the emitter escapes quote, backslash and control bytes in the form the standard gives, and no other byte |
| `JsonStrings.StringMemberDecodes` | dsc.c:712-773 | in any object, a string member comes back as its meaning |
| `JsonStrings.EmittedStringComesBack` | dsc.c:625-773 | jstr recovers every C string written by buf_json_str |
| `JsonStrings.WholeUnlessZero` | dsc.c:712-773 | whole exactly when the literal has no U+0000 |
| `JsonStrings.FoundUnderItsMeaning` | dsc.c:703 | in any object, a member is found under the meaning of its name exactly when the name has no escapes |
| `JsonCases.ZeroCutsString` | dsc.c:712-773 | a literal with U+0000 inside comes back cut there |
| `JsonCases.SpeltNameIsMissed` | dsc.c:703 | a member named with an escape is not found under what its name means |
| `Splice.FindJsonValueSpan` | dsc.c:1128-1167 | the span after the first textual occurrence of the quoted key |
| `Splice.FindObjectEnd` | dsc.c:1145-1165 | the string-aware brace counter |
| `Splice.ReplaceOauthJson` | dsc.c:1169-1200 | the new stored text in all four cases |
| `Splice.ObjectCloses` | dsc.c:1149-1163 | a rendered object ends at its own brace |
| `Splice.PutGet` | dsc.c:1128-1200 | writing then finding gives what was written, where it was |
| `Splice.ReplaceIsALens` | dsc.c:1169-1200 | put-get, other bytes unchanged, put-put, get-put |
| `Splice.SpanAgreesWithReader` | dsc.c:1128-1167 | writer and reader mean the same span exactly when the first occurrence is the member's name |
| `Splice.SpliceIsSet` | dsc.c:1196-1199 | splicing bytes is exchanging the value in the tree |
| `Splice.LookupAfterSet` | dsc.c:1196-1199 | only the named member changes |
| `Splice.ReaderSeesReplacement` | dsc.c:775-1200 | jraw returns the new object and every other member as before |
| `Splice.ReaderAfterAppend` | dsc.c:1180-1193 | after an append the new credential is read exactly when there was no such member and the object has members or is {}; else what was read before |
| `SpliceTree.SpliceExchanges` | dsc.c:1196-1199 | wherever the span lies in a stored object, splicing exchanges one object of its tree for the new one |
| `SpliceTree.ReaderAfterReplace` | dsc.c:775-1200 | for every stored object: after the program's replacement the reader finds the new credential in the stated cases and what it found before in all others |
| `SpliceTree.ReplaceReadsBackExactlyWhen` | dsc.c:775-1200 | the replacement is read back exactly in those cases, or when it was there already |
| `SpliceTree.TailKeepsText` | dsc.c:1181-1192 | white space behind an object without the key leaves the text as it is |
| `SpliceTree.NullMemberStays` | dsc.c:1128-1200 | with a null credential the reader goes on finding null |
| `SpliceTree.NestedKeyIsHit` | dsc.c:1128-1200 | a key inside a nested object is spliced, and the reader finds nothing |
| `SpliceTree.KeyAsValueHidesName` | dsc.c:1128-1167 | with the key as the value of an earlier member there is no span, and the reader finds the old credential |
| `Sse.Receiver.FinalizeBlock` | dsc.c:2649-2668 | a finished block is stored or dropped; nothing after 64 |
| `Sse.Receiver.StartBlock` | dsc.c:2687-2709 | the start of a block |
| `Sse.Receiver.AddDelta` | dsc.c:2711-2738 | a delta goes to the buffer of its kind |
| `Sse.Receiver.HandleEvent` | dsc.c:2670-2765 | one event |
| `Sse.Receiver.ProcessLine` | dsc.c:2767-2773 | data lines but [DONE] are events |
| `Sse.Receiver.CurlWrite` | dsc.c:2776-2799 | one chunk: raw capture, framing, events |
| `Sse.FrameJoins` | dsc.c:2786-2797 | framing in two goes is framing in one |
| `Sse.CappedJoins` | dsc.c:2782-2784 | so is the capped capture |
| `Sse.ChunkingDoesNotMatter` | dsc.c:2776-2799 | any chunking ends as one write of all bytes |
| `Sse.FrameIsSplit` | dsc.c:2786-2797 | the byte loop finds the lines that splitting at newlines gives |
| `Sse.StreamingIsBatch` | dsc.c:2776-2799 | over any chunking: first 4096 bytes, the lines between newlines, the open rest |
| `SseBlocks.BlocksOnlyGrow` | dsc.c:2649-2668 | for any lines: blocks only come on at the end, never over 64, tool input never empty |
| `SseBlocks.EventIsRead` | dsc.c:2670-2765 | the scanners read exactly the event that the tree of the data says |
| `SseBlocks.PartAddsItsBlock` | dsc.c:2649-2745 | a complete block adds itself, or nothing after 64 |
| `SseBlocks.PartsGiveTheirBlocks` | dsc.c:2649-2745 | a run of blocks gives the first 64 in order, each with its own fragments joined, {} for no input |
| `SseBlocks.ReplyGivesItsBlocks` | dsc.c:2649-2799 | the same from the bytes, over any chunking, with the last stop reason and error of the events |
| `SseBlocks.EndingOfEvents` | dsc.c:2739-2762 | after any events: the last stop reason, the last error message, and whether an error came |
| `SseWire.EventComesBack` | dsc.c:2670-2773 | every event, written as the JSON text of the protocol, is read back as that event |
| `SseWire.ServerIsUnderstood` | dsc.c:2649-2799 | a whole stream written by a server, cut into any chunks, gives the blocks, the stop reason and the error of its events |
| `SseWire.DoneIsNoEvent` | dsc.c:2767-2773 | the line that ends the stream is no event |
| `Replies.WriteBlock` | dsc.c:2808-2822 | one block as an object |
| `Replies.BlocksToJson` | dsc.c:2803-2826 | all blocks as an array |
| `Replies.TextBlockReadsBack` | dsc.c:2808-2811 | text comes back whatever its bytes |
| `Replies.ToolBlockReadsBack` | dsc.c:2812-2821 | name, id and the bytes of a well-formed input come back |
| `Replies.BlocksAreArray` | dsc.c:2803-2826 | the text is one well-formed array of one object a block |
| `Composer.MoveBytes` | dsc.c:294 | memmove, overlaps included |
| `Composer.CharacterAt` | dsc.c:304 | a character begins where no continuation byte is and the rest of it are |
| `Composer.BytesAreUtf8` | dsc.c:291-332 | a UTF-8 reader finds exactly the edited characters in the bytes |
| `Composer.ApplyFits` | dsc.c:291-332 | every edit leaves valid characters, a cursor on a boundary and a length below capacity - 1 |
| `Composer.BackAtBoundary` | dsc.c:434 | scanning bytes back stops where scanning characters does |
| `Composer.AheadAtBoundary` | dsc.c:436 | and so does scanning ahead |
| `Composer.BackspacesUndoInsert` | dsc.c:291-310 | typing and backspacing over it changes nothing |
| `Composer.InsertedApplies` | dsc.c:291-299 | a text goes in exactly when it leaves room for the terminator and one byte in 16384 |
| `Composer.KillsAreBackspaces` | dsc.c:438-452 | the kill keys are as many backspaces, and stop at the line start |
| `Composer.KillWordStops` | dsc.c:445-449 | Ctrl+W passes the blanks before the cursor and then characters up to a blank, a line end or the start |
| `Composer.LineKeysStop` | dsc.c:434-437 | Home and End pass no line end and stop at one or at an end of the text |
| `Composer.DeleteIsRightBackspace` | dsc.c:301-332 | delete is right then backspace; left then right stays |
| `Composer.Editor.InsertBytes` | dsc.c:291-299 | insert at the cursor, or nothing when over-full |
| `Composer.Editor.CutBytes` | dsc.c:306-309 | the bytes up to the cursor leave |
| `Composer.Editor.Bs` | dsc.c:301-310 | backspace removes one character |
| `Composer.Editor.Del` | dsc.c:312-320 | delete removes one character |
| `Composer.Editor.CurLeft` | dsc.c:322-326 | left by one character |
| `Composer.Editor.CurRight` | dsc.c:328-332 | right by one character |
| `Composer.Editor.GoHome` | dsc.c:434-435 | to the start of the line |
| `Composer.Editor.GoEnd` | dsc.c:436-437 | to the end of the line |
| `Composer.Editor.KillToLineStart` | dsc.c:438-444 | Ctrl+U |
| `Composer.Editor.KillToWordStart` | dsc.c:445-452 | Ctrl+W |
| `Composer.Editor.Session` | dsc.c:402-555 | after any run of keys the bytes are those of the edited characters |
| `MarkdownRun.ExamineKeeps` | dsc.c:2294-2555 | every look keeps all buffers in bounds, and why a byte is looked at again |
| `MarkdownRun.SecondLookIsLast` | dsc.c:2371-2426 | no byte is looked at a third time |
| `MarkdownRun.FeedJoins` | dsc.c:2293-2556 | two feeds in a row are one feed of both texts |
| `MarkdownRun.LooksConsume` | dsc.c:2371-2426 | one look or two consume a byte |
| `MarkdownRun.Renderer.FeedChunk` | dsc.c:2293-2556 | the loop with its stepping back: same state and output, at most two looks a byte |
| `MarkdownRun.Renderer.BeginBlock` | dsc.c:2103-2106 | all state but the output is fresh |
| `MarkdownInline.BlockStarts` | dsc.c:2103-2106 | a block starts at a line start with every style off and nothing pending |
| `MarkdownRun.Renderer.EndBlock` | dsc.c:2558-2584 | held-back bytes are written and styles end |
| `MarkdownRun.EndedIsSane` | dsc.c:2558-2584 | the machine can go on after a block exactly when it did not end in a language tag |
| `MarkdownFence.FenceByte` | dsc.c:2411-2427 | inside a fence a byte is shown or, as a tick, held back |
| `MarkdownFence.FenceCloses` | dsc.c:2264-2267 | another byte after three ticks closes it |
| `MarkdownFence.FencedIsVerbatim` | dsc.c:2411-2427 | text without a closing run is shown byte for byte |
| `MarkdownFence.FenceStaysExactlyWhen` | dsc.c:2264-2427 | the fence stays open exactly when there is no such run |
| `MarkdownText.TagStaysOpen` | dsc.c:2558-2584 | a block that ends after three ticks and one byte leaves the tag open |
| `MarkdownText.StarsUndone` | dsc.c:2237-2251 | a run of stars twice gives the style back exactly when it is below three or bold equals italic |
| `MarkdownText.TildesUndone` | dsc.c:2253-2262 | two tildes or more twice give the style back, one never changes it |
| `MarkdownText.TicksUndone` | dsc.c:2264-2291 | one or two ticks switch inline code, three or more the fence, and twice gives the style back |
| `MarkdownText.BoldIsLost` | dsc.c:2237-2251 | three stars twice with bold alone on end with neither on |
| `MarkdownColour.ColourOnlyAdds` | dsc.c:1677-2584 | from any state and for any text, a coloured run goes through the states of the colourless one and writes the same bytes with escape sequences in between; so does the end of the block |
| `MarkdownShown.PlainTerminal` | dsc.c:1677 | every terminal has a colourless one beside it, and one without colour is that itself |
| `MarkdownShown.PlainShown` | dsc.c:2293-2556 | text free of marks is shown byte for byte, however many lines it has |
| `MarkdownShown.StarsSwitchText` | dsc.c:2237-2251 | a run of stars before text: those beyond three are shown, bold and italic switch, the text is shown byte for byte |
| `MarkdownShown.EmphasisShown` | dsc.c:2237-2251 | text between two runs of stars is shown without them; the style comes back exactly when the runs are below three or bold equals italic |
| `MarkdownShown.StrikeShown` | dsc.c:2253-2262 | text between two runs of tildes is struck out exactly for two or more; those beyond two, or the one, are shown; the style comes back |
| `MarkdownShown.CodeShown` | dsc.c:2264-2433 | inline code is shown byte for byte whatever marks it holds, without its ticks |
| `MarkdownShown.FenceOpenShown` | dsc.c:2268-2272 | three ticks, a tag and a newline show the first 30 bytes of the tag |
| `MarkdownShown.FenceShown` | dsc.c:2264-2427 | a whole fenced block shows tag, body and their newlines, nothing else, and ends quiet |
| `MarkdownShown.FenceEndShown` | dsc.c:2558-2576 | the end of the block writes the ticks held back |
| `MarkdownShown.CommandShown` | dsc.c:2217-2235 | a LaTeX command without arguments shows its symbol, or itself, before plain text |
| `MarkdownShown.ArgumentShown` | dsc.c:2296-2326 | a command of one argument shows its result; the argument may hold marks, commands and balanced braces, and is cut at 510 bytes |
| `MarkdownShown.ArgumentsShown` | dsc.c:2296-2326 | a command of two arguments, with any space before each |
| `MarkdownShown.MissingArgumentShown` | dsc.c:2299-2305 | without a brace the command is shown as text and the space after it is lost |
| `MarkdownLinesShown.NumberedItemShown` | dsc.c:2481-2493 | digits, a dot, a space and text at a line start: two spaces, the first 14 digits, the dot, a space and the text |
| `MarkdownLinesShown.NumberShownAsText` | dsc.c:2494-2497 | a number without dot and space behind it: its first 14 digits, its dot if it has one, and the text |
| `MarkdownLinesShown.BulletItemShown` | dsc.c:2499-2504 | a dash, a space and text: a bullet and the text |
| `MarkdownLinesShown.RuleShown` | dsc.c:2505-2511 | three dashes or more and a newline: a rule as wide as the terminal, 72 columns at most |
| `MarkdownLinesShown.DashesShownAsText` | dsc.c:2512-2514 | any other dashes are text |
| `MarkdownLinesShown.HeaderShown` | dsc.c:2445-2454 | hashes, a space and a title: the title alone, a header until its newline |
| `MarkdownLines.HeaderOpens` | dsc.c:2445-2454 | what the hashes and the space write: nothing, or in colour the sequence of the level |
| `MarkdownLinesShown.HashesShownAsText` | dsc.c:2455 | hashes without a space are text |
| `MarkdownLinesShown.QuotedLineShown` | dsc.c:2516-2526 | the quote mark, a space and text: a bar, a space and the text |
| `MarkdownLinesShown.GtShownAsText` | dsc.c:2527 | the quote mark without a space is text |
| `MarkdownLinesShown.LinkShown` | dsc.c:2530-2543 | a link shows its text and its address without the brackets |
| `MarkdownLinesShown.BracketsShown` | dsc.c:2531-2540 | brackets without an address show their text |
| `MarkdownLinesShown.DollarsShown` | dsc.c:2458-2474 | text between dollars is shown without them, and math is on for it alone |
| `MarkdownLinesShown.ShiftShown` | dsc.c:2386-2395 | in math the byte after ^ or _ is shown raised or lowered, or as it is |
| `MarkdownLinesShown.ShiftsShown` | dsc.c:2376-2395 | so is each byte in braces after ^ or _ |
| `MarkdownLinesShown.EscapedMarkShown` | dsc.c:2335-2337 | a backslash and a mark show the mark |
| `MarkdownLinesShown.EscapedSpaceShown` | dsc.c:2362-2366 | the spaces and the line break after a backslash |
| `MarkdownLinesShown.BackslashShown` | dsc.c:2367 | a backslash before anything else is shown |
| `MarkdownInline.EscapedBracket` | dsc.c:2338-2361 | a bracket after a backslash switches math and shows nothing |
| `MarkdownLinesShown.PendingMarksShown` | dsc.c:2561-2565 | marks pending at the end of a block are shown, but for dollars |
| `MarkdownLinesShown.LineStartHeldShown` | dsc.c:2566-2575 | so are dashes, a number and a quote mark held back at a line start |
| `MarkdownInline.EndIsLineStart` | dsc.c:2576-2584 | after the end of a block a line starts and every style is off |
| `MarkdownScreen.EmphasisOnScreen` | dsc.c:2237-2251 | in colour, text after a run of stars is shown bold and italic as the renderer counts, in no other way, and the terminal goes on agreeing |
| `MarkdownScreen.StrikeOnScreen` | dsc.c:2253-2262 | text after a run of tildes is shown struck out as the renderer counts |
| `MarkdownScreen.CodeOnScreen` | dsc.c:2274-2290 | inline code is shown in cyan; after it the terminal agrees with the renderer exactly when nothing was struck out and, in a header, bold was on |
| `MarkdownScreen.StrikeIsLost` | dsc.c:2274-2290 | a text of which the end is struck out for the renderer and not on the terminal |
| `MarkdownScreen.TitleOnScreen` | dsc.c:2447-2453 | a title is shown bold, in magenta, cyan or blue by its level |
| `MarkdownScreen.LineEndSeen` | dsc.c:2545-2550 | the line end of a header resets all attributes, any other none |
| `MarkdownScreen.DollarsSeen` | dsc.c:2462-2474 | math is yellow, and what comes back after it |
| `MarkdownScreen.BracketsSeen` | dsc.c:2338-2361 | the same for escaped brackets, which do not put a header back |
| `MarkdownScreen.FenceSeen` | dsc.c:2268-2272 | a fence is green and ends with all attributes reset |
| `MarkdownScreen.TagSeen` | dsc.c:2399-2406 | its tag is faint and italic |
| `MarkdownScreen.RuleSeen` | dsc.c:2505-2511 | a rule is faint and resets all attributes |
| `MarkdownScreen.QuoteSeen` | dsc.c:2520-2526 | the bar of a quote is faint and white; bold, italic and math come back after it, strike does not |
| `MarkdownScreen.LinkSeen` | dsc.c:2531-2543 | the text of a link is cyan and underlined, its address faint; its end switches bold off |
| `MarkdownScreen.EndSeen` | dsc.c:2558-2584 | a block that ends with a style on leaves the terminal at normal, and one that agreed goes on agreeing |
| `NelderMead.SortedIsOrdered` | calibration.py:1879 | sorting orders by value and loses no vertex |
| `NelderMead.ReplacesByLess` | calibration.py:1900-1910 | without a shrink, the worst vertex gives way to a strictly lower one |
| `NelderMead.NextKeepsBest` | calibration.py:1877-1914 | the best value never goes up |
| `NelderMead.ReplaceLowersValues` | calibration.py:1900-1910 | without a shrink no order statistic of the values goes up |
| `NelderMead.NoWorseThanStart` | calibration.py:1862-1917 | after any number of turns the best is no worse than any initial vertex |
| `NelderMead.OnlyOrderMatters` | calibration.py:1877-1914 | objectives that order points alike take the same path |
| `SimplexShift.CentroidShifts` | calibration.py:1893-1894 | the centroid moves with the simplex |
| `SimplexShift.ChoiceShifts` | calibration.py:1896-1914 | a moved simplex makes the same kind of move, to the moved point |
| `SimplexShift.SearchShifts` | calibration.py:1868-1914 | the search from a moved start is the search moved, turn by turn |
| `SimplexGeometry.CentroidBalances` | calibration.py:1893-1894 | all vertices but the worst lie equally far on either side of the centroid |
| `SimplexGeometry.ChoiceByMidpoints` | calibration.py:1896-1910 | which trial point is taken, with the points told by midpoints alone |
| `SimplexGeometry.ShrinkHalves` | calibration.py:1912-1914 | a shrink moves every vertex midway towards the best |
| `SimplexGeometry.StartAlongAxes` | calibration.py:1868-1873 | the start is x0 and x0 moved by its step along one axis each |
| `NelderMead.LevelKeepsFirst` | calibration.py:1877-1917 | an objective that tells no two points apart only shrinks the simplex, and the search ends at its start |
| `NelderMead.SpreadBelow` | calibration.py:1888-1891 | the convergence test |
| `NelderMead.Minimize` | calibration.py:1862-1917 | the best of the simplex after k turns: the first at which the values are within tol, or the limit |
| `Calibration.EvaluateParams` | calibration.py:1245-1254 | the mean score, infinite without rows |
| `Calibration.FitEmos` | calibration.py:1257-1281 | a fit exactly when rows suffice; its CRPS is that of its coefficients and at most that of the start; without rows, the start |
| `Calibration.TuneShrinkage` | calibration.py:1446-1462 | the first blend of least CRPS on any grid; nothing on an empty one |
| `Calibration.BlendEnds` | calibration.py:1451-1454 | weights 1 and 0 are the station's fit and the pooled one |
| `Calibration.BlendStaysClamped` | calibration.py:1451-1454 | every blend keeps the bounds on the variance terms |
| `Calibration.TunePooledStation` | calibration.py:1434-1464 | on any grid: too few rows, a crash on the empty grid, or the first best blend, no worse than either fit the grid reaches, and within the bounds |
| `CalibrationLaws.ScoresAverage` | calibration.py:1245-1254 | the score of one row is its own, that of two data sets is theirs in the proportion of their rows |
| `CalibrationLaws.ClampedIsNearest` | calibration.py:1263-1277 | the coefficients of a point are the admissible ones nearest to it |
| `CalibrationLaws.WeightIsNearest` | calibration.py:1450 | a weight is the number in [0, 1] nearest to alpha |
| `CalibrationLaws.BlendMovesEvenly` | calibration.py:1451-1454 | a blend moves evenly from the pooled coefficients to the station's |
| `CalibrationLaws.GridIsEven` | calibration.py:1446-1447 | the default grid goes from 0 to 1 in ten equal steps |
| `Histogram.BinHolds` | quant_strategy_sim.py:433 | a value in range lies between the edges of its bin |
| `Histogram.BinIsHalfOpen` | quant_strategy_sim.py:432-434 | a bin holds its lower edge and not its upper one, the last holds both; what lies outside goes into the first or last |
| `Histogram.BinIsMonotone` | quant_strategy_sim.py:433 | larger values are in later bins |
| `Histogram.CountsJoin` | quant_strategy_sim.py:432-434 | counts of two chunks add up to the counts of both |
| `Simulation.ScoresJoin` | quant_strategy_sim.py:85-96 | every total of two chunks adds up to that of both |
| `Simulation.WeatherJoins` | quant_strategy_sim.py:82-83 | and so do the sums of the weather factors and of their squares |
| `Deviations.OnePathScores` | quant_strategy_sim.py:82-96 | what one path adds: its result, the square, one loss if negative, its positions, its bin, its markets, its exposures |
| `Simulation.RunHorizon` | quant_strategy_sim.py:75-97 | however paths are cut into chunks, the totals of every strategy are those of all paths |
| `Simulation.Simulate` | quant_strategy_sim.py:74-97 | for all horizons |
| `Moments.CovarianceBound` | quant_strategy_sim.py:450-530 | no variance is negative, so cutting it off at zero changes nothing; a squared covariance is at most the product of the variances |
| `Moments.MarketsAddUp` | quant_strategy_sim.py:88-94 | the sums of the markets add up to the sum of the portfolio |
| `Moments.ReportInRange` | quant_strategy_sim.py:447-530 | from the accumulated totals: means of the markets add up, no variance is cut off, every correlation lies in [-1, 1] |
| `Deviations.CovarianceIsMeanDeviation` | quant_strategy_sim.py:450-530 | variance and covariance are the mean products of the deviations from the means |
| `Deviations.ReportIsMeanDeviation` | quant_strategy_sim.py:447-530 | and so are the reported ones, from the accumulated totals |
| `Histogram.PercentileIsMonotone` | quant_strategy_sim.py:553-564 | a larger q never gives a smaller quantile |
| `Histogram.QuantileNearOrderStatistic` | quant_strategy_sim.py:432-564 | the quantile is within one bin width of the ceil(qN)-th smallest value |
| `Histogram.PercentileAtZero` | quant_strategy_sim.py:553-564 | nothing counted has quantile zero; otherwise the quantile at zero is the first edge |
| `Histogram.PercentileInverts` | quant_strategy_sim.py:553-564 | the quantile inverts the distribution that fills each bin evenly |
| `Histogram.ShortfallBelowQuantile` | quant_strategy_sim.py:567-574 | the expected shortfall never exceeds its quantile |
| `Histogram.ShortfallNearTailMean` | quant_strategy_sim.py:567-574 | and is within half a bin width of the mean of the values in its tail bins |

## Left out

- Floating point: all arithmetic is over the reals; rounding, overflow and NaN are not modelled.
- Pool.Amortize: takes the monthly rates smm and mdr and the rounded number of months; that the twelfth roots in `smm_from_cpr` and `mdr_from_cdr` exist, and Python's rounding of `wam`, are not modelled (`Pool.YearsThin` says what such rates do).
- Deal.RunDeal: the database rows, the order of classes by name, and the printed report are inputs or left out.
- Yield.YieldToPrice: that a rate meeting the price exists is not stated, only that the result is within 10^-51 of any that does.
- Dijkstra.Search: with negative weights, which the program says it does not handle, only termination and that entries are walk weights are stated.
- Dijkstra.PopLeast: the heap is a multiset; its array, and the order of entries of equal distance, are not modelled.
- JsonScan.Jfind: needs a text in which no backslash stands just before the terminator, because the scanner steps over the terminator there; nothing else is asked of malformed text.
- JsonGrammar.SkipsExactlyTheValue: numbers and literals are any bytes without brackets, quotes, commas and space, of which those of the standard are some (`JsonRfc`).
- Splice.FindJsonValueSpan: the 128-byte buffer for the quoted key is not modelled; the only key ever passed is shorter.
- Splice.ReplaceOauthJson: the bundle's other fields, files and the key chain are left out.
- Sse.Receiver.HandleEvent: token counts, the block index, time stamps and what is drawn on the terminal are left out.
- Sse.Receiver.CurlWrite: the interrupt flag is left out; the contents of its four `buf_t` fields are sequences, whose growth is `CText.Buf`.
- Replies.ToolBlockReadsBack: asks the tool input to be well-formed JSON, which the program passes on unchecked.
- Composer.Editor.Session: whole characters only; the byte-by-byte paste, the history, and characters cut short by the terminal are left out.
- Markdown: the branches of the byte switch are functions on the struct's value, in the order of the code; the loop that steps back and the block ends are methods. Symbol tables, the results of commands with arguments, colour and terminal width are parameters.
- MarkdownLinesShown.LinkShown: what marks show when one opens inside another (emphasis in a link, a link in a title) has no theorem of its own; such texts take part in the results on all texts (`MarkdownRun`, `MarkdownColour`).
- MarkdownScreen.EmphasisOnScreen: text with escape bytes of its own, which the renderer passes on as they are, is not followed on the screen.
- NelderMead.Minimize: descent, not convergence to a minimum, which the method does not promise; the dimension is at least one.
- Calibration.FitEmos: the score of a row (erf, exp) is a parameter.
- Calibration.TunePooledStation: loading data, the stability gate, storing and rounding are left out.
- Simulation.RunHorizon: the random draws and the pricing of positions are the given paths.
- Moments.ReportInRange: a standard deviation is any positive root of the variance; rounding of the report is left out.
- `multinomial_kelly`, `trading_ops.py`, `edge.py`, `valuation.py`, `kalman_bias.py` and the reports: one-branch formulas and tables that would only add easy members.
- `dsc.c` outside the parts above: OAuth refresh, libcurl, processes, termios, drawing, the task table.
- `ipc_experiment.c`: its queue protocol lives in a file that is not part of this model.
