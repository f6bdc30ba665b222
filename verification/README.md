# Patch-decision core of the hospital network dashboard, in Dafny

This project models the decision core of a hospital network security
dashboard. For one selected asset (a firewall, router, EHR server, medical
IoT device, …) the core does the following:

- scores how urgently the asset needs patching (CVSS, EPSS, business impact,
  topology, KEV listing);
- derives the cost of delay and the due date;
- picks the next maintenance window and estimates the patch duration;
- simulates taking the asset offline (articulation points, components, zone
  bridges that would be lost);
- suggests a patch plan, takes a decision (Block, Patch Now (Emergency),
  Schedule, Schedule (Different Window)) and tells it as a plain-language
  story.

Next to this core sit the dashboard's metrics (patch compliance,
availability, ETA, MTTD/MTTR, alert counts, criticality) and a risk
propagation model that spreads risk from seed assets over the links with
decay.

There is one module per source file:

- `Domain` covers `src/domain.js` and the shared helpers: `Option`, clamp,
  `Math.round`, sorting, median, case-insensitive substring tests and
  integer-to-text.
- `Simulate`, `Engine`, `Duration`, `Plan`, `Decide` and `Explain` cover
  `src/decision/*`.
- `Propagation` covers `src/propagation.js`.
- `Metrics` covers `src/metrics.js`.
- `Pipeline` covers the stage order in which the dashboard
  (`src/SimpleNetworkDashboard.jsx`) chains the decision functions.

Conventions:

- Numbers are `real`. `Math.round(x)` is `floor(x + 0.5)`.
- Clock readings are integer milliseconds. The clock is one parameter `now`.
- JavaScript's `null`/`undefined` is `None`.
- Device types are strings, compared by ASCII case-insensitive substring
  matching, which is what the `/…/i` regular expressions do here.
- Local-time rendering (`toLocaleString`, `toLocaleTimeString`) and
  number-to-text are functions passed in through `Explain.Locale`.

## Model

| member | source | states |
|---|---|---|
| `Domain.Clamp` | src/domain.js:55 | `clamp(x, lo, hi)` lies in `[lo, hi]` when `lo <= hi`, is `x` inside the range, `hi` above it and `lo` below it |
| `Domain.Clamp01` | src/decision/engine.js:6 | the result lies in `[0, 1]`, is `x` inside and saturates at 0 and 1 outside |
| `Domain.Round` | src/metrics.js:9 | `Math.round` gives the integer r with `r <= x + 0.5 < r + 1` |
| `Domain.RoundMonotone` | src/metrics.js:9 | rounding preserves order |
| `Domain.Ceil` | src/metrics.js:18 | `Math.ceil` gives the integer r with `r - 1 < x <= r` |
| `Domain.CeilDiv` | src/decision/engine.js:97 | the ceiling of `a / b` for integers is the r with `(r-1)*b < a <= r*b` |
| `Domain.Sort` | src/domain.js:58 | the numeric sort yields a sorted permutation of its input |
| `Domain.SortedUnique` | src/domain.js:58 | two sorted sequences with the same elements are equal, so the sort result is unique |
| `Domain.SortPermutation` | src/domain.js:58 | the sort result depends only on the multiset of inputs |
| `Domain.SortOfSorted` | src/domain.js:58 | an ascending list sorts to itself |
| `Domain.Median` | src/domain.js:56-59 | the median of an empty list is 0; of an odd-length list the middle element of the sorted copy; of an even-length list the mean of the two middle elements of the sorted copy |
| `Domain.Middle` | src/domain.js:56-59 | the middle element for odd length, the mean of the two middle elements for even length, and in a sorted list between the lower and the upper middle element |
| `Domain.MedianPermutation` | src/domain.js:56-59 | the median does not depend on the input order |
| `Domain.MedianWithin` | src/domain.js:56-59 | the median of values in `[lo, hi]` lies in `[lo, hi]` |
| `Domain.MedianBetweenMinMax` | src/domain.js:56-59 | the median of an empty array is 0; otherwise some element is at or below it and some element is at or above it |
| `Domain.Contains` | src/propagation.js:19 | `String.prototype.includes` holds exactly when the pattern occurs at some position |
| `Domain.ContainsCIMeaning` | src/decision/engine.js:10 | a case-insensitive regular-expression test holds exactly when the pattern occurs, ignoring ASCII case, at some position |
| `Domain.MatchesAnyMeaning` | src/decision/engine.js:10 | a case-insensitive alternation of patterns matches exactly when one of its alternatives occurs |
| `Domain.LowerStrAt` | src/decision/plan.js:4 | ASCII lower-casing keeps the length and lower-cases each character in place |
| `Domain.NatToString` | src/decision/decide.js:41 | the decimal rendering of a natural number is non-empty, all digits, and has no leading zero |
| `Domain.NatToStringRoundTrip` | src/decision/decide.js:41 | reading the decimal rendering back gives the number |
| `Domain.NatToStringInjective` | src/decision/decide.js:41 | different numbers render differently |
| `Domain.DigitsSplit` | src/decision/plan.js:43 | a digit run followed by a non-digit text can be split back uniquely |
| `Domain.IntToString` | src/decision/decide.js:41 | the text is never empty, starts with a minus sign exactly for a negative integer, and the digits after the optional sign read back as the absolute value |
| `Domain.IntToStringInjective` | src/decision/decide.js:41 | distinct integers render differently |
| `Simulate.OkOrder` | src/decision/simulate.js:5 | the kept node ids have no duplicates and are exactly the ids of the nodes, minus the skipped id |
| `Simulate.AddEdges` | src/decision/simulate.js:7-13 | each kept id gets a duplicate-free neighbour list; b is a neighbour of a exactly when b is kept and some edge joins a and b |
| `Simulate.BuildAdj` | src/decision/simulate.js:4-15 | `buildAdj` yields a symmetric, duplicate-free adjacency over exactly the kept ids, with the edge relation restricted to them |
| `Simulate.AdjacencyFacts` | src/decision/simulate.js:4-15 | the adjacency is symmetric, never contains the skipped id, and links two ids exactly when both are kept and an edge joins them |
| `Simulate.Visit` | src/decision/simulate.js:48 | visiting the neighbours marks all of them seen and queues exactly the unseen ones, without duplicates, behind the old queue |
| `Simulate.Bfs` | src/decision/simulate.js:44-49 | the BFS extends the component by the queue, without duplicates; the result is closed under adjacency and reachable from its first id |
| `Simulate.CompsLoop` | src/decision/simulate.js:42-51 | the outer loop ends with disjoint components that cover every kept id |
| `Simulate.Components` | src/decision/simulate.js:39-53 | `components` returns disjoint, adjacency-closed, internally connected components that together cover exactly the kept ids |
| `Simulate.ComponentsPartition` | src/decision/simulate.js:39-53 | every kept id lies in exactly one component, and no other id lies in any |
| `Simulate.ComponentIsReachableSet` | src/decision/simulate.js:39-53 | a component is exactly the set of ids reachable from any of its members |
| `Simulate.NoEdgeJoinsComponents` | src/decision/simulate.js:39-53 | an adjacency never joins two different components |
| `Simulate.ReachSym` | src/decision/simulate.js:11 | reachability is symmetric because every edge is added in both directions |
| `Simulate.Dfs` | src/decision/simulate.js:22-34 | the DFS discovers u, records its parent exactly when it came from a neighbour, and keeps the DFS invariants |
| `Simulate.Scan` | src/decision/simulate.js:25-33 | scanning the neighbours keeps the DFS invariants and never forgets a discovery, a parent or a reported vertex |
| `Simulate.Child` | src/decision/simulate.js:26-29 | descending into an undiscovered neighbour records u as its parent and discovers at least one more vertex |
| `Simulate.Tarjan` | src/decision/simulate.js:17-37 | the whole DFS leaves a state satisfying the invariants: only discovered vertices are reported, each with at least two neighbours, and a reported root has two DFS children |
| `Simulate.ArticulationPoints` | src/decision/simulate.js:17-37 | every reported vertex is a kept node with at least two neighbours, and a reported DFS root has two distinct DFS children |
| `Simulate.ZoneOf` | src/decision/simulate.js:56 | the zone looked up for an id is that of the last node with the id (as `new Map` keeps the last entry), or absent |
| `Simulate.CompZones` | src/decision/simulate.js:61 | a component's zones have no duplicates and are exactly the truthy zones of its members |
| `Simulate.LexTotal` | src/decision/simulate.js:59 | JavaScript string `<=` is total |
| `Simulate.LexAntisymmetric` | src/decision/simulate.js:59 | JavaScript string `<=` is antisymmetric |
| `Simulate.KeyShape` | src/decision/simulate.js:59 | the pair key is the two zones joined by a bar, in one order or the other |
| `Simulate.KeySymmetric` | src/decision/simulate.js:59 | the pair key does not depend on the argument order |
| `Simulate.Pairs` | src/decision/simulate.js:62 | the double loop adds exactly the keys of index pairs i < j |
| `Simulate.PairsMeaning` | src/decision/simulate.js:62 | for distinct zones, a key is added exactly when it joins two different zones of the list |
| `Simulate.ReachableZonePairs` | src/decision/simulate.js:55-65 | a key is reported exactly when it arises from the zones of some component |
| `Simulate.ReachableZonePairsMeaning` | src/decision/simulate.js:55-65 | `reachableZonePairs` holds the key of two distinct non-empty zones exactly when a node of one reaches a node of the other |
| `Simulate.PairsAfterRemovalShrink` | src/decision/simulate.js:69-71 | removing a node never creates a zone pair, so the lost bridges are the pairs before minus the pairs after |
| `Simulate.CountTouching` | src/decision/simulate.js:72 | the cut-edge count is the number of edges that touch the id |
| `Simulate.Largest` | src/decision/simulate.js:75 | the reduce keeps the first component of maximal size; with no components it is empty |
| `Simulate.Disconnected` | src/decision/simulate.js:76-78 | the disconnected ids are exactly the node ids other than the removed one that lie outside the largest component, without duplicates |
| `Simulate.OfflineImpact` | src/decision/simulate.js:67-82 | an absent or empty id yields the all-zero report; otherwise the cut edges count the touching edges, the lost bridges count the pairs lost, and the removed id is not listed |
| `Simulate.NoIdNoImpact` | src/decision/simulate.js:68 | an absent or empty id yields `isSpof: false`, no devices and zero counts |
| `Simulate.LostBridgesBound` | src/decision/simulate.js:69-71 | the lost bridges are the pairs before minus the pairs after, and never more than the pairs before |
| `Simulate.DisconnectedSplit` | src/decision/simulate.js:76-78 | an id is disconnected exactly when it is a node id, not the removed one and not in the largest remaining component |
| `Simulate.DisconnectedUnreachable` | src/decision/simulate.js:74-78 | an id is disconnected exactly when it is kept and unreachable from the largest remaining component |
| `Simulate.SpofHasTwoNeighbours` | src/decision/simulate.js:80-81 | a SPOF is a known node with at least two neighbours |
| `Simulate.UnknownIdStillDisconnects` | src/decision/simulate.js:67-82 | an id that names no node is not a SPOF, yet with two components left it reports disconnected devices |
| `Engine.DefaultBusinessImpact` | src/decision/engine.js:9-17 | the default impact is one of 0.9, 0.8, 0.7, 0.6, 0.5, 0.3, and 0.9 whenever Firewall, EHR or Database matches |
| `Engine.DefaultImpactOfTypes` | src/decision/engine.js:9-17 | the eleven device types get 0.9, 0.8, 0.6, 0.7, 0.9, 0.3, 0.9, 0.7, 0.8, 0.5 and 0.6 |
| `Engine.ImpactOfFirewall` | src/decision/engine.js:10 | any type that starts with Firewall gets 0.9 |
| `Engine.ImpactOfDatabase` | src/decision/engine.js:10 | any type that starts with Database gets 0.9 |
| `Engine.ImpactOfEHR` | src/decision/engine.js:10 | any type that starts with EHR gets 0.9 |
| `Engine.DecidedByRouting` | src/decision/engine.js:11 | with no first-tier match, a Router or HL7 match gives 0.8 |
| `Engine.DecidedByServing` | src/decision/engine.js:12 | with no earlier match, a Server or PACS match gives 0.7 |
| `Engine.DecidedByAccess` | src/decision/engine.js:13 | with no earlier match, a Switch or WiFi match gives 0.6 |
| `Engine.DecidedByMedicalIoT` | src/decision/engine.js:14 | with no earlier match, a Medical IoT match gives 0.5 |
| `Engine.DecidedByDesk` | src/decision/engine.js:15 | with no earlier match, a Workstation match gives 0.3 |
| `Engine.DecidedByNone` | src/decision/engine.js:16 | with no pattern group matching, the default is 0.5 |
| `Engine.MaxDegreeUpTo` | src/decision/engine.js:21-22 | the maximum degree is at least 1, bounds every node's degree, and is 1 or attained by some node |
| `Engine.DegreeCentrality` | src/decision/engine.js:19-24 | the degree centrality lies in `[0, 1]` |
| `Engine.CentralityIsShare` | src/decision/engine.js:19-24 | a node's centrality is its degree over the maximum degree, and it is 1 exactly for a node of maximal degree |
| `Engine.CentralityMonotone` | src/decision/engine.js:19-24 | a higher degree never gives a lower centrality |
| `Engine.NeighbourZonesUpTo` | src/decision/engine.js:30-33 | the zone set holds exactly the zones looked up for the other end of each touching edge |
| `Engine.ZoneBridgeBonus` | src/decision/engine.js:26-36 | the bonus is 0 exactly when at most one neighbour zone is seen, 0.5 exactly when two are, and 1 exactly when three or more are |
| `Engine.UnknownNeighbourCounts` | src/decision/engine.js:31 | a neighbour without a node still adds its `undefined` zone, so one known zone plus one unknown neighbour already gives 0.5 |
| `Engine.UnlinkedNoBonus` | src/decision/engine.js:26-36 | an asset that no edge touches gets no bridge bonus |
| `Engine.MaxKnownUpTo` | src/decision/engine.js:48-54 | the intel EPSS is absent exactly when no CVE has an entry; otherwise it is the largest entry among the asset's CVEs |
| `Engine.IntelEpss` | src/decision/engine.js:48-54 | the intel EPSS is absent exactly when there is no EPSS map or no CVE has an entry; otherwise it is an entry of one of the CVEs and at least every other entry |
| `Engine.Epss` | src/decision/engine.js:55 | the EPSS in use lies in `[0, 1]`: the clamped intel value when there is one, else the CVSS-band fallback |
| `Engine.Kev` | src/decision/engine.js:64-68 | an item is known-exploited exactly when there is a KEV set and one of its CVEs is in it |
| `Engine.FallbackEpss` | src/decision/engine.js:55 | the severity-bucket EPSS fallback is 0.6 from CVSS 9, 0.35 from 7, 0.12 from 4 and 0.05 below 4 |
| `Engine.Bia` | src/decision/engine.js:57 | the business impact is the asset's own value clamped to [0, 1], else the intel value for its id clamped, else the device-type default |
| `Engine.FallbackMonotone` | src/decision/engine.js:55 | a higher CVSS never gives a lower fallback EPSS |
| `Engine.OwnImpactWins` | src/decision/engine.js:57 | an asset's own business impact overrides both intel and default |
| `Engine.Spof` | src/decision/engine.js:61 | the SPOF flag holds exactly for a non-empty id among the articulation points |
| `Engine.Topo` | src/decision/engine.js:59-62 | the topology signal lies in `[0, 1]` |
| `Engine.Bucket` | src/decision/engine.js:75-77 | a KEV item is always Emergency; otherwise the priority is Emergency exactly from 0.8, High exactly in [0.6, 0.8), Medium exactly in [0.4, 0.6) and Low exactly below 0.4 |
| `Engine.BucketMonotone` | src/decision/engine.js:75-77 | a higher score, or a KEV listing, never lowers the priority |
| `Engine.Weighted` | src/decision/engine.js:71-72 | the weighted score lies in `[0, 1]` |
| `Engine.WeightedMonotone` | src/decision/engine.js:71-72 | a higher severity or EPSS never lowers the weighted score |
| `Engine.ScorePatchPriority` | src/decision/engine.js:45-80 | the score and the EPSS, impact and topology signals lie in `[0, 1]`; cvssBase is the vuln or 0; isKev holds exactly when a CVE is in the KEV set; isSpof holds exactly for a non-empty articulation point; the priority is the bucket of the score and the KEV flag |
| `Engine.Assemble` | src/decision/engine.js:62-79 | the explanation carries the signals unchanged, the score lies in `[0, 1]`, and the priority is the bucket of the score and the KEV flag |
| `Engine.ScoreGrowsWithCvss` | src/decision/engine.js:45-80 | raising an asset's CVSS never lowers its score or its priority |
| `Engine.ScoreOfCvss` | src/decision/engine.js:45-80 | with the CVSS set to v, the score is assembled from v, the EPSS in use, the business impact, the topology signal, the KEV flag and the SPOF flag |
| `Engine.AssembleMonotone` | src/decision/engine.js:71-77 | a higher CVSS or EPSS never lowers the score or the priority |
| `Engine.EpssGrowsWithCvss` | src/decision/engine.js:55 | raising the CVSS never lowers the EPSS in use |
| `Engine.SlaDays` | src/decision/engine.js:38-43 | the SLA is 7 days exactly from CVSS 9, 15 exactly in [7, 9), 30 exactly in [4, 7) and 60 exactly below 4 |
| `Engine.SlaAntitone` | src/decision/engine.js:38-43 | a higher CVSS never gives a longer SLA |
| `Engine.EarliestUpTo` | src/decision/engine.js:89-92 | the KEV due date is absent exactly when no CVE has one; otherwise it is the earliest due date among the asset's CVEs |
| `Engine.CostOfDelay` | src/decision/engine.js:82-99 | sev is the vuln or 0; cod is the per-day risk of the priority breakdown times the days, rounded to hundredths; timeLeftDays is the ceiling of the days from now to dueAt |
| `Engine.CodOfFactors` | src/decision/engine.js:84-85 | the per-day risk is EPSS times CVSS over 10 times business impact, and cod rounds per-day risk times days to hundredths |
| `Engine.HundredthsMeaning` | src/decision/engine.js:85 | rounding to hundredths gives a whole number of hundredths, the one nearest x with a half rounded up |
| `Engine.DueDateMeaning` | src/decision/engine.js:88-97 | dueAt is the earliest KEV due date of the asset's CVEs; without one it is now plus the SLA days, and then timeLeftDays is the SLA |
| `Engine.PerDayRisk` | src/decision/engine.js:84 | the per-day risk is non-negative for non-negative signals |
| `Engine.CodOfMonotone` | src/decision/engine.js:85 | the rounded cost of delay is non-negative and grows with the number of days |
| `Engine.CodGrowsWithDelay` | src/decision/engine.js:82-85 | a longer delay never gives a lower cost of delay |
| `Engine.Weekday` | src/decision/engine.js:106 | `getDay()` lies in 0..6 |
| `Engine.WindowOn` | src/decision/engine.js:105-115 | a day's window lies within that day and lasts 4 hours: 18:00-22:00 on a weekday (Monday to Friday) and 09:00-13:00 otherwise |
| `Engine.UpcomingWindows` | src/decision/engine.js:102-117 | the generator yields limitDays windows (none for a negative count), the i-th being the window of the i-th day from today |
| `Engine.WindowsOrdered` | src/decision/engine.js:102-117 | each yielded window ends before every later one starts |
| `Engine.FirstOpen` | src/decision/engine.js:122-125 | the loop returns the first window that has not ended, or null when every window has ended |
| `Engine.NextWindowFound` | src/decision/engine.js:119-126 | `suggestNextWindow` always finds a window; it has not ended and it starts within two days |
| `Engine.SuggestNextWindow` | src/decision/engine.js:119-126 | the suggestion is today's window when it has not yet ended, and tomorrow's otherwise |
| `Engine.FirstOpenOfDays` | src/decision/engine.js:119-126 | scanning the 28 upcoming windows for the first one not yet ended stops at today's or tomorrow's |
| `Duration.BaselinesOrdered` | src/decision/duration.js:4-16 | every baseline row and the default have p50 < p90, with 15 <= p50 and p90 <= 65 |
| `Duration.LookupUpTo` | src/decision/duration.js:22 | the lookup finds a row exactly when some row carries the type, and returns that row's figures |
| `Duration.BaselineFor` | src/decision/duration.js:22 | the baseline is a listed row's figures, or the default 30/45 when no row carries the type |
| `Duration.BaselineKeysDistinct` | src/decision/duration.js:4-16 | the table lists each device type once |
| `Duration.BaselineOfListed` | src/decision/duration.js:4-16 | every listed type gets its own row |
| `Duration.BaselineOrdered` | src/decision/duration.js:22 | for any type, the baseline has p50 < p90, 15 <= p50 and p90 <= 65 |
| `Duration.ValidCounts` | src/decision/duration.js:25 | the filter keeps each finite positive sample as often as it occurs and drops every other sample |
| `Duration.ValidMembership` | src/decision/duration.js:25 | a value survives the filter exactly when it is positive and occurs as a finite sample |
| `Duration.ValidPermutation` | src/decision/duration.js:25 | reordering the history reorders the kept samples |
| `Duration.PctlIndex` | src/decision/duration.js:19 | the clamped percentile index lies inside the array |
| `Duration.Pctl` | src/decision/duration.js:19 | the percentile of an empty list is 0, otherwise one of the samples, and for an ascending list the element at the clamped nearest-rank index |
| `Duration.PctlIsSample` | src/decision/duration.js:19 | the percentile is one of the samples |
| `Duration.PctlPermutation` | src/decision/duration.js:19 | the percentile does not depend on the sample order |
| `Duration.MedianAtMostP90` | src/decision/duration.js:18-19 | the median never exceeds the 90th percentile |
| `Duration.EstimatePatchDuration` | src/decision/duration.js:21-31 | without a usable sample the estimate is the baseline; otherwise p50 and p90 are the rounded median and 90th percentile of the finite positive samples, with the derived breakdown |
| `Duration.BaselineWithoutSamples` | src/decision/duration.js:23-26 | when no sample is finite and positive, the estimate is the baseline with its breakdown, and p50 < p90 |
| `Duration.DerivedFromSamples` | src/decision/duration.js:25-30 | with a valid sample, the estimate is derived, p50 <= p90, and p90 is the rounding of one valid sample |
| `Duration.EstimateOrderFree` | src/decision/duration.js:21-31 | the estimate does not depend on the order of the history |
| `Duration.SortedHistory` | src/decision/duration.js:28-30 | for a sorted valid history, p50 and p90 are the rounded middle and the rounded sample at the percentile index |
| `Duration.FiveSamples` | src/decision/duration.js:28-30 | five ascending samples give p50 = round(third) and p90 = round(fifth) |
| `Duration.FiveSampleExample` | src/decision/duration.js:28-30 | the history 10, 20, 30, 40, 50 gives p50 = 30 and p90 = 50 |
| `Plan.Classify` | src/decision/plan.js:4-7 | the class is that of the first pattern group that matches, and no earlier group matches |
| `Plan.ClassOfTypes` | src/decision/plan.js:4-7 | Firewall, Router and Switch are network; Database is database; Server, EHR, HL7 Engine and PACS are server; WiFi AP, Workstation and Medical IoT are edge |
| `Plan.ClassOfFirewall` | src/decision/plan.js:4 | any type that starts with Firewall is network |
| `Plan.ClassOfDatabase` | src/decision/plan.js:5 | a type that starts with Database and lacks the letters f, o and w, so that no network pattern matches, is database |
| `Plan.ClassOfServer` | src/decision/plan.js:6 | a type that starts with Server and lacks the letters d, f, o and w, so that no earlier pattern matches, is server |
| `Plan.ClassOfWorkstation` | src/decision/plan.js:7 | a type that starts with Workstation and lacks the letters c, d, e, f, h, p and u, so that no earlier pattern matches, is edge |
| `Plan.SuggestPatchPlan` | src/decision/plan.js:9-47 | there is always a step; the method is HA-failover exactly for a network-class SPOF; the risk is elevated exactly when going offline isolates devices or breaks bridges; otherwise it is high exactly for HA-failover; an exposed plan ends with the isolation step quoting both counts |
| `Plan.ClassStepsFirst` | src/decision/plan.js:16-37 | the class's one or two steps come first, in order |
| `Plan.StepCount` | src/decision/plan.js:39-44 | the steps are the class's steps, plus one if urgent (the emergency step, right after them), plus one if exposed |
| `Plan.IsolationStepQuotes` | src/decision/plan.js:43 | the isolation step determines both numbers it quotes |
| `Plan.QuotesInjective` | src/decision/plan.js:43 | two numbers spliced between non-digit texts can be read back |
| `Decide.Action` | src/decision/decide.js:4-49 | every decision carries one of the four action labels |
| `Decide.Decide` | src/decision/decide.js:4-49 | Block exactly for a SPOF without HA-failover; otherwise Patch Now exactly for a KEV item within 3 days, an overdue SLA or an Emergency priority; otherwise Schedule without a window exactly when none exists; a windowed decision quotes the window; the urgency note is "KEV item" or "SLA overdue"; method, p50 and steps come from the plan and estimate |
| `Decide.WindowFit` | src/decision/decide.js:36-48 | with a window, the action is Schedule exactly when p90 fits the window's minutes, and the capacity quotes p90 and the rounded window length |
| `Decide.BlockIgnoresUrgency` | src/decision/decide.js:7-13 | a Block stands whatever the priority, the days left, the window or the duration |
| `Decide.FewerDaysStillEmergency` | src/decision/decide.js:15-17 | less time left never turns an emergency into anything else |
| `Decide.LongerWindowStillFits` | src/decision/decide.js:36-37 | a window at least as long fits whatever a shorter one fits |
| `Explain.Band` | src/decision/explain.js:8-10 | for ascending thresholds, band 3 exactly at or above the last, 2 exactly between the second and the last, 1 exactly between the first and the second, 0 exactly below the first |
| `Explain.BandMonotone` | src/decision/explain.js:8-10 | a larger value never lands in a lower band |
| `Explain.SevWord` | src/decision/explain.js:8 | the severity word is "very serious" exactly from CVSS 9, "serious" exactly in [7, 9), "moderate" exactly in [4, 7) and "low" exactly below 4 |
| `Explain.LikelihoodWord` | src/decision/explain.js:9 | the likelihood word is the very-likely phrase exactly from 0.75, the likely phrase exactly in [0.4, 0.75), the could-be phrase exactly in [0.1, 0.4) and the unlikely phrase exactly below 0.1 |
| `Explain.ImpactWord` | src/decision/explain.js:10 | the impact word is "critical to operations" exactly from 0.8, "important to operations" exactly in [0.5, 0.8), "helpful but not critical" exactly in [0.2, 0.5) and "low impact" exactly below 0.2 |
| `Explain.SevWordMatchesSla` | src/decision/explain.js:8 | the severity word is very serious, serious, moderate or low exactly when the SLA is 7, 15, 30 or 60 days |
| `Explain.WordsDistinct` | src/decision/explain.js:8-10 | the four words of each scale are distinct |
| `Explain.TopoWord` | src/decision/explain.js:11 | a SPOF gets the break-the-network phrase; otherwise a lost bridge gets the connects phrase; otherwise the busy phrase from centrality 0.66, the somewhat-connected phrase from 0.33 and the edge phrase below |
| `Explain.ActionWordFollowsLabel` | src/decision/explain.js:13 | the action word is "Patch now" exactly for Patch Now (Emergency) and "Do not patch yet" exactly for Block |
| `Explain.ActionWord` | src/decision/explain.js:13 | the action word is "Patch now" exactly for an emergency, "Do not patch yet" exactly for a Block, and "Schedule patch" exactly otherwise, including no decision |
| `Explain.FmtMinsInjective` | src/decision/explain.js:6 | different minute counts render differently |
| `Explain.FmtMins` | src/decision/explain.js:6 | a rendered duration ends in "m" |
| `Explain.FmtMinsHours` | src/decision/explain.js:6 | a non-negative duration shows an hour part exactly from 60 minutes on |
| `Explain.HoursMinutes` | src/decision/explain.js:6 | an hour or more renders as hours, "h ", remaining minutes, "m" |
| `Explain.Pct` | src/decision/explain.js:5 | the percentage is a whole number from 0 to 100 followed by "%" |
| `Explain.WhenLine` | src/decision/explain.js:34-40 | there is always a when line, since the due date is always set |
| `Explain.WhenLineFollowsDecision` | src/decision/explain.js:34-40 | the when line opens with the emergency start exactly for Patch Now, with the target window exactly for a windowed Schedule, and with the due date otherwise |
| `Explain.Why` | src/decision/explain.js:42-52 | the why list opens with the severity line, has the KEV line second exactly for a KEV item, then the likelihood line of the clamped EPSS, the impact line of the clamped business impact and the topology line, then a SPOF line for a SPOF or an isolation line quoting the count otherwise; it has 4 lines plus one for KEV plus one closing line |
| `Explain.WhyList` | src/decision/explain.js:42-52 | the why lines come in the order severity, KEV line if listed, likelihood, impact, topology, then the closing lines |
| `Explain.How` | src/decision/explain.js:54-65 | the how list is the approach's instruction followed by the plan's steps in order |
| `Explain.RiskLine` | src/decision/explain.js:67-71 | the risk line is the too-high line exactly for a Block; otherwise the high line for a high-risk plan or a SPOF; otherwise the elevated line for an elevated plan; the manageable line exactly when none of these holds |
| `Explain.ExplainForHumans` | src/decision/explain.js:15-16 | there is a story exactly when both the asset and the bundle are present |
| `Explain.HeadlineAgreesWithAction` | src/decision/explain.js:28-32 | the headline says "Do not patch … yet" exactly with "Do not patch yet" and "Patch … now" exactly with "Patch now" |
| `Explain.Headline` | src/decision/explain.js:28-32 | the headline is "Do not patch … yet" for a Block, "Patch … now" for an emergency and "Schedule patch for …" otherwise |
| `Domain.StatusMul` | src/propagation.js:7 | the status multiplier is 1.25 for an outage, 1.1 for a degraded asset and 1 exactly for a healthy one; src/metrics.js:33 uses the same multiplier for criticality |
| `Propagation.NodeBaseRisk` | src/propagation.js:4-9 | a node's own risk lies in `[0, 1]` and equals the raw weighted risk when that is already in range |
| `Propagation.MissingCountsAsZero` | src/propagation.js:5-6 | a missing vuln or patch counts as 0 |
| `Propagation.StatusOrdersRisk` | src/propagation.js:7-8 | healthy <= degraded <= outage for the same asset |
| `Propagation.VulnRaisesRisk` | src/propagation.js:5-8 | a higher vuln never lowers the node risk |
| `Propagation.Hardening` | src/propagation.js:15 | a patch level in `[0, 1]` gives hardening from 0.75 (fully patched) to 1 (unpatched) |
| `Propagation.ZoneMul` | src/propagation.js:16-21 | the zone multiplier is the penalty exactly for a hop from a DMZ zone into a Clinical or Admin zone or from an External zone into a DMZ zone, and 1 otherwise |
| `Propagation.ZonePenaltyInward` | src/propagation.js:19-20 | DMZ to Clinical, DMZ to Admin and External to DMZ are penalised |
| `Propagation.ZonePenaltyNotOutward` | src/propagation.js:18-21 | Clinical to DMZ and DMZ to External are not penalised |
| `Propagation.EdgePassProb` | src/propagation.js:12-24 | the pass probability lies in `[0, 1]` |
| `Propagation.LowLossIgnored` | src/propagation.js:14 | any loss up to 0.5 gives the same pass probability |
| `Propagation.LossDamps` | src/propagation.js:14 | a loss above 0.5 multiplies the pass probability by 0.9 |
| `Propagation.AssetById` | src/propagation.js:28 | the id lookup finds an asset exactly for a known id, and it is the last asset with that id |
| `Propagation.Hops` | src/propagation.js:27-37 | every asset id gets an adjacency list, and no other id does |
| `Propagation.HopsMeaning` | src/propagation.js:31-35 | an adjacency entry is exactly a link between two known assets, seen from either end |
| `Propagation.UnknownEndpointIgnored` | src/propagation.js:32 | a link with an unknown endpoint never appears in the adjacency |
| `Propagation.SeedUpTo` | src/propagation.js:53-59 | the seeds that name assets get their base risk and are queued at depth 0 with that risk; unknown seeds are skipped |
| `Propagation.Relax` | src/propagation.js:66-74 | a neighbour is updated only when the decayed risk exceeds 0.01 and its recorded risk; it is then recorded and queued one hop deeper, and the risk stays at most 1 |
| `Propagation.Expand` | src/propagation.js:65-75 | each neighbour queues at most one entry |
| `Propagation.ExpandRisk` | src/propagation.js:65-75 | expanding never lowers a recorded risk; a new or raised entry is a neighbour's, above 0.01; risks stay at most 1 |
| `Propagation.ExpandQueue` | src/propagation.js:65-75 | new queue entries go behind the old ones, one hop deeper, above 0.01, for neighbours |
| `Propagation.ComputePropagation` | src/propagation.js:40-78 | the loop ends; every known seed keeps at least its base risk; every recorded id is an asset within `steps` hops of a seed, with a risk in `[0, 1]` that is a seed's or above 0.01; with no steps only the seeds are recorded |
| `Propagation.EdgesAbove` | src/propagation.js:81-84 | `edgesAbove` returns exactly the ids of links whose two endpoints reach the threshold |
| `Propagation.EdgesAboveAntitone` | src/propagation.js:81-84 | raising the threshold never adds a highlighted link |
| `Metrics.CountCompliant` | src/metrics.js:9 | the compliant count never exceeds the number of assets |
| `Metrics.CountCompliantExtremes` | src/metrics.js:9 | all assets count exactly when all are compliant, and none exactly when none is |
| `Metrics.CountCompliantAntitone` | src/metrics.js:9 | a higher target never gives more compliant assets |
| `Metrics.PatchCompliance` | src/metrics.js:7-11 | total is the asset count, or 1 when there are none; compliant <= total; the percentage lies in 0..100 and is 0 for no assets; all assets are compliant exactly when compliant = count; the target percentage is the rounded target |
| `Metrics.AvailabilitySla` | src/metrics.js:13-17 | availability lies in 0..100; no or non-positive downtime gives 100; downtime of at least the agreed minutes (at least 1) gives 0 |
| `Metrics.AvailabilityAntitone` | src/metrics.js:13-17 | more downtime never raises availability |
| `Metrics.Eta` | src/metrics.js:18 | the ETA is Infinity exactly when the rate is not positive, and otherwise the ceiling of backlog over rate |
| `Metrics.EtaOfIntegers` | src/metrics.js:18 | for whole numbers the ETA is the integer ceiling division |
| `Metrics.EtaMonotone` | src/metrics.js:18 | a larger backlog never gives a shorter ETA |
| `Metrics.Lags` | src/metrics.js:20-21 | the lags kept are non-negative and at most one per incident |
| `Metrics.LagsMeaning` | src/metrics.js:20-21 | a lag is kept exactly when some incident has its end at or after its start and that many minutes between them |
| `Metrics.LagsEmpty` | src/metrics.js:20-21 | no lag is kept exactly when every incident ends before it starts |
| `Metrics.MedianLag` | src/metrics.js:22 | the rounded median lag is non-negative |
| `Metrics.Mttx` | src/metrics.js:19-23 | MTTD and MTTR are non-negative |
| `Metrics.MttxNoneQualify` | src/metrics.js:22 | with no qualifying incident the figure is 0 |
| `Metrics.MttxOrderFree` | src/metrics.js:22 | the figure depends only on the multiset of lags |
| `Metrics.Recent` | src/metrics.js:26 | the recent alerts are at most all of them |
| `Metrics.RecentMultiset` | src/metrics.js:26 | an alert is kept, as often as it occurs, exactly when its time is at or after the window start |
| `Metrics.RecentFrom` | src/metrics.js:26 | every recent alert is one of the alerts |
| `Metrics.CountSeverity` | src/metrics.js:28 | a severity count never exceeds the alerts counted |
| `Metrics.Tally` | src/metrics.js:27-28 | the four severities always have a count |
| `Metrics.TallyMeaning` | src/metrics.js:27-28 | a severity has a count exactly when it is one of the four or some alert carries it, and that count is the number of alerts with it |
| `Metrics.TallySums` | src/metrics.js:27-28 | when every alert carries one of the four severities, their counts add up to the number of alerts |
| `Metrics.CountAlerts` | src/metrics.js:24-30 | the window is echoed; the total counts exactly the alerts at or after now minus the window, each as often as it occurs; each of the four severities counts its recent alerts |
| `Metrics.RecentKeeps` | src/metrics.js:25-26 | the window filter keeps each alert at or after the cutoff as often as it occurs, and no other |
| `Metrics.AlertCountsSum` | src/metrics.js:27-29 | with only the four severities, low + medium + high + critical = total |
| `Metrics.Criticality` | src/metrics.js:31-35 | criticality is NaN (None) exactly when vuln or patch is missing, and otherwise a whole number in 0..100 |
| `Metrics.CriticalityMonotone` | src/metrics.js:31-35 | more vulnerability or less patching never lowers criticality |
| `Metrics.CriticalityStatusOrder` | src/metrics.js:33-34 | healthy <= degraded <= outage for non-negative exposure |
| `Pipeline.Gather` | src/SimpleNetworkDashboard.jsx:245-252 | the bundle has KEV implies Emergency, a window that has not ended, the baseline duration, the due-date bracket, and HA-failover exactly for a network-class SPOF |
| `Pipeline.Evaluate` | src/SimpleNetworkDashboard.jsx:245-263 | there is always a story, and Schedule without a window never happens |
| `Pipeline.SpofFlagsAgree` | src/SimpleNetworkDashboard.jsx:245-249 | the score's SPOF flag and the offline impact's agree |
| `Pipeline.BlockedIffSpofOffNetwork` | src/SimpleNetworkDashboard.jsx:245-258 | the decision is Block exactly for a SPOF that is not a network device |
| `Pipeline.KevIsPatchedNowOrBlocked` | src/SimpleNetworkDashboard.jsx:245-258 | a KEV-listed asset is blocked or patched at once |
| `Pipeline.ScheduledAlwaysFits` | src/SimpleNetworkDashboard.jsx:245-258 | Schedule (Different Window) never comes out, because baselines fit a four-hour window |
| `Pipeline.WindowOfFour` | src/decision/engine.js:105-115 | the suggested window lasts 240 minutes |
| `Pipeline.StoryFollowsDecision` | src/SimpleNetworkDashboard.jsx:255-263 | the story's action word follows the decision's action label |

## Where the code and the documentation differ

The model follows the code in each case:

- The documented end-to-end scenario expects a router that is a SPOF to be
  blocked. The code gives every network-class SPOF the HA-failover method,
  so such a router is never blocked. `Pipeline.BlockedIffSpofOffNetwork`
  states the code's rule.
- The documentation says an unknown asset id has no offline impact. The
  code only short-circuits an empty id. For an unknown id it still compares
  components, and it can report disconnected devices
  (`Simulate.UnknownIdStillDisconnects`).

## Left out

- Simulate.ArticulationPoints: states only necessary conditions for a
  reported vertex (a kept node with two or more neighbours, and two DFS
  children for a root). It does not state that exactly the cut vertices are
  reported; the proof of Tarjan's low-link criterion is not part of this
  model.
- Simulate.Tarjan: same as above; only the DFS invariants are stated.
- Propagation.ComputePropagation: states bounds and reachability (seeds,
  hop distance, `[0, 1]`, the 0.01 floor). It does not state the exact risk
  values the queue order produces.
- Engine.Topo: states only the `[0, 1]` bound. The 0.6/0.4/0.3 weighting
  is in the body and is used through `Engine.ScoreOfCvss`.
- Engine.Weighted: states only the `[0, 1]` bound and monotonicity, not
  the 0.38/0.27/0.25/0.10/0.08 weights.
- Explain.WhenLine: the contract and `Explain.WhenLineFollowsDecision` fix
  which of the three lines is chosen. They do not fix the wording after its
  first letter.
- Explain.Pct: states the shape of the text (0..100 followed by "%"), not
  which number.
- Metrics.Recent: the length bound is all the function states; the meaning
  is in `Metrics.RecentMultiset`.
- Metrics.Criticality: does not tell a `null` score or patch level from a
  missing one, because the asset record has one `None` for both. The source
  coerces `null` to 0 in the arithmetic (a `null` vuln reads as 0, a `null`
  patch level as unpatched) and only `undefined` gives NaN; the model gives
  `None` for both.
- `metricMeanCVSS` is left out: it calls `d3.mean`, a library not part of
  this model.
- IEEE floating point is left out, because numbers are exact reals:
  - NaN and Infinity exist only as `None` (Criticality's missing inputs,
    the Infinity of `metricETA`, the non-finite samples of the duration
    history);
  - rounding error is not modelled.
- Integer widths: JavaScript numbers are doubles, so large integers lose
  precision in the source but not in the model.
- Local time is left out:
  - windows are built on UTC day boundaries (weekday `(d + 4) % 7`, day 0 =
    1970-01-01, a Thursday);
  - daylight saving and the time zone are not modelled;
  - the source starts the window days from the current hour's start, which
    falls on the same day.
- Rendering is left out: `toLocaleString`, `toLocaleTimeString` and the
  number-to-text of the CVSS score are opaque functions of `Explain.Locale`.
- The first Patch Now note, which quotes the due date in local time, is not
  modelled. Only the second note (`urgencyNote`) is.
- `new Date()` is read more than once in the source. The model uses one
  clock reading `now` for the whole evaluation.
- String order compares characters by code point. JavaScript compares UTF-16
  code units, which differ only for characters outside the Basic
  Multilingual Plane.
- Case-insensitive matching folds ASCII letters only. JavaScript's `/i`
  also folds other scripts.
- JavaScript `Map`/`Set` iteration order is left out: maps and sets are
  unordered, and the adjacency and id lists use the node order.
- The alert-count object spreads the counts between `windowMin` and `total`.
  A severity literally named "windowMin" or "total" would collide; the model
  keeps the counts in their own map.
- Falsy KEV due dates (`.filter(Boolean)`) are not modelled: a due date in
  the intel map is always a clock reading.
- Prototype keys are not modelled: a device type such as "constructor" would
  find an inherited entry in `BASELINE`, which the model's table lookup does
  not.
- The `asset.epss` and `asset.vuln` fallbacks of `explainForHumans` are not
  modelled, because the pipeline's bundle always carries a complete
  explanation. The fallback text for an unknown method is not modelled
  either, because `Plan.Method` has only the five known methods.
- The dashboard passes an empty intel object. The model takes any intel
  (KEV set, KEV due dates, EPSS and business-impact maps).
- The rest of the dashboard is not part of this model: React components,
  charts, topology rendering and mock data.
