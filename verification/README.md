# Verified model of the smart-money falsifier

The program reads a list of smart-money trades, asks a paid API who funded each
wallet and where each token is flowing, and gives every token one verdict: are
its buyers independent, and is someone handing out on an exchange meanwhile? It
also ranks the wallets, measures how far each token moved, and keeps the paid
calls inside a rate limit and a credit floor.

This project models that program in Dafny and proves what it promises.

| file | models |
|---|---|
| `Order.dfy`, `Reals.dfy` | the string order, `sort.Slice`, permutations; a few laws of real arithmetic |
| `FunderGraph.dfy` | what a cluster *is*: a connected component of the funder graph |
| `UnionFind.dfy` | the `parent` array with path compression, over a ghost forest |
| `Clusters.dfy` | the collapse result, and why it does not depend on any order |
| `Collapse.dfy` | `Cluster`: index, unite, group, explain, sort |
| `Verdict.dfy`, `Falsifier.dfy` | the decision table, the signal floor, and what each verdict claims about the buyers |
| `Census.dfy` | the whole-universe funder census |
| `Rank.dfy`, `Concentration.dfy`, `Score.dfy` | rank normalisation, the Herfindahl index, the wallet ranking |
| `Move.dfy` | entry price and price move |
| `RateLimit.dfy`, `Credits.dfy`, `Pool.dfy` | the token buckets, the credit ledger, the worker pool, as step systems |
| `Canonical.dfy`, `Reader.dfy` | canonical request text, cache key, cache; a JSON reader to check the text against |
| `Universe.dfy`, `Report.dfy`, `Outcomes.dfy` | the universe a seed implies, its cut, the token report from the calls' outcomes, and what it says in terms of them |
| `Cohort.dfy` | what a run hands to the ranking and the census |
| `Calls.dfy`, `Bodies.dfy`, `Plan.dfy` | the requests of a run, their paths and bodies, and the dry-run plan that prices them |

## How it is modelled

- A Go map that is ranged over becomes a loop that removes an arbitrary element
  from a set of keys, so every result below holds for every iteration order.
- `sort.Slice` is a method of which only "some sorted permutation" is known.
- Code under a mutex is one atomic step. A run of any number of goroutines is a
  sequence of such steps, in any order: `RateLimit.After`, `Credits.AfterLedger`,
  `Pool.After`. The token bucket's method is tied to the same step function, and
  so are the three balance operations of the credit client (`Credits.NextLedger`).
  The pool is a step system only.
- The outcome of every call is fixed in advance (`Report.Inputs`), as in offline
  mode; which worker finishes first is left open. A worker that looks up a wallet
  that is not there ends the run (`crashed`).
- What a function of the model means is also said without it: from the listings,
  trades, replies and attempts themselves (`Outcomes.VerdictFromOutcomes`,
  `Score.RankingMeans`, `Credits.AttemptsMean`), or through an independent
  counterpart, as the JSON reader of `Reader.dfy` is for the canonical text.
- Money, prices and scores are exact reals. `log1p` is any strictly increasing
  function that is 0 at 0. The never-seen recency, minus infinity in the code,
  is a constructor of its own.

## What was found

Places where the code and what is said about it differ, each with a lemma that
shows it and the exact condition under which the code does what is said:

- **A balance told by a 200 whose body could not be read is counted twice.**
  The header is stored (`internal/nansen/client.go:264-267`) before the read
  error is looked at, and a call that then fails gives its reservation back on
  top: `Credits.UnreadReplySpoils`. `Credits.GuardedCallIsExactIff` says exactly
  when a guarded call leaves the right balance, and
  `Credits.FloorHoldsAfterCallIff` that the floor holds in every clean serial
  run after a call exactly when that call was not of this kind.
- **A balance told while other calls are in flight erases their reservations**,
  and the floor is then passed: `Credits.ToldBalanceErasesReservations`.
  `Credits.ToldIsSafeIff` says that telling the server's own balance is safe for
  every interleaving that follows exactly when nothing chargeable is in flight.
- **"n per second" is not a bound on any window.** A full bucket plus its refill
  gives 2n in one second: `RateLimit.BurstIsTwiceTheRate`. It bounds every such
  window exactly when the window opens with less than one token:
  `RateLimit.WindowHoldsIff`, at k = 0.
- **The distance from the peak can be negative**, when a bar closes above every
  recorded high: `Move.FromPeakCanBeNegative`. `Move.MoveMeaning` says exactly
  when it is not, and `Move.BarsGiveFromPeak` that well-formed bars suffice.
- **A worker's item is split at the first bar**, so a wallet whose address holds
  one is never asked about under its own name: `Calls.SplitUndoesJoinIff`,
  `Report.AskedIsTradedIff`. The worker finds another wallet, or none, and then
  dereferences a missing record.
- **A self-funded buyer** is not merged with anyone, but can be named as the
  buyer a group collapsed through although another buyer did the funding:
  `Clusters.SelfFundedIsNamed`. The name is of a buyer that funded another
  exactly when that buyer does not list itself: `Clusters.ViaFundedAnotherIff`.

## Model

| member | source | states |
|---|---|---|
| `UnionFind.UnionFind.constructor` | internal/score/cluster.go:92-95 | Every element starts as its own root. |
| `UnionFind.UnionFind.Find` | internal/score/cluster.go:96-102 | Terminates on any forest, answers the element's root, and compresses without changing any element's root. |
| `UnionFind.UnionFind.Union` | internal/score/cluster.go:103-108 | Joins exactly the two trees, keeps the links acyclic, and logs the pair. |
| `UnionFind.RepIsWhereTheLinksLead` | internal/score/cluster.go:92-108 | In a forest the parent links from every element end at the root the ghost state names for it. |
| `UnionFind.LinkKeepsForest` | internal/score/cluster.go:103-108 | Hanging one root under another keeps the array acyclic. |
| `UnionFind.CompressKeepsForest` | internal/score/cluster.go:97-102 | Pointing an element straight at its root keeps the array acyclic and moves no other root. |
| `UnionFind.JoinRemovesOneRoot` | internal/score/cluster.go:103-108 | A union of two different roots leaves exactly one root fewer. |
| `UnionFind.ReplayRoots` | internal/score/cluster.go:103-108 | Starting from single elements, any sequence of unions leaves as many roots as elements less the unions that joined two different roots. |
| `FunderGraph.LinkedIffSameComponent` | internal/score/cluster.go:110-132 | Two buyers are linked by a chain of edges exactly when they have the same component. |
| `FunderGraph.ComponentsPartition` | internal/score/cluster.go:134-147 | The components are non-empty, disjoint and cover the buyers. |
| `FunderGraph.AsManyComponentsAsNodesIffNoEdges` | internal/score/verdict.go:66-70 | M == N exactly when no edge joins two different buyers. |
| `FunderGraph.OneComponentIffAllLinked` | internal/score/verdict.go:66-70 | M == 1 exactly when every two buyers are linked. |
| `FunderGraph.MoreDataOnlyCoarsens` | internal/score/cluster.go:110-132 | Adding funder edges can merge components and never splits or adds one. |
| `Clusters.ClusteringIsDetermined` | internal/score/cluster.go:140-212 | N, M, Covered and the ordered lists of member addresses depend only on the funder graph and on who was checked. |
| `Clusters.ReorderingKeepsTheGraph` | internal/score/cluster.go:83-132 | Reordering buyers or their funder lists changes neither. |
| `Clusters.ReorderingChangesNothing` | internal/score/cluster.go:77-213 | So the result is the same for every permutation of buyers and of their funder lists. |
| `Clusters.ClusterCount` | internal/score/cluster.go:212 | M is the number of connected components. |
| `Clusters.SameGroupIffLinked` | internal/score/cluster.go:134-147 | Two buyers are in one listed group exactly when a chain of shared funders and funding links them, and each buyer is in exactly one group. |
| `Clusters.EdgeIffTied` | internal/score/cluster.go:110-132 | Listing by listing: two buyers have an edge exactly when they list a funder in common or one lists the other. |
| `Clusters.LargestFirst` | internal/score/cluster.go:205-210 | Groups come largest first, equal sizes by the first member's address, and members by address. |
| `Clusters.MarkedIff` | internal/score/cluster.go:149-155 | A group is marked as lacking funder data exactly when it is one buyer that was not checked. |
| `Clusters.CoveredCounts` | internal/score/cluster.go:84-89 | Coverage is the number of checked buyers. |
| `Collapse.IndexFunders` | internal/score/cluster.go:110-117 | The owner lists hold exactly the buyers that name each funder, in increasing order when no buyer repeats a funder. |
| `Collapse.UniteSharers` | internal/score/cluster.go:118-122 | After the walk, in any order, all sharers of a funder are in one tree, and trees never leave a component. |
| `Collapse.UniteFunded` | internal/score/cluster.go:124-132 | After it the trees are exactly the components. |
| `Collapse.TogetherIffLinked` | internal/score/cluster.go:103-132 | A partition that joined every edge and only along edges is the partition into components. |
| `Collapse.GroupByRoot` | internal/score/cluster.go:134-138 | One list per root, holding exactly the indices of its tree in increasing order. |
| `Collapse.UniteAndGroup` | internal/score/cluster.go:92-138 | The groups are the components, one per root, as many as the buyers less the joining unions, and every union asked for follows an edge. |
| `Collapse.FindShared` | internal/score/cluster.go:164-186 | Names a funder claimed by two members if there is one, with the last label that a claimant among the members attached. |
| `Collapse.FindVia` | internal/score/cluster.go:189-201 | For the first member whose first listed member-funder has a non-empty address, that address; nothing if there is none. |
| `Clusters.ViaExplains` | internal/score/cluster.go:189-201 | Where a member funded a member, nobody shares a funder and no address is empty, the name is the first funder, in member and list order, that is a member. |
| `Clusters.ViaFundedAnotherIff` | internal/score/cluster.go:48-51 | The named buyer funded another member exactly when it does not list itself as its own funder. |
| `Clusters.SelfFundedIsNamed` | internal/score/cluster.go:189-201 | A concrete group in which the named buyer funded only itself, while another member funded it. |
| `Collapse.SomeMemberFunded` | internal/score/cluster.go:157-201 | In a group of two or more without a shared funder, some member funded another. |
| `Collapse.SharersAreMembers` | internal/score/cluster.go:157-188 | A funder shared inside a group is named by no buyer outside it. |
| `Collapse.ExplainGroup` | internal/score/cluster.go:157-201 | Every group of two or more gets exactly one of the two explanations: a funder that two members share, with the last label a member gave it, or the first funder in member and list order that is a member, in a group where nobody shares. |
| `Collapse.BuildGroup` | internal/score/cluster.go:141-203 | A tree becomes a group whose members are its component in address order, marked as lacking funder data exactly when it is one unchecked buyer. |
| `Collapse.SortedIsClustering` | internal/score/cluster.go:205-212 | Any sorted permutation of the groups is strictly ordered by size and first address. |
| `Collapse.Cluster` | internal/score/cluster.go:77-213 | For buyers with distinct addresses the result lists the connected components once each and in order, with true explanations that name the first member-funder or a shared funder with its last label. The unions it asked for all follow edges, and M is N less those that joined two different roots. |
| `Falsifier.Counts` | internal/score/verdict.go:64-77 | What M == N, M == 1 and full coverage say about the buyers, and 1 <= M <= N, Covered <= N. |
| `Falsifier.NoEdgesIffNothingShared` | internal/score/cluster.go:110-132 | No edges means no two buyers share a funder and none was funded by another. |
| `Falsifier.EveryVerdictIff` | internal/score/verdict.go:97-134 | Each of the nine verdicts, through the floor, exactly when it is given in terms of the buyers and the market. |
| `Falsifier.ConfirmedIff` | internal/pipeline/pipeline.go:369-381 | CONFIRMED exactly for three or more buyers, all checked, none sharing or funding, an observed exchange side without exit, and enough bought. |
| `Falsifier.MoreDataKeepsCollapse` | docs/DESIGN.md:72-73 | Absent data never manufactures a collapse: with more edges THIN and BOTH stand, CONCENTRATED stays or becomes THIN, and M never rises. |
| `Falsifier.UncheckedDataCannotRetractIndependence` | docs/DESIGN.md:75-80 | Absent data never manufactures independence: filling in the unchecked buyers cannot retract a verdict that asserted it. |
| `Census.ComputeFunderCensus` | internal/score/cluster.go:236-273 | Every funder once with the number of wallets that name it and the first non-empty label any wallet attached, most named first, and the counts of all and of shared funders. |
| `Census.CensusRows` | internal/score/cluster.go:236-273 | Row by row, from the listings: the number of wallets that list the funder, the label of the first wallet to give one where it first lists it, and the order by count and then address. |
| `Census.TallyWallet` | internal/score/cluster.go:238-255 | A wallet counts once towards each of its funders, however often it lists one. |
| `Census.NoneSharedIff` | internal/score/cluster.go:257-263 | The shared count is zero exactly when no two wallets have a funder in common. |
| `Census.CensusConserves` | internal/score/cluster.go:238-273 | The rows' wallet counts add up to the wallets' distinct funders. |
| `Census.CensusIsDetermined` | internal/score/cluster.go:236-273 | Reordering the wallets, and each wallet's funders, changes no count and no place in the list. |
| `Rank.RankNormalize` | internal/score/score.go:305-360 | Element i gets (2·lower + tied - 1) / (2·(n - 1)), with 0.5 for one value and for all equal, whatever the sort did among ties. |
| `Rank.ScatterRanks` | internal/score/score.go:346-358 | The nested loops find maximal tie runs and write each run's average rank back to where its values came from. |
| `Rank.RunNorm` | internal/score/score.go:349-355 | The average rank of a maximal tie run is the counted rank of its value. |
| `Rank.NormMeans` | internal/score/score.go:346-358 | A rank is twice the number of lower values plus the number of ties less one, over twice the number of others; 0.5 alone. |
| `Rank.AllEqualNorm` | internal/score/score.go:332-344 | The all-equal shortcut agrees with the general rule. |
| `Rank.NormInUnit` | internal/score/score.go:296-304 | Every rank is in [0, 1]. |
| `Rank.NormKeepsOrder` | internal/score/score.go:296-304 | Ranks keep order strictly and tie exactly on ties; different values differ by at least 1/(n - 1), so no outlier saturates the rest. |
| `Rank.NormIgnoresScale` | internal/score/score.go:296-301 | Ranks are unchanged by any strictly increasing rescaling. |
| `Rank.NormsSumToHalf` | internal/score/score.go:346-358 | The ranks of a cohort sum to n/2. |
| `Rank.CountsOfPermutation` | internal/score/score.go:305-360 | The rank of a value does not depend on the order of the cohort. |
| `Concentration.TotalsByToken` | internal/score/score.go:259-264 | The map holds exactly the bought tokens with what was spent on each. |
| `Concentration.ConcentrationRaw` | internal/score/score.go:255-274 | The loop over the map, in any order, gives the sum of squared shares. |
| `Concentration.HerfindahlIsSquaredShares` | internal/score/score.go:266-273 | The index is the sum of the squared shares of the tokens bought, listed once each in any order, and 0 when nothing of value was bought. |
| `Concentration.TotalsAdd` | internal/score/score.go:259-264 | Totals add up over any split of the trades, one trade counting its value under its own token. |
| `Concentration.HerfindahlBounds` | internal/score/score.go:252-274 | Between 1/k for k tokens and 1, and 1 exactly when one token holds all the value. |
| `Score.DistributionPenalty` | internal/score/score.go:206-218 | The share of the value bought that sits in flagged tokens. |
| `Score.ClusterSizes` | internal/score/score.go:137-149 | Each wallet gets the size of its connected component in the cohort. |
| `Score.PenaltyGrows` | internal/score/score.go:226-236 | The cluster penalty grows with size, is 0 exactly up to 2 and 1 exactly from 10. |
| `Score.ScoreMeaning` | internal/score/score.go:100-121 | No worse on anything scores no lower; a clean wallet's score is the weighted mean of its ranks; penalties cost at most a quarter; 1 exactly for top ranks without penalty. |
| `Score.StandingInUnit` | internal/score/score.go:151-172 | Every signal a score is made of lies in [0, 1]. |
| `Score.ScoreWallets` | internal/score/score.go:127-201 | One row per wallet, strictly ordered by score and then address. |
| `Score.RankingMeans` | internal/score/score.go:151-201 | On the rows: a norm is higher exactly for the higher clamped win rate, PnL or concentration, and for the later last trade, times after the reference counting as it and a wallet never seen last; the score is the weighted norms less 0.15 of the distributing share and the linear cluster penalty, clamped; rows go by score, then address. |
| `Score.RankingIsDetermined` | internal/score/score.go:127-201 | The same sequence for every order of the wallets, of each wallet's funders and of the tokens. |
| `Score.RankingListsEveryWallet` | internal/score/score.go:168-192 | Each input wallet exactly once, with a score in [0, 1]. |
| `Cohort.RankRun` | internal/pipeline/pipeline.go:575-600 | The wallets handed to the ranking are one for each wallet of the universe, with what its outcomes say, and the tokens one for each token with its flow; the ranking and the census are made of them. |
| `Cohort.OneRankingPerRun` | internal/pipeline/pipeline.go:428-711 | With outcomes fixed, any two runs give the same ranking, whatever the interleaving and the map orders. |
| `Cohort.OneCensusPerRun` | internal/pipeline/pipeline.go:428-711 | And the same census up to labels. |
| `Score.PnLNormIgnoresLog` | internal/score/score.go:156-164 | The PnL rank is the same with and without the signed logarithm. |
| `Score.SignedLogIncreases` | internal/score/score.go:276-281 | The signed logarithm is strictly increasing across zero. |
| `Move.EntryPrice` | internal/score/move.go:36-49 | The value-weighted mean of the usable fills, and none exactly when there is no usable fill. |
| `Move.FillsAdd` | internal/score/move.go:36-49 | What was spent and bought adds up over any split of the purchases; one without a price counts nothing. |
| `Move.EntryIsBetweenFills` | internal/score/move.go:36-49 | The entry lies between the cheapest and the dearest fill. |
| `Move.ComputeMove` | internal/score/move.go:55-92 | A move exactly when there is a fill, a positive high and a positive close; its entry times the amount bought is what was spent, its peak is the highest fill price or high, and its close is that of the last bar with a positive one. |
| `Move.PeakIsReached` | internal/score/move.go:60-81 | The peak is the price of a fill or the high of a bar. |
| `Move.HighsBelowPeak` | internal/score/move.go:71-77 | No traded high is above the peak. |
| `Move.MoveMeaning` | internal/score/move.go:85-91 | The peak is at or above the entry, the figures agree, and the token is at or below its peak exactly when a fill or a high reached the latest close. |
| `Move.BarsGiveFromPeak` | internal/score/move.go:85-91 | If each close has a high at or above it in its bar, the distance from the peak is in [0, 1). |
| `Move.FromPeakCanBeNegative` | internal/score/move.go:70-90 | Without that it can be negative: a concrete input. |
| `RateLimit.TokenBucket.constructor` | internal/nansen/ratelimit.go:19-27 | A bucket starts full. |
| `RateLimit.TokenBucket.TryTake` | internal/nansen/ratelimit.go:32-48 | One locked section: refill, clamp, take a token or learn a positive sleep. |
| `RateLimit.SectionMeans` | internal/nansen/ratelimit.go:32-48 | What a locked section finds is what was left and what time brought, up to the capacity; it grants exactly when a whole token is there, and takes one. |
| `RateLimit.TokenBucket.Wait` | internal/nansen/ratelimit.go:30-60 | A caller makes locked sections until one grants, and takes exactly one token. |
| `RateLimit.SleepIsExact` | internal/nansen/ratelimit.go:42-51 | A refused caller that is alone is granted at its next reading exactly when the computed sleep has passed. |
| `RateLimit.RunWithinAllowance` | internal/nansen/ratelimit.go:30-60 | For any interleaving and any clock: tokens in [0, capacity], `last` never goes back, grants within tokens plus rate times time, from any state on. |
| `RateLimit.GrantsInWindow` | internal/nansen/ratelimit.go:30-60 | A window of the bucket's refill time grants at most its capacity plus the tokens there as it opens. |
| `RateLimit.WindowHoldsIff` | internal/nansen/ratelimit.go:70-78 | For any k, every such window grants at most capacity plus k exactly when it opens with fewer than k + 1 tokens; so it keeps to the rate exactly when it opens with less than one. |
| `RateLimit.BucketsRefill` | internal/nansen/ratelimit.go:70-78 | The two buckets of a limiter refill in one second and in one minute. |
| `RateLimit.BurstIsTwiceTheRate` | internal/nansen/ratelimit.go:70-78 | A full bucket of n per second grants 2n within a second: a concrete schedule. |
| `RateLimit.CompletionsWithinBoth` | internal/nansen/ratelimit.go:80-85 | From any state, completions of the two-bucket wait stay within the minute allowance, and within the second allowance plus the callers already parked. |
| `RateLimit.LimiterObeysBothCaps` | internal/nansen/ratelimit.go:62-85 | Since start, completions obey both caps. |
| `RateLimit.CapsAreMet` | internal/nansen/ratelimit.go:80-85 | The caps are met: as many callers as the smaller bucket holds all complete at the start without waiting. |
| `Credits.Client.ReserveCredits` | internal/nansen/client.go:92-103 | Refuses exactly when the balance is known and would pass the floor, deducts exactly when it reserves: the ledger's step. |
| `Credits.Client.ReleaseReservedCredits` | internal/nansen/client.go:105-109 | Adds the reservation back: the ledger's step for a failed call. |
| `Credits.Client.SetCreditsRemaining` | internal/nansen/client.go:74-78 | Overwrites the balance: the ledger's step for a balance told. |
| `Credits.Client.DoHTTP` | internal/nansen/client.go:197-295 | Succeeds exactly when some attempt is a fully read 200 and all before it were network errors, unread replies, 429s or statuses of 500 and more; the balance left is the last one a 200 told among the attempts made, or the old one. |
| `Credits.AttemptsMean` | internal/nansen/client.go:206-295 | The same of the attempts in general: which run gets through, how many are made, which balance is left. |
| `Credits.Client.Do` | internal/nansen/client.go:134-186 | Cache, offline, expense and floor refusals leave the balance alone. Otherwise the outcome is that of the attempts, status by status, then of decoding and storing; the balance is what they tell, less the reservation, which is given back on failure only. |
| `Credits.GuardedCallIsExactIff` | internal/nansen/client.go:162-185 | With one call in flight and exact headers, the balance is right after the call exactly when it does not end on a balance told by an unread 200; otherwise it is too high by the cost. |
| `Credits.StepStaysInStepIff` | internal/nansen/client.go:162-185 | Guarded or not, a call from a right balance leaves it right or unknown exactly when it does not spoil it, and too high by its cost otherwise. |
| `Credits.SerialRunStaysAboveFloor` | internal/nansen/client.go:87-109 | Over any serial run whose calls do not spoil the balance, the client's balance is the server's or unknown, and no guarded call leaves the server below the floor. |
| `Credits.FloorHoldsAfterCallIff` | internal/nansen/client.go:87-109 | After a call from a right balance, every further clean serial run keeps guarded calls above the floor exactly when that call did not spoil the balance. |
| `Credits.UnreadReplySpoils` | internal/nansen/client.go:258-269 | The server's true balance on an unread 200 is enough to spoil it: a concrete call. |
| `Credits.LedgerConserves` | internal/nansen/client.go:92-109 | Between balances told, under any interleaving: remaining plus held plus spent is constant, and a balance at or above the floor stays there. |
| `Credits.ExactToldKeepsSolventIff` | internal/nansen/client.go:264-267 | Telling the server's own balance leaves the server able to pay for what is in flight and for what the client believes remains exactly when nothing chargeable is in flight. |
| `Credits.ServerStaysAboveFloor` | internal/nansen/client.go:87-109 | For any interleaving in which balances are told exactly and with nothing chargeable in flight, the server never goes below the floor. |
| `Credits.ToldIsSafeIff` | internal/nansen/client.go:264-267 | After the server's own balance is told, every interleaving without a further one keeps the server above the floor exactly when nothing chargeable was in flight. |
| `Credits.ToldBalanceErasesReservations` | internal/nansen/client.go:264-267 | A concrete schedule of three calls in which a balance told mid-flight takes the server below the floor. |
| `Pool.BalanceIsLedger` | internal/nansen/client.go:92-109 | Reserving, giving back, spending and being told a balance move the pool's balance as they move the credit ledger's. |
| `Pool.NextKeepsInv` | internal/pipeline/pipeline.go:741-769 | Every step of the pool and its workers, with or without a reservation, before or after a balance was told, keeps the pool's invariant. |
| `Pool.PoolIsBounded` | internal/pipeline/pipeline.go:731-769 | For any interleaving: at most Concurrency calls in flight, never two while the balance is unknown, and on return all started work is finished and, if not cancelled, every item was started. |
| `Pool.PoolCanReturn` | internal/pipeline/pipeline.go:741-769 | The pool never gets stuck: every run can be continued to the return, with all started work finished, and every item started if not cancelled. |
| `Pool.ConcurrencyIsReached` | internal/pipeline/pipeline.go:752-768 | The bound is met: with the balance known, Concurrency items get to be in flight at once. |
| `Pool.ItemsOnlyMoveOn` | internal/pipeline/pipeline.go:741-769 | No item is started twice or moves backwards. |
| `Pool.BalanceStaysKnown` | internal/nansen/client.go:92-109 | A known balance stays known, given a non-negative floor and headers. |
| `Pool.ReturnedIsFinal` | internal/pipeline/pipeline.go:752-769 | After return nothing is started or finished. |
| `Canonical.MarshalCanonical` | internal/nansen/cache.go:82-126 | The appended bytes are the canonical text: members in key order at every level, whatever order the map gave. |
| `Canonical.MarshalObject` | internal/nansen/cache.go:84-108 | The same for an object, whose keys come out of the map in any order. |
| `Canonical.MarshalArray` | internal/nansen/cache.go:109-122 | The same for an array. |
| `Canonical.EscapeSplits` | internal/nansen/cache.go:95-99 | No character's escape is confused with another's continuation. |
| `Canonical.StringSplits` | internal/nansen/cache.go:95-99 | A string literal followed by anything can be split off in one way only. |
| `Canonical.PrintSplits` | internal/nansen/cache.go:82-126 | A value's text followed by the end or a delimiter can be split off in one way only. |
| `Canonical.CanonIffSame` | internal/nansen/cache.go:67-80 | Sorting members makes two values equal exactly when they are equal up to member order. |
| `Canonical.SameTextIffSameValue` | internal/nansen/cache.go:67-126 | Two values have the same text exactly when they are equal up to member order. |
| `Reader.CanonicalTextReadsBack` | internal/nansen/cache.go:67-126 | The text is JSON: a reader after RFC 8259 takes it to its end and gets the same value back, members by ascending key at every level. |
| `Reader.ValueReadsBack` | internal/nansen/cache.go:82-126 | Any value's text followed by the end or a delimiter reads back as the value, and reading stops there. |
| `Reader.CanonicalTextIsSafe` | internal/nansen/cache.go:95-99 | The text holds no control character and none that HTML would take for its own. |
| `Canonical.SameKeyIffSameRequest` | internal/nansen/cache.go:23-34 | For brace-free paths and object bodies, keys agree exactly when path and body agree. |
| `Canonical.Cache.Get` | internal/nansen/cache.go:46-53 | Answers what was stored under the request's key, if anything. |
| `Canonical.Cache.Put` | internal/nansen/cache.go:55-65 | Stores under the request's key and changes nothing else. |
| `Canonical.PutAnswersOnlyItsRequest` | internal/nansen/cache.go:41-65 | A stored response answers the same request, with any member order, and no other. |
| `Bodies.KeysTellRequestsApart` | internal/nansen/cache.go:23-34 | Two requests a run can make have the same cache key exactly when they are the same request. |
| `Bodies.SameBodySameRequest` | internal/nansen/types.go:28-220 | Among requests to one endpoint, bodies equal up to member order are of the same request. |
| `Universe.DeriveUniverse` | internal/pipeline/pipeline.go:159-207 | The loop over the trades gives the derived universe. |
| `Universe.DerivedMeans` | internal/pipeline/pipeline.go:178-206 | A wallet per trader with exactly its purchases in order, its chains, its latest trade and its last label; tokens named by their keys, every purchase among them. |
| `Universe.DerivedTokens` | internal/pipeline/pipeline.go:163-176 | Exactly one token per side traded. |
| `Universe.TokenIffTraded` | internal/pipeline/pipeline.go:163-176 | A token for each chain and address that a side of some trade names, and no other. |
| `Universe.DerivedMeets` | internal/pipeline/pipeline.go:163-176 | Each token has the chain and address it was first met with, and the first symbol it came with. |
| `Universe.PurchasesAdd` | internal/pipeline/pipeline.go:197-202 | A wallet's purchases add up over any split of the seed. |
| `Universe.RankWallets` | internal/pipeline/pipeline.go:64-81 | All wallets, by value bought and then address. |
| `Universe.LimitUniverse` | internal/pipeline/pipeline.go:59-95 | Keeps the wallets that bought most and exactly the tokens they bought, or everything when there is no limit to apply. |
| `Universe.LimitMeans` | internal/pipeline/pipeline.go:59-95 | Whoever is kept bought more than whoever is not, or as much and has the smaller address; a token is kept exactly when a kept wallet bought it. |
| `Universe.LimitIsDetermined` | internal/pipeline/pipeline.go:55-58 | Two cuts of one universe are equal, whatever the map order. |
| `Universe.LimitKeepsConsistent` | internal/pipeline/pipeline.go:83-94 | After the cut every kept purchase still has its token. |
| `Calls.SplitUndoesJoinIff` | internal/pipeline/pipeline.go:124-132 | Splitting undoes joining exactly for addresses without a bar. |
| `Report.AskedIsTradedIff` | internal/pipeline/pipeline.go:428-476 | Each wallet is asked about on exactly the chains it traded on if and only if no address holds a bar. |
| `Report.FetchRelated` | internal/pipeline/pipeline.go:428-487 | Crashes exactly when a worker's item names no wallet; otherwise, for any finishing order, each wallet holds the replies of all chains asked under its name, and counts as checked exactly when all of them answered. |
| `Report.HandleKeepsMerged` | internal/pipeline/pipeline.go:468-487 | One worker's reply merges into its own wallet and no other. |
| `Report.FirstFunders` | internal/pipeline/pipeline.go:557-568 | Exactly the first-funder addresses, each as it is first named and in that order. |
| `Report.WalletFor` | internal/pipeline/pipeline.go:575-593 | The wallet carries exactly the seed's label, the PnL, and the funders, labels and coverage that its outcomes give. |
| `Report.IndexWallet` | internal/pipeline/pipeline.go:606-614 | Every trade adds to its token's value; the wallet is listed once under each token it bought. |
| `Report.IndexBuyers` | internal/pipeline/pipeline.go:602-615 | For any map order, each token lists its buyers once and sums what they spent on it. |
| `Report.BuildRow` | internal/pipeline/pipeline.go:618-667 | A row clusters exactly the token's buyers with what their outcomes say, and judges them. |
| `Report.BuildReports` | internal/pipeline/pipeline.go:617-679 | Unless a worker crashes, one row per token, strictly ordered by severity, buyers and key. |
| `Outcomes.ReportIsDetermined` | internal/pipeline/pipeline.go:428-679 | With outcomes fixed, any two runs report the same order, verdicts, N, M, coverage, value, groups and members' figures, whatever the interleaving and the map orders. |
| `Outcomes.VerdictFromOutcomes` | internal/pipeline/pipeline.go:428-667 | Each of the nine verdicts, exactly when it is given in terms of the raw calls: who bought, which calls succeeded, which first funders they named, the flows of the first row, what was spent. |
| `Outcomes.RowFromOutcomes` | internal/pipeline/pipeline.go:602-667 | N, coverage and who is grouped with whom, from the raw calls. |
| `Outcomes.MembersCarry` | internal/pipeline/pipeline.go:620-633 | Each listed member shows its label, PnL, funders and coverage as its calls gave them. |
| `Outcomes.RowsInOrder` | internal/pipeline/pipeline.go:383-405 | Rows go by concern, verdict by verdict, then by the number of buyers, then by key. |
| `Outcomes.OnlyRepliesMatter` | internal/pipeline/pipeline.go:428-679 | The report depends on the replies to what was asked and on nothing else. |
| `Outcomes.ConfirmedFromOutcomes` | internal/pipeline/pipeline.go:411-671 | CONFIRMED, from raw call outcomes to the row, exactly when every call for every buyer succeeded and none of the links or exits was found. |
| `Plan.SeedBuys` | internal/pipeline/pipeline.go:346-357 | Each token's fills, in seed order. |
| `Plan.FillsJoin` | internal/pipeline/pipeline.go:346-357 | Fills add up over any split of the seed. |
| `Plan.OneFill` | internal/pipeline/pipeline.go:346-357 | A trade is a fill of its bought side, for its value and the amount bought, and of nothing else. |
| `Plan.MakePlan` | internal/pipeline/plan.go:30-153 | Without a cached seed its one line; with it one line per stage, each pricing that stage's set of requests. |
| `Plan.PnLItem` | internal/pipeline/plan.go:54-68 | Total, cached and new count the set of pnl-summary requests. |
| `Plan.RelatedItem` | internal/pipeline/plan.go:73-89 | The same for one request per wallet and chain. |
| `Plan.TokenItem` | internal/pipeline/plan.go:91-111 | The same for one request per token. |
| `Plan.MoveItem` | internal/pipeline/plan.go:132-151 | The same for every token with a purchase, marked as a ceiling. |
| `Plan.AskRelated` | internal/pipeline/pipeline.go:461-476 | The workers ask once per item, and exactly once about each wallet on each of its chains when no address holds a bar. |
| `Plan.ItemsAreCallsIff` | internal/pipeline/pipeline.go:461-476 | What the workers ask is what the plan prices exactly when no address holds a bar. |
| `Plan.PriceKeys` | internal/pipeline/pipeline.go:304-316 | Exactly the tokens with a verdict and a purchase are priced. |
| `Plan.PricedIff` | internal/pipeline/pipeline.go:304-316 | A token is priced exactly when a row of it has a verdict other than WEAK and the seed has a purchase of it. |
| `Plan.Run` | internal/pipeline/pipeline.go:411-679 | An uncancelled run crashes exactly when a worker's item names no wallet, and otherwise gives a report and makes exactly the requests of its stages; when no trader's address holds a bar it makes each of them once. |
| `Plan.RunCallsMean` | internal/pipeline/pipeline.go:438-521 | Request by request: which ones a run makes, from the wallets, their chains, the tokens, the rows and the seed. |
| `Plan.PlanPricesTheRun` | internal/pipeline/plan.go:26-29 | Every line but the last counts exactly the run's requests and misses of its stage, the last bounds them, and the estimate bounds the credits. |
| `Plan.Perform` | internal/nansen/client.go:134-186 | Requests against the cache: each miss is charged, each success stored, success being what the outcomes say. |
| `Plan.ChargedInProducts` | internal/nansen/client.go:158-166 | The charge is each endpoint's cost times the number of its requests that missed. |
| `Plan.CachedAfterIff` | internal/nansen/client.go:134-186 | After a run a request is cached exactly when it was before, or was asked and its own call got its reply. |
| `Plan.RunIsDetermined` | internal/pipeline/pipeline.go:411-679 | Two runs on one seed with the same replies agree on universe, report and requests. |
| `Plan.RepeatMissesTheFailures` | internal/pipeline/pipeline.go:411-679 | A repeat misses exactly the requests that were not cached and failed in the first run; if none failed it is charged nothing. |

## Left out

- HTTP, disk, JSON decoding, timestamp parsing, environment, command line, call log, HTML and terminal rendering: responses are inputs, the cache is a map, a time is a number of hours or absent.
- SHA-256 and hex: the hash is taken to be injective, so the key is modelled by the text that is hashed.
- UTF-8: texts are sequences of characters, so the byte order of strings and the repair of invalid sequences are not covered. Escapes are those of Go's encoder.
- Floating point: exact reals are used; rounding, NaN and the last-bit effect of summing a map in random order are not covered. JSON numbers are their literals.
- JSON objects with a repeated member: they cannot reach `marshalCanonical`, which is given a decoded map.
- Cancelled runs, for coverage and requests: a call that was never dispatched looks checked, because the flag starts true (`internal/pipeline/pipeline.go:436`). `Pool` covers cancellation of the pool itself.
- Buyers with equal addresses: `Cluster` then keeps one of them in its index. Explanations are proved for non-empty addresses and per-buyer distinct funders, which `Report.WalletFor` provides.
- Which shared funder is named when several qualify: it depends on map order. The order of a wallet's funders, and with it some labels, depends on the schedule.
- Liveness of waiting callers in wall-clock time, timer granularity, and the one-millisecond minimum sleep.
- Backoff jitter, `Retry-After`, and the table of credit costs: costs are parameters.
- The order of the buckets' sleeping callers, and the reading of `time.Now`: clock readings are arbitrary. The ranking's reference time is a parameter.
- Retried attempts against the credit estimate: a request is priced once, as the plan does.
- Symbol, name, liquidity and flow columns of the report, the list of failures, and the attachment of each move to its row: `Move.ComputeMove` is modelled on its own, and `Plan.PriceKeys` says which rows it is asked for.
