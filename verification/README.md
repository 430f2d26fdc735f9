# sidereon NIF boundary: a verified model

sidereon is an Elixir library for satellite orbits and GNSS. Its numerical work is
done by a Rust core; the crate `native/sidereon_nif` is the boundary between the
two. Most of that crate copies fields. This project models the parts that carry
logic of their own, and proves what they promise for every input, every run and
every interleaving of concurrent callers.

| component | modules |
|---|---|
| fusion filters and RTS-history builders behind two kinds of mutex | `FusionCalls`, `FusionMachine`, `FusionRefinement`, `FusionTheorems`, `FusionResources` |
| checkpoint collapse before a filter state is serialized | `Checkpoints` |
| staged XYZ evaluation of a TEC grid, with single-use stages, and the client that drives it | `XyzStages`, `XyzTheorems`, `XyzClient` |
| doubles that may be NaN or infinite, crossing as terms | `Transport`, `Binary64` |
| the exact-product cache: single-flight owner and open-cache guard | `CacheLock`, `CacheTheorems`, `CacheResources` |
| batch slant delays and look-angle grids, split and woven back | `SlantBatch`, `Coverage` |
| a validity bound's seconds, rounded from an exact decimal | `ValiditySeconds`, `Binary64`, `Numerals` |
| product identities as sixteen text fields | `ProductIdentity`, `Numerals` |
| catalog errors as maps | `CatalogErrors` |
| grid samples and their mapping function | `GridSamples` |
| the carrier table grouped by system | `CarrierTable` |

## How it is modelled

**The core is a parameter.** Each component takes a `Core` (or `Catalog`, `Codes`)
of functions about which nothing is known but their types. Where a result needs
more, the need is a named predicate in its contract:

- `XyzStages.Progress`: the number of conversions the core may still ask for goes
  down each time it asks;
- `SlantBatch.OneResultEach`, `Coverage.RowEach`: the core's batch call answers
  each row as its single call does, in order;
- `XyzClient.DividesFinitely`: dividing an integer of a double's range by 1.0 gives a
  finite float;
- `ValiditySeconds.RoundsCorrectly`: `f64` parsing of a decimal whose whole part is
  that of a byte rounds to nearest, ties to even;
  `ValiditySeconds.KeepsFraction`: `SecondFraction::new` keeps the number, which
  it may write with fewer trailing zeros, and refuses exactly what is not below
  one second;
- `ProductIdentity.CodesParse`, `CatalogErrors.Readable`: a code the core gives is
  read back as what it is the code of, by the core's catalog or by the boundary's
  own list (`ProductIdentity.CodesAreForced` says which codes that leaves).

**Concurrency is a transition system.** Any number of calls run over any number of
mutexes; a step is the entry of a call or one atomic action of a call (take a lock,
one write of the core under the lock, drop a guard, work outside the lock). A core
call that panics unwinds through its guards and poisons their mutexes, and its
caller sees the panic as an exception. A run is any sequence of enabled steps, so
a theorem about runs is about every scheduler. `FusionTheorems.Linearizable` is
proved by forward simulation: `FusionRefinement.View` shows what finished calls
left behind, and every step is invisible or is one whole call;
`CacheTheorems.Linearizable` is the same for the cache. That every call returns is
in each machine an instance of `Schedules.EveryScheduleEnds`.

**Objects are classes.** The resources whose methods update them (`FilterResource`,
`BuilderResource`, `TimeSyncState`, `XyzStage`, `ExactCacheOwnerResource`,
`ExactCacheResource`) are classes. Each method is tied to the function that the
component's theorems are about (`Serve`, `RunEnds`, `Evaluation`, `Alone`), so the
theorems speak of these methods.

**A failing property has its exact condition.** Four promises hold only under a
condition that a caller can see, and both directions are proved, with an input at
which the promise fails:

- an identity survives its sixteen fields if and only if no optional text is an
  empty string (`RoundTrip`; `EmptyTextIsLost`);
- samples survive if and only if no `Other` mapping code spells a named one
  (`SamplesRoundTrip`; `SpelledOutIsNamed`);
- an ordered history of finite epochs collapses to a strictly increasing one if and
  only if `0.0` and `-0.0` are never neighbours in it (`CollapseOrdersDoubles`;
  `ZerosStay`);
- the guard is sure to stay in place while reads work if and only if it is there and
  either its mutex is poisoned or no close has been entered (`GuardIsSafe`;
  `ReadCanOutliveGuard`).

## Model

| member | source | states |
|---|---|---|
| `FusionCalls.Execute` | native/sidereon_nif/src/fusion.rs:853-875 | what a call does to the contents it holds keeps each content a filter or a builder, at every intermediate write and at the end |
| `FusionMachine.StepHolders` | native/sidereon_nif/src/fusion.rs:863-870 | one step changes the holder of a mutex only by the stepping call taking it or dropping it |
| `FusionMachine.StepKeepsHolds` | native/sidereon_nif/src/fusion.rs:863-870 | after every step the holder of each mutex is exactly the one call that has taken it and not dropped it |
| `FusionMachine.StepKeepsPoisonIdle` | native/sidereon_nif/src/fusion.rs:863-870 | a poisoned mutex is held only by a call that met the poison and is on its way out |
| `FusionMachine.StepKeepsInv` | native/sidereon_nif/src/fusion.rs:1335-1344 | every step of every call keeps the whole invariant: kinds of contents, lock ownership, poison |
| `FusionRefinement.StepFrame` | native/sidereon_nif/src/fusion.rs:863-874 | a step touches no mutex but those its call holds or is taking |
| `FusionRefinement.QuietStep` | native/sidereon_nif/src/fusion.rs:863-874 | a step in which no call takes effect changes nothing that finished calls show, half-written contents included |
| `FusionRefinement.RunningView` | native/sidereon_nif/src/fusion.rs:863-874 | until a call takes effect, its mutexes show what it found there, unpoisoned |
| `FusionRefinement.PoisonStep` | native/sidereon_nif/src/fusion.rs:863-870 | meeting a poisoned mutex shows as that whole call run alone: nothing changes and the reply is `poisoned_resource` |
| `FusionRefinement.EndStep` | native/sidereon_nif/src/fusion.rs:870-874 | the end of a core call shows, in one step, as that whole call run alone: both contents, poison on a panic, a new resource and the reply |
| `FusionTheorems.Linearizable` | native/sidereon_nif/src/fusion.rs:853-986 | every interleaved run of any calls over any filters and builders has the states and replies of its calls run one at a time in commit order; each call is in that order once if it has decided, and not at all otherwise |
| `FusionTheorems.QuiescentState` | native/sidereon_nif/src/fusion.rs:853-986 | once no call is in flight every call is in the order, every mutex is free, and its real content and poison are those the calls leave one at a time |
| `FusionTheorems.RealTimeOrder` | native/sidereon_nif/src/fusion.rs:853-986 | a call that returned before another was entered takes effect before it |
| `FusionTheorems.ServedWhole` | native/sidereon_nif/src/fusion.rs:853-986 | in every run each call in commit order is that whole call served alone on what the whole calls before it left, and the last of those states is what the mutexes show |
| `FusionTheorems.FinishSeesWholeCalls` | native/sidereon_nif/src/fusion.rs:1246-1261 | in every run a finished history is the core's answer on the builder as the whole calls before it left it, never half a recorded call, and finishing changes no content because it works on a clone |
| `FusionTheorems.PoisonContained` | native/sidereon_nif/src/fusion.rs:1335-1344 | from the moment a mutex is poisoned it stays so, its content never changes again, and every call on it that had not decided by then is answered `poisoned_resource`, whatever runs |
| `FusionTheorems.RecordIsAllOrNothing` | native/sidereon_nif/src/fusion.rs:853-875 | in every run a recorded call that meets a poisoned filter or builder changes no mutex and is refused; otherwise its filter and its builder and nothing else move together to what one core call leaves, and a panic poisons both |
| `FusionTheorems.TurningBackTouchesNothing` | native/sidereon_nif/src/fusion.rs:863-870 | while locking, or turning back from poison, no step changes a content or poisons a mutex |
| `FusionTheorems.WaitingOrder` | native/sidereon_nif/src/fusion.rs:863-870 | a call that waits while holding a lock is a recorded call that holds just its filter; so a holder of a builder waits for nothing |
| `FusionTheorems.NoDeadlock` | native/sidereon_nif/src/fusion.rs:863-874 | in every reachable state with an unfinished call some call can step |
| `FusionTheorems.StepDescends` | native/sidereon_nif/src/fusion.rs:863-874 | every step of a call strictly lowers a well-founded measure |
| `FusionTheorems.EveryCallReturns` | native/sidereon_nif/src/fusion.rs:863-874 | under every infinite schedule there is a moment at which every call has returned |
| `FusionResources.NewFilterResource` | native/sidereon_nif/src/fusion.rs:771-790 | a refused state or configuration makes no resource; otherwise a fresh filter object, unpoisoned, as the call run alone makes it |
| `FusionResources.NewBuilderResource` | native/sidereon_nif/src/fusion.rs:1217-1221 | a fresh empty builder object, unpoisoned, as the call run alone makes it |
| `FusionResources.WithFilter` | native/sidereon_nif/src/fusion.rs:1335-1344 | the filter object and the reply are those of the update run alone, poison and panic included |
| `FusionResources.Recorded` | native/sidereon_nif/src/fusion.rs:853-875 | both objects and the reply are those of the recorded call run alone |
| `FusionResources.BuilderFromFilter` | native/sidereon_nif/src/fusion.rs:1225-1242 | the filter object, the possible new builder object and the reply are those of the call run alone |
| `FusionResources.FinishBuilder` | native/sidereon_nif/src/fusion.rs:1246-1261 | the builder object and the reply are those of the call run alone; the builder itself is not assigned |
| `Checkpoints.TimeSyncState.Dedupe` | native/sidereon_nif/src/fusion.rs:1853-1869 | the loop leaves exactly the last checkpoint of each maximal run of equal epoch bits |
| `Checkpoints.LookupsKept` | native/sidereon_nif/src/fusion.rs:1853-1869 | for every predicate on epochs the last checkpoint that satisfies it is the same before and after the collapse |
| `Checkpoints.FixedPoints` | native/sidereon_nif/src/fusion.rs:1853-1869 | a history is unchanged exactly when no two neighbours share their epoch bits; the collapse is idempotent |
| `Checkpoints.Incremental` | native/sidereon_nif/src/fusion.rs:1853-1869 | collapsing, extending and collapsing again is collapsing once at the end |
| `Checkpoints.CollapseOrders` | native/sidereon_nif/src/fusion.rs:1853-1869 | whatever number a pattern denotes, an ordered history collapses to a strictly increasing one if and only if neighbouring patterns that differ denote different numbers |
| `Checkpoints.SameEpoch` | native/sidereon_nif/src/fusion.rs:1853-1869 | two finite binary64 patterns denote one epoch only if they are one pattern or the two zeros |
| `Checkpoints.CollapseOrdersDoubles` | native/sidereon_nif/src/fusion.rs:1853-1869 | an ordered history of finite epochs collapses to a strictly increasing one if and only if the two zeros are never neighbours in it |
| `Checkpoints.ZerosStay` | native/sidereon_nif/src/fusion.rs:1853-1869 | the history `0.0`, `-0.0` is ordered, is left as it is, and is not strictly increasing |
| `Transport.Canonical` | native/sidereon_nif/src/iono.rs:446-486 | every 64-bit pattern survives the crossing, sign and NaN payload included, and a term is read as a pattern if and only if it is the one that pattern is written as |
| `Transport.CanonicalTriple` | native/sidereon_nif/src/iono.rs:489-510 | the same for triples, whatever name each component is refused under |
| `Transport.NonfinitePatterns` | lib/sidereon/gnss/ionosphere/tec_grid.ex:376-388 | the patterns that are tagged are two intervals: an infinity and the NaNs above it, for each sign |
| `Transport.Doubles` | native/sidereon_nif/src/iono.rs:475-486 | one double is read from exactly the floats and the tagged patterns of NaNs and infinities, as the pattern the term carries, and anything else is refused under its field |
| `Transport.ConversionInOrder` | native/sidereon_nif/src/iono.rs:501-510 | an answer is read as longitude, latitude and altitude if and only if it is the term written from them in that order |
| `Transport.ConversionRefusals` | native/sidereon_nif/src/iono.rs:501-510 | a refused answer is refused under the name of its first component that is no double, or as a whole where it is not three terms |
| `Transport.PositionInOrder` | native/sidereon_nif/src/iono.rs:489-498 | a position is read as x, y and z if and only if it is the term written from them in that order |
| `XyzStages.StepExtends` | native/sidereon_nif/src/iono.rs:551-576 | stages are only added, and a stage never changes its grid or what it was made for |
| `XyzStages.StepKeepsInv` | native/sidereon_nif/src/iono.rs:1833-1853 | every step of every prepare and resume keeps: a full slot was never taken, no two resumes take one stage, and every reply is the core's on the stage's own grid |
| `XyzTheorems.Conservation` | native/sidereon_nif/src/iono.rs:1833-1853 | in every run, convert requests issued = stages made = resumes that took a conversion + stages unanswered |
| `XyzTheorems.SingleUse` | native/sidereon_nif/src/iono.rs:432-434 | in every run at most one resume of a stage gets its conversion; a finished resume is refused as malformed exactly when its answer does not decode, and as consumed exactly when it decodes and another got the stage |
| `XyzTheorems.MalformedLeavesStages` | native/sidereon_nif/src/iono.rs:1838-1838 | a malformed answer is refused at once and leaves every stage as it was, so its stage stays answerable |
| `XyzTheorems.Trampoline` | native/sidereon_nif/src/iono.rs:1798-1853 | in every run, whatever other calls do, a client's chain of requests answered by its converter ends as the direct recursive evaluation on the prepared grid ends, or still has that evaluation ahead of it, or was turned away |
| `XyzTheorems.ChainIsBounded` | native/sidereon_nif/src/iono.rs:1798-1853 | in every run each answer of a chain uses up one of the core's remaining conversions, so a chain has at most that many answers and one more, and then it has its end |
| `XyzTheorems.RepliesOfTheCore` | native/sidereon_nif/src/iono.rs:1798-1853 | in every run, in terms of the core alone: a prepare asks for its conversion's position or passes on the refusal; a resume that took its stage with (lon, lat, alt) says what the core says to that conversion, on that grid, with that answer; an unreadable answer is refused under its own name |
| `XyzTheorems.TurnedAway` | native/sidereon_nif/src/iono.rs:1839-1841 | the one way to be turned away as consumed is that some other resume answered the same stage |
| `XyzTheorems.NeverBlocked` | native/sidereon_nif/src/iono.rs:432-434 | no prepare or resume ever waits for another |
| `XyzTheorems.EveryCallReturns` | native/sidereon_nif/src/iono.rs:1833-1853 | under every infinite schedule there is a moment at which every prepare and resume has returned |
| `XyzClient.XyzStage.TakeConversion` | native/sidereon_nif/src/iono.rs:432-434 | taking hands out what the slot held and leaves it empty |
| `XyzClient.ResumeStage` | native/sidereon_nif/src/iono.rs:1891-1913 | malformed: slot untouched; empty slot: consumed; otherwise one core step, and a further request is a fresh stage on the same grid |
| `XyzClient.CheckedDecodes` | lib/sidereon/gnss/ionosphere/tec_grid.ex:471-514 | an answer the client's check lets through is one the boundary reads, and one the boundary would read passes unchanged |
| `XyzClient.AnswersSpelledOut` | lib/sidereon/gnss/ionosphere/tec_grid.ex:471-514 | for every answer: three acceptable components reach the core in order, an integer as its quotient by 1.0 and any other double as it is; otherwise the first that is not acceptable is complained of, by field where it is an integer out of range |
| `XyzClient.LargestDouble` | lib/sidereon/gnss/ionosphere/numeric.ex:22-23 | the bound on integers is the largest finite double, exactly |
| `XyzClient.CheckedIsProper` | lib/sidereon/gnss/ionosphere/tec_grid.ex:497-514 | the checked term holds no float that is not finite |
| `XyzClient.EvaluationIsDirect` | lib/sidereon/gnss/ionosphere/tec_grid.ex:434-455 | the client's evaluation is the direct evaluation of the checked converter, and rejects exactly where the boundary would have refused |
| `XyzClient.Drive` | lib/sidereon/gnss/ionosphere/tec_grid.ex:434-455 | the loop ends with what the recursive evaluation ends with, the rejection of an answer included; it is never refused as consumed or malformed |
| `CacheLock.StepKeepsInv` | native/sidereon_nif/src/cache_lock.rs:189-327 | every step of every call keeps the value in exactly one place: its slot, or the one call that took it |
| `CacheTheorems.Linearizable` | native/sidereon_nif/src/cache_lock.rs:189-327 | every interleaved run leaves the slot, the poison and the replies that its calls leave when run one at a time in the order in which they take effect |
| `CacheTheorems.RealTimeOrder` | native/sidereon_nif/src/cache_lock.rs:189-327 | a call answered before another was entered comes before it in that order |
| `CacheTheorems.CallsSpelledOut` | native/sidereon_nif/src/cache_lock.rs:189-327 | each of the seven calls run alone: what it leaves in the slot, whether it poisons, and what it answers |
| `CacheTheorems.RepliesAreCandid` | native/sidereon_nif/src/cache_lock.rs:189-327 | in every run a call the core answered passes that answer on, one whose core panicked says so and has poisoned its mutex if it was under the lock, a dropped owner and a taken guard are answered `:ok`, and a refusal is given only for the slot or the mutex being as it says |
| `CacheTheorems.LinearToken` | native/sidereon_nif/src/cache_lock.rs:189-238 | in every run the owner is in its slot exactly when no call has taken it, at most one call ever takes it (so publish and abandon never both), a publish is answered by the core exactly when it was the one, and the core never works on it for two calls at once |
| `CacheTheorems.TakenForGood` | native/sidereon_nif/src/cache_lock.rs:207-238 | once taken, by a publish that then fails too, the owner is gone: no heartbeat runs or starts, no other call gets it, and each later call is told so; for the cache, no publish or cleanup starts after close |
| `CacheTheorems.PoisonStrands` | native/sidereon_nif/src/cache_lock.rs:189-204 | after a panic under the lock the value stays in its slot for good, nothing works on it again, and every later call is refused |
| `CacheTheorems.GuardedWork` | native/sidereon_nif/src/cache_lock.rs:274-313 | a publish, a cleanup or a heartbeat that is past its lock and not decided has the value in place and the mutex as its own |
| `CacheTheorems.ReadSawGuard` | native/sidereon_nif/src/cache_lock.rs:241-251 | a read that reached the core, answered by now or not, saw the guard in place at some moment after it was entered |
| `CacheTheorems.GuardUntilTaken` | native/sidereon_nif/src/cache_lock.rs:241-327 | in every run of cache calls, at every moment and so while any read works, the guard is gone if and only if a close has taken it, which it has at the latest when any close has been answered `:ok`; while no close has been entered it is in place |
| `CacheTheorems.GuardIsSafe` | native/sidereon_nif/src/cache_lock.rs:241-327 | in every reachable state the guard is sure to stay in place, whatever the calls entered so far do next and the core says, if and only if it is there and either its mutex is poisoned or no close has been entered |
| `CacheTheorems.ReadUnderGuard` | native/sidereon_nif/src/cache_lock.rs:241-251 | if no close has been entered by the time a read returns, the guard was in place at every moment until then |
| `CacheTheorems.ReadCanOutliveGuard` | native/sidereon_nif/src/cache_lock.rs:241-251 | two runs in which the core read works after a close has taken the guard: one with that close answered, one with its answer still to come |
| `CacheTheorems.NoDeadlock` | native/sidereon_nif/src/cache_lock.rs:189-327 | in every reachable state with an unfinished call some call can step |
| `CacheTheorems.EveryCallReturns` | native/sidereon_nif/src/cache_lock.rs:189-327 | under every infinite schedule, whatever the core says, there is a moment at which every call has returned |
| `CacheTheorems.RunsAlone` | native/sidereon_nif/src/cache_lock.rs:189-327 | on an idle resource the machine runs each of the seven calls to the end that the sequential specification gives |
| `CacheResources.ExactCacheOwnerResource.HeartbeatCall` | native/sidereon_nif/src/cache_lock.rs:189-204 | slot, poison and reply of a heartbeat: the owner stays, a panic poisons |
| `CacheResources.ExactCacheOwnerResource.PublishCall` | native/sidereon_nif/src/cache_lock.rs:207-225 | slot, poison and reply of a publish: the owner is consumed whatever the core answers |
| `CacheResources.ExactCacheOwnerResource.AbandonCall` | native/sidereon_nif/src/cache_lock.rs:228-238 | slot, poison and reply of an abandon: the owner is dropped, and an absent one is no error |
| `CacheResources.ExactCacheResource.ReadCall` | native/sidereon_nif/src/cache_lock.rs:241-251 | a read changes nothing, and a poisoned or absent guard is answered as closed |
| `CacheResources.ExactCacheResource.GuardedCall` | native/sidereon_nif/src/cache_lock.rs:274-313 | slot, poison and reply of publish and cleanup |
| `CacheResources.ExactCacheResource.CloseCall` | native/sidereon_nif/src/cache_lock.rs:316-327 | close empties the slot, and may be repeated |
| `SlantBatch.PolicyNames` | native/sidereon_nif/src/iono.rs:1007-1040 | a policy is read from exactly the three names that state it; no unknown name becomes a default, and the first unknown one is complained of |
| `SlantBatch.SingleAnswers` | native/sidereon_nif/src/iono.rs:1578-1633 | a single query asks the core, for a receiver at its latitude and longitude in that order and zero height, with its own elevation, azimuth, epoch in nanoseconds and frequency, and passes on either refusal |
| `SlantBatch.AskedInOrder` | native/sidereon_nif/src/iono.rs:1644-1690 | whatever the core returns, each request of a batch is put to it spelled out the same way and at its own place, and its row is the receiver's refusal, the result found at that place, or unhandled |
| `SlantBatch.CollectReady` | native/sidereon_nif/src/iono.rs:1652-1658 | the first pass gives the readable requests in order |
| `SlantBatch.WeaveRows` | native/sidereon_nif/src/iono.rs:1661-1689 | the second pass gives each row its own refusal, its own result, or unhandled where the results have run out |
| `SlantBatch.Batch` | native/sidereon_nif/src/iono.rs:1644-1690 | an unknown policy refuses the whole batch; otherwise there is one row per request, and under the core's contract row i is the single-query answer for request i, spelled out in terms of the core alone |
| `SlantBatch.RankFindsRequest` | native/sidereon_nif/src/iono.rs:1145-1159 | a readable row's place among the readable ones is where its own request went |
| `SlantBatch.BatchIsPointwise` | native/sidereon_nif/src/iono.rs:1578-1633 | under the core's batch contract row i is the single-query answer for request i, so no refused row shifts another |
| `SlantBatch.ShortResults` | native/sidereon_nif/src/iono.rs:1644-1690 | if the core returns too few results, exactly the trailing readable rows are unhandled and all other rows are as they would be |
| `Coverage.SatellitesFromMaps` | native/sidereon_nif/src/coverage.rs:17-26 | the loop gives every satellite in order, or the fault of the first map that gives none |
| `Coverage.LookAngles` | native/sidereon_nif/src/coverage.rs:166-193 | under the batch contract the call gives the plain grid, every cell the core's look or a bare error; whatever it raises the plain grid raises |
| `Coverage.Collect` | native/sidereon_nif/src/coverage.rs:204-215 | the parallel lists hold every map's outcome and the satellites in order, or the first undecodable map is raised |
| `Coverage.Weave` | native/sidereon_nif/src/coverage.rs:229-256 | the iterator gives each row its own satellite's row or its own error once per station, and runs out exactly when there are fewer rows than satellites |
| `Coverage.LookAnglesDetailed` | native/sidereon_nif/src/coverage.rs:198-258 | under the batch contract every cell is the core's own or the satellite's own error; the row-count mismatch is raised exactly when the core returns too few rows |
| `Coverage.CellsSpelledOut` | native/sidereon_nif/src/coverage.rs:166-258 | both grids cell by cell, naming the core alone |
| `Coverage.RaisedSpelledOut` | native/sidereon_nif/src/coverage.rs:166-258 | what each call raises and for which map: the first faulty one, or in detail the first undecodable one and, without stations, the least index that failed; then the date and time |
| `Coverage.GridsAgree` | native/sidereon_nif/src/coverage.rs:166-258 | the plain call succeeds exactly when the detailed one does and every satellite initialized, and then a plain cell is a look exactly where the detailed cell is that look, and a bare error elsewhere |
| `Numerals.PrintDenotes` | native/sidereon_nif/src/data.rs:191-212 | a printed number denotes itself |
| `Numerals.OneNumeral` | native/sidereon_nif/src/data.rs:191-212 | a number has one decimal numeral without a sign or a leading zero, the printed one |
| `Numerals.PadDenotes` | native/sidereon_nif/src/antex.rs:679-681 | a number below 10^width, padded to width, has exactly that many digits and denotes itself |
| `Numerals.PrintParses` | native/sidereon_nif/src/data.rs:191-212 | a printed unsigned number is read back exactly when it is in range |
| `Numerals.PrintSignedParses` | native/sidereon_nif/src/data.rs:191-212 | a printed signed number is read back exactly when it is in range |
| `Numerals.Spellings` | native/sidereon_nif/src/data.rs:113-189 | leading zeros and a plus sign change nothing, a minus sign is for signed types only, and a sign alone is no numeral |
| `Binary64.PatternIsItsParts` | native/sidereon_nif/src/iono.rs:446-456 | a bit pattern is its sign bit, eleven exponent bits and fifty-two fraction bits |
| `Binary64.UnitsDetermine` | native/sidereon_nif/src/antex.rs:665-682 | a finite double is determined by its sign bit and its number of units of 2^-1074 |
| `ValiditySeconds.SameNumber` | native/sidereon_nif/src/antex.rs:665-682 | rounding depends on the number and not on how its fraction is written, so dropping trailing zeros is harmless |
| `ValiditySeconds.FromByteIsExact` | native/sidereon_nif/src/antex.rs:676-678 | the double made of a byte is that byte exactly |
| `ValiditySeconds.TextIsExact` | native/sidereon_nif/src/antex.rs:679-681 | the padded text denotes exactly second + digits / 10^scale |
| `ValiditySeconds.NegligibleFraction` | native/sidereon_nif/src/antex.rs:660-663 | past 400 places, every 64-bit fraction leaves the whole second strictly nearer than every other double |
| `ValiditySeconds.ShortcutAgrees` | native/sidereon_nif/src/antex.rs:676-678 | where the shortcut is taken, the parser would have given the same double, bit for bit |
| `ValiditySeconds.CorrectlyRounded` | native/sidereon_nif/src/antex.rs:670-682 | for every byte, 64-bit digits and scale: refused exactly when the fraction is not below one second, and otherwise the nearest double, ties to even |
| `ProductIdentity.FirstBadField` | native/sidereon_nif/src/data.rs:113-189 | a refused list of sixteen fields is refused for the first bad field in reading order; with none bad, it is the catalog that refused |
| `ProductIdentity.RefusalNames` | native/sidereon_nif/src/data.rs:113-189 | each unreadable field is refused under its own name |
| `ProductIdentity.AcceptedIsSaid` | native/sidereon_nif/src/data.rs:113-189 | each part of an accepted identity is read from its own field |
| `ProductIdentity.CatalogHasTheLastWord` | native/sidereon_nif/src/data.rs:113-189 | readable fields are judged by the date check and then by the identity's validation; a list that is not sixteen long is refused as such |
| `ProductIdentity.PrintedInPlace` | native/sidereon_nif/src/data.rs:191-212 | each part is printed in its own field, an absent one as an empty text |
| `ProductIdentity.NumbersInPlace` | native/sidereon_nif/src/data.rs:191-212 | numbers are printed as their one decimal numeral, a negative year with a minus sign |
| `ProductIdentity.ParsePrinted` | native/sidereon_nif/src/data.rs:113-212 | reading printed fields gives the identity the fields can express, as the catalog judges it |
| `ProductIdentity.RoundTrip` | native/sidereon_nif/src/data.rs:113-212 | a valid identity is read back from its sixteen fields if and only if no optional text is an empty string |
| `ProductIdentity.CodesAreForced` | native/sidereon_nif/src/data.rs:119-160 | each of the four lists reads exactly one code for each publisher, solution, campaign and format |
| `ProductIdentity.EmptyTextIsLost` | native/sidereon_nif/src/data.rs:191-212 | an issue or format version that is an empty string is printed as if absent and does not come back |
| `ProductIdentity.AcceptedIsCanonical` | native/sidereon_nif/src/data.rs:113-189 | every accepted identity is valid, has no empty optional text, and is read back from its own fields however it was first spelled |
| `ProductIdentity.NormalizedIsIdempotent` | native/sidereon_nif/src/data.rs:754-761 | print after parse is idempotent |
| `ProductIdentity.FieldsIdentify` | native/sidereon_nif/src/data.rs:191-212 | two valid identities without empty optional texts have the same fields exactly when they are the same |
| `CatalogErrors.SixteenDigits` | native/sidereon_nif/src/data.rs:281-474 | sixteen hexadecimal digits determine a 64-bit pattern |
| `CatalogErrors.TableIsInjective` | native/sidereon_nif/src/data.rs:476-530 | no two names share an atom, and the keys `kind` and `message` are not in the table |
| `CatalogErrors.NamesAreKnown` | native/sidereon_nif/src/data.rs:281-474 | every name the projection spells out is in the fifty-entry atom table, so its panic is unreachable, and no two fields of an error share a name |
| `CatalogErrors.ProjectionTerm` | native/sidereon_nif/src/data.rs:541-558 | the loop panics exactly on a name outside the table; where names differ it overwrites nothing: kind, message and every field are in the map, and it has no other entry |
| `CatalogErrors.CodedKeys` | native/sidereon_nif/src/data.rs:281-474 | `center`, `product_type`, `source`, `sample` and `issue` hold the parts of the error they name |
| `CatalogErrors.TextKeys` | native/sidereon_nif/src/data.rs:281-474 | `value`, `field` and `reason` hold the error's text |
| `CatalogErrors.NumberKeys` | native/sidereon_nif/src/data.rs:281-474 | dates, times, indices and coordinate bits are each under their own key |
| `CatalogErrors.Lossless` | native/sidereon_nif/src/data.rs:281-474 | the map determines the error, across all thirty variants |
| `CatalogErrors.ErrorTerm` | native/sidereon_nif/src/data.rs:676-698 | every error is encoded without a panic as a map of one entry per name, from which the error is read back |
| `GridSamples.SamplesRoundTrip` | native/sidereon_nif/src/iono.rs:629-673 | samples survive the crossing but for an `Other` code that spells a named one, which becomes its variant; they survive unchanged if and only if there is none |
| `GridSamples.SpelledOutIsNamed` | native/sidereon_nif/src/iono.rs:629-673 | `Other` of NONE, COSZ or QFAC comes back as the named variant |
| `GridSamples.MappingTerms` | native/sidereon_nif/src/iono.rs:629-663 | what every mapping-function term is read as: three spellings of no declaration, two of each named function, any other code as written, and no other atom |
| `GridSamples.WrittenInPlace` | native/sidereon_nif/src/iono.rs:1063-1081 | each field is written to its own place, no declaration as `nil` and no maps as none |
| `GridSamples.FieldsStayPut` | native/sidereon_nif/src/iono.rs:1042-1061 | each field is read from its own place; an unreadable mapping function is refused first, then an exponent past 32 bits |
| `GridSamples.NormalIsIdempotent` | native/sidereon_nif/src/iono.rs:1042-1081 | reading a term and writing it back is idempotent, and two terms have one normal form exactly when they are read as the same samples |
| `GridSamples.TermsTellApart` | native/sidereon_nif/src/iono.rs:1063-1081 | different samples have different terms: absent, blank and all-missing stay apart |
| `CarrierTable.Fill` | native/sidereon_nif/src/iono.rs:1167-1173 | the loop gives a map from exactly the systems of the table to their bands in table order |
| `CarrierTable.ReadOut` | native/sidereon_nif/src/iono.rs:1174-1174 | the map is read out completely in strictly increasing key order |
| `CarrierTable.GroupBySystem` | native/sidereon_nif/src/iono.rs:1166-1175 | for any table: strictly increasing keys, no empty group, no entry left out, and the groups flatten to the stable sort of the table by system |
| `CarrierTable.GroupingSorts` | native/sidereon_nif/src/iono.rs:1166-1175 | any such grouping flattens to a stable sort of the table by system |
| `CarrierTable.StableSortIsUnique` | native/sidereon_nif/src/iono.rs:1166-1175 | there is just one stable sort, so nothing is lost, repeated or moved |

## Left out

- The numerics, parsers, interpolation and filters of the core: parameters here, with the contracts named above.
- Strapdown, IMU-simulator and smoothed-trajectory resources: one lock each, covered in shape by the calls through `with_filter`.
- The branch of `with_filter` whose inner closure reports an error without a term: no closure passed to it does.
- FusionMachine.StepKeepsInv: a panic while a reply is being encoded is counted as part of the core call, and a panic that ends the whole virtual machine is not modelled.
- Rustler's term encoding, resource garbage collection and scheduler flags; a handle that is no resource of the right kind is refused before a call is entered.
- XyzClient.Drive: the converter is a function, so an exception of the converter, which ends the evaluation, is not modelled; nor is the check that it is a function of one argument.
- XyzStages.StepKeepsInv: a panic inside the core's resume is not a step; its stage is already empty then, and the slot's mutex is not held.
- Options of the XYZ evaluations and the texts of refusals.
- CacheResources.ExactCacheResource.CloseCall: a panic while the guard is dropped under the lock is not modelled; dropping the guard always succeeds.
- CacheLock.StepKeepsInv: what a call does under the lock and letting go of the lock are one step, so a mutex that is locked only to be looked at, emptied or found poisoned is never seen held; the call's answer is a step of its own.
- How the cache directory is locked and its files are written, and the single flight between operating-system processes.
- SlantBatch.Batch: how an evaluation or a refusal is rendered as a map is not modelled; both paths use the same rendering.
- ValiditySeconds.CorrectlyRounded: `usize` is taken to hold every scale up to 400.
- Degree-to-radian conversion: a function applied alike on both sides.
- CatalogErrors.ErrorTerm: the message is the core's text for the error and is not looked into.
- The older, lossy encoding of catalog errors in `encode_catalog_error`.
- GridSamples.SamplesRoundTrip: the fields that both conversions copy unchanged are one value, and a map of nodes is one value in which a node may be missing.
- IONEX headers, CDM, OEM and broadcast records, and the modules that only copy fields or name variants: each is a direct field-by-field copy.
