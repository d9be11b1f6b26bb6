# gHALO verification

A Dafny model of the halo exchange benchmark gHALO: the exchange itself as a distributed
protocol, the benchmark driver that all ranks run together, and the analysis tools that read
its output. Each part is modelled in the form of its source and proved against what it is for.

`dafny verify dfyconfig.toml` checks the whole project.

## The exchange

`Topology.dfy` factors the rank count into a grid and builds the neighbour tables of the torus.
The protocols only need that the tables are mutually inverse (`Links`), which covers 1 x C,
R x 1, 2 x C and 1 x 1 grids, where opposite neighbours coincide.

`Halo.dfy` is the reference: what every rank holds after each stage of each exchange, as a
function of the initial buffers. Its main results are the closed form over K exchanges, exactly
when K exchanges are the identity, and conservation of words. `MpiBackend.dfy` is one rank's
buffers as arrays updated in place, proved against that reference step by step.

`MpiExchange.dfy` runs all ranks at once. A rank copies, posts its send, receives and leaves each
stage; messages of a sender, receiver and tag arrive in order (sections 3.5 and 3.10 of MPI 3.1). Whatever
the interleaving, the invariant ties buffers and channels to the reference. Safety and bounds
are proved with unlimited buffering, progress with none. The channel bound is one message per
sender, receiver and tag, however many exchanges run.

`RcclStream.dfy`, `RcclWires.dfy` and `RcclExchange.dfy` do the same for RCCL: host programs for the stream-ordered and the
conservative mode with and without phase timing, one FIFO device stream per rank, and groups of
two sends and two receives matched by position only. `ModesAgree` is the refinement between the
modes; it allows every rank to choose its mode and timing anew for every exchange.
`Validation.dfy` is the pattern check that runs on top.

## The driver

`Control.dfy` is the control flow of `run_benchmark`: which call comes next, as a function of the
configuration and of reduced values. `Spmd.dfy` runs it on all ranks, each with arbitrary clock
readings, and proves the calls aligned, the counts consistent and no deadlock. `Driver.dfy` is the
imperative program of one rank against the class in `Backend.dfy`. Every method of that class
requires that the control flow asks for this very call, and `RunBenchmark` ends with the list of
its calls equal to the script, so the state machine of `Spmd.dfy` is the program that runs.

The class also keeps two ghost lists: all exchanges, with the point of the program they were made
at, what they cost and the clock readings they lie between; and all that was brought to collective
calls. `Reported` ties every value of a result to them: which exchanges were read, what was brought
to which reduction, and to which reply the value is equal. `Joint.dfy` puts the runs of all ranks
together: if each collective call returns to every rank what all of them brought to it, combined,
then the reported records, totals, phase averages and gathered rows are functions of all ranks'
own readings. `JointPhases.dfy` does the same for the phase rows, down to the clock readings behind
each phase, `JointRecords.dfy` for the recorded iterations, and `ReportedRows.dfy` hands the samples
to the stall analyzer.

`MpiRuns.dfy` and `RcclRuns.dfy` compose the driver of all ranks with the exchange protocols;
`Setups.dfy` says where the driver stands between setups. They show that the collective calls keep
the messages of one halo length apart from those of the next, which use the same tags or none, and
that the whole is free of deadlock. In `RcclRuns.dfy` validation brings the verdict on the buffers
as the exchange leaves them, and never fails.

`PhaseTiming.dfy` and `PhaseBounds.dfy` hold the sums and bounds, `Records.dfy` the filtering,
`Gather.dfy` the gather and sort of stalled-rank rows.

## The tools

`RankStalls.dfy`, `PhaseVoting.dfy` and `CaseCounts.dfy` model the stall analyzer; `RankEvents.dfy`
says what its events and counters mean in terms of the rows. `StallJoin.dfy` joins it with what
the benchmark gathers, `Events.dfy` and `Percentile.dfy` are functions of two other tools, `HaloSweep.dfy` is the sweep of halo lengths and `Json.dfy` the string escaper with
its two decoders. `RunNames.dfy` says when the analyzer takes the rows of a run for duplicates.
`Grouping.dfy`, `Counting.dfy`, `Sorting.dfy`, `Sequences.dfy`, `Reduction.dfy`,
`Options.dfy` and `Backlog.dfy` hold what several of them share.

## Where the code does something unexpected

- A sweep is refused with an overflow error although every term up to max is representable,
  when one more multiplication would overflow and the last term is not max
  (`HaloSweep.RefusesCompleteSweep`); the exact condition is in the contract of
  `HaloSweep.GenerateHaloLengths`.
- The sum of a phase record guesses the schema from the fields. For a record with fields of one
  schema it is right (`PhaseTiming.SumMatchesSchema`). With fields of several it may be wrong
  (`PhaseTiming.MixedRecords`); `PhaseTiming.GuessExact` gives the exact condition for each schema
  and each branch of the guess.
- The last argument check, stalled-rank timing on a backend without phase timing, can never fail:
  an earlier one has reported the same configuration (`Driver.CheckArguments`).
- The percentile of a negative fraction counts positions from the end. It is monotone below
  -1 / (n - 1) and from 0 on, but falls in between unless all values are the same
  (`Percentile.FallingPair`, and `Percentile.MonotoneIff` for the exact condition);
  `Percentile.ValueIff` says when there is a value at all. The program itself asks for 0.25 and 0.75
  only.
- `unquote_csv_string` does not invert the writer for strings with control characters
  (`Json.UnquoteExact` gives the exact condition).
- The analyzer rejects the rows of a run that lists a halo length twice and records a common
  iteration both times (`RunNames.RepeatedHaloRejected`). It rejects a run exactly if two of its
  samples share name and recorded iteration (`StallJoin.RunDuplicates`), never if no halo length is
  repeated (`RunNames.DistinctHalosAccepted`), and, when all iterations are recorded, exactly if
  one is (`RunNames.AllRecordedDuplicates`).

## Model

| member | source | states |
|---|---|---|
| Topology.HaloCompatibleDims | src/backends/mpi/mpi_backend.cpp:30-49 | the loop terminates for every rank count, rows * cols is that count, cols is five times a power of two for a multiple of 25, three times one for any other multiple of 9 and otherwise a power of two, rows is odd or cols >= rows, and cols < 4 * rows |
| Topology.DimsUnique | src/backends/mpi/mpi_backend.cpp:30-49 | the factorisation property determines the pair, so it specifies the loop completely |
| Topology.PowerOfTwoDims | src/backends/mpi/mpi_backend.cpp:30-49 | for 2^m ranks the grid is 2^floor(m/2) by 2^ceil(m/2) |
| Topology.NineTimesDims | src/backends/mpi/mpi_backend.cpp:30-49 | for 9 * 2^m ranks it is 3 * 2^floor(m/2) by 3 * 2^ceil(m/2) |
| Topology.TwentyFiveTimesDims | src/backends/mpi/mpi_backend.cpp:30-49 | for 25 * 2^m ranks it is 5 * 2^floor(m/2) by 5 * 2^ceil(m/2) |
| Topology.SrcDest | src/backends/mpi/mpi_backend.cpp:299-313 | in every stage of the exchange, sending and receiving neighbours are mutual: each rank receives exactly from the rank that sends to it |
| Topology.HearsBack | src/backends/mpi/mpi_backend.cpp:136-152 | the second transfer of an axis runs exactly against the first |
| Topology.CoordsRank | src/backends/mpi/mpi_backend.cpp:290-298 | row-major Cartesian numbering: a rank is recovered from its coordinates |
| Topology.RankCoords | src/backends/mpi/mpi_backend.cpp:290-298 | and coordinates inside the grid are recovered from the rank |
| Topology.NeighboursShift | src/backends/mpi/mpi_backend.cpp:299-313 | the four neighbour expressions, south and west written with + size - 1, are the four unit steps of the torus |
| Topology.TorusValid | src/backends/mpi/mpi_backend.cpp:299-313 | the four neighbour tables of any grid form mutually inverse links |
| Topology.NeighboursInverse | src/backends/mpi/mpi_backend.cpp:299-313 | north/south and east/west undo each other on every rank of every grid, also where they coincide |
| Topology.ShiftTurns | src/backends/mpi/mpi_backend.cpp:299-313 | a move around the torus ends where it began exactly if both distances are multiples of the grid size |
| Topology.ShiftInjective | src/backends/mpi/mpi_backend.cpp:299-313 | moves of the torus never bring two ranks together |
| MpiBackend.RankBuffers.constructor | src/backends/mpi/mpi_backend.cpp:92-95 | a new rank owns four separate, empty buffers |
| MpiBackend.RankBuffers.Setup | src/backends/mpi/mpi_backend.cpp:117-128 | after setup every word of the three work buffers is 0, and every word of hoew is the rank unless hoew has the right size already, in which case it keeps its words |
| MpiBackend.RankBuffers.EnterStage | src/backends/mpi/mpi_backend.cpp:134-144 | the in-place copies before the first and third transfer |
| MpiBackend.RankBuffers.PostSend | src/backends/mpi/mpi_backend.cpp:136-152 | the words handed to each of the four sends are the N or 2N segment of hins or hiew |
| MpiBackend.RankBuffers.Receive | src/backends/mpi/mpi_backend.cpp:136-152 | a received message overwrites its segment of hons or hoew and nothing else |
| Halo.AfterStep | src/backends/mpi/mpi_backend.cpp:130-153 | the stage-by-stage reference: what a rank holds after one more stage |
| Halo.ExchangeWords | src/backends/mpi/mpi_backend.cpp:130-153 | one whole exchange in one formula: hons is joined from the hoew of the two neighbours on one axis and hoew from those of two diagonal ranks, although the code moves them in four stages through two scratch buffers |
| Halo.OneExchange | src/backends/mpi/mpi_backend.cpp:130-153 | an exchange moves the history of each word by one diagonal hop |
| Halo.HoewTrace | src/backends/mpi/mpi_backend.cpp:130-153 | after any number of exchanges each word is the initial word of one rank, found by following the hops, for any mutually inverse links |
| Halo.HopsShift | src/backends/mpi/mpi_backend.cpp:130-153 | on the torus those hops add up to one move |
| Halo.ClosedForm | src/backends/mpi/mpi_backend.cpp:130-153 | after K exchanges hoew[i] of a rank is the initial hoew[i] of one other rank, K diagonal steps away, forwards for i < N and backwards otherwise |
| Halo.ClosedFormCoords | src/backends/mpi/mpi_backend.cpp:130-153 | in coordinates: of ((r+K) mod rows, (c+K) mod cols) for i < N and of ((r-K) mod rows, (c-K) mod cols) otherwise |
| Halo.PreparedWords | src/backends/mpi/mpi_backend.cpp:117-128 | the words setup leaves, for a size that changes and for one that does not |
| Halo.RankNumbers | src/backends/mpi/mpi_backend.cpp:117-153 | after a setup that changes the size and K exchanges, hoew[i] of (r, c) is the number of rank ((r+K) mod rows, (c+K) mod cols) or ((r-K) mod rows, (c-K) mod cols) |
| Halo.WorkBuffers | src/backends/mpi/mpi_backend.cpp:130-153 | an exchange leaves in hins the hoew it began with and in hiew its hons |
| Halo.ClosedFormHons | src/backends/mpi/mpi_backend.cpp:130-153 | the same for hons, which lags by the last hop |
| Halo.RestoresIff | src/backends/mpi/mpi_backend.cpp:130-153 | K exchanges give back every hoew for all initial contents exactly if rows and cols both divide K, or there are no halo words |
| Halo.HopsInjective | src/backends/mpi/mpi_backend.cpp:130-153 | no two ranks ever hold the same word at the same index |
| Halo.Conservation | src/backends/mpi/mpi_backend.cpp:130-153 | the multiset of words at each index over all ranks never changes, for any mutually inverse links |
| MpiExchange.RunsAreSafe | src/backends/mpi/mpi_backend.cpp:130-153 | every interleaving of ranks with tagged FIFO channels keeps the invariant (buffers as the reference says, channels hold exactly what is sent and not received), and every step lowers a bounded measure |
| MpiExchange.DeadlockFree | src/backends/mpi/mpi_backend.cpp:130-153 | while a rank is unfinished some rank can step even if no message may be buffered |
| MpiExchange.CompleteRuns | src/backends/mpi/mpi_backend.cpp:130-153 | all complete schedules take the same number of steps, leave all channels empty and end in the same buffers, those of the reference |
| MpiExchange.AtMostOne | src/backends/mpi/mpi_backend.cpp:136-152 | a sender is never further ahead of a receiver than the receiver's next use of their channel allows |
| MpiExchange.BoundedSkew | src/backends/mpi/mpi_backend.cpp:136-152 | in every reachable state neighbours are at most 4 stages apart and a channel holds at most one unreceived message, of the length its receive expects |
| Backlog.Join | src/backends/mpi/mpi_backend.cpp:136-152 | a FIFO channel gains the message at its end when one more is sent |
| Backlog.Leave | src/backends/mpi/mpi_backend.cpp:136-152 | and the oldest one leaves when it is received |
| RcclStream.HostKeeps | src/rccl_backend.cpp:373-440 | each host instruction of each mode, timed or not, keeps the rank invariant; in particular the stream is empty wherever the mode has synchronised |
| RcclStream.OrderedProgram | src/rccl_backend.cpp:410-420 | the host program of stream-ordered mode, instruction by instruction |
| RcclStream.OrderedTimedProgram | src/rccl_backend.cpp:422-440 | the same with phase timing: where the clock is read |
| RcclStream.ConservativeProgram | src/rccl_backend.cpp:373-380 | the host program of conservative mode: a synchronisation behind every operation |
| RcclStream.ConservativeTimedProgram | src/rccl_backend.cpp:373-407 | the same with phase timing: no reading around the input copy, two around every other operation and two around its synchronisation |
| RcclStream.HostLine | src/rccl_backend.cpp:373-440 | a host executes its program line by line, waits at a synchronisation for an empty stream, and puts one operation on the stream at each enqueue |
| RcclWires.RecvHead | src/rccl_backend.cpp:990-1060 | an untagged receive is always the next one due from that rank: all earlier messages of the pair are already received |
| RcclExchange.NoMismatch | src/rccl_backend.cpp:990-1060 | whatever the interleaving, the message a receive takes is the one meant for it, with the length of its segment |
| RcclExchange.PairMatching | src/rccl_backend.cpp:1002-1059 | for every ordered pair of ranks and any links, also where neighbours coincide, the sends of one group match the receives of the other in order, number, segment and length |
| RcclExchange.RunsAreSafe | src/rccl_backend.cpp:373-440 | every interleaving of hosts and device streams keeps the invariant and is bounded by a measure |
| RcclExchange.ReturnedBuffers | src/rccl_backend.cpp:373-440 | whenever exchange has returned k times on a rank its stream is empty and its buffers are those of k exchanges, in either mode |
| RcclExchange.StreamBound | src/rccl_backend.cpp:373-440 | conservative mode never has more than one operation on the stream and none when the next is enqueued, stream-ordered mode never more than four |
| RcclExchange.ModesAgree | src/rccl_backend.cpp:373-440 | stream-ordered refines conservative: in any two runs, each with any mix of modes and phase timing per rank and exchange, a rank that returned equally often has equal buffers |
| RcclExchange.DeadlockFree | src/rccl_backend.cpp:373-440 | while a rank is unfinished some host or device can step without buffering |
| RcclExchange.CompleteRuns | src/rccl_backend.cpp:373-440 | every complete run ends with all exchanges returned, empty channels and the reference buffers, also with zero halo words, where groups are skipped |
| Validation.PatternInjective | src/rccl_backend.cpp:118-121 | two pattern words are equal exactly if rank, segment and index modulo 10 are |
| Validation.FillPattern | src/rccl_backend.cpp:954-961 | word i of rank r is 100000 r + 10000 + 10 n + i mod 10 in the N segment and 10000 more behind it |
| Validation.CheckBuffers | src/rccl_backend.cpp:1203-1222 | accepts exactly the expected buffers; otherwise reports the first mismatch in the order of the checks |
| Validation.CorrectAccepted | src/rccl_backend.cpp:1148-1222 | one correct exchange of patterns is accepted on every rank of every grid |
| Validation.AcceptedSound | src/rccl_backend.cpp:1148-1222 | acceptance forces source rank, segment and index modulo 10 of every word that is some rank's pattern word |
| Validation.AllOrNone | src/rccl_backend.cpp:1228-1239 | the reduced verdict is 1 exactly if every rank was satisfied, so all ranks go on or all throw |
| HaloSweep.GenerateHaloLengths | src/core/benchmark.cpp:221-257 | each error exactly when its condition holds, the no-progress error never, the overflow error exactly if the largest term g <= max has g * m > SIZE_MAX and g != max; otherwise all terms |
| HaloSweep.AllTermsExact | src/core/benchmark.cpp:238-256 | the terms min * m^i up to max determine the list: nothing is missing and nothing is added |
| HaloSweep.TermsChain | src/core/benchmark.cpp:238-256 | that list starts at min, each length is m times the one before, and the last is at most max while m times it is not |
| HaloSweep.OverflowsChain | src/core/benchmark.cpp:241-246 | the overflow error fires exactly if the last length of that list is not max and m times it exceeds the word |
| HaloSweep.NoOverflow | src/core/benchmark.cpp:241-246 | a sweep whose last term is max, or whose next term fits, is not refused |
| HaloSweep.RefusesCompleteSweep | src/core/benchmark.cpp:241-245 | a concrete 64-bit sweep that is refused although all of its terms fit |
| Json.WriteJsonString | src/core/output.cpp:20-60 | writes the quoted escape of every byte string |
| Json.EscapesExact | src/core/output.cpp:20-60 | how each byte is written: two escaped characters, five control bytes with a letter, the others as four upper-case hexadecimal digits, the rest as is |
| Json.RoundTrip | src/core/output.cpp:20-60 | decoding the output by section 7 of RFC 8259 gives back every byte string |
| Json.NoRawControl | src/core/output.cpp:20-60 | between the quotes there is no raw control byte, and every quote has a backslash before it |
| Json.UnquoteExact | tools/ghalo_analyze.py:754-757 | the two-pass replace inverts the writer exactly if the string has no byte below 0x20 |
| Events.EventLengths | tools/compare_rccl_versions.py:139-156 | the loops over the dictionary of lists give the run lengths of every sample |
| Events.ScanSample | tools/compare_rccl_versions.py:145-155 | the inner loop gives the lengths of the scan of the sorted iterations |
| Events.ScanRuns | tools/compare_rccl_versions.py:147-155 | for distinct iterations every event is a maximal run of consecutive iterations |
| Events.RunsScanned | tools/compare_rccl_versions.py:147-155 | and every maximal run is an event |
| Events.EventsTotal | tools/compare_rccl_versions.py:139-156 | the lengths add up to the number of records, duplicates included |
| Events.EventsCount | tools/compare_rccl_versions.py:139-156 | for distinct records there are as many events as records whose predecessor iteration is not affected in that sample |
| Events.OrderIndependent | tools/compare_rccl_versions.py:139-156 | as a multiset the lengths do not depend on the input order |
| Percentile.ValueIff | tools/ghalo_analyze.py:1205-1218 | for any fraction there is a value exactly if the rounded positions are valid indices, where negative ones count from the end; the empty sample is an error and a single value always the answer |
| Percentile.PercentileMonotone | tools/ghalo_analyze.py:1205-1218 | from 0 to 1 the percentile is monotone in the fraction and stays between the first and last sorted value |
| Percentile.Linear | tools/ghalo_analyze.py:1211-1218 | a fraction w of the way from sorted value i to the next one it is s[i] + w * (s[i + 1] - s[i]) |
| Percentile.RisesIff | tools/ghalo_analyze.py:1209-1218 | over sorted values, on any range of accepted positions the interpolation is defined and does not fall exactly if the range stays on one side of the seam between -1 and 0, or all values are the same |
| Percentile.MonotoneIff | tools/ghalo_analyze.py:1205-1218 | for any two fractions that have a value the percentile does not fall in between exactly if the lower one is not negative, the upper one is at most -1 / (n - 1), or all values are the same |
| Percentile.FallingPair | tools/ghalo_analyze.py:1205-1218 | at -1 / (n - 1) it is the last of the sorted values and at 0 the first, so it falls there unless all values are the same |
| Percentile.OrderedBounds | tools/ghalo_analyze.py:1209-1209 | those two are the minimum and maximum of the input |
| Percentile.PermutationInvariant | tools/ghalo_analyze.py:1205-1218 | the input order does not matter, for any fraction, errors included |
| Percentile.HalfIsMedian | tools/ghalo_analyze.py:1205-1218 | at one half it is the median |
| PhaseTiming.SumMatchesSchema | include/ghalo/backend.hpp:117-147 | for a record of any one schema the field-guessing sum equals the sum of that schema's phase values, also when its zero tests fall through to another branch |
| PhaseTiming.GuessExact | include/ghalo/backend.hpp:117-147 | for every record of non-negative times, also one with fields of several schemas, the guessed sum is a given schema's sum exactly under the condition of the branch taken |
| PhaseTiming.MixedRecords | include/ghalo/backend.hpp:117-147 | a record with fields of two schemas that is misread, and one that is not |
| PhaseTiming.LookupOwn | src/core/benchmark.cpp:172-181 | looking a phase up by name finds that phase, whichever iteration supplied the template |
| PhaseTiming.NamedAfterField | src/core/benchmark.cpp:56-91 | every listed phase has the value of the accumulator field it is named after, and no name is listed twice |
| PhaseTiming.PhaseNames | src/core/benchmark.cpp:56-91 | the names of each schema in order |
| PhaseTiming.UnattributedBound | src/core/benchmark.cpp:183-208 | phases reduced one by one sum to at most P times the reduced total, so the unattributed time is at least -(P-1) times the total |
| PhaseBounds.AveragesFit | src/rccl_backend.cpp:1071-1080 | a rank whose phases fit into its time has averages that fit into its average |
| PhaseBounds.ReducedUnattributed | src/rccl_backend.cpp:691-738 | the result of phase_timing_result with 4 or 6 phases has unattributed time between -(P-1) times the total and the total |
| Reduction.BetterAnyOrder | src/backends/mpi/mpi_backend.cpp:166-186 | MAXLOC is associative and commutative, so the order of the reduction does not matter |
| Reduction.MaxLocCorrect | src/backends/mpi/mpi_backend.cpp:166-186 | it yields the maximum and the lowest rank that attains it |
| Reduction.MinMaxOfEqual | src/backends/mpi/mpi_backend.cpp:193-202 | minimum and maximum of equal counts are that count |
| Control.Wait | src/core/benchmark.cpp:305-396 | from every point the program reaches its next collective call or its end after finitely many local calls |
| Control.ScriptPrefix | src/core/benchmark.cpp:305-396 | more results only extend the list of calls |
| Control.RunFollows | src/core/benchmark.cpp:259-400 | the calls of a rank are a function of the configuration and the reduced results it received, so no clock reading of its own can change them |
| Control.EndedRun | src/core/benchmark.cpp:259-400 | a finished rank has issued exactly the script of its results |
| Control.PointsFollow | src/core/benchmark.cpp:259-400 | the results received before a collective call determine the point of the program it is made at |
| Spmd.RunsAreSafe | src/core/benchmark.cpp:259-400 | every interleaving of ranks keeps the alignment invariant, for arbitrary clock readings on every rank |
| Spmd.WaitingAligned | src/core/benchmark.cpp:305-396 | ranks waiting in a collective wait in the same call with the same element count, after the same calls |
| Spmd.CallsComparable | src/core/benchmark.cpp:305-396 | at any moment the calls of one rank are a prefix of those of another |
| Spmd.CountsConsistent | src/backends/mpi/mpi_backend.cpp:193-202 | the inconsistent-counts error of the gather is never reached on any rank |
| Spmd.NeverStuck | src/core/benchmark.cpp:305-396 | until every rank is done some rank can step or a collective completes |
| Spmd.EndAlike | src/core/benchmark.cpp:259-400 | finished ranks have issued the same calls and ended in the same way |
| Setups.SetupsClose | src/core/benchmark.cpp:305-333 | no rank is more than one setup ahead of another, and a rank that is behind is not inside exchange |
| MpiRuns.RunsAreSafe | src/core/benchmark.cpp:305-333 | for all ranks running the driver with every exchange made stage by stage on the same tags for all halo lengths: the exchanges of the current halo length are a run of the protocol from the ranks' setups, and the driver stays aligned |
| MpiRuns.HalosSeparate | src/core/benchmark.cpp:305-312 | messages of two halo lengths never meet, although no barrier precedes setup and the warm-up exchange: a message on its way is alone in its channel, has the length its sender set up, and every rank inside exchange has made the same setup |
| MpiRuns.ReceivesOwnHalo | src/backends/mpi/mpi_backend.cpp:130-153 | a rank only receives what its neighbour sent in the same stage after the same setup, with the length its receive expects |
| MpiRuns.ReferenceBuffers | src/backends/mpi/mpi_backend.cpp:130-153 | between exchanges a rank of the current halo length holds the reference buffers of the exchanges since its setup |
| MpiRuns.SetupWords | src/backends/mpi/mpi_backend.cpp:117-153 | in any run on a torus, k exchanges after a setup that changed the halo length each word of hoew is the number of the rank k diagonal steps away, forwards or backwards |
| MpiRuns.DeadlockFree | src/core/benchmark.cpp:305-396 | while a rank is not done some rank can go on, in the driver or inside an exchange, even if no message may be buffered |
| MpiRuns.NothingLeft | src/core/benchmark.cpp:259-400 | when all ranks are done no message is left |
| RcclRuns.RunsAreSafe | src/rccl_backend.cpp:347-440 | for all ranks running the driver on the RCCL backend, in any mode, with uninitialised device memory and with validation: between two collective calls the exchanges are a run of the protocol from what the ranks hold, and the driver stays aligned |
| RcclRuns.NeverRejected | src/rccl_backend.cpp:1148-1239 | validation never fails, for any halo lengths, samples, modes and device memory: each rank brings the verdict on what its exchange of patterns really left |
| RcclRuns.TimedWords | src/rccl_backend.cpp:969-977 | in any run that validates, k exchanges into the timed exchanges of a sample each word of hoew is the number of the rank k diagonal steps away, forwards or backwards, in every mode |
| RcclRuns.HalosSeparate | src/rccl_backend.cpp:990-1060 | untagged messages of two halo lengths, samples or validations never meet: each has a length of its sender's setup, and every rank inside an exchange has returned from the same collective calls and made the same setup |
| RcclRuns.ReceivesOwnHalo | src/rccl_backend.cpp:990-1060 | a rank only receives what its neighbour sent in the same stage of the same exchange, with the length of its own segment |
| RcclRuns.DeadlockFree | src/rccl_backend.cpp:347-440 | while a rank is not done some driver, host or device can go on, even if no message may be buffered |
| RcclRuns.NothingLeft | src/rccl_backend.cpp:347-440 | when all ranks are done no message is left |
| Backend.RcclBackend.constructor | src/rccl_backend.cpp:608-634 | a new backend has collected nothing and stands at the start of the program |
| Backend.RcclBackend.Exchange | src/rccl_backend.cpp:362-440 | one exchange adds a cost to the accumulators that is zero unless phases are collected; if they are, each phase of the mode is the difference of its own two consecutive clock readings, and there are no others |
| Backend.RcclBackend.TimeConservative | src/rccl_backend.cpp:382-407 | twelve clock readings; by name, each of the six phases is the interval between its own two |
| Backend.RcclBackend.TimeStreamOrdered | src/rccl_backend.cpp:425-439 | the same for the four phases of the stream-ordered mode |
| Backend.RcclBackend.ValidateCurrentHalo | src/rccl_backend.cpp:352-360 | validation makes one exchange of its own, marked as such, and all ranks act on the common verdict |
| Backend.LoggedEntry | src/core/benchmark.cpp:259-400 | the i-th thing a rank brings and the i-th reply belong to the same call at the same point of the program |
| Backend.RcclBackend.SetPhaseTimingEnabled | src/rccl_backend.cpp:608-625 | disabling also stops collecting; enabling does not start it |
| Backend.RcclBackend.ResetPhaseTiming | src/rccl_backend.cpp:631-634 | clears the accumulators and collects from then on exactly if enabled |
| Backend.RcclBackend.BeginIterationPhaseTiming | src/rccl_backend.cpp:636-643 | remembers the accumulators and collects in any case |
| Backend.RcclBackend.EndIterationPhaseTiming | src/rccl_backend.cpp:645-689 | returns the change since the iteration began with its sum, the total and what is left of it; goes on collecting only if enabled |
| Backend.RcclBackend.PhaseTimingResult | src/rccl_backend.cpp:691-738 | stops collecting, brings the local average of each phase of the mode to one reduction each, in order, and reports the replies as the phases, with their sum and what is left of the total |
| Backend.RcclBackend.MaxTimeRanks | src/backends/mpi/mpi_backend.cpp:166-186 | brings the local vector to the reduction and returns its reply, one pair per element |
| Backend.RcclBackend.GatherStalledRankTimings | src/backends/mpi/mpi_backend.cpp:188-205 | brings the count to a minimum and a maximum; the replies decide, and the gather follows only if they agree and the count is not zero |
| Backend.ElapsedPlus | src/rccl_backend.cpp:651-681 | subtracting the snapshot from the accumulators gives exactly what was added since, and sums add up |
| Backend.LocalPhasesOfSchema | src/core/benchmark.cpp:56-78 | the reduced accumulators are the phases of the mode's schema, in its order |
| Records.KeptExact | src/core/benchmark.cpp:133-140 | exactly the iterations whose reduced time reaches the threshold are kept, in increasing order; all of them if the threshold is not positive |
| Records.RecordIterations | src/core/benchmark.cpp:133-164 | one pass builds the records, the stall count and this rank's local records for exactly those iterations |
| Records.LocalPhaseSeconds | src/core/benchmark.cpp:170-182 | the local vector of one phase has one entry per recorded iteration, that iteration's own phase time |
| Driver.TimeExchanges | src/core/benchmark.cpp:32-38 | makes exactly that many exchanges; the seconds returned are the difference of the clock readings around them and cover all of their phase time |
| Driver.TimeIteration | src/core/benchmark.cpp:113-124 | the seconds are the clock readings around the one exchange, the phases read exactly its cost, also when only per-iteration timing is on |
| Driver.TimeIterations | src/core/benchmark.cpp:112-125 | per iteration the same, the local total is the sum of the seconds, and the accumulators grew by the cost of exactly these exchanges |
| Driver.DeltasSum | src/core/benchmark.cpp:113-124 | the per-iteration phase records add up to the change of the accumulators |
| Driver.ReducePhases | src/core/benchmark.cpp:166-209 | one reduction per phase of the schema, bringing that phase of the recorded iterations; the rows are its replies, in that order |
| Driver.RecordSample | src/core/benchmark.cpp:127-216 | brings the time vector, then the phase vectors, then the counts; records, phase rows and local records are those of the replies to exactly these calls |
| Driver.TimeExchangesWithIterationRecords | src/core/benchmark.cpp:93-217 | all of this for one sample, and the gather fails exactly by ending in the inconsistent-counts state |
| Driver.Calibrate | src/core/benchmark.cpp:313-323 | brings the clock time of the calibration exchanges to the reduction; from the reply, the iteration count fills target_seconds at the reduced average to the nearest exchange, but is at least calibration_iterations |
| Driver.EstimateNearest | src/core/benchmark.cpp:315-323 | calibration_iterations if that many exchanges and a half exceed the target, otherwise the number of averages that is the target up to half an average |
| Driver.PrepareSample | src/core/benchmark.cpp:326-332 | the calls before the timed exchanges are a validation that passed, if there is one, and the barrier; the accumulators are clear when they begin |
| Driver.MeasureSample | src/core/benchmark.cpp:333-395 | one sample ends with a result that is fully accounted for: readings of its own timed exchanges and of no others, what was brought to each reduction, and every value the reply to it |
| Driver.ReduceSample | src/core/benchmark.cpp:343-395 | total, average and phase report are the replies to the local total and the local phase averages |
| Driver.SampleStarts | src/core/benchmark.cpp:127-216 | of the collective calls of a sample only the first one starts it, so the samples of a run can be told apart by their calls |
| Driver.CheckArguments | src/core/benchmark.cpp:261-294 | each error exactly under its condition, in the order of the checks; the last of them can never fail |
| Driver.RunBenchmark | src/core/benchmark.cpp:259-400 | a bad argument is reported before any call; otherwise the run ends, makes exactly the calls of the script, reports every sample of every halo length in order with every value accounted for as in MeasureSample, and collects phases for timed exchanges and no others |
| Joint.BenchmarkRan | src/core/benchmark.cpp:259-400 | what RunBenchmark ensures is what the theorems about all ranks assume of each; each collective call is brought what Spmd lets a rank bring |
| Joint.SamePoint | src/core/benchmark.cpp:305-396 | when every collective returns what all ranks brought, combined, the i-th call of every rank is made at the same point |
| Joint.SampleEverywhere | src/core/benchmark.cpp:305-396 | then every sample one rank reports all ranks have measured, at the same point and with the same number of iterations |
| Joint.SampleJoin | src/core/benchmark.cpp:127-164 | the records every rank reports are those of the MAXLOC over all ranks' own clock readings, and its local records are its own readings of them |
| Joint.TotalJoin | src/core/benchmark.cpp:343-380 | the reported total is the largest of the ranks' local totals, and the reported average that over the iterations |
| JointPhases.RowJoin | src/core/benchmark.cpp:166-209 | the phase rows are one per phase and recorded iteration; each names the longest time any rank read for that phase in that iteration, and the lowest rank that read it |
| JointPhases.RowsUnattributed | src/core/benchmark.cpp:183-208 | what the P phase rows of a recorded iteration leave of its time lies between -(P-1) times that time and that time |
| JointPhases.OwnInterval | src/rccl_backend.cpp:373-440 | a phase a rank reads for one iteration is the time between that phase's two clock readings in that exchange |
| JointPhases.AccumulatedIntervals | src/rccl_backend.cpp:373-440 | a phase a rank brings to the averages is the sum of that phase's intervals over the timed exchanges of the sample |
| JointRecords.ReportedIterations | src/core/benchmark.cpp:127-164 | every rank reports, in order, exactly the iterations in which some rank's own reading reaches the threshold in microseconds, or all if it is not positive, each with the longest reading and the lowest rank that read it, and its own reading and phases of them |
| JointRecords.ReadingInterval | src/core/benchmark.cpp:113-120 | a reading is the difference of the clock readings just before and just after its exchange |
| JointRecords.LocalTotal | src/core/benchmark.cpp:32-38 | a rank's total is the sum of its readings, or without them the time from the reading before the first timed exchange to the one after the last |
| Joint.PhaseReduced | src/rccl_backend.cpp:691-738 | each reported phase average is the largest of the ranks' averages of the phase time of their timed exchanges |
| Joint.ReportedUnattributed | src/rccl_backend.cpp:691-738 | the reported unattributed time of every sample lies between -(P-1) times the reported average and that average |
| Joint.GatheredRows | src/backends/mpi/mpi_backend.cpp:208-276 | however the root sorts what the ranks send, it reports every recorded iteration with every rank's own reading, once and in order |
| Joint.ReadingsNonnegative | src/core/benchmark.cpp:113-124 | with monotone clocks no reading is negative |
| Gather.FromRankLocals | src/backends/mpi/mpi_backend.cpp:208-223 | what a rank packs are its local records, marked with its rank |
| Gather.GatheredIsTable | src/backends/mpi/mpi_backend.cpp:225-241 | the concatenation of all ranks' blocks has the rows of the table of recorded iterations and ranks |
| Gather.GatherExact | src/backends/mpi/mpi_backend.cpp:225-276 | any sort by iteration and rank yields exactly that table: every recorded iteration with every rank, once, in order |
| Gather.TableAt | src/backends/mpi/mpi_backend.cpp:225-276 | row q of the block of a recorded iteration is rank q's own record of it, field by field |
| Gather.RecordedMaximum | src/core/benchmark.cpp:133-161 | per recorded iteration no local time exceeds the recorded maximum, the recorded rank attains it and no lower rank does |
| RankStalls.CheckDuplicates | tools/analyze_iteration_stalls.py:561-573 | reports a duplicate exactly if two rows share halo, sample, iteration and rank |
| RankStalls.AnalyzeRankRecords | tools/analyze_iteration_stalls.py:531-696 | events and tallies are those of the rows of each iteration in rank order, iterations in order |
| RankStalls.EventNested | tools/analyze_iteration_stalls.py:590-616 | the counts at 95, 80 and 50 percent are nested, and an event is collective-wide exactly if at least four fifths of its ranks are slow |
| RankStalls.TalliesTotal | tools/analyze_iteration_stalls.py:618-623 | slow-rank, node, GPU, row and column tallies each sum to the total of ranks_ge_80pct |
| RankStalls.RankCounted | tools/analyze_iteration_stalls.py:618-619 | a rank's tally is the number of its slow rows |
| RankStalls.OrderIndependent | tools/analyze_iteration_stalls.py:587-648 | without duplicates neither events nor tallies depend on the row order |
| RankEvents.EventExact | tools/analyze_iteration_stalls.py:590-645 | an event counts the rows whose local time is at least 0.5, 0.8 and 0.95 of the longest global time of its iteration |
| RankEvents.ClassExact | tools/analyze_iteration_stalls.py:604-615 | each class by the number of slow ranks and what they have in common, first condition first |
| RankEvents.SlotsExact | tools/analyze_iteration_stalls.py:587-588 | one event for each iteration that has rows, in order of halo length, sample and iteration |
| RankEvents.EventsAt | tools/analyze_iteration_stalls.py:587-645 | the i-th event is that of the i-th iteration |
| RankEvents.RankedExact | tools/analyze_iteration_stalls.py:588-588 | with exactly the rows of that iteration, in rank order |
| RankEvents.SlowRowsExact | tools/analyze_iteration_stalls.py:592-623 | the rows that are tallied are those whose local time is at least four fifths of every global time of their iteration, each as often as it occurs |
| RankEvents.CountsExact | tools/analyze_iteration_stalls.py:618-623 | each of the five counters is the number of tallied rows with that rank, node, device, row or column, where a missing host counts as unknown |
| StallJoin.RunDuplicates | tools/analyze_iteration_stalls.py:561-573 | on the rows of a run the duplicate error fires exactly if two samples share halo length and number and recorded a common iteration |
| StallJoin.RunKeyed | tools/analyze_iteration_stalls.py:573-575 | the analyzer's group of a recorded iteration is that iteration's block of the gathered table |
| StallJoin.RecordedRankIsSlow | tools/analyze_iteration_stalls.py:587-599 | in a run the analyzer accepts, each group has one row per rank, the global maximum is the recorded one, and the recorded rank is in the slow set for any fraction of it from 0 to 1, hence at 50, 80 and 95 percent |
| RunNames.NamesDistinct | src/core/benchmark.cpp:305-325 | a run names its samples apart exactly if no halo length is listed twice |
| RunNames.SweepNames | src/core/benchmark.cpp:296-325 | a generated sweep always does |
| RunNames.DistinctHalosAccepted | tools/analyze_iteration_stalls.py:561-573 | a run that lists no halo length twice is never rejected for duplicates |
| RunNames.AllRecordedDuplicates | tools/analyze_iteration_stalls.py:561-573 | when all iterations are recorded it is rejected exactly if a halo length is listed twice |
| RunNames.RepeatedHaloRejected | tools/analyze_iteration_stalls.py:561-573 | a concrete run that is rejected |
| ReportedRows.PartsValid | src/core/benchmark.cpp:305-396 | the samples of all ranks' runs are valid input of the analyzer, not negative, and named by halo length and sample number in order |
| ReportedRows.SampleRows | src/backends/mpi/mpi_backend.cpp:225-276 | whatever sort the root uses, what the analyzer reads of a sample is its table |
| ReportedRows.SampleRowAt | tools/analyze_iteration_stalls.py:587-599 | the row of a rank and record, field by field: sample names, place of the rank, its own reading and the recorded time in microseconds |
| ReportedRows.RunAccepted | tools/analyze_iteration_stalls.py:561-573 | the analyzer accepts the rows of every benchmark run that lists no halo length twice |
| ReportedRows.RunAnalyzed | tools/analyze_iteration_stalls.py:573-599 | and finds every record the run reports: one row per rank, the reported time as maximum and the reported rank among the slow ones |
| PhaseVoting.ContainsExact | tools/analyze_iteration_stalls.py:432-439 | the substring test of the categories |
| PhaseVoting.CategoryExact | tools/analyze_iteration_stalls.py:432-439 | which words put a phase name in which category |
| PhaseVoting.StringLessExact | tools/analyze_iteration_stalls.py:471-471 | names compare at the first position where they differ, a prefix being smaller |
| PhaseVoting.DominantCorrect | tools/analyze_iteration_stalls.py:471-471 | no row of the iteration beats the dominant one by time, then lower rank, then name |
| PhaseVoting.DominantExact | tools/analyze_iteration_stalls.py:471-471 | the dominant row has the longest time, among those the lowest rank, and among those the last name |
| PhaseVoting.DominantOrder | tools/analyze_iteration_stalls.py:471-471 | the dominant phase does not depend on the row order, even among equal keys |
| PhaseVoting.AnalyzePhaseRecords | tools/analyze_iteration_stalls.py:442-507 | an unknown sample is an error exactly if some row has one; otherwise counts and verdict are those of the stalled iterations |
| PhaseVoting.MostCommonDecides | tools/analyze_iteration_stalls.py:501-504 | whichever most common category a counter yields, comparing it with half the iterations gives the verdict |
| PhaseVoting.VerdictUnique | tools/analyze_iteration_stalls.py:501-504 | there is only one verdict |
| PhaseVoting.VoteSound | tools/analyze_iteration_stalls.py:472-504 | dominant counts add up to the iterations, and a category is the cause exactly if it dominates more than half of them |
| PhaseVoting.DominantCounted | tools/analyze_iteration_stalls.py:472-472 | a phase is counted once for every stalled iteration with rows in which its row is the dominant one |
| PhaseVoting.CauseExact | tools/analyze_iteration_stalls.py:442-507 | a category is the cause exactly if rows of it dominate more than half of the stalled iterations that have rows |
| PhaseVoting.OrderIndependent | tools/analyze_iteration_stalls.py:442-507 | the whole summary is independent of the row order |
| CaseCounts.LongestStallFreeSequence | tools/analyze_iteration_stalls.py:410-419 | some stretch of F markers has that length and none is longer |
| CaseCounts.AnalyzeCase | tools/analyze_iteration_stalls.py:729-793 | stall, sample, spread and rank counts, the largest sample and the longest stall-free stretch |
| CaseCounts.ClassifyExact | tools/analyze_iteration_stalls.py:422-429 | none, one, nine tenths of the iterations or more, or any other number of stalls |
| CaseCounts.CaseExact | tools/analyze_iteration_stalls.py:729-793 | every count in terms of the records that reach the threshold and of the samples, and the longest stretch of samples without one |
| CaseCounts.SpreadsTotal | tools/analyze_iteration_stalls.py:782-797 | every sample is free of stalls or counted under exactly one spread |
| CaseCounts.StallsConserved | tools/analyze_iteration_stalls.py:724-738 | the stalls of the described samples and of unknown ones add up to all stalls |

## Left out

- Failures of MPI, HIP and RCCL, device allocation, communicators, version and environment
  discovery, development validation of the north/south half: foreign calls whose rules are taken
  as the step relations.
- The MPIHIP backend (src/backends/mpi_hip) and the default methods of the Backend interface.
- Floating-point rounding: times and the fractions 0.8 and 0.9 of the analyzer are ideal reals,
  halo words are ideal integers, so the float conversion of pattern words is not modelled.
- Topology.HaloCompatibleDims: does not model the width of int, so the product cols * cols does
  not overflow here.
- Validation.FillPattern: does not model the width of int in the pattern arithmetic, nor the
  conversion of the pattern word to float.
- Validation.PatternInjective: the same; it speaks of the integers before the conversion.
- Backend.RcclBackend.ValidateCurrentHalo: the local verdict is arbitrary here; RcclRuns ties it to
  the buffers.
- Driver.Calibrate: does not model the width of int in the cast of the estimate.
- Driver.RunBenchmark: takes the list of halo lengths that halo_lengths or the sweep yields and does
  not model the order of evaluation between them.
- Spmd.RunsAreSafe: no rank returns from a collective before all have entered, also from the gather,
  where MPI allows it to all but the root; internal messages are not modelled. The times a rank
  brings are arbitrary here; Joint ties them to clocks.
- MpiRuns.RunsAreSafe: validation, which the MPI backend does not do, makes no exchange there.
- RcclRuns.RunsAreSafe: what a rank does to its own buffers between two collective calls, filling in
  the pattern or its rank, is part of its return from the first of them.
- Backend.RcclBackend.GatherStalledRankTimings: models the collectives; packing into bytes, rank
  metadata and host names are not modelled, and the rows themselves are in Gather.
- Gather.GatherExact: std::sort is any sort by the compared key.
- Json.RoundTrip: the decoder does not combine surrogate escapes, which the writer never emits.
- RankStalls.AnalyzeRankRecords: the medians, means and deviations of the breakdown, the
  dominant-phase match counters and the warnings for unknown samples.
- PhaseVoting.AnalyzePhaseRecords: the phase summaries and the descriptive breakdown.
- CaseCounts.AnalyzeCase: thresholds and metadata read from files, percentages and durations.
- CSV, console and JSON layout, command lines, plots, loaders, result migration, build and batch
  scripts: input and output plumbing.
