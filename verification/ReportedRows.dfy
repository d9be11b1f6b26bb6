/** What the analyzer reads of a benchmark run: the samples of all ranks' runs as its input. */
module ReportedRows {
  import opened Control
  import opened Driver
  import opened Gather
  import opened Grouping
  import opened Sorting
  import opened RankStalls
  import opened StallJoin
  import opened RunNames
  import opened Joint
  import opened JointRecords
  import opened JointPhases
  import Backend

  lemma {:induction false} KeysAt(results: seq<Result>)
    ensures |Driver.KeysOf(results)| == |results|
    ensures forall i | 0 <= i < |results| :: Driver.KeysOf(results)[i] == (results[i].halo, results[i].sample)
  {
    if results != [] {
      KeysAt(results[..|results| - 1]);
    }
  }

  /** Every sample rank 0 reports is one all ranks measured. */
  ghost predicate AllSamples(runs: seq<RankRun>) {
    runs != [] && forall j: nat | j < |runs[0].results| :: Everywhere(runs, j)
  }

  lemma MetSamples(cfg: Config, runs: seq<RankRun>)
    requires Met(cfg, runs) && runs != []
    ensures AllSamples(runs)
  {
    hide Met;
    forall j: nat | j < |runs[0].results|
      ensures Everywhere(runs, j)
    {
      SampleEverywhere(cfg, runs, 0, j);
      SampleShared(cfg, runs, j);
    }
  }

  /** The samples of a run under the names rank 0 reports. */
  ghost function PartsOf(cfg: Config, runs: seq<RankRun>): (parts: seq<Part>)
    requires AllSamples(runs)
    ensures |parts| == |runs[0].results|
  {
    seq(|runs[0].results|, j requires 0 <= j < |runs[0].results| =>
          Part(runs[0].results[j].halo, runs[0].results[j].sample, SampleOf(cfg, runs, j)))
  }

  /** They are valid and not negative, and named by the halo lengths and sample numbers. */
  lemma PartsValid(cfg: Config, runs: seq<RankRun>)
    requires Met(cfg, runs) && runs != [] && cfg.recordIterations
    ensures AllSamples(runs) && ValidParts(PartsOf(cfg, runs)) && NamedBy(PartsOf(cfg, runs), Keys(cfg.halos, cfg.samples))
    ensures forall j | 0 <= j < |PartsOf(cfg, runs)| :: Nonnegative(PartsOf(cfg, runs)[j].data)
  {
    hide MetAt, Reports, Legal, Backend.Logged, Keys, Driver.KeysOf, ValidSample, Nonnegative, SampleOf, HasSample;
    MetSamples(cfg, runs);
    assert Ran(cfg, runs[0]);
    KeysAt(runs[0].results);
    var parts := PartsOf(cfg, runs);
    forall j | 0 <= j < |parts|
      ensures ValidSample(parts[j].data) && Nonnegative(parts[j].data)
      ensures parts[j].halo == Keys(cfg.halos, cfg.samples)[j].0 && parts[j].sample == Keys(cfg.halos, cfg.samples)[j].1
    {
      SampleEverywhere(cfg, runs, 0, j);
      SampleShape(cfg, runs, j);
      ReadingsNonnegative(cfg, runs, j);
    }
  }

  /** However the root sorts what it receives for each sample, the analyzer reads these rows. */
  lemma SampleRows(cfg: Config, runs: seq<RankRun>, j: nat, sorted: seq<Row>, places: int -> Place)
    requires Met(cfg, runs) && runs != [] && cfg.recordIterations && cfg.recordStalled && j < |runs[0].results|
    requires AllSamples(runs) && multiset(sorted) == multiset(Received(runs, j, |runs|)) && IsSorted(sorted, RowLeq())
    ensures var p := PartsOf(cfg, runs)[j]; ValidSample(p.data) && ReadAll(p, places, sorted) == PartRows(p, places)
  {
    hide Met, Read, Table, ValidSample, SampleOf, HasSample, Received;
    SampleEverywhere(cfg, runs, 0, j);
    GatheredRows(cfg, runs, j, sorted);
  }

  lemma PartRowAt(p: Part, places: int -> Place, k: nat, q: nat)
    requires ValidSample(p.data) && k < |Emitted(p.data)| && q < |p.data.seconds|
    ensures Measured(p.data, q) && RowIndex(k, |p.data.seconds|, q) < |PartRows(p, places)|
    ensures var e, at := Emitted(p.data)[k], places(q);
            PartRows(p, places)[RowIndex(k, |p.data.seconds|, q)]
            == RankRow(Slot(p.halo, p.sample, e.iteration), q, at.host, at.device, at.row, at.col,
                       p.data.seconds[q][e.iteration - 1] * 1000000.0, e.seconds * 1000000.0, e.rank)
  {
    hide ValidSample, Emitted, Table;
    TableAt(p.data, |Emitted(p.data)|, |p.data.seconds|, k, q);
  }

  /** The row the analyzer reads for rank q and the k-th record of a sample: under the names of the
      sample, with the rank's place, its own reading and the record's time in microseconds. */
  lemma SampleRowAt(cfg: Config, runs: seq<RankRun>, j: nat, places: int -> Place, k: nat, q: nat)
    requires Met(cfg, runs) && q < |runs| && cfg.recordIterations && j < |runs[0].results| && AllSamples(runs)
    requires Everywhere(runs, j) && k < |runs[q].results[j].timed.records|
    ensures var p, e, at, res := PartsOf(cfg, runs)[j], runs[q].results[j].timed.records[k], places(q), runs[0].results[j];
            && ValidSample(p.data) && RowIndex(k, |runs|, q) < |PartRows(p, places)|
            && PartRows(p, places)[RowIndex(k, |runs|, q)]
               == RankRow(Slot(res.halo, res.sample, e.iteration), q, at.host, at.device, at.row, at.col,
                          Reading(runs, j, q, e.iteration) * 1000000.0, e.seconds * 1000000.0, e.rank)
  {
    hide Met, Reported, HasSample, ValidSample, Emitted, PartRows, Reading, Everywhere, RowIndex, SampleOf, PartsOf, AllSamples;
    PartIs(cfg, runs, j);
    SampleEverywhere(cfg, runs, 0, j);
    SampleShape(cfg, runs, j);
    SampleJoin(cfg, runs, j, q);
    var p := PartsOf(cfg, runs)[j];
    PartRowAt(p, places, k, q);
    OwnReading(cfg, runs, j, q, k);
  }

  lemma PartIs(cfg: Config, runs: seq<RankRun>, j: nat)
    requires AllSamples(runs) && j < |runs[0].results|
    ensures Everywhere(runs, j)
    ensures PartsOf(cfg, runs)[j] == Part(runs[0].results[j].halo, runs[0].results[j].sample, SampleOf(cfg, runs, j))
  {
  }

  lemma OwnReading(cfg: Config, runs: seq<RankRun>, j: nat, q: nat, k: nat)
    requires HasSample(cfg, runs, j) && cfg.recordIterations && q < |runs| && Everywhere(runs, j)
    requires k < |Emitted(SampleOf(cfg, runs, j))|
    ensures var s := SampleOf(cfg, runs, j); var i := Emitted(s)[k].iteration;
            1 <= i <= |s.seconds[q]| && s.seconds[q][i - 1] == Reading(runs, j, q, i)
  {
    hide HasSample, Emitted;
    ReadingsLength(cfg, runs, q, j);
  }

  /** The analyzer accepts the rows of any run that lists no halo length twice. */
  lemma RunAccepted(cfg: Config, runs: seq<RankRun>, places: int -> Place)
    requires Met(cfg, runs) && runs != [] && cfg.recordIterations && cfg.samples > 0 && Distinct(cfg.halos)
    ensures AllSamples(runs) && ValidParts(PartsOf(cfg, runs)) && !HasDuplicate(RunRows(PartsOf(cfg, runs), places))
  {
    hide Met, HasDuplicate, RunRows, ValidParts, NamedBy, Nonnegative;
    PartsValid(cfg, runs);
    DistinctHalosAccepted(PartsOf(cfg, runs), places, cfg.halos, cfg.samples);
  }

  /** In its analysis, each record that every rank reports has a group with one row per rank, whose
      global maximum is the reported time, and the reported rank is among the slow ones. */
  lemma RunAnalyzed(cfg: Config, runs: seq<RankRun>, places: int -> Place, q: nat, i: nat, j: nat, fraction: real)
    requires Met(cfg, runs) && cfg.recordIterations && cfg.samples > 0 && Distinct(cfg.halos)
    requires q < |runs| && i < |runs[q].results| && j < |runs[q].results[i].timed.records| && 0.0 <= fraction <= 1.0
    ensures AllSamples(runs) && i < |PartsOf(cfg, runs)| && ValidParts(PartsOf(cfg, runs))
    ensures j < |Emitted(PartsOf(cfg, runs)[i].data)|
    ensures var e := runs[q].results[i].timed.records[j];
            var rows := Ranked(RunRows(PartsOf(cfg, runs), places), SlotAt(PartsOf(cfg, runs)[i], j));
            && |rows| == |runs| && GlobalMax(rows) == e.seconds * 1000000.0 && rows[0].globalRank == e.rank
            && exists x :: x in Slow(rows, fraction) && x.rank == e.rank
  {
    hide Met, HasDuplicate, RunRows, NamedBy, Nonnegative, Emitted, Ranked, Slow, GlobalMax, SlotAt, ValidSample, HasSample, SampleOf;
    RunAccepted(cfg, runs, places);
    PartsValid(cfg, runs);
    SampleEverywhere(cfg, runs, q, i);
    assert i < |runs[0].results| by { SameSample(cfg, runs, 0, q, i); }
    SampleJoin(cfg, runs, i, q);
    RecordedRankIsSlow(PartsOf(cfg, runs), places, i, j, fraction);
  }
}
