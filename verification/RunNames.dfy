/** The halo length and sample number under which a run reports its samples, and when the
    analyzer takes two rows of a run for duplicates. */
module RunNames {
  import opened RankStalls
  import opened Gather
  import opened StallJoin
  import opened Records
  import opened Control
  import opened Reduction
  import opened PhaseTiming
  import opened Driver
  import opened Grouping
  import opened HaloSweep

  lemma {:induction false} SampleKeysExact(halo: nat, n: nat)
    ensures Distinct(SampleKeys(halo, n)) && |SampleKeys(halo, n)| == n
    ensures forall k :: k in SampleKeys(halo, n) <==> k.0 == halo && 1 <= k.1 <= n
  {
    if n > 0 {
      SampleKeysExact(halo, n - 1);
    }
  }

  lemma DistinctConcat<K>(a: seq<K>, b: seq<K>)
    ensures Distinct(a + b) <==> Distinct(a) && Distinct(b) && forall x | x in a :: x !in b
  {
    var c := a + b;
    if Distinct(c) {
      forall i, j | 0 <= i < j < |a|
        ensures a[i] != a[j]
      {
        assert c[i] != c[j];
      }
      forall i, j | 0 <= i < j < |b|
        ensures b[i] != b[j]
      {
        assert c[|a| + i] != c[|a| + j];
      }
      forall i, j | 0 <= i < |a| && 0 <= j < |b|
        ensures a[i] != b[j]
      {
        assert c[i] != c[|a| + j];
      }
    } else {
      var i, j :| 0 <= i < j < |c| && c[i] == c[j];
      if j < |a| {
        assert a[i] == a[j];
      } else if i >= |a| {
        assert b[i - |a|] == b[j - |a|];
      } else {
        assert c[i] in a && c[j] in b;
      }
    }
  }

  lemma {:induction false} KeysExact(halos: seq<nat>, samples: nat)
    ensures forall k :: k in Keys(halos, samples) <==> k.0 in halos && 1 <= k.1 <= samples
  {
    if halos != [] {
      var m := |halos| - 1;
      KeysExact(halos[..m], samples);
      SampleKeysExact(halos[m], samples);
      assert halos == halos[..m] + [halos[m]];
    }
  }

  lemma HaloStep(halos: seq<nat>)
    requires halos != []
    ensures var m := |halos| - 1; Distinct(halos) <==> Distinct(halos[..m]) && halos[m] !in halos[..m]
  {
    hide Distinct;
    var m := |halos| - 1;
    DistinctConcat(halos[..m], [halos[m]]);
    assert Distinct([halos[m]]) by { SampleOne(halos[m]); }
    assert halos == halos[..m] + [halos[m]];
  }

  lemma SampleOne(halo: nat)
    ensures Distinct([halo])
  {
  }

  lemma NameStep(halos: seq<nat>, samples: nat)
    requires halos != [] && samples > 0
    ensures var m := |halos| - 1;
            Distinct(Keys(halos, samples)) <==> Distinct(Keys(halos[..m], samples)) && halos[m] !in halos[..m]
  {
    hide Distinct, SampleKeys;
    var m := |halos| - 1;
    var a, b := Keys(halos[..m], samples), SampleKeys(halos[m], samples);
    SampleKeysExact(halos[m], samples);
    KeysExact(halos[..m], samples);
    DistinctConcat(a, b);
    if halos[m] in halos[..m] {
      assert (halos[m], 1) in a && (halos[m], 1) in b;
    }
  }

  /** The names of a run's samples differ exactly if no halo length is listed twice. */
  lemma {:induction false} NamesDistinct(halos: seq<nat>, samples: nat)
    requires samples > 0
    ensures Distinct(Keys(halos, samples)) <==> Distinct(halos)
  {
    if halos != [] {
      NamesDistinct(halos[..|halos| - 1], samples);
      HaloStep(halos);
      NameStep(halos, samples);
    }
  }

  /** A generated sweep never lists a halo length twice, so all its samples have different names. */
  lemma SweepNames(lengths: seq<nat>, min: nat, max: nat, m: nat, samples: nat)
    requires samples > 0 && min >= 1 && m >= 2 && AllTerms(lengths, min, max, m)
    ensures Distinct(Keys(lengths, samples))
  {
    forall i, j | 0 <= i < j < |lengths|
      ensures lengths[i] != lengths[j]
    {
      TermGrows(min, m, i, j);
    }
    NamesDistinct(lengths, samples);
  }

  // ----- duplicate rows of a run

  /** The samples of a run go by these names, in this order. */
  ghost predicate NamedBy(parts: seq<Part>, keys: seq<(nat, nat)>) {
    |parts| == |keys| && forall i | 0 <= i < |parts| :: parts[i].halo == keys[i].0 && parts[i].sample == keys[i].1
  }

  /** A run that lists no halo length twice never triggers the analyzer's duplicate error. */
  lemma {:induction false} DistinctHalosAccepted(parts: seq<Part>, places: int -> Place, halos: seq<nat>, samples: nat)
    requires ValidParts(parts) && NamedBy(parts, Keys(halos, samples)) && samples > 0 && Distinct(halos)
    ensures !HasDuplicate(RunRows(parts, places))
  {
    hide Keys, HasDuplicate, EmitsIn;
    NamesDistinct(halos, samples);
    RunDuplicates(parts, places);
    forall i, k | 0 <= i < k < |parts|
      ensures !Overlap(parts[i], parts[k])
    {
      assert Keys(halos, samples)[i] != Keys(halos, samples)[k];
    }
  }

  /** All iterations of the sample are recorded, and there are some. */
  predicate RecordsAll(p: Part) { p.data.thresholdUs <= 0.0 && p.data.iterations > 0 }

  lemma EmitsFirst(p: Part)
    requires ValidSample(p.data) && RecordsAll(p)
    ensures EmitsIn(p, 1)
  {
    var r := Reduced(p.data);
    var ks := Kept(p.data.thresholdUs, r);
    KeptExact(p.data.thresholdUs, r);
    assert 0 in ks;
    var j :| 0 <= j < |ks| && ks[j] == 0;
    assert Emitted(p.data)[j].iteration == 1;
  }

  /** When everything is recorded, the error fires exactly if some halo length is listed twice. */
  lemma {:induction false} AllRecordedDuplicates(parts: seq<Part>, places: int -> Place, halos: seq<nat>, samples: nat)
    requires ValidParts(parts) && NamedBy(parts, Keys(halos, samples)) && samples > 0
    requires forall i | 0 <= i < |parts| :: RecordsAll(parts[i])
    ensures HasDuplicate(RunRows(parts, places)) <==> !Distinct(halos)
  {
    hide Keys, HasDuplicate, EmitsIn;
    if Distinct(halos) {
      DistinctHalosAccepted(parts, places, halos, samples);
    } else {
      NamesDistinct(halos, samples);
      RunDuplicates(parts, places);
      var keys := Keys(halos, samples);
      var i, k :| 0 <= i < k < |keys| && keys[i] == keys[k];
      EmitsFirst(parts[i]);
      EmitsFirst(parts[k]);
      assert Overlap(parts[i], parts[k]);
      assert OverlapsEarlier(parts, k, parts[k]);
    }
  }

  /** A run of one rank that lists halo length 1 twice, with one recorded iteration each time. */
  lemma RepeatedHaloRejected(places: int -> Place)
    ensures var data := Sample(0.0, 1, [[0.5]], [[]]);
            var parts := [Part(1, 1, data), Part(1, 1, data)];
            ValidParts(parts) && NamedBy(parts, Keys([1, 1], 1)) && HasDuplicate(RunRows(parts, places))
  {
    var data := Sample(0.0, 1, [[0.5]], [[]]);
    var parts := [Part(1, 1, data), Part(1, 1, data)];
    assert Gather.Measured(data, 0);
    RepeatedKeys();
    assert !Distinct([1, 1]) by { assert [1, 1][0] == [1, 1][1]; }
    AllRecordedDuplicates(parts, places, [1, 1], 1);
  }

  lemma RepeatedKeys()
    ensures Keys([1, 1], 1) == [(1, 1), (1, 1)]
  {
    assert [1, 1][..1] == [1] && [1][..0] == [];
    assert SampleKeys(1, 1) == SampleKeys(1, 0) + [(1, 1)];
    assert Keys([1], 1) == Keys([], 1) + SampleKeys(1, 1);
    assert Keys([1, 1], 1) == Keys([1], 1) + SampleKeys(1, 1);
  }
}
