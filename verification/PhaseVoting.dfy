/** Which phase dominates each stalled iteration, and the vote that names the cause. */
module PhaseVoting {
  import opened Sorting
  import opened Grouping
  import opened RankStalls

  datatype PhaseRow = PhaseRow(slot: Slot, name: string, seconds: real, maxRank: int)

  datatype Category = Synchronization | CopyTranspose | Communication | MixedUnattributed

  predicate HasPrefix(s: string, prefix: string) {
    |prefix| <= |s| && s[..|prefix|] == prefix
  }

  predicate Contains(s: string, part: string) {
    HasPrefix(s, part) || (s != "" && Contains(s[1..], part))
  }

  lemma {:induction false} ContainsExact(s: string, part: string)
    ensures Contains(s, part) <==> exists i :: 0 <= i <= |s| && HasPrefix(s[i..], part)
  {
    if HasPrefix(s, part) {
      assert s[0..] == s;
    } else if s != "" {
      ContainsExact(s[1..], part);
      if i :| 0 <= i <= |s[1..]| && HasPrefix(s[1..][i..], part) {
        assert s[1..][i..] == s[i + 1..];
      }
      if i :| 0 <= i <= |s| && HasPrefix(s[i..], part) {
        assert i > 0 by { assert s[0..] == s; }
        assert s[i..] == s[1..][i - 1..];
      }
    } else {
      assert forall i | 0 <= i <= |s| :: s[i..] == s;
    }
  }

  function PhaseCategory(name: string): Category {
    if Contains(name, "sync") then Synchronization
    else if Contains(name, "copy") || Contains(name, "transpose") then CopyTranspose
    else if Contains(name, "communication") || Contains(name, "enqueue") || Contains(name, "mpi") then Communication
    else MixedUnattributed
  }

  /** The part occurs in the string. */
  ghost predicate Occurs(part: string, s: string) {
    exists i :: OccursAt(part, s, i)
  }

  ghost predicate OccursAt(part: string, s: string, i: int) {
    0 <= i <= i + |part| <= |s| && s[i..i + |part|] == part
  }

  lemma ContainsOccurs(s: string, part: string)
    ensures Contains(s, part) <==> Occurs(part, s)
  {
    ContainsExact(s, part);
    if i :| 0 <= i <= |s| && HasPrefix(s[i..], part) {
      assert s[i..][..|part|] == s[i..i + |part|];
      assert OccursAt(part, s, i);
    }
    if i :| OccursAt(part, s, i) {
      assert s[i..][..|part|] == s[i..i + |part|];
      assert HasPrefix(s[i..], part);
    }
  }

  /** Which words put a phase name in which category: the first line that applies. */
  lemma CategoryExact(name: string)
    ensures PhaseCategory(name) == Synchronization <==> Occurs("sync", name)
    ensures PhaseCategory(name) == CopyTranspose <==> !Occurs("sync", name) && (Occurs("copy", name) || Occurs("transpose", name))
    ensures PhaseCategory(name) == Communication <==>
              !Occurs("sync", name) && !Occurs("copy", name) && !Occurs("transpose", name)
              && (Occurs("communication", name) || Occurs("enqueue", name) || Occurs("mpi", name))
  {
    hide Contains, Occurs;
    ContainsOccurs(name, "sync");
    ContainsOccurs(name, "copy");
    ContainsOccurs(name, "transpose");
    ContainsOccurs(name, "communication");
    ContainsOccurs(name, "enqueue");
    ContainsOccurs(name, "mpi");
  }

  // ----- the dominant phase of one iteration

  /** Strings compare like tuples of characters. */
  predicate StringLess(a: string, b: string) {
    b != "" && (a == "" || a[0] < b[0] || (a[0] == b[0] && StringLess(a[1..], b[1..])))
  }

  lemma {:induction false} StringOrder(a: string, b: string)
    ensures !(StringLess(a, b) && StringLess(b, a)) && (StringLess(a, b) || StringLess(b, a) || a == b)
  {
    if a != "" && b != "" {
      StringOrder(a[1..], b[1..]);
      assert a == [a[0]] + a[1..] && b == [b[0]] + b[1..];
    }
  }

  lemma {:induction false} StringTransitive(a: string, b: string, c: string)
    requires StringLess(a, b) && StringLess(b, c)
    ensures StringLess(a, c)
  {
    if a != "" && a[0] == b[0] == c[0] {
      StringTransitive(a[1..], b[1..], c[1..]);
    }
  }

  /** a is a proper prefix of b, or smaller at the first position where they differ. */
  ghost predicate SmallerAt(a: string, b: string, i: int) {
    0 <= i <= |a| && i < |b| && a[..i] == b[..i] && (i < |a| ==> a[i] < b[i])
  }

  lemma {:induction false} StringLessExact(a: string, b: string)
    ensures StringLess(a, b) <==> exists i :: SmallerAt(a, b, i)
  {
    if b != "" && a != "" && a[0] == b[0] {
      StringLessExact(a[1..], b[1..]);
      if i :| SmallerAt(a[1..], b[1..], i) {
        assert a[..i + 1] == [a[0]] + a[1..][..i] && b[..i + 1] == [b[0]] + b[1..][..i];
        assert SmallerAt(a, b, i + 1);
      }
      if i :| SmallerAt(a, b, i) {
        assert i > 0;
        assert a[1..][..i - 1] == a[..i][1..] && b[1..][..i - 1] == b[..i][1..];
        assert SmallerAt(a[1..], b[1..], i - 1);
      }
    } else if b != "" && (a == "" || a[0] < b[0]) {
      assert SmallerAt(a, b, 0);
    }
  }

  /** The key is the time, then the lower rank, then the name. */
  predicate Beats(a: PhaseRow, b: PhaseRow) {
    a.seconds > b.seconds
    || (a.seconds == b.seconds && (a.maxRank < b.maxRank || (a.maxRank == b.maxRank && StringLess(b.name, a.name))))
  }

  /** The first row with the largest key. */
  function Dominant(rows: seq<PhaseRow>): PhaseRow
    requires rows != []
  {
    var m := |rows| - 1;
    if m == 0 then rows[0] else if Beats(rows[m], Dominant(rows[..m])) then rows[m] else Dominant(rows[..m])
  }

  lemma BeatsTransitive(a: PhaseRow, b: PhaseRow, c: PhaseRow)
    requires !Beats(a, b) && !Beats(b, c)
    ensures !Beats(a, c)
  {
    if Beats(a, c) {
      StringOrder(a.name, b.name);
      StringOrder(b.name, c.name);
      if a.seconds == b.seconds == c.seconds && a.maxRank == b.maxRank == c.maxRank {
        if StringLess(c.name, a.name) && StringLess(a.name, b.name) {
          StringTransitive(c.name, a.name, b.name);
        }
      }
    }
  }

  lemma BeatsOnce(a: PhaseRow, b: PhaseRow)
    ensures !(Beats(a, b) && Beats(b, a)) && (Beats(a, b) || Beats(b, a) || a.name == b.name)
  {
    StringOrder(a.name, b.name);
  }

  /** d has the longest time of the rows, among those the lowest rank, and among those the last name. */
  ghost predicate IsDominant(rows: seq<PhaseRow>, d: PhaseRow) {
    d in rows && forall r | r in rows :: Behind(r, d)
  }

  predicate Behind(r: PhaseRow, d: PhaseRow) {
    && r.seconds <= d.seconds
    && (r.seconds == d.seconds ==> r.maxRank >= d.maxRank && (r.maxRank == d.maxRank ==> !StringLess(d.name, r.name)))
  }

  /** The longest time, then the lowest rank, then the last name in dictionary order. */
  lemma DominantExact(rows: seq<PhaseRow>)
    requires rows != []
    ensures IsDominant(rows, Dominant(rows))
  {
    DominantCorrect(rows);
    forall r | r in rows
      ensures Behind(r, Dominant(rows))
    {
      assert !Beats(r, Dominant(rows));
    }
  }

  lemma {:induction false} DominantCorrect(rows: seq<PhaseRow>)
    requires rows != []
    ensures Dominant(rows) in rows && forall r | r in rows :: !Beats(r, Dominant(rows))
  {
    var m := |rows| - 1;
    BeatsOnce(rows[m], rows[m]);
    if m > 0 {
      DominantCorrect(rows[..m]);
      var d := Dominant(rows[..m]);
      BeatsOnce(rows[m], d);
      forall r | r in rows
        ensures !Beats(r, Dominant(rows))
      {
        if r != rows[m] && Beats(rows[m], d) {
          var i :| 0 <= i < |rows| && rows[i] == r;
          assert rows[..m][i] == r;
          BeatsTransitive(r, d, rows[m]);
        }
      }
    }
  }

  /** The dominant phase does not depend on the order of the rows, even among equal keys. */
  lemma DominantOrder(rows: seq<PhaseRow>, rows': seq<PhaseRow>)
    requires rows != [] && multiset(rows) == multiset(rows')
    ensures rows' != [] && Dominant(rows).name == Dominant(rows').name
  {
    assert rows[0] in multiset(rows');
    DominantCorrect(rows);
    DominantCorrect(rows');
    assert Dominant(rows) in multiset(rows') && Dominant(rows') in multiset(rows);
    BeatsOnce(Dominant(rows), Dominant(rows'));
  }

  // ----- the vote

  /** most_common(1): some category counted most often; which one of several is left open. */
  ghost predicate MostCommon(votes: multiset<Category>, c: Category) {
    c in votes && forall d :: votes[d] <= votes[c]
  }

  /** The cause: the category of more than half of the iterations, or mixed. */
  ghost predicate Verdict(votes: multiset<Category>, cause: Category) {
    if exists c :: 2 * votes[c] > |votes| then 2 * votes[cause] > |votes| else cause == MixedUnattributed
  }

  lemma PairAtMost(votes: multiset<Category>, c: Category, d: Category)
    requires c != d
    ensures votes[c] + votes[d] <= |votes|
  {
    var rest := votes[c := 0][d := 0];
    assert votes == rest + multiset{}[c := votes[c]] + multiset{}[d := votes[d]];
  }

  /** There is only one verdict, so neither the order of the votes nor the way ties between
      counters are broken can change it. */
  lemma VerdictUnique(votes: multiset<Category>, c: Category, d: Category)
    requires Verdict(votes, c) && Verdict(votes, d)
    ensures c == d
  {
    if c != d {
      PairAtMost(votes, c, d);
    }
  }

  /** Whichever most common category is picked, testing it against half of the votes gives the
      verdict. */
  lemma MostCommonDecides(votes: multiset<Category>, c: Category)
    requires MostCommon(votes, c)
    ensures Verdict(votes, if 2 * votes[c] > |votes| then c else MixedUnattributed)
  {
    if d :| 2 * votes[d] > |votes| {
      assert votes[d] <= votes[c];
    }
  }

  // ----- the analysis

  function PhaseSlot(): PhaseRow -> Slot { (r: PhaseRow) => r.slot }

  /** The rows of the iterations that were stalled. */
  function Relevant(rows: seq<PhaseRow>, affected: set<Slot>): seq<PhaseRow> {
    if rows == [] then []
    else
      var m := |rows| - 1;
      Relevant(rows[..m], affected) + (if rows[m].slot in affected then [rows[m]] else [])
  }

  lemma {:induction false} RelevantExact(rows: seq<PhaseRow>, affected: set<Slot>, x: PhaseRow)
    ensures multiset(Relevant(rows, affected))[x] == if x.slot in affected then multiset(rows)[x] else 0
  {
    if rows != [] {
      var m := |rows| - 1;
      RelevantExact(rows[..m], affected, x);
      assert rows == rows[..m] + [rows[m]];
    }
  }

  /** The dominant phase of every iteration. */
  function Winners(rows: seq<PhaseRow>, slots: seq<Slot>): (names: seq<string>)
    requires Present(rows, PhaseSlot(), slots)
    ensures |names| == |slots|
  {
    if slots == [] then []
    else
      var m := |slots| - 1;
      Winners(rows, slots[..m]) + [Dominant(Members(rows, PhaseSlot(), slots[m])).name]
  }

  function Votes(names: seq<string>): (votes: multiset<Category>)
    ensures |votes| == |names|
  {
    if names == [] then multiset{} else Votes(names[..|names| - 1]) + multiset{PhaseCategory(names[|names| - 1])}
  }

  datatype Summary = MissingSample | Summary(iterations: nat, dominant: multiset<string>, cause: Category)

  function PhaseSlots(rows: seq<PhaseRow>): seq<Slot> {
    Sort(KeysOf(rows, PhaseSlot()), SlotLeq())
  }

  /** The samples are those the result file describes; rows of other samples are an error, also
      when their iteration was not stalled. */
  predicate Known(rows: seq<PhaseRow>, samples: set<(int, int)>) {
    forall i | 0 <= i < |rows| :: (rows[i].slot.halo, rows[i].slot.sample) in samples
  }

  method AnalyzePhaseRecords(rows: seq<PhaseRow>, samples: set<(int, int)>, affected: set<Slot>) returns (a: Summary)
    ensures a.MissingSample? <==> exists i :: 0 <= i < |rows| && (rows[i].slot.halo, rows[i].slot.sample) !in samples
    ensures a.Summary? ==> Decided(Relevant(rows, affected), a)
  {
    var relevant := SelectRelevant(rows, affected);
    if !Known(rows, samples) {
      return MissingSample;
    }
    var groups := GroupBy(relevant, PhaseSlot());
    var slots := PhaseSlots(relevant);
    SlotsPresent(relevant);
    var dominant, votes := CountWinners(relevant, groups, slots);
    var cause := MixedUnattributed;
    if slots != [] {
      var c := PickMostCommon(votes);
      MostCommonDecides(votes, c);
      cause := if 2 * votes[c] > |slots| then c else MixedUnattributed;
    }
    a := Summary(|slots|, dominant, cause);
  }

  /** What the analysis of the relevant rows comes to. */
  ghost predicate Decided(rows: seq<PhaseRow>, a: Summary)
    requires a.Summary?
  {
    && Present(rows, PhaseSlot(), PhaseSlots(rows)) && a.iterations == |PhaseSlots(rows)|
    && a.dominant == multiset(Winners(rows, PhaseSlots(rows)))
    && Verdict(Votes(Winners(rows, PhaseSlots(rows))), a.cause)
  }

  method SelectRelevant(rows: seq<PhaseRow>, affected: set<Slot>) returns (relevant: seq<PhaseRow>)
    ensures relevant == Relevant(rows, affected)
  {
    relevant := [];
    for i := 0 to |rows|
      invariant relevant == Relevant(rows[..i], affected)
    {
      assert rows[..i + 1][..i] == rows[..i];
      if rows[i].slot in affected {
        relevant := relevant + [rows[i]];
      }
    }
    assert rows[..|rows|] == rows;
  }

  method CountWinners(ghost rows: seq<PhaseRow>, groups: map<Slot, seq<PhaseRow>>, slots: seq<Slot>)
    returns (dominant: multiset<string>, votes: multiset<Category>)
    requires Present(rows, PhaseSlot(), slots) && forall k :: Filed(rows, PhaseSlot(), groups, k)
    ensures Counted(rows, slots, dominant, votes)
  {
    hide Counted, Filed, Dominant, PhaseCategory, Members;
    dominant, votes := multiset{}, multiset{};
    NoneCounted(rows);
    for i := 0 to |slots|
      invariant Counted(rows, slots[..i], dominant, votes)
    {
      assert Members(rows, PhaseSlot(), slots[i]) != [];
      FiledMembers(rows, PhaseSlot(), groups, slots[i]);
      CountedNext(rows, slots, i, dominant, votes);
      var name := Dominant(groups[slots[i]]).name;
      dominant := dominant + multiset{name};
      votes := votes + multiset{PhaseCategory(name)};
    }
    assert slots[..|slots|] == slots;
  }

  /** The counters hold the winners of these iterations and their categories. */
  ghost predicate Counted(rows: seq<PhaseRow>, slots: seq<Slot>, dominant: multiset<string>, votes: multiset<Category>) {
    Present(rows, PhaseSlot(), slots) && dominant == multiset(Winners(rows, slots)) && votes == Votes(Winners(rows, slots))
  }

  lemma CountedNext(rows: seq<PhaseRow>, slots: seq<Slot>, i: nat, dominant: multiset<string>, votes: multiset<Category>)
    requires Present(rows, PhaseSlot(), slots) && i < |slots| && Counted(rows, slots[..i], dominant, votes)
    ensures Members(rows, PhaseSlot(), slots[i]) != []
    ensures var name := Dominant(Members(rows, PhaseSlot(), slots[i])).name;
            Counted(rows, slots[..i + 1], dominant + multiset{name}, votes + multiset{PhaseCategory(name)})
  {
    WinnersNext(rows, slots, i);
    VotesNext(Winners(rows, slots[..i]), Dominant(Members(rows, PhaseSlot(), slots[i])).name);
  }

  lemma NoneCounted(rows: seq<PhaseRow>)
    ensures Counted(rows, [], multiset{}, multiset{})
  {
  }

  lemma VotesNext(names: seq<string>, name: string)
    ensures Votes(names + [name]) == Votes(names) + multiset{PhaseCategory(name)}
  {
    assert (names + [name])[..|names|] == names;
  }

  lemma WinnersNext(rows: seq<PhaseRow>, slots: seq<Slot>, i: nat)
    requires Present(rows, PhaseSlot(), slots) && i < |slots|
    ensures Present(rows, PhaseSlot(), slots[..i]) && Present(rows, PhaseSlot(), slots[..i + 1]) && Members(rows, PhaseSlot(), slots[i]) != []
    ensures Winners(rows, slots[..i + 1]) == Winners(rows, slots[..i]) + [Dominant(Members(rows, PhaseSlot(), slots[i])).name]
  {
    assert slots[..i + 1][..i] == slots[..i];
  }

  method PickMostCommon(votes: multiset<Category>) returns (c: Category)
    requires |votes| > 0
    ensures MostCommon(votes, c)
  {
    var others := [CopyTranspose, Communication, MixedUnattributed];
    c := Synchronization;
    for i := 0 to |others|
      invariant votes[Synchronization] <= votes[c] && forall j | 0 <= j < i :: votes[others[j]] <= votes[c]
    {
      if votes[others[i]] > votes[c] {
        c := others[i];
      }
    }
    AllCategories(votes, c, others);
  }

  lemma AllCategories(votes: multiset<Category>, c: Category, others: seq<Category>)
    requires |votes| > 0 && others == [CopyTranspose, Communication, MixedUnattributed]
    requires votes[Synchronization] <= votes[c] && forall j | 0 <= j < 3 :: votes[others[j]] <= votes[c]
    ensures MostCommon(votes, c)
  {
    assert votes[others[0]] <= votes[c] && votes[others[1]] <= votes[c] && votes[others[2]] <= votes[c];
    forall d
      ensures votes[d] <= votes[c]
    {
      assert d == Synchronization || d == others[0] || d == others[1] || d == others[2];
    }
    var d :| d in votes;
    assert 0 < votes[d] <= votes[c];
  }

  lemma SlotsPresent(rows: seq<PhaseRow>)
    ensures Present(rows, PhaseSlot(), PhaseSlots(rows))
  {
    Orders();
    SortedPresent(rows, PhaseSlot(), SlotLeq());
  }

  // ----- the theorems

  /** Dominant counts add up to the number of iterations, and a category is named as the cause
      exactly if more than half of the iterations are dominated by it. */
  lemma VoteSound(rows: seq<PhaseRow>, a: Summary, c: Category)
    requires a.Summary? && Decided(rows, a)
    ensures |a.dominant| == a.iterations
    ensures c != MixedUnattributed ==>
              (a.cause == c <==> 2 * Votes(Winners(rows, PhaseSlots(rows)))[c] > a.iterations)
  {
    var votes := Votes(Winners(rows, PhaseSlots(rows)));
    if c != a.cause {
      PairAtMost(votes, c, a.cause);
    }
  }

  lemma {:induction false} SameWinners(rows: seq<PhaseRow>, rows': seq<PhaseRow>, slots: seq<Slot>)
    requires multiset(rows) == multiset(rows') && Present(rows, PhaseSlot(), slots)
    ensures Present(rows', PhaseSlot(), slots) && Winners(rows, slots) == Winners(rows', slots)
  {
    forall i | 0 <= i < |slots|
      ensures Members(rows', PhaseSlot(), slots[i]) != []
    {
      SameMembers(rows, rows', PhaseSlot(), slots[i]);
      assert Members(rows, PhaseSlot(), slots[i])[0] in multiset(Members(rows', PhaseSlot(), slots[i]));
    }
    if slots != [] {
      var m := |slots| - 1;
      SameWinners(rows, rows', slots[..m]);
      SameMembers(rows, rows', PhaseSlot(), slots[m]);
      DominantOrder(Members(rows, PhaseSlot(), slots[m]), Members(rows', PhaseSlot(), slots[m]));
    }
  }

  /** The whole analysis does not depend on the order of the rows. */
  lemma OrderIndependent(rows: seq<PhaseRow>, rows': seq<PhaseRow>, affected: set<Slot>, a: Summary, a': Summary)
    requires multiset(rows) == multiset(rows') && a.Summary? && a'.Summary?
    requires Decided(Relevant(rows, affected), a) && Decided(Relevant(rows', affected), a')
    ensures a == a'
  {
    var r, r' := Relevant(rows, affected), Relevant(rows', affected);
    forall x
      ensures multiset(r)[x] == multiset(r')[x]
    {
      RelevantExact(rows, affected, x);
      RelevantExact(rows', affected, x);
    }
    Orders();
    SameSortedKeys(r, r', PhaseSlot(), SlotLeq());
    SameWinners(r, r', PhaseSlots(r));
    VerdictUnique(Votes(Winners(r, PhaseSlots(r))), a.cause, a'.cause);
  }

  // ----- the cause, from the rows themselves

  /** The stalled iterations that have rows. */
  ghost function StalledSlots(rows: seq<PhaseRow>, affected: set<Slot>): set<Slot> {
    set r | r in rows && r.slot in affected :: r.slot
  }

  /** d is the dominant row of the iteration. */
  ghost predicate DominatesSlot(rows: seq<PhaseRow>, s: Slot, d: PhaseRow) {
    d in rows && d.slot == s && forall r | r in rows && r.slot == s :: Behind(r, d)
  }

  /** Some phase of category c dominates the iteration. */
  ghost predicate CausedBy(rows: seq<PhaseRow>, s: Slot, c: Category) {
    exists d :: DominatesSlot(rows, s, d) && PhaseCategory(d.name) == c
  }

  ghost function SlotsCausedBy(rows: seq<PhaseRow>, affected: set<Slot>, c: Category): set<Slot> {
    set s | s in StalledSlots(rows, affected) && CausedBy(rows, s, c)
  }

  lemma RelevantRows(rows: seq<PhaseRow>, affected: set<Slot>, x: PhaseRow)
    ensures x in Relevant(rows, affected) <==> x in rows && x.slot in affected
  {
    RelevantExact(rows, affected, x);
    assert x in rows <==> x in multiset(rows);
    assert x in Relevant(rows, affected) <==> x in multiset(Relevant(rows, affected));
  }

  lemma MemberRows(rows: seq<PhaseRow>, s: Slot, x: PhaseRow)
    ensures x in Members(rows, PhaseSlot(), s) <==> x in rows && x.slot == s
  {
    MembersExact(rows, PhaseSlot(), s, x);
    assert x in rows <==> x in multiset(rows);
    assert x in Members(rows, PhaseSlot(), s) <==> x in multiset(Members(rows, PhaseSlot(), s));
  }

  /** The rows of an iteration decide its category, and only one. */
  lemma CategoryOfSlot(rows: seq<PhaseRow>, affected: set<Slot>, s: Slot, c: Category)
    requires s in affected && Members(Relevant(rows, affected), PhaseSlot(), s) != []
    ensures CausedBy(rows, s, c) <==> PhaseCategory(Dominant(Members(Relevant(rows, affected), PhaseSlot(), s)).name) == c
  {
    var name := Dominant(Members(Relevant(rows, affected), PhaseSlot(), s)).name;
    NameOfSlot(rows, affected, s, name);
    var d :| DominatesSlot(rows, s, d) && d.name == name;
    forall e | DominatesSlot(rows, s, e)
      ensures e.name == name
    {
      NameOfSlot(rows, affected, s, e.name);
    }
  }

  lemma SlotsExact(rows: seq<PhaseRow>, affected: set<Slot>)
    ensures var slots := PhaseSlots(Relevant(rows, affected));
            Distinct(slots) && (forall s :: s in slots <==> s in StalledSlots(rows, affected)) && |StalledSlots(rows, affected)| == |slots|
  {
    var relevant := Relevant(rows, affected);
    var slots := PhaseSlots(relevant);
    Orders();
    KeysExact(relevant, PhaseSlot());
    SortCorrect(KeysOf(relevant, PhaseSlot()), SlotLeq());
    SortedDistinct(KeysOf(relevant, PhaseSlot()), slots);
    forall s
      ensures s in slots <==> s in StalledSlots(rows, affected)
    {
      assert s in slots <==> s in multiset(slots);
      assert s in KeysOf(relevant, PhaseSlot()) <==> s in multiset(KeysOf(relevant, PhaseSlot()));
      assert s in slots <==> HasKey(relevant, PhaseSlot(), s);
      if i :| 0 <= i < |relevant| && PhaseSlot()(relevant[i]) == s {
        RelevantRows(rows, affected, relevant[i]);
      }
      if r :| r in rows && r.slot in affected && r.slot == s {
        RelevantRows(rows, affected, r);
        var i :| 0 <= i < |relevant| && relevant[i] == r;
        assert HasKey(relevant, PhaseSlot(), s);
      }
    }
    SetOfDistinct(slots, StalledSlots(rows, affected));
  }

  lemma SortedDistinct(a: seq<Slot>, b: seq<Slot>)
    requires Distinct(a) && multiset(a) == multiset(b)
    ensures Distinct(b)
  {
    forall i, j | 0 <= i < j < |b|
      ensures b[i] != b[j]
    {
      Once(a, b[i]);
      if b[i] == b[j] {
        Twice(b, i, j);
      }
    }
  }

  lemma Twice(b: seq<Slot>, i: nat, j: nat)
    requires i < j < |b| && b[i] == b[j]
    ensures multiset(b)[b[i]] >= 2
  {
    assert b == b[..i] + [b[i]] + b[i + 1..j] + [b[j]] + b[j + 1..];
  }

  lemma {:induction false} SetOfDistinct(a: seq<Slot>, s: set<Slot>)
    requires Distinct(a) && forall x :: x in a <==> x in s
    ensures |s| == |a|
  {
    if a == [] {
      assert s == {};
    } else {
      var m := |a| - 1;
      assert a == a[..m] + [a[m]];
      SetOfDistinct(a[..m], s - {a[m]});
    }
  }

  /** The votes of category c are the iterations it dominates. */
  lemma {:induction false} VotesExact(rows: seq<PhaseRow>, slots: seq<Slot>, c: Category, s: set<Slot>)
    requires Present(rows, PhaseSlot(), slots) && Distinct(slots)
    requires forall x :: x in s <==> x in slots && PhaseCategory(Dominant(Members(rows, PhaseSlot(), x)).name) == c
    ensures Votes(Winners(rows, slots))[c] == |s|
  {
    hide Members, PhaseCategory, Dominant;
    if slots == [] {
      assert s == {};
    } else {
      var m := |slots| - 1;
      assert slots == slots[..m] + [slots[m]];
      VotesExact(rows, slots[..m], c, s - {slots[m]});
      WinnersNext(rows, slots, m);
      assert slots[..m + 1] == slots;
      VotesNext(Winners(rows, slots[..m]), Dominant(Members(rows, PhaseSlot(), slots[m])).name);
    }
  }

  /** The name of the dominant row is that name. */
  ghost predicate DominatedBy(rows: seq<PhaseRow>, s: Slot, name: string) {
    exists d :: DominatesSlot(rows, s, d) && d.name == name
  }

  ghost function SlotsDominatedBy(rows: seq<PhaseRow>, affected: set<Slot>, name: string): set<Slot> {
    set s | s in StalledSlots(rows, affected) && DominatedBy(rows, s, name)
  }

  lemma NameOfSlot(rows: seq<PhaseRow>, affected: set<Slot>, s: Slot, name: string)
    requires s in affected && Members(Relevant(rows, affected), PhaseSlot(), s) != []
    ensures DominatedBy(rows, s, name) <==> Dominant(Members(Relevant(rows, affected), PhaseSlot(), s)).name == name
  {
    var group := Members(Relevant(rows, affected), PhaseSlot(), s);
    forall x
      ensures x in group <==> x in rows && x.slot == s
    {
      RelevantRows(rows, affected, x);
      MemberRows(Relevant(rows, affected), s, x);
    }
    DominantExact(group);
    assert DominatesSlot(rows, s, Dominant(group));
    forall d | DominatesSlot(rows, s, d)
      ensures d.name == Dominant(group).name
    {
      StringOrder(d.name, Dominant(group).name);
      assert Behind(d, Dominant(group)) && Behind(Dominant(group), d);
    }
  }

  lemma {:induction false} WinnersExact(rows: seq<PhaseRow>, slots: seq<Slot>, name: string, s: set<Slot>)
    requires Present(rows, PhaseSlot(), slots) && Distinct(slots)
    requires forall x :: x in s <==> x in slots && Dominant(Members(rows, PhaseSlot(), x)).name == name
    ensures multiset(Winners(rows, slots))[name] == |s|
  {
    hide Members, Dominant;
    if slots == [] {
      assert s == {};
    } else {
      var m := |slots| - 1;
      assert slots == slots[..m] + [slots[m]];
      WinnersExact(rows, slots[..m], name, s - {slots[m]});
      WinnersNext(rows, slots, m);
      assert slots[..m + 1] == slots;
    }
  }

  /** A name is counted once for every stalled iteration it dominates. */
  lemma DominantCounted(rows: seq<PhaseRow>, affected: set<Slot>, a: Summary, name: string)
    requires a.Summary? && Decided(Relevant(rows, affected), a)
    ensures a.dominant[name] == |SlotsDominatedBy(rows, affected, name)|
  {
    hide Dominant, Members, DominatedBy;
    var relevant := Relevant(rows, affected);
    var slots := PhaseSlots(relevant);
    SlotsExact(rows, affected);
    var s := SlotsDominatedBy(rows, affected, name);
    forall x
      ensures x in s <==> x in slots && Dominant(Members(relevant, PhaseSlot(), x)).name == name
    {
      if x in slots {
        var i :| 0 <= i < |slots| && slots[i] == x;
        assert Members(relevant, PhaseSlot(), slots[i]) != [];
        NameOfSlot(rows, affected, x, name);
      }
    }
    WinnersExact(relevant, slots, name, s);
  }

  /** The whole verdict in terms of the rows: a category is named as the cause exactly if it
      dominates more than half of the stalled iterations that have rows. */
  lemma CauseExact(rows: seq<PhaseRow>, affected: set<Slot>, a: Summary, c: Category)
    requires a.Summary? && Decided(Relevant(rows, affected), a)
    ensures a.iterations == |StalledSlots(rows, affected)|
    ensures c != MixedUnattributed ==> (a.cause == c <==> 2 * |SlotsCausedBy(rows, affected, c)| > |StalledSlots(rows, affected)|)
  {
    hide PhaseCategory, Dominant, Members, CausedBy;
    var relevant := Relevant(rows, affected);
    var slots := PhaseSlots(relevant);
    SlotsExact(rows, affected);
    var s := SlotsCausedBy(rows, affected, c);
    forall x
      ensures x in s <==> x in slots && PhaseCategory(Dominant(Members(relevant, PhaseSlot(), x)).name) == c
    {
      if x in slots {
        var i :| 0 <= i < |slots| && slots[i] == x;
        assert Members(relevant, PhaseSlot(), slots[i]) != [];
        CategoryOfSlot(rows, affected, x, c);
      }
    }
    VotesExact(relevant, slots, c, s);
    VoteSound(relevant, a, c);
  }
}
