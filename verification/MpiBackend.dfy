/** One rank's side of the MPI backend: the four buffers it owns and overwrites in place.
    Each method is tied to the function of Halo that the protocol uses for the same step. */
module MpiBackend {
  import opened Halo

  class RankBuffers {
    const rank: nat
    var haloWords: nat
    var hins: array<Word>
    var hons: array<Word>
    var hiew: array<Word>
    var hoew: array<Word>

    ghost predicate Valid()
      reads this, hins, hons, hiew, hoew
    {
      && hins != hons && hins != hiew && hins != hoew && hons != hiew && hons != hoew && hiew != hoew
      && View().Sized(haloWords)
    }

    function View(): (b: Buffers)
      reads this, hins, hons, hiew, hoew
    {
      Buffers(hins[..], hons[..], hiew[..], hoew[..])
    }

    constructor (rank: nat)
      ensures Valid() && fresh(hins) && fresh(hons) && fresh(hiew) && fresh(hoew)
      ensures this.rank == rank && haloWords == 0
    {
      this.rank := rank;
      haloWords := 0;
      hins, hons := new Word[0], new Word[0];
      hiew, hoew := new Word[0], new Word[0];
    }

    /** The three work buffers are zeroed; hoew keeps its words unless the halo length changes. */
    method Setup(haloWords: nat)
      requires Valid()
      modifies this
      ensures Valid() && this.haloWords == haloWords
      ensures View() == Prepared(old(View()), haloWords, rank)
      ensures hins.Length == hons.Length == hiew.Length == hoew.Length == 3 * haloWords
      ensures forall i | 0 <= i < 3 * haloWords :: hins[i] == hons[i] == hiew[i] == 0
      ensures if old(hoew.Length) == 3 * haloWords then hoew == old(hoew) && hoew[..] == old(hoew[..])
              else forall i | 0 <= i < 3 * haloWords :: hoew[i] == rank
    {
      this.haloWords := haloWords;
      var words := BufferWords(haloWords);
      hins := new Word[words](_ => 0);
      hons := new Word[words](_ => 0);
      hiew := new Word[words](_ => 0);
      if hoew.Length != words {
        hoew := new Word[words](_ => rank);
      }
    }

    /** The local copy at the head of stages 0 and 2, word by word. */
    method EnterStage(t: nat)
      requires Valid() && t < 4
      modifies hins, hiew
      ensures Valid() && View() == Begin(old(View()), t)
    {
      if t == 0 {
        Copy(hoew, hins);
      } else if t == 2 {
        Copy(hons, hiew);
      }
    }

    /** The words handed to the send half of stage t. */
    method PostSend(t: nat) returns (msg: seq<Word>)
      requires Valid() && t < 4
      ensures msg == Outgoing(View(), haloWords, t)
    {
      var from := if t < 2 then hins else hiew;
      msg := from[SegLo(haloWords, t)..SegLo(haloWords, t) + SegLen(haloWords, t)];
    }

    /** The receive half of stage t overwrites its segment and nothing else. */
    method Receive(t: nat, msg: seq<Word>)
      requires Valid() && t < 4 && |msg| == SegLen(haloWords, t)
      modifies hons, hoew
      ensures Valid() && View() == Deliver(old(View()), haloWords, t, msg)
    {
      if t < 2 {
        Store(hons, SegLo(haloWords, t), msg);
      } else {
        Store(hoew, SegLo(haloWords, t), msg);
      }
    }
  }

  method Copy(from: array<Word>, to: array<Word>)
    requires from != to && from.Length == to.Length
    modifies to
    ensures to[..] == from[..]
  {
    for i := 0 to from.Length
      invariant forall k | 0 <= k < i :: to[k] == from[k]
    {
      to[i] := from[i];
    }
  }

  method Store(a: array<Word>, lo: nat, msg: seq<Word>)
    requires lo + |msg| <= a.Length
    modifies a
    ensures a[..] == Splice(old(a[..]), lo, msg)
  {
    for i := 0 to |msg|
      invariant forall k | 0 <= k < a.Length :: a[k] == if lo <= k < lo + i then msg[k - lo] else old(a[k])
    {
      a[lo + i] := msg[i];
    }
  }
}
