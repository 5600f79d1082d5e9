/** Re-framing a byte stream into blocks of a fixed size: the device uplink, the
    Python encoder and the playback task all do it, each with its own buffer. */
module Blocks {
  import opened Bytes

  /** The whole blocks of `n` bytes at the front of `s`. */
  function Whole(s: seq<Byte>, n: nat): (bs: seq<seq<Byte>>)
    requires 0 < n
    ensures forall i :: 0 <= i < |bs| ==> |bs[i]| == n
    decreases |s|
  {
    if |s| < n then [] else [s[..n]] + Whole(s[n..], n)
  }

  /** What is left behind them. */
  function Residue(s: seq<Byte>, n: nat): (r: seq<Byte>)
    requires 0 < n
    ensures |r| < n
    decreases |s|
  {
    if |s| < n then s else Residue(s[n..], n)
  }

  lemma WholeStep(s: seq<Byte>, n: nat)
    requires 0 < n
    ensures |s| < n ==> Whole(s, n) == [] && Residue(s, n) == s
    ensures n <= |s| ==> Whole(s, n) == [s[..n]] + Whole(s[n..], n) && Residue(s, n) == Residue(s[n..], n)
  {
  }

  lemma {:induction false} WholeAndResidue(s: seq<Byte>, n: nat)
    requires 0 < n
    ensures Concat(Whole(s, n)) + Residue(s, n) == s
    ensures |s| == |Whole(s, n)| * n + |Residue(s, n)|
    decreases |s|
  {
    hide Whole, Residue, Concat;
    WholeStep(s, n);
    if |s| < n {
      ConcatNothing<Byte>();
    } else {
      var later := Whole(s[n..], n);
      WholeAndResidue(s[n..], n);
      ConcatAppend([s[..n]], later);
      ConcatSnoc([], s[..n]);
      ConcatNothing<Byte>();
      assert [] + [s[..n]] == [s[..n]] && [] + s[..n] == s[..n];
      assert s == s[..n] + (Concat(later) + Residue(s[n..], n));
      assert (|later| + 1) * n == |later| * n + n;
    }
  }

  /** Blocking resumes from the residue. */
  lemma {:induction false} WholeAppend(a: seq<Byte>, b: seq<Byte>, n: nat)
    requires 0 < n
    ensures Whole(a + b, n) == Whole(a, n) + Whole(Residue(a, n) + b, n)
    ensures Residue(a + b, n) == Residue(Residue(a, n) + b, n)
    decreases |a|
  {
    hide Whole, Residue;
    WholeStep(a, n);
    if |a| < n {
      assert [] + Whole(a + b, n) == Whole(a + b, n);
    } else {
      WholeStep(a + b, n);
      assert (a + b)[..n] == a[..n];
      assert (a + b)[n..] == a[n..] + b;
      WholeAppend(a[n..], b, n);
      var later := Whole(Residue(a[n..], n) + b, n);
      assert [a[..n]] + (Whole(a[n..], n) + later) == [a[..n]] + Whole(a[n..], n) + later;
    }
  }

  lemma WholePrefix(a: seq<Byte>, b: seq<Byte>, n: nat)
    requires 0 < n
    ensures Whole(a, n) <= Whole(a + b, n)
  {
    WholeAppend(a, b, n);
  }

  lemma OneBlock(s: seq<Byte>, n: nat)
    requires 0 < n == |s|
    ensures Whole(s, n) == [s] && Residue(s, n) == []
  {
    assert s[..n] == s && s[n..] == [];
  }

  /** A piece that fits in the current block either completes it or waits in it. */
  lemma FillBlock(s: seq<Byte>, piece: seq<Byte>, n: nat)
    requires 0 < n && |Residue(s, n)| + |piece| <= n
    ensures |Residue(s, n)| + |piece| == n ==>
              Whole(s + piece, n) == Whole(s, n) + [Residue(s, n) + piece] && Residue(s + piece, n) == []
    ensures |Residue(s, n)| + |piece| < n ==>
              Whole(s + piece, n) == Whole(s, n) && Residue(s + piece, n) == Residue(s, n) + piece
  {
    hide Whole, Residue;
    WholeAppend(s, piece, n);
    WholeStep(Residue(s, n) + piece, n);
    if |Residue(s, n)| + |piece| == n {
      OneBlock(Residue(s, n) + piece, n);
    }
  }

  /** The blocks of a finished stream: a partial last block is filled up with zeros. */
  function Padded(s: seq<Byte>, n: nat): (bs: seq<seq<Byte>>)
    requires 0 < n
    ensures forall i :: 0 <= i < |bs| ==> |bs[i]| == n
  {
    var r := Residue(s, n);
    Whole(s, n) + if r == [] then [] else [r + Zeros(n - |r|)]
  }

  /** Number of zeros a finished stream gains. */
  function Padding(s: seq<Byte>, n: nat): (k: nat)
    requires 0 < n
    ensures k < n
  {
    var r := |Residue(s, n)|;
    if r == 0 then 0 else n - r
  }

  /** Padding only appends: cutting the padded bytes back to the original length gives
      the original bytes. */
  lemma PaddedKeepsBytes(s: seq<Byte>, n: nat)
    requires 0 < n
    ensures Concat(Padded(s, n)) == s + Zeros(Padding(s, n))
    ensures |Concat(Padded(s, n))| == |Padded(s, n)| * n
    ensures Concat(Padded(s, n))[..|s|] == s
  {
    hide Whole, Residue, Concat;
    WholeAndResidue(s, n);
    var w, r := Whole(s, n), Residue(s, n);
    if r == [] {
      assert Padded(s, n) == w;
      assert Concat(w) == s + Zeros(0);
      assert |s| == |w| * n;
    } else {
      var z := Zeros(n - |r|);
      ConcatSnoc(w, r + z);
      assert Concat(w) + (r + z) == (Concat(w) + r) + z;
      assert (|w| + 1) * n == |w| * n + n;
    }
  }
}
