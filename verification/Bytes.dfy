/** Byte strings and the big-endian integers of the wire formats. */
module Bytes {

  type Byte = b: int | 0 <= b < 256

  const TWO_TO_32: nat := 0x1_0000_0000
  const TWO_TO_16: nat := 0x1_0000

  datatype Option<+T> = None | Some(value: T)

  datatype Result<+T, +E> = Ok(value: T) | Err(error: E)

  function Min(a: nat, b: nat): nat {
    if a < b then a else b
  }

  function Concat<T>(parts: seq<seq<T>>): seq<T> {
    if parts == [] then [] else parts[0] + Concat(parts[1..])
  }

  lemma ConcatUnfolds<T>(parts: seq<seq<T>>)
    requires parts != []
    ensures Concat(parts) == parts[0] + Concat(parts[1..])
  {
  }

  lemma {:induction false} ConcatAppend<T>(a: seq<seq<T>>, b: seq<seq<T>>)
    ensures Concat(a + b) == Concat(a) + Concat(b)
  {
    hide Concat;
    if a == [] {
      ConcatNothing<T>();
      assert a + b == b;
    } else {
      ConcatUnfolds(a);
      ConcatUnfolds(a + b);
      ConcatAppend(a[1..], b);
      assert (a + b)[1..] == a[1..] + b;
    }
  }

  lemma ConcatSnoc<T>(a: seq<seq<T>>, x: seq<T>)
    ensures Concat(a + [x]) == Concat(a) + x
  {
    ConcatAppend(a, [x]);
    assert Concat([x]) == x + Concat([x][1..]) == x;
  }

  lemma ConcatUpTo<T>(parts: seq<seq<T>>, i: nat)
    requires i < |parts|
    ensures Concat(parts[..i + 1]) == Concat(parts[..i]) + parts[i]
  {
    assert parts[..i + 1] == parts[..i] + [parts[i]];
    ConcatSnoc(parts[..i], parts[i]);
  }

  lemma ConcatNothing<T>()
    ensures Concat<T>([]) == []
  {
  }

  function Zeros(n: nat): (z: seq<Byte>)
    ensures |z| == n
  {
    seq(n, _ => 0)
  }

  function ToBe16(n: nat): (s: seq<Byte>)
    requires n < 0x1_0000
    ensures |s| == 2 && FromBe16(s) == n
  {
    [n / 256, n % 256]
  }

  function FromBe16(s: seq<Byte>): (n: nat)
    requires |s| == 2
    ensures n < TWO_TO_16
  {
    (s[0] as int) * 256 + s[1] as int
  }

  function ToBe32(n: nat): (s: seq<Byte>)
    requires n < TWO_TO_32
    ensures |s| == 4 && FromBe32(s) == n
  {
    ToBe16(n / TWO_TO_16) + ToBe16(n % TWO_TO_16)
  }

  function FromBe32(s: seq<Byte>): (n: nat)
    requires |s| == 4
    ensures n < TWO_TO_32
  {
    FromBe16(s[..2]) * TWO_TO_16 + FromBe16(s[2..])
  }

  /** Network byte order, digit by digit. */
  lemma BigEndian(s: seq<Byte>)
    ensures |s| == 2 ==> FromBe16(s) == 256 * s[0] as int + s[1] as int
    ensures |s| == 4 ==>
              FromBe32(s) == 16777216 * s[0] as int + 65536 * s[1] as int + 256 * s[2] as int + s[3] as int
  {
    if |s| == 4 {
      assert FromBe16(s[..2]) == 256 * s[0] as int + s[1] as int;
      assert FromBe16(s[2..]) == 256 * s[2] as int + s[3] as int;
    }
  }

  /** `memcpy`/`memmove`: overwrites a stretch of `dst`. */
  method CopyInto(dst: array<Byte>, at: nat, src: seq<Byte>)
    requires at + |src| <= dst.Length
    modifies dst
    ensures forall k :: 0 <= k < dst.Length ==>
              dst[k] == if at <= k < at + |src| then src[k - at] else old(dst[k])
    ensures dst[..at + |src|] == old(dst[..at]) + src
  {
    for i := 0 to |src|
      invariant forall k :: 0 <= k < dst.Length ==>
                  dst[k] == if at <= k < at + i then src[k - at] else old(dst[k])
    {
      dst[at + i] := src[i];
    }
  }
}
