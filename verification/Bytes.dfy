/** Fixed-width integers, byte strings and the byte orders used on the wire. */
module Bytes {
  type byte = b: int | 0 <= b < 0x100
  type u16 = n: int | 0 <= n < 0x1_0000
  type u32 = n: int | 0 <= n < 0x1_0000_0000
  type bytes = seq<byte>

  datatype Option<+T> = None | Some(value: T) {
    predicate IsFailure() {
      None?
    }

    function PropagateFailure<U>(): Option<U>
      requires None?
    {
      None
    }

    function Extract(): T
      requires Some?
    {
      value
    }
  }

  /** Big-endian, as TPM structures are marshalled. */
  function Be16(v: u16): (s: bytes)
    ensures |s| == 2 && FromBe16(s) == v
  {
    [v / 0x100, v % 0x100]
  }

  function FromBe16(s: bytes): u16
    requires |s| == 2
  {
    s[0] as int * 0x100 + s[1]
  }

  function Be32(v: u32): (s: bytes)
    ensures |s| == 4 && FromBe32(s) == v
  {
    Be16(v / 0x1_0000) + Be16(v % 0x1_0000)
  }

  function FromBe32(s: bytes): u32
    requires |s| == 4
  {
    FromBe16(s[..2]) as int * 0x1_0000 + FromBe16(s[2..])
  }

  /** The big-endian number at an offset. */
  function BeAt16(s: bytes, off: nat): u16
    requires off + 2 <= |s|
  {
    s[off] as int * 0x100 + s[off + 1]
  }

  function BeAt32(s: bytes, off: nat): u32
    requires off + 4 <= |s|
  {
    BeAt16(s, off) as int * 0x1_0000 + BeAt16(s, off + 2)
  }

  /** Little-endian, as UEFI structures are laid out. */
  function Le16(v: u16): (s: bytes)
    ensures |s| == 2 && FromLe16(s) == v
  {
    [v % 0x100, v / 0x100]
  }

  function FromLe16(s: bytes): u16
    requires |s| == 2
  {
    s[0] + s[1] as int * 0x100
  }

  function Le32(v: u32): (s: bytes)
    ensures |s| == 4 && FromLe32(s) == v
  {
    Le16(v % 0x1_0000) + Le16(v / 0x1_0000)
  }

  function FromLe32(s: bytes): u32
    requires |s| == 4
  {
    FromLe16(s[..2]) + FromLe16(s[2..]) as int * 0x1_0000
  }

  /** The little-endian number at an offset. */
  function LeAt16(s: bytes, off: nat): u16
    requires off + 2 <= |s|
  {
    s[off] + s[off + 1] as int * 0x100
  }

  function LeAt32(s: bytes, off: nat): u32
    requires off + 4 <= |s|
  {
    LeAt16(s, off) + LeAt16(s, off + 2) as int * 0x1_0000
  }

  function Zeros(n: nat): (s: bytes)
    ensures |s| == n && forall i :: 0 <= i < n ==> s[i] == 0
  {
    seq(n, _ => 0)
  }

  /** Reading at an offset is reading the slice there. */
  lemma At16(s: bytes, off: nat)
    requires off + 2 <= |s|
    ensures BeAt16(s, off) == FromBe16(s[off..off + 2])
    ensures LeAt16(s, off) == FromLe16(s[off..off + 2])
  {}

  lemma At32(s: bytes, off: nat)
    requires off + 4 <= |s|
    ensures BeAt32(s, off) == FromBe32(s[off..off + 4])
    ensures LeAt32(s, off) == FromLe32(s[off..off + 4])
  {
    var t := s[off..off + 4];
    assert t[..2] == s[off..off + 2] && t[2..] == s[off + 2..off + 4];
    At16(s, off);
    At16(s, off + 2);
  }

  lemma SliceOfSlice<T>(s: seq<T>, a: nat, b: nat, c: nat, d: nat)
    requires a <= b <= |s| && c <= d <= b - a
    ensures s[a..b][c..d] == s[a + c..a + d]
  {
    forall i | 0 <= i < d - c
      ensures s[a..b][c..d][i] == s[a + c..a + d][i]
    {
      assert s[a..b][c + i] == s[a + c + i];
    }
  }

  /** These bytes are found at an offset. */
  predicate OccursAt(whole: bytes, off: nat, s: bytes)
    decreases |s|
  {
    s == [] || (off < |whole| && whole[off] == s[0] && OccursAt(whole, off + 1, s[1..]))
  }

  lemma {:induction false} OccursInside(before: bytes, s: bytes, after: bytes)
    ensures OccursAt(before + s + after, |before|, s)
    decreases |s|
  {
    if s != [] {
      OccursInside(before + [s[0]], s[1..], after);
      assert before + [s[0]] + s[1..] + after == before + s + after;
    }
  }

  lemma {:induction false} OccursSplit(whole: bytes, off: nat, s: bytes)
    requires off <= |whole| && OccursAt(whole, off, s)
    ensures off + |s| <= |whole| && whole == whole[..off] + s + whole[off + |s|..]
    decreases |s|
  {
    if s != [] {
      OccursSplit(whole, off + 1, s[1..]);
      var end := off + |s|;
      assert whole[..off + 1] + s[1..] + whole[end..] == whole[..off] + s + whole[end..];
    }
  }

  lemma Associate<T>(a: seq<T>, b: seq<T>, c: seq<T>)
    ensures a + (b + c) == a + b + c
  {}
}
