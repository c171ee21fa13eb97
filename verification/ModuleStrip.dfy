/**
 Removing the signatures appended to a kernel module: each is the signature, eight bytes of
 description, the signature's length in big-endian and a fixed marker.
 */
module ModuleStrip {
  import opened Bytes

  /** The marker and a newline, 28 bytes. */
  const MAGIC: bytes := Ascii("~Module signature appended~\n")

  function Ascii(text: string): (s: bytes)
    ensures |s| == |text|
  {
    seq(|text|, i requires 0 <= i < |text| => (text[i] as int) % 0x100)
  }

  /** The marker byte by byte. */
  lemma MarkerBytes()
    ensures MAGIC
         == [0x7E, 0x4D, 0x6F, 0x64, 0x75, 0x6C, 0x65, 0x20, 0x73, 0x69, 0x67, 0x6E, 0x61, 0x74, 0x75, 0x72, 0x65, 0x20]
            + [0x61, 0x70, 0x70, 0x65, 0x6E, 0x64, 0x65, 0x64, 0x7E, 0x0A]
  {
    assert |MAGIC| == 28;
  }

  const MAGIC_SIZE := 28
  const INFO_SIZE := 12

  predicate Marked(m: bytes) {
    |m| >= MAGIC_SIZE + INFO_SIZE && m[|m| - MAGIC_SIZE..] == MAGIC
  }

  function SignatureLength(m: bytes): nat
    requires |m| >= MAGIC_SIZE + INFO_SIZE
  {
    BeAt32(m, |m| - MAGIC_SIZE - 4)
  }

  /** The size without the last signature; not positive when the trailer is invalid. */
  function UnsignedSize(m: bytes): int
    requires |m| >= MAGIC_SIZE + INFO_SIZE
  {
    |m| - MAGIC_SIZE - INFO_SIZE - SignatureLength(m)
  }

  /** What is left, and whether every trailer met was valid. */
  datatype Outcome = Outcome(data: bytes, ok: bool)

  function Stripped(m: bytes): (r: Outcome)
    ensures r.data <= m
    decreases |m|
  {
    if !Marked(m) then Outcome(m, true)
    else if UnsignedSize(m) <= 0 then Outcome(m, false)
    else Stripped(m[..UnsignedSize(m)])
  }

  /** A module file, truncated in place. */
  class ModuleFile {
    var data: bytes

    /** `_strip_kernel_module_signature`. */
    method Strip() returns (ok: bool)
      modifies this
      ensures Outcome(data, ok) == Stripped(old(data))
    {
      while |data| >= MAGIC_SIZE + INFO_SIZE && data[|data| - MAGIC_SIZE..] == MAGIC
        invariant Stripped(data) == Stripped(old(data))
        decreases |data|
      {
        var size := |data|;
        var at := size - MAGIC_SIZE - 4;
        var sigLen := data[at] as int * 0x100_0000 + data[at + 1] as int * 0x1_0000 + data[at + 2] as int * 0x100
                      + data[at + 3];
        var unsignedSize := size - MAGIC_SIZE - INFO_SIZE - sigLen;
        assert unsignedSize == UnsignedSize(data);
        if unsignedSize <= 0 || unsignedSize >= size {
          return false;
        }
        data := data[..unsignedSize];
      }
      ok := true;
    }
  }

  /** A signature and the description stored after it. */
  datatype Layer = Layer(signature: bytes, description: bytes)

  predicate ValidLayer(l: Layer) {
    |l.signature| < 0x1_0000_0000 && |l.description| == 8
  }

  function Trailer(l: Layer): bytes
    requires ValidLayer(l)
  {
    l.signature + l.description + Be32(|l.signature|) + MAGIC
  }

  /** A module signed once more. */
  function Signed(m: bytes, l: Layer): bytes
    requires ValidLayer(l)
  {
    m + Trailer(l)
  }

  function SignedAll(m: bytes, layers: seq<Layer>): bytes
    requires forall i :: 0 <= i < |layers| ==> ValidLayer(layers[i])
  {
    if layers == [] then m else Signed(SignedAll(m, layers[..|layers| - 1]), layers[|layers| - 1])
  }

  lemma SignedIsMarked(m: bytes, l: Layer)
    requires ValidLayer(l)
    ensures Marked(Signed(m, l)) && UnsignedSize(Signed(m, l)) == |m| && Signed(m, l)[..|m|] == m
  {
    var s := Signed(m, l);
    var front := m + l.signature + l.description;
    assert s == front + Be32(|l.signature|) + MAGIC;
    assert s[|s| - MAGIC_SIZE..] == MAGIC;
    assert s[|front|..|front| + 4] == Be32(|l.signature|);
    At32(s, |front|);
  }

  /**
   Stripping undoes signing: whatever the signature, what is left is what stripping the module itself
   leaves, if and only if the module is not empty.
   */
  lemma StripUndoesSigning(m: bytes, l: Layer)
    requires ValidLayer(l)
    ensures Stripped(Signed(m, l)) == Stripped(m) <==> m != []
  {
    SignedIsMarked(m, l);
  }

  /** A signature on nothing is taken for an invalid trailer. */
  lemma EmptyModuleFails(l: Layer)
    requires ValidLayer(l)
    ensures Stripped(Signed([], l)) == Outcome(Signed([], l), false) && Stripped([]) == Outcome([], true)
  {
    SignedIsMarked([], l);
  }

  /** Any stack of signatures is removed. */
  lemma {:induction false} StripUndoesStack(m: bytes, layers: seq<Layer>)
    requires m != [] && forall i :: 0 <= i < |layers| ==> ValidLayer(layers[i])
    ensures SignedAll(m, layers) != [] && Stripped(SignedAll(m, layers)) == Stripped(m)
    decreases |layers|
  {
    if layers != [] {
      var n := |layers| - 1;
      StripUndoesStack(m, layers[..n]);
      StripUndoesSigning(SignedAll(m, layers[..n]), layers[n]);
    }
  }

  /** The trailer that stripping removes. */
  function TopLayer(m: bytes): Layer
    requires Marked(m) && UnsignedSize(m) > 0
  {
    var n := UnsignedSize(m);
    Layer(m[n..n + SignatureLength(m)], m[n + SignatureLength(m)..n + SignatureLength(m) + 8])
  }

  /** Stripping removes nothing but signatures: each step takes away exactly one valid trailer. */
  lemma OnlyTrailersRemoved(m: bytes)
    requires Marked(m) && UnsignedSize(m) > 0
    ensures ValidLayer(TopLayer(m)) && m == Signed(m[..UnsignedSize(m)], TopLayer(m))
  {
    var n, length := UnsignedSize(m), SignatureLength(m);
    var at := n + length + 8;
    At32(m, at);
    Be32Inverse(m[at..at + 4]);
    CutInFive(m, n, n + length, at, at + 4);
  }

  lemma CutInFive<T>(s: seq<T>, a: nat, b: nat, c: nat, d: nat)
    requires a <= b <= c <= d <= |s|
    ensures s == s[..a] + (s[a..b] + s[b..c] + s[c..d] + s[d..])
  {}

  lemma Be32Inverse(s: bytes)
    requires |s| == 4
    ensures Be32(FromBe32(s)) == s
  {
    var high, low := FromBe16(s[..2]), FromBe16(s[2..]);
    assert FromBe32(s) / 0x1_0000 == high && FromBe32(s) % 0x1_0000 == low;
    assert Be16(high) == s[..2] && Be16(low) == s[2..];
  }

  /**
   A successful strip leaves a module that carries no signature and that stripping again leaves alone,
   and the file was that module under a stack of signatures. It fails exactly when a trailer claims
   to be at least as long as the file it ends.
   */
  lemma {:induction false} StripSound(m: bytes) returns (layers: seq<Layer>)
    ensures forall i :: 0 <= i < |layers| ==> ValidLayer(layers[i])
    ensures m == SignedAll(Stripped(m).data, layers)
    ensures Stripped(m).ok <==> !Marked(Stripped(m).data)
    ensures Stripped(m).ok ==> Stripped(Stripped(m).data) == Stripped(m)
    ensures !Stripped(m).ok ==> Marked(Stripped(m).data) && UnsignedSize(Stripped(m).data) <= 0
    decreases |m|
  {
    layers := [];
    if Marked(m) && UnsignedSize(m) > 0 {
      OnlyTrailersRemoved(m);
      var below := StripSound(m[..UnsignedSize(m)]);
      layers := below + [TopLayer(m)];
      assert layers[..|layers| - 1] == below;
    }
  }
}
