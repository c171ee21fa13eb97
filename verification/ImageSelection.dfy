/**
 Which image the initrd mounts: the slot's own copy under a directory named by the boot partition
 number, or a common copy, and when an unsigned slot copy is an error.
 */
module ImageSelection {
  import opened Bytes
  import opened Decimals
  import opened SignatureNames

  /** An absolute path, component by component. */
  type Path = seq<string>

  datatype Kind = RegularFile | Directory | Special

  /** What exists, and as what. */
  type FileSystem = map<Path, Kind>

  function Entries(fs: FileSystem, dir: Path): set<string> {
    set p | p in fs && |p| == |dir| + 1 && dir <= p :: p[|dir|]
  }

  function Parent(p: Path): Path
    requires p != []
  {
    p[..|p| - 1]
  }

  function FileName(p: Path): string
    requires p != []
  {
    p[|p| - 1]
  }

  /** The slot's copy of an image: in a directory named by the partition number. */
  function SlotPath(image: Path, part: nat): Path
    requires image != []
  {
    Parent(image) + [Decimal(part), FileName(image)]
  }

  /** An existing image with something in its directory that looks like its signature. */
  predicate SignedImage(fs: FileSystem, image: Path) {
    image != [] && image in fs && LooksSigned(FileName(image), Entries(fs, Parent(image)))
  }

  predicate UnsignedImage(fs: FileSystem, image: Path) {
    image != [] && image in fs && !LooksSigned(FileName(image), Entries(fs, Parent(image)))
  }

  lemma EntriesMeans(fs: FileSystem, dir: Path, name: string)
    ensures name in Entries(fs, dir) <==> dir + [name] in fs
  {
    if name in Entries(fs, dir) {
      var p :| p in fs && |p| == |dir| + 1 && dir <= p && p[|dir|] == name;
      assert p == dir + [name];
    }
    if dir + [name] in fs {
      assert (dir + [name])[|dir|] == name;
    }
  }

  /** An image counts as signed if and only if it exists with `name.sig` or some `name.*.sig` beside it. */
  lemma SignedImageMeans(fs: FileSystem, dir: Path, name: string)
    requires name != ".."
    ensures SignedImage(fs, dir + [name]) <==>
      dir + [name] in fs && (dir + [name + ".sig"] in fs || exists mark :: dir + [Marked(name, mark)] in fs)
  {
    var image := dir + [name];
    assert Parent(image) == dir && FileName(image) == name;
    forall e
      ensures e in Entries(fs, dir) && SignsInListing(name, e) <==>
        dir + [e] in fs && (e == name + ".sig" || exists mark :: e == Marked(name, mark))
    {
      EntriesMeans(fs, dir, e);
      SigningEntries(name, e);
    }
  }

  datatype Choice = Chosen(image: Path) | NoImage | Refused

  /** `check_partitioned_image`. */
  function CheckSlot(fs: FileSystem, image: Path, part: nat, verified: bool): Choice {
    if image == [] then NoImage
    else if SignedImage(fs, SlotPath(image, part)) then Chosen(SlotPath(image, part))
    else if SlotPath(image, part) in fs && verified then Refused
    else NoImage
  }

  /** The slot copies of the candidates from the `i`th on, up to the first that is chosen or refused. */
  function ScanSlots(fs: FileSystem, candidates: seq<Path>, i: nat, part: nat, verified: bool): Choice
    requires i <= |candidates|
    decreases |candidates| - i
  {
    if i == |candidates| then NoImage
    else
      var first := CheckSlot(fs, candidates[i], part, verified);
      if first.NoImage? then ScanSlots(fs, candidates, i + 1, part, verified) else first
  }

  function FirstExisting(fs: FileSystem, paths: seq<Path>): Choice {
    if paths == [] then NoImage else if paths[0] in fs then Chosen(paths[0]) else FirstExisting(fs, paths[1..])
  }

  function SlotCandidates(state: Path, name: string): seq<Path> {
    [state + ["initos", name], state + ["img", name], ["img", name], ["data", "img", name]]
  }

  /** `find_host_image`. */
  function FindHostImage(fs: FileSystem, state: Path, name: string, part: Option<nat>, verified: bool): Choice {
    var slot := if part.None? then NoImage else ScanSlots(fs, SlotCandidates(state, name), 0, part.value, verified);
    if slot.NoImage? then FirstExisting(fs, SlotCandidates(state, name)[1..]) else slot
  }

  /** The root image of `mount_rootfs`, when there is no encrypted root. */
  function SelectRootImage(fs: FileSystem, state: Path, image: Path, part: Option<nat>, verified: bool): Choice
    requires image != []
  {
    var candidates := [state + ["initos", FileName(image)], image];
    var slot := if part.None? then NoImage else ScanSlots(fs, candidates, 0, part.value, verified);
    if slot.NoImage? then Chosen(image) else slot
  }

  // What a scan means.

  predicate SignedAt(fs: FileSystem, candidates: seq<Path>, part: nat, i: nat)
    requires i < |candidates|
  {
    candidates[i] != [] && SignedImage(fs, SlotPath(candidates[i], part))
  }

  predicate UnsignedAt(fs: FileSystem, candidates: seq<Path>, part: nat, i: nat)
    requires i < |candidates|
  {
    candidates[i] != [] && UnsignedImage(fs, SlotPath(candidates[i], part))
  }

  /** From the `i`th candidate on, an existing unsigned slot image comes before every signed one. */
  predicate UnsignedFirst(fs: FileSystem, candidates: seq<Path>, i: nat, part: nat) {
    exists k :: i <= k < |candidates| && UnsignedAt(fs, candidates, part, k)
      && forall j :: i <= j < k ==> !SignedAt(fs, candidates, part, j)
  }

  /** The first signed slot image from the `i`th candidate on. */
  predicate FirstSigned(fs: FileSystem, candidates: seq<Path>, i: nat, part: nat, image: Path) {
    exists k :: i <= k < |candidates| && SignedAt(fs, candidates, part, k) && image == SlotPath(candidates[k], part)
      && forall j :: i <= j < k ==> !SignedAt(fs, candidates, part, j)
  }

  lemma {:induction false} ScanMeans(fs: FileSystem, candidates: seq<Path>, i: nat, part: nat, verified: bool)
    requires i <= |candidates|
    ensures var r := ScanSlots(fs, candidates, i, part, verified);
      && (r.Refused? <==> verified && UnsignedFirst(fs, candidates, i, part))
      && (r.Chosen? ==> FirstSigned(fs, candidates, i, part, r.image))
      && (r.NoImage? ==> forall k :: i <= k < |candidates| ==> !SignedAt(fs, candidates, part, k))
    decreases |candidates| - i
  {
    if i < |candidates| {
      ScanMeans(fs, candidates, i + 1, part, verified);
      var first := CheckSlot(fs, candidates[i], part, verified);
      assert first.Chosen? <==> SignedAt(fs, candidates, part, i);
      assert first.Refused? <==> verified && UnsignedAt(fs, candidates, part, i);
    }
  }

  lemma {:induction false} ScanRefines(fs: FileSystem, candidates: seq<Path>, i: nat, part: nat)
    requires i <= |candidates|
    ensures !ScanSlots(fs, candidates, i, part, false).Refused?
    ensures !ScanSlots(fs, candidates, i, part, true).Refused? ==>
      ScanSlots(fs, candidates, i, part, true) == ScanSlots(fs, candidates, i, part, false)
    decreases |candidates| - i
  {
    if i < |candidates| {
      ScanRefines(fs, candidates, i + 1, part);
    }
  }

  /**
   For every file system, name and slot: development mode never refuses; verified mode refuses exactly
   when an existing unsigned slot image comes before every signed one; and whenever it does not
   refuse it picks what development mode picks.
   */
  lemma VerifiedRefinesDevelopment(fs: FileSystem, state: Path, name: string, part: Option<nat>)
    ensures !FindHostImage(fs, state, name, part, false).Refused?
    ensures FindHostImage(fs, state, name, part, true).Refused? <==>
      part.Some? && UnsignedFirst(fs, SlotCandidates(state, name), 0, part.value)
    ensures !FindHostImage(fs, state, name, part, true).Refused? ==>
      FindHostImage(fs, state, name, part, true) == FindHostImage(fs, state, name, part, false)
  {
    FirstExistingMeans(fs, SlotCandidates(state, name)[1..]);
    if part.Some? {
      ScanMeans(fs, SlotCandidates(state, name), 0, part.value, true);
      ScanRefines(fs, SlotCandidates(state, name), 0, part.value);
    }
  }

  /** The same of the root image. */
  lemma VerifiedRootRefinesDevelopment(fs: FileSystem, state: Path, image: Path, part: Option<nat>)
    requires image != []
    ensures !SelectRootImage(fs, state, image, part, false).Refused?
    ensures SelectRootImage(fs, state, image, part, true).Refused? <==>
      part.Some? && UnsignedFirst(fs, [state + ["initos", FileName(image)], image], 0, part.value)
    ensures !SelectRootImage(fs, state, image, part, true).Refused? ==>
      SelectRootImage(fs, state, image, part, true) == SelectRootImage(fs, state, image, part, false)
  {
    if part.Some? {
      var candidates := [state + ["initos", FileName(image)], image];
      ScanMeans(fs, candidates, 0, part.value, true);
      ScanRefines(fs, candidates, 0, part.value);
    }
  }

  /**
   The root image, exactly: without a slot it is the image itself; with one, the slot's copy below
   `initos` or else beside the image, whichever is signed, and the image itself only if neither copy
   is. In verified mode a copy that exists unsigned before a signed one is found is refused.
   */
  lemma RootImageMeans(fs: FileSystem, state: Path, image: Path, part: nat, verified: bool)
    requires image != []
    ensures SelectRootImage(fs, state, image, None, verified) == Chosen(image)
    ensures var name := FileName(image);
      var linked, own := state + ["initos", Decimal(part), name], Parent(image) + [Decimal(part), name];
      SelectRootImage(fs, state, image, Some(part), verified)
        == if SignedImage(fs, linked) then Chosen(linked)
           else if verified && linked in fs then Refused
           else if SignedImage(fs, own) then Chosen(own)
           else if verified && own in fs then Refused
           else Chosen(image)
  {
    var candidates := [state + ["initos", FileName(image)], image];
    assert SlotPath(candidates[0], part) == state + ["initos", Decimal(part), FileName(image)];
    assert ScanSlots(fs, candidates, 2, part, verified) == NoImage;
    assert ScanSlots(fs, candidates, 1, part, verified) == CheckSlot(fs, image, part, verified);
  }

  /** The first of some paths that exists. */
  predicate IsFirstExisting(fs: FileSystem, paths: seq<Path>, image: Path) {
    exists i :: 0 <= i < |paths| && paths[i] == image && image in fs && forall j :: 0 <= j < i ==> paths[j] !in fs
  }

  lemma {:induction false} FirstExistingMeans(fs: FileSystem, paths: seq<Path>)
    ensures var r := FirstExisting(fs, paths);
      && !r.Refused? && (r.Chosen? ==> IsFirstExisting(fs, paths, r.image))
      && (r.NoImage? ==> forall i :: 0 <= i < |paths| ==> paths[i] !in fs)
  {
    if paths != [] && paths[0] !in fs {
      var rest := paths[1..];
      FirstExistingMeans(fs, rest);
      if FirstExisting(fs, rest).Chosen? {
        var image := FirstExisting(fs, rest).image;
        var i :| 0 <= i < |rest| && rest[i] == image && forall j :: 0 <= j < i ==> rest[j] !in fs;
        assert paths[i + 1] == image && forall j :: 1 <= j < i + 1 ==> paths[j] == rest[j - 1];
      } else {
        assert forall i :: 1 <= i < |paths| ==> paths[i] == rest[i - 1];
      }
    }
  }

  /**
   The image found, if any: the first signed copy of the slot booted from, or when that slot has none
   the first common copy that exists.
   */
  lemma HostImageMeans(fs: FileSystem, state: Path, name: string, part: Option<nat>, verified: bool)
    ensures var common := [state + ["img", name], ["img", name], ["data", "img", name]];
      var candidates := [state + ["initos", name]] + common;
      var none := part.None? || forall i :: 0 <= i < |candidates| ==> !SignedAt(fs, candidates, part.value, i);
      match FindHostImage(fs, state, name, part, verified)
      case Chosen(image) =>
        || (part.Some? && FirstSigned(fs, candidates, 0, part.value, image))
        || (none && IsFirstExisting(fs, common, image))
      case NoImage => none && forall i :: 0 <= i < |common| ==> common[i] !in fs
      case Refused => verified && part.Some? && UnsignedFirst(fs, candidates, 0, part.value)
  {
    var common := [state + ["img", name], ["img", name], ["data", "img", name]];
    var candidates := [state + ["initos", name]] + common;
    assert candidates == SlotCandidates(state, name) && candidates[1..] == common;
    FirstExistingMeans(fs, common);
    if part.Some? {
      ScanMeans(fs, candidates, 0, part.value, verified);
    }
  }

  // Slots.

  /** Slot copies of different images or for different partition numbers never coincide. */
  lemma SlotPathsDistinct(a: Path, m: nat, b: Path, n: nat)
    requires a != [] && b != [] && SlotPath(a, m) == SlotPath(b, n)
    ensures a == b && m == n
  {
    var p, q := SlotPath(a, m), SlotPath(b, n);
    assert |a| == |b|;
    assert p[|a| - 1] == Decimal(m) && q[|b| - 1] == Decimal(n);
    DecimalInjective(m, n);
    assert Parent(a) == p[..|a| - 1] == q[..|b| - 1] == Parent(b);
    assert FileName(a) == p[|a|] == q[|b|] == FileName(b);
    assert a == Parent(a) + [FileName(a)] && b == Parent(b) + [FileName(b)];
  }

  lemma CommonIsNoSlot(common: Path, image: Path, n: nat)
    requires |common| >= 2 && common[|common| - 2] == "img" && image != []
    ensures common != SlotPath(image, n)
  {
    assert SlotPath(image, n)[|image| - 1] == Decimal(n);
    assert IsDigit(Decimal(n)[0]);
  }

  /** A machine started from one slot never uses the copy that belongs to another slot. */
  lemma NeverAnotherSlot(fs: FileSystem, state: Path, name: string, part: Option<nat>, verified: bool, image: Path,
                         other: nat)
    requires image != [] && part != Some(other)
    ensures FindHostImage(fs, state, name, part, verified) != Chosen(SlotPath(image, other))
  {
    var candidates := SlotCandidates(state, name);
    FirstExistingMeans(fs, candidates[1..]);
    forall i | 1 <= i < 4
      ensures candidates[i] != SlotPath(image, other)
    {
      CommonIsNoSlot(candidates[i], image, other);
    }
    if part.Some? {
      ScanMeans(fs, candidates, 0, part.value, verified);
      var slot := ScanSlots(fs, candidates, 0, part.value, verified);
      if slot == Chosen(SlotPath(image, other)) {
        var i :| 0 <= i < |candidates| && SignedAt(fs, candidates, part.value, i)
                 && slot.image == SlotPath(candidates[i], part.value);
        SlotPathsDistinct(candidates[i], part.value, image, other);
      }
    }
  }
}
