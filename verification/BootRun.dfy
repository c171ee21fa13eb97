/** The initrd's boot, from deciding the mode to switching root, or to the failure policy. */
module BootRun {
  import opened Bytes
  import opened Decimals
  import opened ImageSelection
  import opened SignatureSearch
  import opened BootTrace
  import opened Unlock
  import LoadOption
  import Tpm = TpmTransport

  /** The settings of a boot: the root image, the name of the root directory and the running kernel. */
  datatype Settings = Settings(image: Path, rootName: string, kernel: Option<string>)

  /** The run goes on in the mode it was in. */
  ghost predicate Advances(w: World, was: Trace, now: Trace) {
    && Going(w, now) && was <= now && Switched(now) == Switched(was)
    && ModeOf(was).Some? && ModeOf(now) == ModeOf(was)
  }

  /** The same, and no root is mounted. */
  ghost predicate Proceeds(w: World, was: Trace, now: Trace) {
    Advances(w, was, now) && RootMounts(now) == RootMounts(was)
  }

  /** What is ready stays ready. */
  lemma StaysReady(was: Trace, now: Trace, verified: bool)
    requires was <= now
    ensures StateReady(was, verified) ==> StateReady(now, verified)
    ensures RootReady(was) ==> RootReady(now)
    ensures FirmwareReady(was, verified) ==> FirmwareReady(now, verified)
  {
    assert forall e :: e in was ==> e in now;
  }

  /** `verify_image_trusted` with no key of its own: in verified mode the database decides. */
  method VerifyImageTrusted(h: Host, image: Path, verified: bool) returns (ok: bool)
    requires Going(h.world, h.trace) && ModeOf(h.trace) == Some(verified) && image != []
    modifies h
    ensures Proceeds(h.world, old(h.trace), h.trace) && StageOf(h.trace) == old(StageOf(h.trace))
    ensures h.trace == old(h.trace) + if verified then [DbVerified(image, ok)] else []
    ensures ok == (verified ==> Vouched(h.world, old(h.trace), image))
  {
    if !verified {
      return true;
    }
    var digest := h.world.digest(h.trace, image);
    var db := h.world.db(h.trace);
    ok := false;
    if digest.Some? && db.Some? {
      var answer := VerifyImageDb(CheckOf(h.world, h.trace, image, digest.value), db.value);
      ok := answer == Some(true);
    }
    h.Record(DbVerified(image, ok));
  }

  /** Verifies an image and mounts it. */
  method MountImage(h: Host, image: Path, target: Path, verified: bool) returns (ok: bool)
    requires Going(h.world, h.trace) && ModeOf(h.trace) == Some(verified) && image != []
    requires if target == ROOT then StageOf(h.trace) == 1 else StageOf(h.trace) == 4 || StageOf(h.trace) == 5
    modifies h
    ensures Advances(h.world, old(h.trace), h.trace)
    ensures RootMounts(h.trace) == old(RootMounts(h.trace)) + if ok && target == ROOT then 1 else 0
    ensures StageOf(h.trace) == old(StageOf(h.trace)) + if ok && target == ROOT then 1 else 0
    ensures ok ==>
      Latest(h.trace, LoopMounted(image, target, true)) && (verified ==> DbVerified(image, true) in h.trace)
    ensures !ok && !verified ==> h.trace == old(h.trace) + [LoopMounted(image, target, false)]
    ensures Obliges(h.world) && (verified ==> Vouched(h.world, old(h.trace), image)) ==> ok
  {
    ok := VerifyImageTrusted(h, image, verified);
    if !ok {
      return;
    }
    ok := h.world.succeeds(h.trace, LoopMounted(image, target, true));
    h.Record(LoopMounted(image, target, ok));
  }

  // The root.

  /** The slot's root outside the encrypted directory. */
  function PlainRoot(rootName: string, part: nat): Path {
    STATE + ["roots", Decimal(part), rootName]
  }

  function SlotRoot(rootName: string, part: nat): Path {
    STATE + ["c", "roots", Decimal(part), rootName]
  }

  /** The root directories in order of preference; all but the slot's plain one are inside the encrypted `c`. */
  function RootDirectories(rootName: string, part: Option<nat>): seq<Path> {
    (if part.Some? then [SlotRoot(rootName, part.value), PlainRoot(rootName, part.value)] else [])
    + [STATE + ["c", "roots", rootName]]
  }

  /** The slot has a plain root directory and no encrypted one. */
  predicate PlainRootChosen(fs: FileSystem, rootName: string, part: Option<nat>) {
    part.Some? && SlotRoot(rootName, part.value) !in fs && PlainRoot(rootName, part.value) in fs
  }

  predicate InsideC(p: Path) {
    |p| >= 2 && p[1] == "c" && p[0] == "z"
  }

  /** Which root directory is chosen: the slot's inside `c`, else its plain one, else the common one inside `c`. */
  lemma RootDirectoryMeans(fs: FileSystem, rootName: string, part: nat)
    ensures var slot, plain := ["z", "c", "roots", Decimal(part), rootName], ["z", "roots", Decimal(part), rootName];
      var common := ["z", "c", "roots", rootName];
      && FirstExisting(fs, RootDirectories(rootName, Some(part)))
           == (if slot in fs then Chosen(slot)
               else if plain in fs then Chosen(plain)
               else if common in fs then Chosen(common)
               else NoImage)
      && FirstExisting(fs, RootDirectories(rootName, None)) == if common in fs then Chosen(common) else NoImage
  {
    var slot, plain := SlotRoot(rootName, part), PlainRoot(rootName, part);
    var common := ["z", "c", "roots", rootName];
    assert slot == ["z", "c", "roots", Decimal(part), rootName] && plain == ["z", "roots", Decimal(part), rootName];
    assert STATE + ["c", "roots", rootName] == common;
    assert RootDirectories(rootName, Some(part)) == [slot, plain, common];
    assert RootDirectories(rootName, None) == [common];
    assert [slot, plain, common][1..] == [plain, common] && [plain, common][1..] == [common];
    assert FirstExisting(fs, [common]) == if common in fs then Chosen(common) else NoImage;
  }

  /** A root directory that is chosen lies inside `c` if and only if it is not the slot's plain one. */
  lemma RootInsideC(fs: FileSystem, rootName: string, part: Option<nat>)
    ensures var root := FirstExisting(fs, RootDirectories(rootName, part));
      && (root.Chosen? ==> (InsideC(root.image) <==> !PlainRootChosen(fs, rootName, part)))
      && (PlainRootChosen(fs, rootName, part) ==> root == Chosen(PlainRoot(rootName, part.value)))
  {
    var number := if part.Some? then part.value else 0;
    RootDirectoryMeans(fs, rootName, number);
    assert SlotRoot(rootName, number) == ["z", "c", "roots", Decimal(number), rootName];
    assert PlainRoot(rootName, number) == ["z", "roots", Decimal(number), rootName];
    assert "roots"[0] != "c"[0];
    assert !InsideC(PlainRoot(rootName, number)) && InsideC(SlotRoot(rootName, number));
    assert InsideC(["z", "c", "roots", rootName]);
  }

  /** A file system with nothing but a slot's plain root: that is what is bound, and it is not inside `c`. */
  lemma PlainRootIsBound(rootName: string, part: nat)
    ensures FirstExisting(map[PlainRoot(rootName, part) := Directory], RootDirectories(rootName, Some(part)))
         == Chosen(PlainRoot(rootName, part))
    ensures !InsideC(PlainRoot(rootName, part))
  {
    var fs: FileSystem := map[PlainRoot(rootName, part) := Directory];
    assert SlotRoot(rootName, part)[1] == "c" && PlainRoot(rootName, part)[1] == "roots";
    assert "c"[0] != "roots"[0];
    assert SlotRoot(rootName, part) !in fs;
    RootInsideC(fs, rootName, Some(part));
  }

  /** What `mount_rootfs` mounts: the first root directory that exists, else the selected image. */
  predicate RootMounted(fs: FileSystem, s: Settings, part: Option<nat>, verified: bool, t: Trace) {
    var root := FirstExisting(fs, RootDirectories(s.rootName, part));
    if root.Chosen? then Latest(t, RootBound(root.image, true))
    else
      var image := SelectRootImage(fs, STATE, STATE + s.image, part, verified);
      image.Chosen? && Latest(t, LoopMounted(image.image, ROOT, true))
  }

  /** The latest event mounted the root from inside `c` or from an image the database vouched for. */
  predicate TrustedRoot(t: Trace) {
    && t != []
    && var e := t[|t| - 1];
       (e.RootBound? && InsideC(e.root)) || (e.LoopMounted? && DbVerified(e.image, true) in t)
  }

  /** There is a root directory, or a root image that is not refused and, if that matters, vouched for. */
  ghost predicate HasRoot(w: World, t: Trace, s: Settings, part: Option<nat>, verified: bool) {
    || FirstExisting(w.fs(t), RootDirectories(s.rootName, part)).Chosen?
    || var image := SelectRootImage(w.fs(t), STATE, STATE + s.image, part, verified);
       image.Chosen? && (verified ==> Vouched(w, t, image.image))
  }

  /**
   `mount_rootfs`. In verified mode a mounted root is trusted if and only if the slot has no plain root
   directory, or has an encrypted one: the plain one is bound without being verified.
   */
  method MountRootfs(h: Host, s: Settings, part: Option<nat>, verified: bool) returns (ok: bool)
    requires Going(h.world, h.trace) && ModeOf(h.trace) == Some(verified) && StageOf(h.trace) == 1
    modifies h
    ensures Advances(h.world, old(h.trace), h.trace) && StageOf(h.trace) == if ok then 2 else 1
    ensures RootMounts(h.trace) == old(RootMounts(h.trace)) + if ok then 1 else 0
    ensures ok ==> RootMounted(h.world.fs(old(h.trace)), s, part, verified, h.trace) && RootReady(h.trace)
    ensures ok && verified ==> (TrustedRoot(h.trace) <==> !PlainRootChosen(h.world.fs(old(h.trace)), s.rootName, part))
    ensures Obliges(h.world) && HasRoot(h.world, old(h.trace), s, part, verified) ==> ok
  {
    var fs := h.world.fs(h.trace);
    var root := FirstExisting(fs, RootDirectories(s.rootName, part));
    RootInsideC(fs, s.rootName, part);
    if root.Chosen? {
      ok := BindRoot(h, root.image);
      return;
    }
    var image := SelectRootImage(fs, STATE, STATE + s.image, part, verified);
    if !image.Chosen? {
      return false;
    }
    RootImageNamed(fs, STATE, STATE + s.image, part, verified);
    ok := MountImage(h, image.image, ROOT, verified);
  }

  method BindRoot(h: Host, root: Path) returns (ok: bool)
    requires Going(h.world, h.trace) && ModeOf(h.trace).Some? && StageOf(h.trace) == 1
    modifies h
    ensures Advances(h.world, old(h.trace), h.trace) && Latest(h.trace, RootBound(root, ok))
    ensures StageOf(h.trace) == if ok then 2 else 1
    ensures RootMounts(h.trace) == old(RootMounts(h.trace)) + if ok then 1 else 0
    ensures Obliges(h.world) ==> ok
  {
    ok := h.world.succeeds(h.trace, RootBound(root, true));
    h.Record(RootBound(root, ok));
  }

  lemma RootImageNamed(fs: FileSystem, state: Path, image: Path, part: Option<nat>, verified: bool)
    requires image != []
    ensures SelectRootImage(fs, state, image, part, verified).Chosen? ==>
      SelectRootImage(fs, state, image, part, verified).image != []
  {
    if part.Some? {
      ScanMeans(fs, [state + ["initos", FileName(image)], image], 0, part.value, verified);
    }
  }

  // Firmware.

  function SlotDirectory(slot: nat): Path {
    STATE + ["img", Decimal(slot)]
  }

  function FirmwareImage(slot: nat): Path {
    SlotDirectory(slot) + ["firmware-light.composefs"]
  }

  function DevelopmentTree(slot: nat): Path {
    SlotDirectory(slot) + ["firmware-objects", "current"]
  }

  /** The object store: the shared one if it exists, else the slot's own. */
  function ObjectsDirectory(fs: FileSystem, slot: nat): Path {
    var shared := STATE + ["img", "composefs", "objects"];
    if IsDir(fs, shared) then shared else SlotDirectory(slot) + ["firmware-objects", "objects"]
  }

  /** The slot's firmware is there and, if that matters, vouched for. */
  ghost predicate HasFirmware(w: World, t: Trace, slot: nat, verified: bool) {
    && IsFile(w.fs(t), FirmwareImage(slot)) && IsDir(w.fs(t), ObjectsDirectory(w.fs(t), slot))
    && (verified ==> Vouched(w, t, FirmwareImage(slot)))
  }

  /** The slot's image and objects are there. */
  predicate FirmwareFound(fs: FileSystem, slot: nat) {
    IsFile(fs, FirmwareImage(slot)) && IsDir(fs, ObjectsDirectory(fs, slot))
  }

  /** The slot's firmware, found at the first moment, has been mounted and overlaid by the second. */
  predicate SlotFirmware(w: World, slot: nat, was: Trace, now: Trace) {
    && FirmwareFound(w.fs(was), slot) && LoopMounted(FirmwareImage(slot), FIRMWARE_METADATA, true) in now
    && Latest(now, Overlaid(ObjectsDirectory(w.fs(was), slot), true))
  }

  /** In between, mounting the slot's image or overlaying it has failed. */
  predicate MountFailed(w: World, slot: nat, was: Trace, now: Trace) {
    exists i :: |was| <= i < |now|
      && (now[i] == LoopMounted(FirmwareImage(slot), FIRMWARE_METADATA, false)
          || now[i] == Overlaid(ObjectsDirectory(w.fs(was), slot), false))
  }

  /** The slot's development tree was bound instead, because the slot's firmware was missing or its mounts failed. */
  predicate TreeBound(w: World, slot: nat, was: Trace, now: Trace) {
    && now != [] && Latest(now, DevFirmwareBound(DevelopmentTree(slot), true))
    && IsDir(w.fs(now[..|now| - 1]), DevelopmentTree(slot))
    && (FirmwareFound(w.fs(was), slot) ==> MountFailed(w, slot, was, now))
  }

  /** The firmware of this slot: its image or, in development and failing that, its tree. */
  predicate FirmwareMounted(w: World, slot: nat, verified: bool, was: Trace, now: Trace) {
    SlotFirmware(w, slot, was, now) || (!verified && TreeBound(w, slot, was, now))
  }

  /** Between two moments of the run, from right after the place for it was made, the slot's firmware was mounted. */
  predicate FirmwareBetween(w: World, slot: nat, verified: bool, t: Trace, before: Trace, after: Trace) {
    && before <= after <= t && Latest(before, OtherStep(MountTmpfs, true))
    && FirmwareMounted(w, slot, verified, before, after)
  }

  ghost predicate FirmwareOf(w: World, slot: nat, verified: bool, t: Trace) {
    exists before, after :: FirmwareBetween(w, slot, verified, t, before, after)
  }

  lemma StaysOfSlot(w: World, slot: nat, verified: bool, was: Trace, now: Trace)
    requires was <= now && FirmwareOf(w, slot, verified, was)
    ensures FirmwareOf(w, slot, verified, now)
  {
    var before, after :| FirmwareBetween(w, slot, verified, was, before, after);
    assert FirmwareBetween(w, slot, verified, now, before, after);
  }

  /** `mount_slot_composefs_firmware`. */
  method MountSlotFirmware(h: Host, slot: nat, verified: bool) returns (ok: bool)
    requires Going(h.world, h.trace) && ModeOf(h.trace) == Some(verified) && StageOf(h.trace) == 4
    modifies h
    ensures Proceeds(h.world, old(h.trace), h.trace) && StageOf(h.trace) == if ok then 5 else 4
    ensures ok ==> FirmwareReady(h.trace, verified) && SlotFirmware(h.world, slot, old(h.trace), h.trace)
    ensures !ok && !verified && FirmwareFound(h.world.fs(old(h.trace)), slot) ==>
      MountFailed(h.world, slot, old(h.trace), h.trace)
    ensures Obliges(h.world) && HasFirmware(h.world, old(h.trace), slot, verified) ==> ok
  {
    var fs := h.world.fs(h.trace);
    var image := FirmwareImage(slot);
    var objects := ObjectsDirectory(fs, slot);
    if !IsFile(fs, image) || !IsDir(fs, objects) {
      return false;
    }
    ok := MountImage(h, image, FIRMWARE_METADATA, verified);
    if !ok {
      return;
    }
    ok := h.world.succeeds(h.trace, Overlaid(objects, true));
    h.Record(Overlaid(objects, ok));
    assert Latest(h.trace, Overlaid(objects, ok)) && h.trace[|h.trace| - 1] == Overlaid(objects, ok);
  }

  lemma StillFailed(w: World, slot: nat, was: Trace, mid: Trace, now: Trace)
    requires |was| <= |mid| && mid <= now
    ensures MountFailed(w, slot, was, mid) ==> MountFailed(w, slot, was, now)
  {
    if i :| |was| <= i < |mid| && (mid[i] == LoopMounted(FirmwareImage(slot), FIRMWARE_METADATA, false)
                                   || mid[i] == Overlaid(ObjectsDirectory(w.fs(was), slot), false)) {
      assert now[i] == mid[i];
    }
  }

  /** The development tree is there, whatever happens. */
  ghost predicate HasTree(w: World, slot: nat) {
    forall t :: IsDir(w.fs(t), DevelopmentTree(slot))
  }

  /** The latest event put the firmware in place. */
  predicate FirmwareLast(t: Trace) {
    t != [] && Completes(t[|t| - 1]) == Some(4)
  }

  /** Firmware, with the development tree as a fallback outside verified mode. */
  method MountFirmware(h: Host, slot: nat, verified: bool) returns (ok: bool)
    requires Going(h.world, h.trace) && ModeOf(h.trace) == Some(verified) && StageOf(h.trace) == 4
    modifies h
    ensures Proceeds(h.world, old(h.trace), h.trace) && StageOf(h.trace) == if ok then 5 else 4
    ensures ok ==> FirmwareReady(h.trace, verified) && FirmwareLast(h.trace)
    ensures ok ==> FirmwareMounted(h.world, slot, verified, old(h.trace), h.trace)
    ensures Obliges(h.world) && HasFirmware(h.world, old(h.trace), slot, verified) ==> ok
    ensures Obliges(h.world) && !verified && HasTree(h.world, slot) ==> ok
  {
    ok := MountSlotFirmware(h, slot, verified);
    if !ok && !verified {
      var tree := DevelopmentTree(slot);
      if !IsDir(h.world.fs(h.trace), tree) {
        return false;
      }
      ok := h.world.succeeds(h.trace, DevFirmwareBound(tree, true));
      ghost var mid := h.trace;
      h.Record(DevFirmwareBound(tree, ok));
      assert Latest(h.trace, DevFirmwareBound(tree, ok)) && h.trace[..|h.trace| - 1] == mid;
      StillFailed(h.world, slot, old(h.trace), mid, h.trace);
    }
  }

  // Host images.

  /** The run mounted the image that was found, or there was none and nothing was done. */
  predicate HostImageMounted(fs: FileSystem, name: string, target: Path, part: Option<nat>, verified: bool,
                             was: Trace, now: Trace)
  {
    match FindHostImage(fs, STATE, name, part, verified)
    case NoImage => now == was
    case Chosen(image) => Latest(now, LoopMounted(image, target, true))
    case Refused => false
  }

  /** The image is absent, or not refused and, if that matters, vouched for. */
  ghost predicate ImageInOrder(w: World, t: Trace, name: string, part: Option<nat>, verified: bool) {
    match FindHostImage(w.fs(t), STATE, name, part, verified)
    case NoImage => true
    case Chosen(image) => verified ==> Vouched(w, t, image)
    case Refused => false
  }

  /** `mount_host_image`: a missing image is skipped, a refused one is an error. */
  method MountHostImage(h: Host, name: string, target: Path, part: Option<nat>, verified: bool) returns (ok: bool)
    requires Going(h.world, h.trace) && ModeOf(h.trace) == Some(verified) && target != ROOT && StageOf(h.trace) == 5
    modifies h
    ensures Proceeds(h.world, old(h.trace), h.trace) && StageOf(h.trace) == 5
    ensures ok ==> HostImageMounted(h.world.fs(old(h.trace)), name, target, part, verified, old(h.trace), h.trace)
    ensures FindHostImage(h.world.fs(old(h.trace)), STATE, name, part, verified).NoImage? ==> ok
    ensures Obliges(h.world) && ImageInOrder(h.world, old(h.trace), name, part, verified) ==> ok
  {
    var image := FindHostImage(h.world.fs(h.trace), STATE, name, part, verified);
    if image.Refused? {
      return false;
    }
    if image.NoImage? {
      return true;
    }
    HostImageNamed(h.world.fs(h.trace), STATE, name, part, verified);
    ok := MountImage(h, image.image, target, verified);
  }

  lemma HostImageNamed(fs: FileSystem, state: Path, name: string, part: Option<nat>, verified: bool)
    ensures FindHostImage(fs, state, name, part, verified).Chosen? ==>
      FindHostImage(fs, state, name, part, verified).image != []
  {
    FirstExistingMeans(fs, SlotCandidates(state, name)[1..]);
    if part.Some? {
      ScanMeans(fs, SlotCandidates(state, name), 0, part.value, verified);
    }
  }

  /** A step whose only bearing on the run is whether it fails. */
  method Perform(h: Host, chore: Chore) returns (ok: bool)
    requires Going(h.world, h.trace) && ModeOf(h.trace).Some?
    requires Completes(OtherStep(chore, true)) == Some(StageOf(h.trace))
    modifies h
    ensures Proceeds(h.world, old(h.trace), h.trace) && h.trace == old(h.trace) + [OtherStep(chore, ok)]
    ensures StageOf(h.trace) == old(StageOf(h.trace)) + if ok then 1 else 0
    ensures Obliges(h.world) ==> ok
  {
    ok := h.world.succeeds(h.trace, OtherStep(chore, true));
    h.Record(OtherStep(chore, ok));
  }

  function ModulesImage(kernel: string): string {
    "modules-" + kernel + ".erofs"
  }

  function ModulesTarget(kernel: string): Path {
    ROOT + ["mnt", "modules", kernel]
  }

  /** The kernel is known and its modules are absent or in order. */
  ghost predicate HasModules(w: World, t: Trace, kernel: Option<string>, part: Option<nat>, verified: bool) {
    kernel.Some? && ImageInOrder(w, t, ModulesImage(kernel.value), part, verified)
  }

  /**
   The machine does what it is asked; the TPM or a password opens its state; and for this slot it has a
   root, firmware, modules that are absent or in order, and an init program.
   */
  ghost predicate Serves(w: World, s: Settings, slot: nat, verified: bool) {
    && Obliges(w) && StateOpens(w, verified) && RootServed(w, s, slot, verified)
    && ImagesServed(w, s, slot, verified) && InitServed(w)
  }

  ghost predicate RootServed(w: World, s: Settings, slot: nat, verified: bool) {
    forall t :: HasRoot(w, t, s, Some(slot), verified)
  }

  ghost predicate ImagesServed(w: World, s: Settings, slot: nat, verified: bool) {
    && ((forall t :: HasFirmware(w, t, slot, verified)) || (!verified && HasTree(w, slot)))
    && forall t :: HasModules(w, t, s.kernel, Some(slot), verified)
  }

  ghost predicate InitServed(w: World) {
    forall t :: w.init(t).Some?
  }

  /**
   Between two moments of the run, right after the firmware and right before the host images are bound, the
   modules image of the running kernel, as it is then found, was mounted at its place, or there was none.
   */
  predicate ModulesBetween(w: World, s: Settings, part: Option<nat>, verified: bool, t: Trace, before: Trace,
                           after: Trace)
  {
    && s.kernel.Some? && before <= after && after + [OtherStep(BindImageMounts, true)] <= t && FirmwareLast(before)
    && HostImageMounted(w.fs(before), ModulesImage(s.kernel.value), ModulesTarget(s.kernel.value), part, verified,
                        before, after)
  }

  ghost predicate ModulesOf(w: World, s: Settings, part: Option<nat>, verified: bool, t: Trace) {
    exists before, after :: ModulesBetween(w, s, part, verified, t, before, after)
  }

  lemma StaysModules(w: World, s: Settings, part: Option<nat>, verified: bool, was: Trace, now: Trace)
    requires ModulesOf(w, s, part, verified, was) && was <= now
    ensures ModulesOf(w, s, part, verified, now)
  {
    var before, after :| ModulesBetween(w, s, part, verified, was, before, after);
    assert ModulesBetween(w, s, part, verified, now, before, after);
  }

  /** Firmware and modules are in place. */
  ghost predicate ImagesOf(w: World, s: Settings, part: Option<nat>, verified: bool, t: Trace) {
    && part.Some? && FirmwareReady(t, verified) && FirmwareOf(w, part.value, verified, t)
    && ModulesOf(w, s, part, verified, t)
  }

  lemma StaysImages(w: World, s: Settings, part: Option<nat>, verified: bool, was: Trace, now: Trace)
    requires ImagesOf(w, s, part, verified, was) && was <= now
    ensures ImagesOf(w, s, part, verified, now)
  {
    StaysReady(was, now, verified);
    StaysOfSlot(w, part.value, verified, was, now);
    StaysModules(w, s, part, verified, was, now);
  }

  /** The modules of the running kernel are mounted, and then the host images are bound. */
  method MountModules(h: Host, s: Settings, part: Option<nat>, verified: bool) returns (ok: bool)
    requires Going(h.world, h.trace) && ModeOf(h.trace) == Some(verified) && StageOf(h.trace) == 5
    requires FirmwareLast(h.trace)
    modifies h
    ensures Proceeds(h.world, old(h.trace), h.trace) && (ok ==> StageOf(h.trace) == 6)
    ensures ok ==> ModulesOf(h.world, s, part, verified, h.trace)
    ensures Obliges(h.world) && HasModules(h.world, old(h.trace), s.kernel, part, verified) ==> ok
  {
    if s.kernel.None? {
      return false;
    }
    ghost var before := h.trace;
    ok := MountHostImage(h, ModulesImage(s.kernel.value), ModulesTarget(s.kernel.value), part, verified);
    if !ok {
      return;
    }
    ghost var after := h.trace;
    ok := Perform(h, BindImageMounts);
    if ok {
      assert ModulesBetween(h.world, s, part, verified, h.trace, before, after);
    }
  }

  method MountHostImages(h: Host, s: Settings, part: Option<nat>, verified: bool) returns (ok: bool)
    requires Going(h.world, h.trace) && ModeOf(h.trace) == Some(verified) && StageOf(h.trace) == 3
    modifies h
    ensures Proceeds(h.world, old(h.trace), h.trace) && (ok ==> StageOf(h.trace) == 6)
    ensures ok ==> ImagesOf(h.world, s, part, verified, h.trace)
    ensures part.Some? && Obliges(h.world) && ImagesServed(h.world, s, part.value, verified) ==> ok
  {
    ok := Perform(h, MountTmpfs);
    if !ok || part.None? {
      return false;
    }
    ok := MountFirmwareAndModules(h, s, part, verified);
  }

  /** What is mounted in the place just made for it. */
  method MountFirmwareAndModules(h: Host, s: Settings, part: Option<nat>, verified: bool) returns (ok: bool)
    requires Going(h.world, h.trace) && ModeOf(h.trace) == Some(verified) && StageOf(h.trace) == 4 && part.Some?
    requires Latest(h.trace, OtherStep(MountTmpfs, true))
    modifies h
    ensures Proceeds(h.world, old(h.trace), h.trace) && (ok ==> StageOf(h.trace) == 6)
    ensures ok ==> ImagesOf(h.world, s, part, verified, h.trace)
    ensures Obliges(h.world) && ImagesServed(h.world, s, part.value, verified) ==> ok
  {
    ghost var made := h.trace;
    ok := MountFirmware(h, part.value, verified);
    if !ok {
      return;
    }
    ghost var was := h.trace;
    assert FirmwareBetween(h.world, part.value, verified, was, made, was);
    ok := MountModules(h, s, part, verified);
    StaysReady(was, h.trace, verified);
    StaysOfSlot(h.world, part.value, verified, was, h.trace);
  }

  method MountRest(h: Host) returns (ok: bool)
    requires Going(h.world, h.trace) && ModeOf(h.trace).Some? && StageOf(h.trace) == 6
    modifies h
    ensures Proceeds(h.world, old(h.trace), h.trace) && (ok ==> StageOf(h.trace) == 8)
    ensures Obliges(h.world) ==> ok
  {
    ok := Perform(h, BindEncryptedPaths);
    if ok {
      ok := Perform(h, MountSystem);
    }
  }

  /**
   Between two moments of the run its one root was mounted as `mount_rootfs` chooses it; in verified
   mode it is trusted if and only if it is not the slot's plain root directory.
   */
  predicate RootBetween(w: World, s: Settings, part: Option<nat>, verified: bool, t: Trace, before: Trace,
                        after: Trace)
  {
    && before <= after <= t && RootMounts(before) == 0 && RootMounts(after) == 1 == RootMounts(t)
    && RootMounted(w.fs(before), s, part, verified, after)
    && (verified ==> (TrustedRoot(after) <==> !PlainRootChosen(w.fs(before), s.rootName, part)))
  }

  ghost predicate RootOf(w: World, s: Settings, part: Option<nat>, verified: bool, t: Trace) {
    exists before, after :: RootBetween(w, s, part, verified, t, before, after)
  }

  lemma StaysRoot(w: World, s: Settings, part: Option<nat>, verified: bool, was: Trace, now: Trace)
    requires RootOf(w, s, part, verified, was) && was <= now && RootMounts(now) == RootMounts(was)
    ensures RootOf(w, s, part, verified, now)
  {
    var before, after :| RootBetween(w, s, part, verified, was, before, after);
    assert RootBetween(w, s, part, verified, now, before, after);
  }

  /** Mounts the only root of the run. */
  method MountOneRoot(h: Host, s: Settings, part: Option<nat>, verified: bool) returns (ok: bool)
    requires Going(h.world, h.trace) && ModeOf(h.trace) == Some(verified) && RootMounts(h.trace) == 0
    requires StageOf(h.trace) == 1
    modifies h
    ensures Advances(h.world, old(h.trace), h.trace) && RootMounts(h.trace) == if ok then 1 else 0
    ensures ok ==> RootReady(h.trace) && RootOf(h.world, s, part, verified, h.trace) && StageOf(h.trace) == 2
    ensures part.Some? && Obliges(h.world) && RootServed(h.world, s, part.value, verified) ==> ok
  {
    ghost var was := h.trace;
    ok := MountRootfs(h, s, part, verified);
    if ok {
      assert RootBetween(h.world, s, part, verified, h.trace, was, h.trace);
    }
  }

  /** The host images and the system file systems. */
  method MountUponRoot(h: Host, s: Settings, part: Option<nat>, verified: bool) returns (ok: bool)
    requires Going(h.world, h.trace) && ModeOf(h.trace) == Some(verified) && StageOf(h.trace) == 2
    modifies h
    ensures Proceeds(h.world, old(h.trace), h.trace) && (ok ==> StageOf(h.trace) == 8)
    ensures ok ==> ImagesOf(h.world, s, part, verified, h.trace)
    ensures part.Some? && Obliges(h.world) && ImagesServed(h.world, s, part.value, verified) ==> ok
  {
    ok := Perform(h, BindState);
    if ok {
      ok := MountUponState(h, s, part, verified);
    }
  }

  method MountUponState(h: Host, s: Settings, part: Option<nat>, verified: bool) returns (ok: bool)
    requires Going(h.world, h.trace) && ModeOf(h.trace) == Some(verified) && StageOf(h.trace) == 3
    modifies h
    ensures Proceeds(h.world, old(h.trace), h.trace) && (ok ==> StageOf(h.trace) == 8)
    ensures ok ==> ImagesOf(h.world, s, part, verified, h.trace)
    ensures part.Some? && Obliges(h.world) && ImagesServed(h.world, s, part.value, verified) ==> ok
  {
    ok := MountHostImages(h, s, part, verified);
    if !ok {
      return;
    }
    ghost var images := h.trace;
    ok := MountRest(h);
    StaysImages(h.world, s, part, verified, images, h.trace);
  }

  /** What a slot's boot has put in place: its firmware, its root and the modules of the kernel. */
  ghost predicate InPlace(w: World, s: Settings, part: Option<nat>, verified: bool, t: Trace) {
    ImagesOf(w, s, part, verified, t) && RootOf(w, s, part, verified, t)
  }

  /** The root and everything upon it, until there is something to switch to. */
  method MountAll(h: Host, s: Settings, part: Option<nat>, verified: bool) returns (ok: bool)
    requires Going(h.world, h.trace) && ModeOf(h.trace) == Some(verified) && RootMounts(h.trace) == 0
    requires StageOf(h.trace) == 1
    modifies h
    ensures Advances(h.world, old(h.trace), h.trace)
    ensures ok ==> RootReady(h.trace) && FirmwareReady(h.trace, verified) && StageOf(h.trace) == 8
    ensures ok ==> InPlace(h.world, s, part, verified, h.trace)
    ensures part.Some? && Serves(h.world, s, part.value, verified) ==> ok
  {
    ok := MountOneRoot(h, s, part, verified);
    if !ok {
      return;
    }
    ghost var root := h.trace;
    ok := MountUponRoot(h, s, part, verified);
    StaysReady(root, h.trace, verified);
    StaysRoot(h.world, s, part, verified, root, h.trace);
  }

  lemma StaysInPlace(w: World, s: Settings, part: Option<nat>, verified: bool, was: Trace, now: Trace)
    requires InPlace(w, s, part, verified, was) && was <= now && RootMounts(now) == RootMounts(was)
    ensures InPlace(w, s, part, verified, now)
  {
    StaysImages(w, s, part, verified, was, now);
    StaysRoot(w, s, part, verified, was, now);
  }

  /** Switches root to the selected init. */
  method SwitchRoot(h: Host, verified: bool) returns (ok: bool)
    requires Going(h.world, h.trace) && ModeOf(h.trace) == Some(verified) && StateMounted(true) in h.trace
    requires StateReady(h.trace, verified) && RootReady(h.trace) && FirmwareReady(h.trace, verified)
    requires !Switched(h.trace) && StageOf(h.trace) == 8
    modifies h
    ensures Going(h.world, h.trace) && old(h.trace) <= h.trace && ModeOf(h.trace) == old(ModeOf(h.trace))
    ensures RootMounts(h.trace) == old(RootMounts(h.trace))
    ensures ok <==> Switched(h.trace)
    ensures Obliges(h.world) && h.world.init(old(h.trace)).Some? ==> ok
  {
    var init := h.world.init(h.trace);
    if init.None? {
      return false;
    }
    ok := h.world.succeeds(h.trace, SwitchedRoot(init.value, true));
    h.Record(SwitchedRoot(init.value, ok));
  }

  /** The paths of a boot, written out. */
  lemma BootPaths(fs: FileSystem, slot: nat, kernel: string)
    ensures ROOT == ["sysroot"] && FIRMWARE_METADATA == ["sysroot", "mnt", ".firmware-composefs"]
    ensures FirmwareImage(slot) == ["z", "img", Decimal(slot), "firmware-light.composefs"]
    ensures DevelopmentTree(slot) == ["z", "img", Decimal(slot), "firmware-objects", "current"]
    ensures ModulesTarget(kernel) == ["sysroot", "mnt", "modules", kernel]
    ensures ModulesImage(kernel) == "modules-" + kernel + ".erofs"
    ensures ObjectsDirectory(fs, slot)
         == if IsDir(fs, ["z", "img", "composefs", "objects"]) then ["z", "img", "composefs", "objects"]
            else ["z", "img", Decimal(slot), "firmware-objects", "objects"]
  {
    assert STATE + ["img", "composefs", "objects"] == ["z", "img", "composefs", "objects"];
    assert SlotDirectory(slot) == ["z", "img", Decimal(slot)];
  }

  // The boot.

  /** The boot entry as it is read after deciding the mode. */
  function EntryOf(w: World): Option<bytes> {
    w.bootEntry([SecureBootRead(w.secureBoot([]))])
  }

  /** The slot a boot entry names: the partition of its first Hard Drive node. */
  function SlotOf(payload: Option<bytes>): Option<nat> {
    if payload.None? then None
    else
      match LoadOption.BootDevice(payload.value)
      case Ok(Some(info)) => Some(info.number)
      case _ => None
  }

  /** Reading the boot entry indexes outside it, which ends the process. */
  predicate EntryPanics(payload: Option<bytes>) {
    payload.Some? && LoadOption.BootDevice(payload.value) == LoadOption.Err(LoadOption.Panic)
  }

  method ReadBootEntry(h: Host) returns (panic: bool, part: Option<nat>)
    requires Going(h.world, h.trace) && ModeOf(h.trace).Some? && StageOf(h.trace) == 0
    modifies h
    ensures Proceeds(h.world, old(h.trace), h.trace) && StageOf(h.trace) == 0
    ensures h.trace == old(h.trace) + [BootEntryRead(h.world.bootEntry(old(h.trace)))]
    ensures panic == EntryPanics(h.world.bootEntry(old(h.trace))) && part == SlotOf(h.world.bootEntry(old(h.trace)))
  {
    var payload := h.world.bootEntry(h.trace);
    h.Record(BootEntryRead(payload));
    var info := LoadOption.ExtractBootDeviceInfo(payload);
    panic := info.Err? && info.error == LoadOption.Panic;
    part := if info.Ok? && info.value.Some? then Some(info.value.value.number) else None;
  }

  /** After the mode and the slot are known. */
  method BootSlot(h: Host, s: Settings, part: Option<nat>, verified: bool) returns (r: Attempt)
    requires Going(h.world, h.trace) && ModeOf(h.trace) == Some(verified) && !Switched(h.trace)
    requires Prompts(h.trace) == 0 && RootMounts(h.trace) == 0 && StageOf(h.trace) == 0
    requires forall b :: StateC(b) !in h.trace && Sentinel(b) !in h.trace
    requires forall key :: KeyAdded(key, true) !in h.trace
    modifies h
    ensures Run(h.world, h.trace) && ModeOf(h.trace) == Some(verified)
    ensures r.Succeeded? <==> Switched(h.trace)
    ensures if r.Died? then Latest(h.trace, Panicked) && UnsealPanicked(h.trace) else PhaseOf(h.world, h.trace).Quiet?
    ensures r.Died? ==> PhaseOf(h.world, h.trace).Ended?
    ensures r.Succeeded? ==> InPlace(h.world, s, part, verified, h.trace)
    ensures part.Some? && Serves(h.world, s, part.value, verified) ==> r.Succeeded?
  {
    var ok := h.world.succeeds(h.trace, StateMounted(true));
    h.Record(StateMounted(ok));
    if !ok {
      return Failed;
    }
    assert Latest(h.trace, StateMounted(true));
    r := UnlockStateC(h, verified);
    if !r.Succeeded? {
      return;
    }
    ok := MountThenSwitch(h, s, part, verified);
    r := if ok then Succeeded else Failed;
  }

  /** After the state is ready. */
  method MountThenSwitch(h: Host, s: Settings, part: Option<nat>, verified: bool) returns (ok: bool)
    requires Going(h.world, h.trace) && ModeOf(h.trace) == Some(verified) && !Switched(h.trace)
    requires RootMounts(h.trace) == 0 && StateMounted(true) in h.trace && StateReady(h.trace, verified)
    requires StageOf(h.trace) == 1
    modifies h
    ensures Going(h.world, h.trace) && ModeOf(h.trace) == Some(verified)
    ensures ok <==> Switched(h.trace)
    ensures ok ==> InPlace(h.world, s, part, verified, h.trace)
    ensures part.Some? && Serves(h.world, s, part.value, verified) ==> ok
  {
    ghost var state := h.trace;
    ok := MountAll(h, s, part, verified);
    StaysReady(state, h.trace, verified);
    if ok {
      ghost var mounted := h.trace;
      ok := SwitchRoot(h, verified);
      StaysInPlace(h.world, s, part, verified, mounted, h.trace);
    }
  }

  /** What a finished boot runs: the firmware and the root of the slot that the boot entry names, and its modules. */
  ghost predicate RunsSlot(w: World, s: Settings, t: Trace) {
    InPlace(w, s, SlotOf(EntryOf(w)), Verified(w), t)
  }

  /** The machine names a slot in its boot entry and serves it. */
  ghost predicate ServesBoot(w: World, s: Settings) {
    && w.secureBoot([]).Some? && !EntryPanics(EntryOf(w))
    && SlotOf(EntryOf(w)).Some? && Serves(w, s, SlotOf(EntryOf(w)).value, Verified(w))
  }

  /** The mode is decided by the SecureBoot variable; there is none if that cannot be read. */
  method ReadMode(h: Host) returns (mode: Option<bool>)
    requires h.trace == []
    modifies h
    ensures Going(h.world, h.trace) && h.trace == [SecureBootRead(h.world.secureBoot([]))] && mode == ModeOf(h.trace)
    ensures mode == match h.world.secureBoot([]) case None => None case Some(value) => Some(value != 0)
    ensures Prompts(h.trace) == 0 && RootMounts(h.trace) == 0 && StageOf(h.trace) == 0 && !Switched(h.trace)
  {
    var value := h.world.secureBoot(h.trace);
    h.Record(SecureBootRead(value));
    mode := if value.None? then None else Some(value.value != 0);
  }

  /** After the mode is decided. */
  method BootInMode(h: Host, s: Settings, verified: bool) returns (r: Attempt)
    requires Going(h.world, h.trace) && h.trace == [SecureBootRead(h.world.secureBoot([]))]
    requires ModeOf(h.trace) == Some(verified) && verified == Verified(h.world)
    requires Prompts(h.trace) == 0 && RootMounts(h.trace) == 0 && StageOf(h.trace) == 0 && !Switched(h.trace)
    modifies h
    ensures Run(h.world, h.trace) && (r.Succeeded? <==> Switched(h.trace)) && ModeOf(h.trace) == Some(verified)
    ensures EntryPanics(EntryOf(h.world)) ==> r.Died?
    ensures if r.Died? then Latest(h.trace, Panicked) && PhaseOf(h.world, h.trace).Ended?
            else PhaseOf(h.world, h.trace).Quiet?
    ensures r.Died? && !EntryPanics(EntryOf(h.world)) ==> UnsealPanicked(h.trace)
    ensures r.Succeeded? ==> RunsSlot(h.world, s, h.trace)
    ensures ServesBoot(h.world, s) ==> r.Succeeded?
  {
    var panic, part := ReadBootEntry(h);
    if panic {
      h.Record(Panicked);
      return Died;
    }
    r := BootSlot(h, s, part, verified);
  }

  /**
   The boot proper; it succeeds exactly when it switches root, and then from the slot the boot entry
   names. The process dies at a boot entry that cannot be indexed or at a reply of the TPM that cannot
   be sliced.
   */
  method Boot(h: Host, s: Settings) returns (r: Attempt, mode: Option<bool>)
    requires h.trace == []
    modifies h
    ensures Run(h.world, h.trace) && (r.Succeeded? <==> Switched(h.trace)) && mode == ModeOf(h.trace)
    ensures mode == match h.world.secureBoot([]) case None => None case Some(value) => Some(value != 0)
    ensures mode.Some? && EntryPanics(EntryOf(h.world)) ==> r.Died?
    ensures r.Died? ==> mode.Some?
    ensures if r.Died? then Latest(h.trace, Panicked) && PhaseOf(h.world, h.trace).Ended?
            else PhaseOf(h.world, h.trace).Quiet?
    ensures r.Died? && !EntryPanics(EntryOf(h.world)) ==> UnsealPanicked(h.trace)
    ensures r.Succeeded? ==> RunsSlot(h.world, s, h.trace)
    ensures ServesBoot(h.world, s) ==> r.Succeeded?
  {
    mode := ReadMode(h);
    if mode.None? {
      return Failed, mode;
    }
    r := BootInMode(h, s, mode.value);
  }

  datatype Outcome = Running | DevInitrd | Halted | Dead

  /** The boot and what is done when it fails. */
  method BootOrFallBack(h: Host, s: Settings) returns (r: Outcome)
    requires h.trace == []
    modifies h
    ensures Run(h.world, h.trace)
    ensures r.Running? <==> Switched(h.trace)
    ensures r.Running? ==> RunsSlot(h.world, s, h.trace)
    ensures ServesBoot(h.world, s) ==> r.Running?
    ensures h.world.secureBoot([]).Some? && EntryPanics(EntryOf(h.world)) ==> r.Dead?
    ensures r.Dead? ==> h.world.secureBoot([]).Some? && (EntryPanics(EntryOf(h.world)) || UnsealPanicked(h.trace))
    ensures if r.Dead? then PhaseOf(h.world, h.trace).Ended? else PhaseOf(h.world, h.trace).Quiet?
    ensures r.DevInitrd? <==> !Switched(h.trace) && !r.Dead? && h.world.secureBoot([]) == Some(0)
    ensures r.DevInitrd? ==> Latest(h.trace, DevInitrdRun)
    ensures r.Halted? ==> Latest(h.trace, Exited)
  {
    var attempt, mode := Boot(h, s);
    match attempt {
      case Succeeded => r := Running;
      case Died => r := Dead;
      case Failed => r := FallBack(h, mode);
    }
  }

  /** The failure policy. */
  method FallBack(h: Host, mode: Option<bool>) returns (r: Outcome)
    requires Going(h.world, h.trace) && !Switched(h.trace) && mode == ModeOf(h.trace)
    modifies h
    ensures Going(h.world, h.trace) && !Switched(h.trace)
    ensures r == if mode == Some(false) then DevInitrd else Halted
    ensures r.DevInitrd? ==> Latest(h.trace, DevInitrdRun)
    ensures r.Halted? ==> Latest(h.trace, Exited)
  {
    h.Record(BootFailed);
    if mode == Some(false) {
      h.Record(DevInitrdRun);
      return DevInitrd;
    }
    h.Record(Exited);
    r := Halted;
  }

  /**
   `cmd_boot`. The system runs if and only if root was switched, and then with the firmware and the root
   of the slot that the boot entry names and with the modules found for the running kernel; a machine that
   serves that slot gets there, locked state or not. The process
   dies if and only if the boot entry cannot be indexed or the boot asked the TPM and could not slice its
   answer; the development initrd runs if and only if the boot failed otherwise with SecureBoot zero;
   and in all other cases, in particular when SecureBoot cannot be read, the machine halts.
   Of all that happens on the way:
   - with Secure Boot on, every image mounted was vouched for by the database before;
   - development firmware and the development initrd are used only with SecureBoot zero;
   - at most three passwords are asked for, and none once the state is unlocked;
   - every key installed repeats what the TPM unsealed in the mode of the boot, what was typed, or what
     that decrypted;
   - every secret recovered, unless it is empty, is installed at once, and then the sentinel is looked for;
   - PCR 7 is extended only right after a key that the TPM unsealed unlocked the state, and then at once;
   - every step is taken in its turn, and root is switched only with state, root and firmware ready and
     all other steps done.
   */
  method CmdBoot(h: Host, s: Settings) returns (r: Outcome)
    requires h.trace == []
    modifies h
    ensures Run(h.world, h.trace)
    ensures r.Running? <==> Switched(h.trace)
    ensures r.Running? ==> RunsSlot(h.world, s, h.trace)
    ensures ServesBoot(h.world, s) ==> r.Running?
    ensures r.Dead? <==>
      h.world.secureBoot([]).Some? && (EntryPanics(EntryOf(h.world)) || AskedInVain(h.world, h.trace))
    ensures r.DevInitrd? <==> !Switched(h.trace) && !r.Dead? && h.world.secureBoot([]) == Some(0)
    ensures r.DevInitrd? ==> Latest(h.trace, DevInitrdRun)
    ensures r.Halted? ==> Latest(h.trace, Exited)
    ensures Verified(h.world) ==>
      forall i :: 0 <= i < |h.trace| && h.trace[i].LoopMounted? ==> VouchedBefore(h.world, h.trace, i)
    ensures forall i :: 0 <= i < |h.trace| && (h.trace[i].DevFirmwareBound? || h.trace[i].DevInitrdRun?) ==>
      h.world.secureBoot([]) == Some(0)
    ensures Prompts(h.trace) <= 3
    ensures forall i :: 0 <= i < |h.trace| && h.trace[i].Prompted? ==> Sentinel(true) !in h.trace[..i]
    ensures forall i :: 0 <= i < |h.trace| && h.trace[i].KeyAdded? ==>
      exists raw :: FromMachine(h.world, h.trace, i, raw) && Fills(raw, h.trace[i].installed)
    ensures forall i :: 0 <= i < |h.trace| && h.trace[i].Extended? ==> UnsealedBefore(h.world, h.trace, i)
    ensures forall i :: 0 <= i < |h.trace| && UnlockedByTpm(h.trace, i) ==>
      i + 1 < |h.trace| && h.trace[i + 1].Extended?
    ensures forall i :: 0 <= i < |h.trace| ==>
      && TriedAt(h.world, h.trace, i) && InTurn(StageOf(h.trace[..i]), h.trace[i])
      && Honest(h.world, h.trace[..i], h.trace[i])
    ensures forall i :: 0 <= i < |h.trace| && h.trace[i].SwitchedRoot? ==> ReadyAt(h.world, h.trace, i)
  {
    r := BootOrFallBack(h, s);
    RunIsSafe(h.world, h.trace);
    PanickedIffAsked(h.world, h.trace);
    RunIsOrderly(h.world, h.trace);
    RunLocksAgain(h.world, h.trace);
    if !r.Dead? {
      LivingIsCalm(h.world, h.trace);
    }
  }

  lemma RunIsSafe(w: World, t: Trace)
    requires Run(w, t)
    ensures Verified(w) ==> forall i :: 0 <= i < |t| && t[i].LoopMounted? ==> VouchedBefore(w, t, i)
    ensures forall i :: 0 <= i < |t| && (t[i].DevFirmwareBound? || t[i].DevInitrdRun?) ==> w.secureBoot([]) == Some(0)
    ensures Prompts(t) <= 3
    ensures forall i :: 0 <= i < |t| && t[i].Prompted? ==> Sentinel(true) !in t[..i]
    ensures forall i :: 0 <= i < |t| && t[i].KeyAdded? ==>
      exists raw :: FromMachine(w, t, i, raw) && Fills(raw, t[i].installed)
    ensures forall i :: 0 <= i < |t| && t[i].Extended? ==> UnsealedBefore(w, t, i)
    ensures forall i :: 0 <= i < |t| && t[i].SwitchedRoot? ==> ReadyAt(w, t, i)
  {
    AtMostThreePrompts(w, t);
    forall i | 0 <= i < |t|
      ensures Verified(w) && t[i].LoopMounted? ==> VouchedBefore(w, t, i)
      ensures t[i].DevFirmwareBound? || t[i].DevInitrdRun? ==> w.secureBoot([]) == Some(0)
      ensures t[i].Prompted? ==> Sentinel(true) !in t[..i]
      ensures t[i].KeyAdded? ==> exists raw :: FromMachine(w, t, i, raw) && Fills(raw, t[i].installed)
      ensures t[i].Extended? ==> UnsealedBefore(w, t, i)
      ensures t[i].SwitchedRoot? ==> ReadyAt(w, t, i)
    {
      PermittedAt(w, t, i);
      if Verified(w) && t[i].LoopMounted? { MountedImpliesVouched(w, t, i); }
      if t[i].DevFirmwareBound? || t[i].DevInitrdRun? { DevelopmentOnly(w, t, i); }
      if t[i].KeyAdded? { KeyIsRecovered(w, t, i); }
      if t[i].Extended? { ExtendedAfterUnlock(w, t, i); }
      if t[i].SwitchedRoot? { SwitchedWhenReady(w, t, i); }
    }
  }

  /** In a run that is over every secret was tried, all was done in turn, and reported as the machine did it. */
  lemma RunIsOrderly(w: World, t: Trace)
    requires Run(w, t) && Settled(w, t)
    ensures forall i :: 0 <= i < |t| ==>
      TriedAt(w, t, i) && InTurn(StageOf(t[..i]), t[i]) && Honest(w, t[..i], t[i])
  {
    forall i | 0 <= i < |t|
      ensures TriedAt(w, t, i) && InTurn(StageOf(t[..i]), t[i]) && Honest(w, t[..i], t[i])
    {
      SecretsAreTried(w, t, i);
      InTurnAt(w, t, i);
    }
  }

  /** In a run that is over PCR 7 was extended after every unlock by the TPM. */
  lemma RunLocksAgain(w: World, t: Trace)
    requires Run(w, t) && Settled(w, t)
    ensures forall i :: 0 <= i < |t| && UnlockedByTpm(t, i) ==> i + 1 < |t| && t[i + 1].Extended?
  {
    forall i | 0 <= i < |t| && UnlockedByTpm(t, i)
      ensures i + 1 < |t| && t[i + 1].Extended?
    {
      ExtendsAtOnce(w, t, i);
    }
  }

  /** A boot that lives has sliced every answer of the TPM. */
  lemma LivingIsCalm(w: World, t: Trace)
    requires Run(w, t) && PhaseOf(w, t).Quiet?
    ensures !UnsealPanicked(t)
  {
    forall i | 0 <= i < |t|
      ensures t[i] != Unsealed(Tpm.Err(Tpm.OutOfBounds))
    {
      NoPanicSoFar(w, t, i);
    }
  }
}
