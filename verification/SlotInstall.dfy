/**
 Installing a release into one of the two boot slots, with a crash possible before every step that
 changes the disk. The steps are those of `install_slot`: extraction, the two atomic renames, writing
 the boot partition block by block, and removing the backup file by file.
 */
module SlotInstall {
  import opened Bytes

  /** The files of a slot: those a release must have, and any others. */
  datatype File = BootImage | RootImage | FirmwareImage | FirmwareBasedir | OtherFile(name: string)

  type Dir = map<File, bytes>

  /** Directories under /z/img; `Stage` is a directory made by mktemp. */
  datatype Name = Live(slot: nat) | Previous(slot: nat) | Stage(id: nat)

  /** A boot partition: the slot's partition on one disk. Directories belong to a slot whatever the disk. */
  datatype Device = Device(drive: nat, slot: nat)

  /** A release, where to put it, and what the checks find: `sound` before extraction, `usable` after it. */
  datatype Request = Request(drive: nat, slot: nat, write: bool, sound: bool, usable: bool, files: seq<(File, bytes)>)

  /** What is on the disk. */
  datatype Disk = Disk(dirs: map<Name, Dir>, partitions: map<Device, bytes>)

  datatype Status = Done | Refused | Stopped

  function Extracted(files: seq<(File, bytes)>): Dir {
    if files == [] then map[]
    else Extracted(files[..|files| - 1])[files[|files| - 1].0 := files[|files| - 1].1]
  }

  function Target(r: Request): Device {
    Device(r.drive, r.slot)
  }

  function Payload(r: Request): Dir {
    Extracted(r.files)
  }

  predicate Complete(d: Dir) {
    BootImage in d && RootImage in d && FirmwareImage in d && FirmwareBasedir in d
  }

  /** A partition whose first `k` bytes have been overwritten by the image. */
  function Overwritten(was: bytes, image: bytes, k: nat): bytes
    requires k <= |image| && k <= |was|
  {
    image[..k] + was[k..]
  }

  /** Part of a directory. */
  predicate Within(d: Dir, whole: Dir) {
    forall f :: f in d ==> f in whole && d[f] == whole[f]
  }

  /** The directories are the same except perhaps these. */
  ghost predicate SameExcept(a: map<Name, Dir>, b: map<Name, Dir>, names: set<Name>) {
    forall n :: n !in names ==> (n in a <==> n in b) && (n in a ==> a[n] == b[n])
  }

  /** The directory is there with this content. */
  predicate Has(d: Disk, name: Name, content: Dir) {
    name in d.dirs && d.dirs[name] == content
  }

  // The states an attempt can leave behind.

  /** Nothing but stages, the slot's own directories and the partition written to has changed. */
  ghost predicate Confined(before: Disk, after: Disk, target: Device) {
    && (forall n: Name :: !n.Stage? && n != Live(target.slot) && n != Previous(target.slot) ==>
         (n in before.dirs <==> n in after.dirs) && (n in before.dirs ==> before.dirs[n] == after.dirs[n]))
    && (forall p :: p != target ==>
         (p in before.partitions <==> p in after.partitions)
         && (p in before.partitions ==> before.partitions[p] == after.partitions[p]))
    && (target in before.partitions <==> target in after.partitions)
  }

  predicate SamePartition(before: Disk, after: Disk, p: Device) {
    && (p in before.partitions <==> p in after.partitions)
    && (p in before.partitions ==> before.partitions[p] == after.partitions[p])
  }

  predicate SameName(before: Disk, after: Disk, name: Name) {
    (name in before.dirs <==> name in after.dirs) && (name in before.dirs ==> before.dirs[name] == after.dirs[name])
  }

  /** The slot's directories and its partition on this disk are as they were. */
  predicate Untouched(before: Disk, after: Disk, p: Device) {
    && SameName(before, after, Live(p.slot)) && SameName(before, after, Previous(p.slot))
    && SamePartition(before, after, p)
  }

  /** The old payload has become the backup and nothing has taken its place. */
  predicate Retired(before: Disk, after: Disk, p: Device) {
    && Live(p.slot) in before.dirs && Previous(p.slot) !in before.dirs && Live(p.slot) !in after.dirs
    && Has(after, Previous(p.slot), before.dirs[Live(p.slot)]) && SamePartition(before, after, p)
  }

  /** The old payload, if any, is the backup, the new one is in place, and `k` bytes of its boot image are written. */
  predicate Writing(before: Disk, after: Disk, r: Request, k: nat) {
    var slot, payload, p := r.slot, Payload(r), Target(r);
    && Complete(payload) && Previous(slot) !in before.dirs && Has(after, Live(slot), payload)
    && (if Live(slot) in before.dirs then Has(after, Previous(slot), before.dirs[Live(slot)])
        else Previous(slot) !in after.dirs)
    && p in before.partitions && p in after.partitions
    && k <= |payload[BootImage]| && k <= |before.partitions[p]|
    && after.partitions[p] == Overwritten(before.partitions[p], payload[BootImage], k)
  }

  /** The whole boot image is on the partition; the backup is being removed or is gone. */
  predicate Written(before: Disk, after: Disk, r: Request) {
    var slot, payload, p := r.slot, Payload(r), Target(r);
    && Complete(payload) && Previous(slot) !in before.dirs && Has(after, Live(slot), payload)
    && (Previous(slot) in after.dirs ==>
         Live(slot) in before.dirs && Within(after.dirs[Previous(slot)], before.dirs[Live(slot)]))
    && p in after.partitions && payload[BootImage] <= after.partitions[p]
  }

  /** What an attempt, interrupted anywhere or not, may leave. */
  ghost predicate Attempted(before: Disk, after: Disk, r: Request) {
    && Confined(before, after, Target(r))
    && (|| Untouched(before, after, Target(r))
        || Retired(before, after, Target(r))
        || (exists k :: Writing(before, after, r, k))
        || Written(before, after, r))
  }

  /** At most how many steps writing the image, byte by byte, and removing the old files take. */
  function LastSteps(before: Disk, r: Request): nat
    requires Complete(Payload(r))
  {
    |Payload(r)[BootImage]| + if Live(r.slot) in before.dirs then |before.dirs[Live(r.slot)]| else 0
  }

  /** At most how many steps a whole install takes. */
  function Steps(before: Disk, r: Request): nat
    requires Complete(Payload(r))
  {
    4 + |r.files| + LastSteps(before, r)
  }

  /** The script would not refuse. */
  predicate Allowed(d: Disk, r: Request) {
    && r.slot in {101, 102} && r.write && Target(r) in d.partitions && r.sound && r.usable
    && Complete(Payload(r)) && Previous(r.slot) !in d.dirs
  }

  /** The script would not refuse, and the boot image is no longer than the partition. */
  predicate Fits(d: Disk, r: Request) {
    Allowed(d, r) && |Payload(r)[BootImage]| <= |d.partitions[Target(r)]|
  }

  class Machine {
    var dirs: map<Name, Dir>
    var partitions: map<Device, bytes>
    var fuel: nat

    ghost function Now(): Disk
      reads this
    {
      Disk(dirs, partitions)
    }

    /** Before each step that changes the disk the machine may stop. */
    method Tick() returns (alive: bool)
      modifies this`fuel
      ensures Now() == old(Now())
      ensures if alive then fuel + 1 == old(fuel) else fuel == 0 == old(fuel)
    {
      alive := fuel > 0;
      fuel := if alive then fuel - 1 else 0;
    }

    /** `rm -rf`: the files one by one, in any order, and then the directory. */
    method RemoveTree(name: Name) returns (alive: bool)
      requires name in dirs
      modifies this
      ensures partitions == old(partitions) && SameExcept(old(dirs), dirs, {name})
      ensures name in dirs ==> Within(dirs[name], old(dirs[name]))
      ensures if alive then name !in dirs else fuel == 0
      ensures alive <==> old(fuel) > |old(dirs[name])|
    {
      while dirs[name] != map[]
        invariant partitions == old(partitions) && SameExcept(old(dirs), dirs, {name})
        invariant name in dirs && Within(dirs[name], old(dirs[name]))
        invariant old(fuel) - |old(dirs[name])| == fuel - |dirs[name]|
        decreases dirs[name].Keys
      {
        alive := Tick();
        if !alive {
          return;
        }
        var f :| f in dirs[name];
        var rest := dirs[name] - {f};
        assert rest.Keys == dirs[name].Keys - {f};
        assert |rest| == |dirs[name]| - 1;
        dirs := dirs[name := rest];
      }
      alive := Tick();
      if alive {
        dirs := dirs - {name};
      }
    }

    /** `tar -x`: the files in the order of the archive. */
    method Extract(stage: Name, files: seq<(File, bytes)>) returns (alive: bool)
      requires stage in dirs && dirs[stage] == map[]
      modifies this
      ensures partitions == old(partitions) && SameExcept(old(dirs), dirs, {stage}) && stage in dirs
      ensures if alive then dirs[stage] == Extracted(files) else fuel == 0
      ensures old(fuel) >= |files| ==> alive && fuel + |files| == old(fuel)
    {
      for i := 0 to |files|
        invariant fuel + i == old(fuel)
        invariant partitions == old(partitions) && SameExcept(old(dirs), dirs, {stage})
        invariant stage in dirs && dirs[stage] == Extracted(files[..i])
      {
        alive := Tick();
        if !alive {
          return;
        }
        assert files[..i + 1][..i] == files[..i];
        dirs := dirs[stage := dirs[stage][files[i].0 := files[i].1]];
      }
      assert files[..|files|] == files;
      alive := true;
    }

    /** `dd`: block by block; it fails when the partition is full. */
    method WriteImage(p: Device, image: bytes, blockSize: nat) returns (k: nat)
      requires p in partitions && blockSize > 0
      modifies this
      ensures dirs == old(dirs) && p in partitions && k <= |image| && k <= |old(partitions[p])|
      ensures partitions == old(partitions)[p := Overwritten(old(partitions[p]), image, k)]
      ensures k < |image| ==> k == |old(partitions[p])| || (fuel == 0 && old(fuel) < |image|)
      ensures k == |image| ==> fuel + |image| >= old(fuel)
    {
      ghost var was := partitions[p];
      k := 0;
      assert Overwritten(was, image, 0) == was;
      while k < |image|
        invariant k <= |image| && k <= |was| && p in partitions && dirs == old(dirs)
        invariant partitions == old(partitions)[p := Overwritten(was, image, k)]
        invariant fuel + k >= old(fuel)
      {
        var alive := Tick();
        if !alive || k == |partitions[p]| {
          return;
        }
        var n := if k + blockSize <= |image| then k + blockSize else |image|;
        n := if n <= |partitions[p]| then n else |partitions[p]|;
        NextBlock(was, image, k, n);
        partitions := partitions[p := partitions[p][..k] + image[k..n] + partitions[p][n..]];
        k := n;
      }
    }

    /** Puts the extracted stage in the place of the slot's directory: two renames. */
    method Swap(r: Request, stage: Name, ghost before: Disk) returns (alive: bool)
      requires stage.Stage? && stage in dirs && dirs[stage] == Payload(r) && Complete(Payload(r))
      requires Previous(r.slot) !in dirs && Target(r) in partitions
      requires Confined(before, Now(), Target(r)) && Untouched(before, Now(), Target(r))
      modifies this
      ensures Attempted(before, Now(), r)
      ensures if alive then Confined(before, Now(), Target(r)) && Writing(before, Now(), r, 0) else fuel == 0
      ensures old(fuel) >= 2 ==> alive && fuel + 2 >= old(fuel)
      ensures alive ==> stage !in dirs
    {
      if Live(r.slot) in dirs {
        alive := Tick();
        if !alive {
          return;
        }
        dirs := dirs[Previous(r.slot) := dirs[Live(r.slot)]] - {Live(r.slot)};
      }
      alive := Tick();
      if alive {
        dirs := dirs[Live(r.slot) := dirs[stage]] - {stage};
        assert Overwritten(before.partitions[Target(r)], Payload(r)[BootImage], 0) == before.partitions[Target(r)];
        assert Writing(before, Now(), r, 0);
      }
    }

    /** Writes the boot image and removes the backup. */
    method Commit(r: Request, blockSize: nat, ghost before: Disk) returns (status: Status)
      requires blockSize > 0 && Confined(before, Now(), Target(r)) && Writing(before, Now(), r, 0)
      modifies this
      ensures Attempted(before, Now(), r)
      ensures status.Done? ==> Written(before, Now(), r) && Previous(r.slot) !in dirs
      ensures forall id :: Stage(id) in dirs ==> Stage(id) in old(dirs)
      ensures !status.Refused?
      ensures status.Stopped? ==> fuel == 0 || |before.partitions[Target(r)]| < |Payload(r)[BootImage]|
      ensures |Payload(r)[BootImage]| <= |before.partitions[Target(r)]| && old(fuel) > LastSteps(before, r) ==>
        status.Done?
    {
      ghost var was := partitions[Target(r)];
      var image := dirs[Live(r.slot)][BootImage];
      assert was == before.partitions[Target(r)];
      var k := WriteImage(Target(r), image, blockSize);
      if k < |image| {
        assert Writing(before, Now(), r, k);
        return Stopped;
      }
      assert image <= partitions[Target(r)];
      if Previous(r.slot) in dirs {
        var alive := RemoveTree(Previous(r.slot));
        if !alive {
          return Stopped;
        }
      }
      status := Done;
    }

    /** Extracts the release into a stage and checks it; a refusal removes the stage. */
    method Prepare(r: Request, stage: Name) returns (ready: bool, status: Status)
      requires stage.Stage? && stage !in dirs
      modifies this
      ensures partitions == old(partitions) && SameExcept(old(dirs), dirs, {stage})
      ensures ready ==> stage in dirs && dirs[stage] == Payload(r) && Complete(Payload(r)) && r.usable
      ensures ready ==> Previous(r.slot) !in old(dirs)
      ensures !ready ==> !status.Done? && (status.Stopped? ==> fuel == 0)
      ensures !ready && status.Refused? ==> !(Complete(Payload(r)) && r.usable && Previous(r.slot) !in old(dirs))
      ensures old(fuel) > |r.files| && Complete(Payload(r)) && r.usable && Previous(r.slot) !in old(dirs) ==>
        ready && fuel + |r.files| + 1 == old(fuel)
      ensures !ready && status.Refused? ==> fuel == 0 || stage !in dirs
    {
      ready := Tick();
      if !ready {
        return false, Stopped;
      }
      dirs := dirs[stage := map[]];
      ready := Extract(stage, r.files);
      if !ready {
        return false, Stopped;
      }
      status := Refused;
      ready := Complete(dirs[stage]) && r.usable && Previous(r.slot) !in dirs;
      if !ready {
        var _ := RemoveTree(stage);
      }
    }

    /** Puts the stage in place and writes its boot image. */
    method Replace(r: Request, stage: Name, blockSize: nat, ghost before: Disk) returns (status: Status)
      requires stage.Stage? && stage in dirs && dirs[stage] == Payload(r) && Complete(Payload(r)) && blockSize > 0
      requires Previous(r.slot) !in dirs && Target(r) in partitions
      requires Confined(before, Now(), Target(r)) && Untouched(before, Now(), Target(r))
      modifies this
      ensures Attempted(before, Now(), r) && !status.Refused?
      ensures status.Done? ==> Written(before, Now(), r) && Previous(r.slot) !in dirs && stage !in dirs
      ensures status.Stopped? ==> fuel == 0 || |before.partitions[Target(r)]| < |Payload(r)[BootImage]|
      ensures |Payload(r)[BootImage]| <= |before.partitions[Target(r)]| && old(fuel) >= LastSteps(before, r) + 3 ==>
        status.Done?
    {
      var alive := Swap(r, stage, before);
      if !alive {
        return Stopped;
      }
      status := Commit(r, blockSize, before);
    }

    /**
     `install_slot`. Wherever it stops, it leaves one of the states of `Attempted`; it is done only
     with the payload in place, its whole boot image written and no backup left; a slot that has a
     backup, or any other reason to refuse, is left as it was; an install that is allowed, fits and is
     given enough steps is done; and no stage is left behind, unless the machine stops.
     */
    method Install(r: Request, stage: Name, blockSize: nat) returns (status: Status)
      requires stage.Stage? && stage !in dirs && blockSize > 0
      modifies this
      ensures Attempted(old(Now()), Now(), r)
      ensures status.Done? ==> Written(old(Now()), Now(), r) && Previous(r.slot) !in dirs
      ensures status.Refused? || !Allowed(old(Now()), r) ==> !status.Done? && Untouched(old(Now()), Now(), Target(r))
      ensures Allowed(old(Now()), r) ==>
        status.Done? || fuel == 0 || |old(partitions)[Target(r)]| < |Payload(r)[BootImage]|
      ensures Fits(old(Now()), r) && old(fuel) >= Steps(old(Now()), r) ==> status.Done?
      ensures status.Done? || (status.Refused? && fuel > 0) ==> stage !in dirs
      ensures status.Done? ==> r.slot == 101 || r.slot == 102
    {
      ghost var before := Now();
      if r.slot !in {101, 102} || !r.write || Target(r) !in partitions || !r.sound {
        return Refused;
      }
      var ready;
      ready, status := Prepare(r, stage);
      if !ready {
        return;
      }
      status := Replace(r, stage, blockSize, before);
    }
  }

  /**
   What a finished install has put in place: the slot's directory is the release, each file as its archive has
   it last, with the four files a slot needs, and the partition of the disk asked for begins with its boot image.
   */
  lemma WrittenMeans(before: Disk, after: Disk, r: Request, i: nat)
    requires Written(before, after, r) && i < |r.files|
    ensures Live(r.slot) in after.dirs && Device(r.drive, r.slot) in after.partitions
    ensures var d := after.dirs[Live(r.slot)];
      && (forall f: File :: f in d || f.OtherFile?)
      && d[BootImage] <= after.partitions[Device(r.drive, r.slot)]
      && r.files[i].0 in d
      && ((forall j :: i < j < |r.files| ==> r.files[j].0 != r.files[i].0) ==> d[r.files[i].0] == r.files[i].1)
  {
    ExtractedMeans(r.files, i);
  }

  lemma {:induction false} ExtractedMeans(files: seq<(File, bytes)>, i: nat)
    requires i < |files|
    ensures files[i].0 in Extracted(files)
    ensures (forall j :: i < j < |files| ==> files[j].0 != files[i].0) ==> Extracted(files)[files[i].0] == files[i].1
    decreases |files|
  {
    if i < |files| - 1 {
      ExtractedMeans(files[..|files| - 1], i);
    }
  }

  lemma NextBlock(was: bytes, image: bytes, k: nat, n: nat)
    requires k <= n <= |image| && n <= |was|
    ensures |Overwritten(was, image, k)| == |was|
    ensures var now := Overwritten(was, image, k); now[..k] + image[k..n] + now[n..] == Overwritten(was, image, n)
  {}

  // Whole runs: any number of attempts on either slot, each interrupted anywhere or not.

  /** The disk after each of a sequence of attempts. */
  ghost predicate Attempts(disks: seq<Disk>, requests: seq<Request>) {
    && |disks| == |requests| + 1
    && forall i :: 0 <= i < |requests| ==> Attempted(disks[i], disks[i + 1], requests[i])
  }

  /** While a slot has a backup, no attempt changes its directory, its backup or its partition on any disk. */
  lemma {:induction false} BackupIsKept(disks: seq<Disk>, requests: seq<Request>, p: Device)
    requires Attempts(disks, requests) && Previous(p.slot) in disks[0].dirs
    ensures Untouched(disks[0], disks[|requests|], p)
    decreases |requests|
  {
    if requests != [] {
      var n := |requests| - 1;
      BackupIsKept(disks[..n + 1], requests[..n], p);
      assert Attempted(disks[n], disks[n + 1], requests[n]);
    }
  }

  /** Attempts on one slot never change the other's directory, backup or partitions. */
  lemma {:induction false} OtherSlotIsKept(disks: seq<Disk>, requests: seq<Request>, p: Device)
    requires Attempts(disks, requests) && forall i :: 0 <= i < |requests| ==> requests[i].slot != p.slot
    ensures Untouched(disks[0], disks[|requests|], p)
    decreases |requests|
  {
    if requests != [] {
      var n := |requests| - 1;
      OtherSlotIsKept(disks[..n + 1], requests[..n], p);
      assert Attempted(disks[n], disks[n + 1], requests[n]);
    }
  }

  predicate Kept(d: Disk, slot: nat, payload: Dir) {
    Has(d, Live(slot), payload) || Has(d, Previous(slot), payload)
  }

  /** The attempt has put its whole boot image on the slot's partition, and has changed something. */
  predicate Replaced(before: Disk, after: Disk, r: Request) {
    Written(before, after, r) && !Untouched(before, after, Target(r))
  }

  /**
   A payload in a slot survives, in the slot or as its backup, every run of attempts until one of
   them has written a whole new boot image to the slot's partition.
   */
  lemma {:induction false} PayloadSurvives(disks: seq<Disk>, requests: seq<Request>, slot: nat, payload: Dir)
    requires Attempts(disks, requests) && Kept(disks[0], slot, payload)
    requires forall i :: 0 <= i < |requests| && requests[i].slot == slot ==>
      !Replaced(disks[i], disks[i + 1], requests[i])
    ensures Kept(disks[|requests|], slot, payload)
    decreases |requests|
  {
    if requests != [] {
      var n := |requests| - 1;
      PayloadSurvives(disks[..n + 1], requests[..n], slot, payload);
      assert Attempted(disks[n], disks[n + 1], requests[n]);
    }
  }

  /** The partition holds the boot image of the slot's complete directory. */
  predicate Settled(d: Disk, p: Device) {
    && Live(p.slot) in d.dirs && p in d.partitions && Complete(d.dirs[Live(p.slot)])
    && d.dirs[Live(p.slot)][BootImage] <= d.partitions[p]
  }

  /** The partition is settled, or there is a complete backup to go back to. */
  predicate Recoverable(d: Disk, p: Device) {
    Settled(d, p) || (Previous(p.slot) in d.dirs && Complete(d.dirs[Previous(p.slot)]))
  }

  /**
   A recoverable partition stays so under an attempt, interrupted anywhere or not, unless that writes a
   whole boot image of the same slot to another disk; and then it stays so exactly when it holds the new
   boot image too or the backup is still complete.
   */
  lemma RecoverableStep(before: Disk, after: Disk, r: Request, p: Device)
    requires Attempted(before, after, r) && Recoverable(before, p)
    ensures Recoverable(after, p) <==>
      || !(r.slot == p.slot && r.drive != p.drive && Replaced(before, after, r))
      || (p in before.partitions && Payload(r)[BootImage] <= before.partitions[p])
      || (Previous(p.slot) in after.dirs && Complete(after.dirs[Previous(p.slot)]))
  {}

  /** A recoverable partition is recoverable at every moment of every run that installs its slot on no other disk. */
  lemma {:induction false} AlwaysRecoverable(disks: seq<Disk>, requests: seq<Request>, p: Device)
    requires Attempts(disks, requests) && Recoverable(disks[0], p)
    requires forall i :: 0 <= i < |requests| && requests[i].slot == p.slot && requests[i].drive != p.drive ==>
      !Replaced(disks[i], disks[i + 1], requests[i])
    ensures Recoverable(disks[|requests|], p)
    decreases |requests|
  {
    if requests != [] {
      var n := |requests| - 1;
      AlwaysRecoverable(disks[..n + 1], requests[..n], p);
      RecoverableStep(disks[n], disks[n + 1], requests[n], p);
    }
  }

  function SmallPayload(image: bytes): Dir {
    map[BootImage := image, RootImage := [], FirmwareImage := [], FirmwareBasedir := []]
  }

  function SmallRelease(image: bytes): (files: seq<(File, bytes)>) {
    [] + [(BootImage, image)] + [(RootImage, [])] + [(FirmwareImage, [])] + [(FirmwareBasedir, [])]
  }

  lemma ExtractLast(files: seq<(File, bytes)>, f: File, content: bytes)
    ensures Extracted(files + [(f, content)]) == Extracted(files)[f := content]
  {
    assert (files + [(f, content)])[..|files|] == files;
  }

  lemma SmallReleaseIs(image: bytes)
    ensures Extracted(SmallRelease(image)) == SmallPayload(image)
  {
    var one := [] + [(BootImage, image)];
    var two := one + [(RootImage, [])];
    var three := two + [(FirmwareImage, [])];
    ExtractLast([], BootImage, image);
    ExtractLast(one, RootImage, []);
    ExtractLast(two, FirmwareImage, []);
    ExtractLast(three, FirmwareBasedir, []);
  }

  /**
   A slot that is installed on one disk and then, to the end, on another: the first disk's partition
   stays recoverable if and only if it already holds the new boot image.
   */
  method InstallElsewhere(m: Machine, r: Request, stage: Name, blockSize: nat, p: Device) returns (status: Status)
    requires stage.Stage? && stage !in m.dirs && blockSize > 0
    requires Fits(m.Now(), r) && m.fuel >= Steps(m.Now(), r)
    requires p.slot == r.slot && p.drive != r.drive && Recoverable(m.Now(), p)
    modifies m
    ensures status.Done? && Attempted(old(m.Now()), m.Now(), r)
    ensures Recoverable(m.Now(), p) <==> Payload(r)[BootImage] <= old(m.partitions)[p]
  {
    status := m.Install(r, stage, blockSize);
  }

  /** A slot installed on a first disk, and room for it on a second. */
  const FIRST_INSTALLED: Disk :=
    Disk(map[Live(101) := SmallPayload([1])], map[Device(0, 101) := [1], Device(1, 101) := [0]])

  /** Installing another release in it on the second disk loses the first: its image has no directory and no backup. */
  method SecondDiskLosesFirst(m: Machine, blockSize: nat) returns (status: Status)
    requires m.Now() == FIRST_INSTALLED && m.fuel >= 13 && blockSize > 0
    modifies m
    ensures status.Done? && Recoverable(FIRST_INSTALLED, Device(0, 101)) && !Recoverable(m.Now(), Device(0, 101))
  {
    SmallReleaseIs([2]);
    var r := Request(1, 101, true, true, true, SmallRelease([2]));
    status := InstallElsewhere(m, r, Stage(0), blockSize, Device(0, 101));
    assert SmallPayload([2])[BootImage][0] == 2;
  }
}
