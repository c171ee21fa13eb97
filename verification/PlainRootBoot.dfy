/**
 A boot with Secure Boot on that ends in a root nothing has verified: the boot entry's slot has a root
 directory outside the encrypted `c`, which `mount_rootfs` binds as it is.
 */
module PlainRootBoot {
  import opened Bytes
  import opened Decimals
  import opened ImageSelection
  import opened SignatureDatabase
  import opened SignatureSearch
  import opened SharedTrust
  import opened BootTrace
  import opened Unlock
  import opened BootRun
  import LoadOption
  import Tpm = TpmTransport

  /** The one root of the run was mounted by the last event of `upTo`, and is not trusted. */
  predicate MountedUntrusted(t: Trace, upTo: Trace) {
    upTo <= t && RootMounts(upTo) == 1 == RootMounts(t) && !TrustedRoot(upTo)
  }

  ghost predicate RootUntrusted(t: Trace) {
    exists upTo :: MountedUntrusted(t, upTo)
  }

  /** At every moment the slot of the boot entry has a plain root directory and no encrypted one. */
  ghost predicate OffersPlainRoot(w: World, s: Settings) {
    forall t :: PlainRootChosen(w.fs(t), s.rootName, SlotOf(EntryOf(w)))
  }

  /** With Secure Boot on, every machine that serves the boot and offers a plain root runs it. */
  method RunPlainRoot(h: Host, s: Settings) returns (r: Outcome)
    requires h.trace == [] && Verified(h.world) && ServesBoot(h.world, s) && OffersPlainRoot(h.world, s)
    modifies h
    ensures Run(h.world, h.trace) && r.Running? && RootUntrusted(h.trace)
  {
    r := CmdBoot(h, s);
    PlainRootUntrusted(h.world, s, SlotOf(EntryOf(h.world)), h.trace);
  }

  lemma PlainRootUntrusted(w: World, s: Settings, part: Option<nat>, t: Trace)
    requires part == SlotOf(EntryOf(w)) && OffersPlainRoot(w, s) && RootOf(w, s, part, true, t)
    ensures RootUntrusted(t)
  {
    var before, after :| RootBetween(w, s, part, true, t, before, after);
    assert PlainRootChosen(w.fs(before), s.rootName, part);
    assert MountedUntrusted(t, after);
  }

  // Such a machine.

  /** Its database: one certificate. */
  function OneCertificate(): (lists: seq<SignatureList>)
    ensures AllWellFormed(lists)
  {
    var signatures := [Signature(Zeros(16), [1])];
    assert signatures[1..] == [];
    [SignatureList(X509_GUID, [], 17, signatures)]
  }

  /** Whatever is signed was signed with its key. */
  function OneKey(): Crypto {
    Crypto((der: bytes) => Some(Cert("k", true, [1])), (data: bytes) => data, (key: bytes) => true,
           (key: bytes, digest: bytes, sig: bytes) => true)
  }

  function HardDriveNode(slot: u32): LoadOption.Node {
    LoadOption.Node(4, 1, Le32(slot))
  }

  /** A boot entry with one Hard Drive node, for this slot. */
  function SlotEntry(slot: u32): (e: LoadOption.Entry)
    ensures LoadOption.WellFormed(e) && e.path == [HardDriveNode(slot)]
  {
    var path := [HardDriveNode(slot)];
    assert LoadOption.PathBytes(path) == LoadOption.NodeBytes(path[0]) + LoadOption.PathBytes(path[1..]);
    assert path[1..] == [];
    LoadOption.Entry(0, [], path, [])
  }

  function SharedObjects(): Path {
    STATE + ["img", "composefs", "objects"]
  }

  /** Its files: the slot's plain root, the slot's firmware and the objects that needs. */
  function PlainFiles(rootName: string, slot: nat): FileSystem {
    map[PlainRoot(rootName, slot) := Directory, FirmwareImage(slot) := RegularFile, SharedObjects() := Directory]
  }

  function PlainMachine(rootName: string, slot: u32): World {
    World(_ => PlainFiles(rootName, slot), _ => false, _ => false, _ => false, _ => false, _ => Some(1),
          _ => Some(LoadOption.EntryBytes(SlotEntry(slot))), (_, _) => Tpm.Err(Tpm.IoError), _ => None, (_, _) => None,
          _ => Some("/sbin/init"), (_, _) => true, OneKey(), _ => Some(DatabaseBytes(OneCertificate())),
          (_, _) => Some([]), (_, _) => Contents([]))
  }

  lemma EntryNamesSlot(slot: u32)
    ensures var payload := Some(LoadOption.EntryBytes(SlotEntry(slot)));
      SlotOf(payload) == Some(slot) && !EntryPanics(payload)
  {
    var path := SlotEntry(slot).path;
    assert LoadOption.FirstDrive(path, 0) == Some(path[0]);
    assert path[0].data[0..4] == Le32(slot);
    LoadOption.RoundTrip(SlotEntry(slot));
  }

  lemma DatabaseAccepts(check: ImageCheck)
    requires check.crypto == OneKey() && forall name :: check.files(name) == Contents([])
    ensures InitrdAccepts(check, DatabaseBytes(OneCertificate()))
  {
    var lists := OneCertificate();
    WalksVisitCertificates(lists);
    var signatures := lists[0].signatures;
    assert lists[1..] == [] && signatures[1..] == [];
    assert Certificates(lists) == [[1]];
    ParsedCons(check.crypto, [1], []);
    assert [[1]] + [] == [[1]];
    assert Parsed(check.crypto, [[1]]) == [Cert("k", true, [1])];
    assert Opine(check, Parsed(check.crypto, [[1]])[0]) == Vouch;
  }

  lemma PathsApart(rootName: string, slot: nat)
    ensures PlainRoot(rootName, slot) == ["z", "roots", Decimal(slot), rootName]
    ensures FirmwareImage(slot) == ["z", "img", Decimal(slot), "firmware-light.composefs"]
    ensures SharedObjects() == ["z", "img", "composefs", "objects"]
    ensures PlainRoot(rootName, slot) != FirmwareImage(slot) && PlainRoot(rootName, slot) != SharedObjects()
    ensures FirmwareImage(slot) != SharedObjects()
  {
    assert "roots"[0] != "img"[0];
    assert IsDigit(Decimal(slot)[0]) && !IsDigit("composefs"[0]);
    assert FirmwareImage(slot)[2][0] != SharedObjects()[2][0];
    assert PlainRoot(rootName, slot)[1][0] != FirmwareImage(slot)[1][0];
  }

  lemma HasItsFirmware(rootName: string, slot: u32, t: Trace)
    ensures HasFirmware(PlainMachine(rootName, slot), t, slot, true)
  {
    var w := PlainMachine(rootName, slot);
    PathsApart(rootName, slot);
    DatabaseAccepts(CheckOf(w, t, FirmwareImage(slot), []));
  }

  lemma HasPlainRoot(rootName: string, slot: nat)
    ensures PlainRootChosen(PlainFiles(rootName, slot), rootName, Some(slot))
    ensures FirstExisting(PlainFiles(rootName, slot), RootDirectories(rootName, Some(slot))).Chosen?
  {
    PathsApart(rootName, slot);
    assert |SlotRoot(rootName, slot)| == 5;
    RootInsideC(PlainFiles(rootName, slot), rootName, Some(slot));
  }

  /** Nothing of it is encrypted. */
  lemma NothingLocked(rootName: string, slot: u32)
    ensures StateOpens(PlainMachine(rootName, slot), true)
  {
    var w := PlainMachine(rootName, slot);
    assert forall t :: !w.hasStateC(t);
  }

  lemma HasNoModules(rootName: string, slot: nat, kernel: string)
    ensures FindHostImage(PlainFiles(rootName, slot), STATE, ModulesImage(kernel), Some(slot), true).NoImage?
  {
    var fs, name := PlainFiles(rootName, slot), ModulesImage(kernel);
    var candidates := SlotCandidates(STATE, name);
    PathsApart(rootName, slot);
    ScanMeans(fs, candidates, 0, slot, true);
    FirstExistingMeans(fs, candidates[1..]);
    assert forall i :: 0 <= i < 3 ==> candidates[1..][i] == candidates[i + 1];
    assert name[0] == 'm';
    forall i | 0 <= i < 4
      ensures SlotPath(candidates[i], slot) !in fs && candidates[i] !in fs
    {
      NoModulesAt(rootName, slot, name, i);
    }
  }

  lemma NoModulesAt(rootName: string, slot: nat, name: string, i: nat)
    requires i < 4 && name != [] && name[0] == 'm'
    ensures var fs, image := PlainFiles(rootName, slot), SlotCandidates(STATE, name)[i];
      SlotPath(image, slot) !in fs && image !in fs
  {
    PathsApart(rootName, slot);
    var image := SlotCandidates(STATE, name)[i];
    var p := SlotPath(image, slot);
    assert FileName(p) == name && FileName(image) == name;
    assert "firmware-light.composefs"[0] != 'm' && "objects"[0] != 'm';
    assert |image| <= 3 && (i == 2 ==> |p| == 3);
    assert i != 2 ==> p[1][0] == 'i' && "roots"[0] != 'i';
  }

  /** With Secure Boot on, it serves the boot of any slot, and offers a plain root. */
  lemma PlainMachineServes(rootName: string, slot: u32, s: Settings)
    requires s.rootName == rootName && s.kernel.Some?
    ensures var w := PlainMachine(rootName, slot); Verified(w) && ServesBoot(w, s) && OffersPlainRoot(w, s)
  {
    var w := PlainMachine(rootName, slot);
    EntryNamesSlot(slot);
    NothingLocked(rootName, slot);
    HasPlainRoot(rootName, slot);
    HasNoModules(rootName, slot, s.kernel.value);
    forall t
      ensures HasFirmware(w, t, slot, true)
    {
      HasItsFirmware(rootName, slot, t);
    }
  }

  /** So for every slot, kernel and root name there is a boot with Secure Boot on that ends in an unverified root. */
  method SecureBootRunsPlainRoot(slot: u32, image: Path, rootName: string, kernel: string) returns (h: Host, r: Outcome)
    ensures h.world == PlainMachine(rootName, slot) && Verified(h.world)
    ensures Run(h.world, h.trace) && r.Running? && RootUntrusted(h.trace)
  {
    var s := Settings(image, rootName, Some(kernel));
    PlainMachineServes(rootName, slot, s);
    h := new Host(PlainMachine(rootName, slot));
    r := RunPlainRoot(h, s);
  }
}
