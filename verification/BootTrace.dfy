/**
 What a boot does to the machine, event by event, and the laws every boot keeps. The machine's
 answers are functions of everything that happened before, so any behaviour of the machine is covered.
 */
module BootTrace {
  import opened Bytes
  import opened ImageSelection
  import opened SharedTrust
  import opened SignatureDatabase
  import opened SignatureSearch
  import Tpm = TpmTransport

  const STATE: Path := ["z"]
  const ROOT: Path := ["sysroot"]
  const FIRMWARE_METADATA: Path := ["sysroot", "mnt", ".firmware-composefs"]

  /** Steps that matter here only by failing. */
  datatype Chore = MountTmpfs | BindImageMounts | BindState | BindEncryptedPaths | MountSystem

  datatype Event =
    | SecureBootRead(value: Option<byte>)
    | BootEntryRead(payload: Option<bytes>)
    | StateMounted(ok: bool)
    | StateC(present: bool)
    | Sentinel(seen: bool)
    | Unsealed(secret: Tpm.Result<bytes>)
    | Prompted(answer: Option<bytes>)
    | Decrypted(key: Option<bytes>)
    | KeyAdded(installed: bytes, ok: bool)
    | Extended(ok: bool)
    | RootBound(root: Path, ok: bool)
    | DbVerified(image: Path, ok: bool)
    | LoopMounted(image: Path, target: Path, ok: bool)
    | Overlaid(objects: Path, ok: bool)
    | DevFirmwareBound(tree: Path, ok: bool)
    | OtherStep(chore: Chore, ok: bool)
    | SwitchedRoot(init: string, ok: bool)
    | BootFailed
    | DevInitrdRun
    | Exited
    | Panicked

  type Trace = seq<Event>

  /**
   The machine: what it answers, and whether a step succeeds, after what has happened so far. What
   `unseal` answers is the result of `TpmClient.UnsealKey`, a reply too short to slice included. The
   state directory, its unlocked `home`, the encrypted key file and the TPM device are named apart
   from the rest of the file system.
   */
  datatype World = World(fs: Trace -> FileSystem,
                         hasStateC: Trace -> bool,
                         hasHome: Trace -> bool,
                         hasKeyFile: Trace -> bool,
                         hasTpm: Trace -> bool,
                         secureBoot: Trace -> Option<byte>,
                         bootEntry: Trace -> Option<bytes>,
                         unseal: (Trace, bool) -> Tpm.Result<bytes>,
                         prompt: Trace -> Option<bytes>,
                         decrypt: (Trace, bytes) -> Option<bytes>,
                         init: Trace -> Option<string>,
                         succeeds: (Trace, Event) -> bool,
                         crypto: Crypto,
                         db: Trace -> Option<bytes>,
                         digest: (Trace, Path) -> Option<bytes>,
                         read: (Trace, Path) -> FileRead)

  predicate IsDir(fs: FileSystem, p: Path) {
    p in fs && fs[p] == Directory
  }

  predicate IsFile(fs: FileSystem, p: Path) {
    p in fs && fs[p] == RegularFile
  }

  /** The verified mode decided by the first successful reading of SecureBoot. */
  function ModeOf(t: Trace): Option<bool> {
    if t == [] then None
    else
      var earlier, e := ModeOf(t[..|t| - 1]), t[|t| - 1];
      if earlier.Some? then earlier
      else if e.SecureBootRead? && e.value.Some? then Some(e.value.value != 0)
      else None
  }

  function Prompts(t: Trace): nat {
    if t == [] then 0 else Prompts(t[..|t| - 1]) + (if t[|t| - 1].Prompted? then 1 else 0)
  }

  /** The password just typed. */
  function Typed(t: Trace): Option<bytes> {
    if t != [] && t[|t| - 1].Prompted? then t[|t| - 1].answer else None
  }

  /** The secret just recovered: unsealed, typed when there is no encrypted key file, or decrypted from it. */
  function Recovered(w: World, t: Trace): Option<bytes> {
    if t == [] then None
    else
      match t[|t| - 1]
      case Unsealed(answer) => if answer.Ok? then Some(answer.value) else None
      case Decrypted(key) => key
      case Prompted(answer) => if w.hasKeyFile(t) then None else answer
      case _ => None
  }

  /** A secret repeated to fill the 64 bytes of an fscrypt key. */
  predicate Fills(raw: bytes, key: bytes) {
    raw != [] && |key| == 64 && forall i :: 0 <= i < 64 ==> key[i] == raw[i % |raw|]
  }

  /** The initrd's question to the signature database about an image. */
  function CheckOf(w: World, t: Trace, image: Path, digest: bytes): ImageCheck
    requires image != []
  {
    ImageCheck(w.crypto, name => w.read(t, Parent(image) + [name]), digest, FileName(image))
  }

  /** The database vouches for an image. */
  predicate Vouched(w: World, t: Trace, image: Path) {
    && image != [] && w.digest(t, image).Some? && w.db(t).Some?
    && InitrdAccepts(CheckOf(w, t, image, w.digest(t, image).value), w.db(t).value)
  }

  /** What is read from the signature file beside an image that belongs to a key of the database. */
  function BesideImage(w: World, t: Trace, image: Path, keyId: string): FileRead
    requires image != []
  {
    w.read(t, Parent(image) + [FileName(image) + "." + keyId + ".db.sig"])
  }

  /** A signature file beside the image verifies the digest of the image with this key. */
  predicate KeySigned(w: World, t: Trace, image: Path, cert: Cert)
    requires image != [] && w.digest(t, image).Some?
  {
    var sig := BesideImage(w, t, image, cert.keyId);
    && cert.key != [] && sig.Contents? && w.crypto.isRsaKey(cert.key)
    && w.crypto.rsaVerify(cert.key, w.crypto.sha256(w.digest(t, image).value), sig.data)
  }

  /** The `i`th certificate signed, and no signature file of one before it is unreadable. */
  predicate SignedFirst(w: World, t: Trace, image: Path, certs: seq<Cert>, i: nat)
    requires image != [] && w.digest(t, image).Some?
  {
    && i < |certs| && KeySigned(w, t, image, certs[i])
    && forall j :: 0 <= j < i ==> certs[j].key == [] || !BesideImage(w, t, image, certs[j].keyId).Unreadable?
  }

  ghost predicate SomeSigned(w: World, t: Trace, image: Path, certs: seq<Cert>)
    requires image != [] && w.digest(t, image).Some?
  {
    exists i: nat :: SignedFirst(w, t, image, certs, i)
  }

  /**
   The database vouches for an image if and only if it can be walked to its end and one of its certificates
   signed the digest in a file beside the image, with no unreadable signature file before that.
   */
  lemma VouchedMeans(w: World, t: Trace, image: Path)
    requires image != [] && FileName(image) != ".." && w.digest(t, image).Some? && w.db(t).Some?
    ensures var walk := EslWalk(w.db(t).value, 0);
      Vouched(w, t, image) <==> walk.done && SomeSigned(w, t, image, Parsed(w.crypto, walk.slices))
  {
    var q, walk := CheckOf(w, t, image, w.digest(t, image).value), EslWalk(w.db(t).value, 0);
    assert q.crypto == w.crypto;
    VouchMeans(w, t, image, Parsed(w.crypto, walk.slices));
  }

  lemma VouchMeans(w: World, t: Trace, image: Path, certs: seq<Cert>)
    requires image != [] && FileName(image) != ".." && w.digest(t, image).Some?
    ensures Decides(CheckOf(w, t, image, w.digest(t, image).value), certs, Vouch) <==> SomeSigned(w, t, image, certs)
  {
    var q := CheckOf(w, t, image, w.digest(t, image).value);
    forall i | 0 <= i < |certs|
      ensures Opine(q, certs[i]) == Vouch <==> KeySigned(w, t, image, certs[i])
      ensures Opine(q, certs[i]) == Fail <==> certs[i].key != [] && BesideImage(w, t, image, certs[i].keyId).Unreadable?
    {
      CertMeans(w, t, image, certs[i]);
    }
    if i: nat :| SignedFirst(w, t, image, certs, i) {
      FirstVouch(q, certs, i);
    }
    if Decides(q, certs, Vouch) {
      var i: nat :| i < |certs| && Opine(q, certs[i]) == Vouch && forall j :: 0 <= j < i ==> Opine(q, certs[j]) == Pass;
      assert SignedFirst(w, t, image, certs, i);
    }
  }

  lemma CertMeans(w: World, t: Trace, image: Path, cert: Cert)
    requires image != [] && FileName(image) != ".." && w.digest(t, image).Some?
    ensures var q := CheckOf(w, t, image, w.digest(t, image).value);
      && (Opine(q, cert) == Vouch <==> KeySigned(w, t, image, cert))
      && (Opine(q, cert) == Fail <==> cert.key != [] && BesideImage(w, t, image, cert.keyId).Unreadable?)
  {
    OpinionMeans(CheckOf(w, t, image, w.digest(t, image).value), cert);
  }

  /** The event is the latest of the trace. */
  predicate Latest(t: Trace, e: Event)
    ensures Latest(t, e) ==> e in t
  {
    t != [] && t[|t| - 1] == e
  }

  predicate Unlocked(t: Trace) {
    Sentinel(true) in t
  }

  /**
   The state directory `c` is absent, or was seen locked and then unlocked; when not verified, seeing it
   unlocked is enough.
   */
  predicate StateReady(t: Trace, verified: bool) {
    StateC(false) in t || (StateC(true) in t && Unlocked(t) && (verified ==> Sentinel(false) in t))
  }

  predicate RootReady(t: Trace) {
    exists e :: e in t && (e.RootBound? || (e.LoopMounted? && e.target == ROOT)) && e.ok
  }

  /** Firmware is mounted from the slot's image or, in development, bound from the tree. */
  predicate FirmwareReady(t: Trace, verified: bool) {
    exists e :: e in t && (e.Overlaid? || (!verified && e.DevFirmwareBound?)) && e.ok
  }

  /** Root was switched. */
  predicate Switched(t: Trace) {
    t != [] && (Switched(t[..|t| - 1]) || (t[|t| - 1].SwitchedRoot? && t[|t| - 1].ok))
  }

  /** How often a root was mounted. */
  function RootMounts(t: Trace): nat {
    if t == [] then 0 else RootMounts(t[..|t| - 1]) + (if MountsRoot(t[|t| - 1]) then 1 else 0)
  }

  predicate MountsRoot(e: Event) {
    (e.RootBound? || (e.LoopMounted? && e.target == ROOT)) && e.ok
  }

  /** The program slices a reply of the TPM beyond its end, which ends the process. */
  predicate SlicePanics(answer: Tpm.Result<bytes>) {
    answer == Tpm.Err(Tpm.OutOfBounds)
  }

  /** A reply of the TPM could not be sliced. */
  predicate UnsealPanicked(t: Trace) {
    Unsealed(Tpm.Err(Tpm.OutOfBounds)) in t
  }

  /** What has to happen next. A secret that was recovered has to be tried, and PCR 7 extended if the TPM had it. */
  datatype Phase =
    | Quiet
    | MustDecrypt
    | MustAdd(tpm: bool)
    | MustLook(tpm: bool)
    | MustExtend
    | MustPanic
    | Ended

  /** An empty secret is not tried. */
  function AfterSecret(secret: bytes, tpm: bool): Phase {
    if secret == [] then Quiet else MustAdd(tpm)
  }

  function AfterUnseal(answer: Tpm.Result<bytes>): Phase {
    if SlicePanics(answer) then MustPanic else if answer.Ok? then AfterSecret(answer.value, true) else Quiet
  }

  function AfterPrompt(answer: Option<bytes>, keyFile: bool): Phase {
    if answer.None? || answer.value == [] then Quiet else if keyFile then MustDecrypt else MustAdd(false)
  }

  function NextPhase(phase: Phase, e: Event, keyFile: bool): Phase {
    match e
    case Unsealed(answer) => AfterUnseal(answer)
    case Prompted(answer) => AfterPrompt(answer, keyFile)
    case Decrypted(key) => if key.Some? then AfterSecret(key.value, false) else Quiet
    case KeyAdded(_, ok) => if ok then MustLook(phase.MustAdd? && phase.tpm) else Quiet
    case Sentinel(seen) => if seen && phase.MustLook? && phase.tpm then MustExtend else Quiet
    case Panicked => Ended
    case _ => Quiet
  }

  function PhaseOf(w: World, t: Trace): Phase {
    if t == [] then Quiet else NextPhase(PhaseOf(w, t[..|t| - 1]), t[|t| - 1], w.hasKeyFile(t))
  }

  predicate MayFollow(phase: Phase, e: Event) {
    match phase
    case Quiet => true
    case MustDecrypt => e.Decrypted?
    case MustAdd(_) => e.KeyAdded?
    case MustLook(_) => e.Sentinel?
    case MustExtend => e.Extended?
    case MustPanic => e.Panicked?
    case Ended => false
  }

  /** How many of the nine steps from mounting the state to switching root have been taken. */
  function StageOf(t: Trace): nat {
    if t == [] then 0 else NextStage(StageOf(t[..|t| - 1]), t[|t| - 1])
  }

  function NextStage(stage: nat, e: Event): nat {
    if Completes(e) == Some(stage) then stage + 1 else stage
  }

  /** The step that an event completes, if it does: state, root, and what is mounted upon the root, in this order. */
  function Completes(e: Event): Option<nat> {
    match e
    case StateMounted(true) => Some(0)
    case RootBound(_, true) => Some(1)
    case LoopMounted(_, target, true) => if target == ROOT then Some(1) else None
    case OtherStep(BindState, true) => Some(2)
    case OtherStep(MountTmpfs, true) => Some(3)
    case Overlaid(_, true) => Some(4)
    case DevFirmwareBound(_, true) => Some(4)
    case OtherStep(BindImageMounts, true) => Some(5)
    case OtherStep(BindEncryptedPaths, true) => Some(6)
    case OtherStep(MountSystem, true) => Some(7)
    case SwitchedRoot(_, true) => Some(8)
    case _ => None
  }

  /** The event happens in its turn: the boot entry first, unlocking between state and root, firmware before modules. */
  predicate InTurn(stage: nat, e: Event) {
    match e
    case BootEntryRead(_) => stage == 0
    case StateMounted(_) => stage == 0
    case StateC(_) => stage == 1
    case Sentinel(_) => stage == 1
    case Unsealed(_) => stage == 1
    case Prompted(_) => stage == 1
    case RootBound(_, _) => stage == 1
    case LoopMounted(_, target, _) => if target == ROOT then stage == 1 else stage == 4 || stage == 5
    case OtherStep(BindState, _) => stage == 2
    case OtherStep(MountTmpfs, _) => stage == 3
    case Overlaid(_, _) => stage == 4
    case DevFirmwareBound(_, _) => stage == 4
    case OtherStep(BindImageMounts, _) => stage == 5
    case OtherStep(BindEncryptedPaths, _) => stage == 6
    case OtherStep(MountSystem, _) => stage == 7
    case SwitchedRoot(_, _) => stage == 8
    case _ => true
  }

  /** The event reports what the machine makes of the step. */
  predicate Honest(w: World, past: Trace, e: Event) {
    match e
    case StateMounted(ok) => ok == w.succeeds(past, StateMounted(true))
    case KeyAdded(key, ok) => ok == w.succeeds(past, KeyAdded(key, true))
    case Extended(ok) => ok == w.succeeds(past, Extended(true))
    case RootBound(root, ok) => ok == w.succeeds(past, RootBound(root, true))
    case LoopMounted(image, target, ok) => ok == w.succeeds(past, LoopMounted(image, target, true))
    case Overlaid(objects, ok) => ok == w.succeeds(past, Overlaid(objects, true))
    case DevFirmwareBound(tree, ok) => ok == w.succeeds(past, DevFirmwareBound(tree, true))
    case OtherStep(chore, ok) => ok == w.succeeds(past, OtherStep(chore, true))
    case SwitchedRoot(init, ok) => ok == w.succeeds(past, SwitchedRoot(init, true))
    case _ => true
  }

  /** What must have happened before an event may. */
  predicate Permitted(w: World, past: Trace, e: Event) {
    match e
    case SecureBootRead(value) => past == [] && value == w.secureBoot(past)
    case BootEntryRead(payload) => payload == w.bootEntry(past)
    case Unsealed(answer) => ModeOf(past).Some? && answer == w.unseal(past, ModeOf(past).value)
    case Decrypted(key) => Typed(past).Some? && w.hasKeyFile(past) && key == w.decrypt(past, Typed(past).value)
    case Sentinel(seen) => seen == w.hasHome(past)
    case StateC(present) => present == w.hasStateC(past)
    case Prompted(answer) => !Unlocked(past) && Prompts(past) < 3 && answer == w.prompt(past)
    case KeyAdded(key, _) => Recovered(w, past).Some? && Fills(Recovered(w, past).value, key)
    case Extended(_) => PhaseOf(w, past).MustExtend?
    case DbVerified(image, ok) => ok == Vouched(w, past, image)
    case LoopMounted(image, _, _) =>
      ModeOf(past).Some? && (ModeOf(past).value ==> DbVerified(image, true) in past)
    case DevFirmwareBound(_, _) => ModeOf(past) == Some(false)
    case SwitchedRoot(init, _) =>
      && w.init(past) == Some(init) && ModeOf(past).Some?
      && StateMounted(true) in past && StateReady(past, ModeOf(past).value)
      && RootReady(past) && FirmwareReady(past, ModeOf(past).value)
    case BootFailed => !Switched(past)
    case DevInitrdRun => ModeOf(past) == Some(false) && Latest(past, BootFailed)
    case _ => true
  }

  predicate Lawful(w: World, past: Trace, e: Event) {
    MayFollow(PhaseOf(w, past), e) && InTurn(StageOf(past), e) && Honest(w, past, e) && Permitted(w, past, e)
  }

  /** A run: every event was lawful when it happened. */
  predicate Run(w: World, t: Trace) {
    t != [] ==> Run(w, t[..|t| - 1]) && Lawful(w, t[..|t| - 1], t[|t| - 1])
  }

  lemma {:induction false} RunAt(w: World, t: Trace, i: nat)
    requires Run(w, t) && i < |t|
    ensures Run(w, t[..i]) && Lawful(w, t[..i], t[i])
  {
    if i < |t| - 1 {
      RunAt(w, t[..|t| - 1], i);
      assert t[..|t| - 1][..i] == t[..i];
    }
  }

  lemma PermittedAt(w: World, t: Trace, i: nat)
    requires Run(w, t) && i < |t|
    ensures Run(w, t[..i]) && Permitted(w, t[..i], t[i])
  {
    RunAt(w, t, i);
  }

  lemma FollowsAt(w: World, t: Trace, i: nat)
    requires Run(w, t) && i < |t|
    ensures MayFollow(PhaseOf(w, t[..i]), t[i])
  {
    RunAt(w, t, i);
  }

  lemma InTurnAt(w: World, t: Trace, i: nat)
    requires Run(w, t) && i < |t|
    ensures InTurn(StageOf(t[..i]), t[i]) && Honest(w, t[..i], t[i])
  {
    RunAt(w, t, i);
  }

  /** The run may go on with any step of the program. */
  predicate Going(w: World, t: Trace) {
    Run(w, t) && PhaseOf(w, t).Quiet?
  }

  lemma Extend(w: World, t: Trace, e: Event)
    ensures Run(w, t) && Lawful(w, t, e) ==> Run(w, t + [e])
    ensures ModeOf(t).Some? ==> ModeOf(t + [e]) == ModeOf(t)
    ensures ModeOf(t).None? && e.SecureBootRead? && e.value.Some? ==> ModeOf(t + [e]) == Some(e.value.value != 0)
    ensures ModeOf(t).None? && !e.SecureBootRead? ==> ModeOf(t + [e]).None?
    ensures Prompts(t + [e]) == Prompts(t) + if e.Prompted? then 1 else 0
    ensures Switched(t + [e]) <==> Switched(t) || (e.SwitchedRoot? && e.ok)
    ensures RootMounts(t + [e]) == RootMounts(t) + if MountsRoot(e) then 1 else 0
    ensures PhaseOf(w, t + [e]) == NextPhase(PhaseOf(w, t), e, w.hasKeyFile(t + [e]))
    ensures StageOf(t + [e]) == NextStage(StageOf(t), e)
  {
    assert (t + [e])[..|t|] == t;
  }

  /** How a part of the boot ends; the process may die of it. */
  datatype Attempt = Succeeded | Failed | Died

  /** The machine a boot runs on. */
  class Host {
    const world: World
    var trace: Trace

    constructor (world: World)
      ensures this.world == world && trace == []
    {
      this.world := world;
      trace := [];
    }

    method Record(e: Event)
      requires Run(world, trace) && Lawful(world, trace, e)
      modifies this
      ensures trace == old(trace) + [e] && Run(world, trace)
      ensures ModeOf(old(trace)).Some? ==> ModeOf(trace) == ModeOf(old(trace))
      ensures ModeOf(old(trace)).None? && e.SecureBootRead? && e.value.Some? ==>
        ModeOf(trace) == Some(e.value.value != 0)
      ensures ModeOf(old(trace)).None? && !e.SecureBootRead? ==> ModeOf(trace).None?
      ensures Prompts(trace) == old(Prompts(trace)) + if e.Prompted? then 1 else 0
      ensures Switched(trace) <==> Switched(old(trace)) || (e.SwitchedRoot? && e.ok)
      ensures RootMounts(trace) == old(RootMounts(trace)) + if MountsRoot(e) then 1 else 0
      ensures PhaseOf(world, trace) == NextPhase(old(PhaseOf(world, trace)), e, world.hasKeyFile(trace))
      ensures StageOf(trace) == NextStage(old(StageOf(trace)), e)
    {
      Extend(world, trace, e);
      trace := trace + [e];
    }
  }

  // What holds of every run, told by what the machine answers.

  /** The machine says that Secure Boot is on. */
  predicate Verified(w: World) {
    w.secureBoot([]).Some? && w.secureBoot([]).value != 0
  }

  /** The mode of a run is what the machine said at its start. */
  lemma {:induction false} ModeDecided(w: World, t: Trace)
    requires Run(w, t) && ModeOf(t).Some?
    ensures w.secureBoot([]).Some? && ModeOf(t).value == Verified(w)
  {
    var past := t[..|t| - 1];
    if ModeOf(past).Some? {
      ModeDecided(w, past);
    }
  }

  /** The image mounted at `i` was vouched for by the database when it was checked before. */
  ghost predicate VouchedBefore(w: World, t: Trace, i: nat)
    requires i < |t| && t[i].LoopMounted?
  {
    exists j :: 0 <= j < i && t[j] == DbVerified(t[i].image, true) && Vouched(w, t[..j], t[i].image)
  }

  lemma MountedImpliesVouched(w: World, t: Trace, i: nat)
    requires Run(w, t) && i < |t| && t[i].LoopMounted? && Verified(w)
    ensures VouchedBefore(w, t, i)
  {
    PermittedAt(w, t, i);
    ModeDecided(w, t[..i]);
    var j :| 0 <= j < i && t[..i][j] == DbVerified(t[i].image, true);
    PermittedAt(w, t, j);
    assert t[j] == DbVerified(t[i].image, true);
  }

  lemma DevelopmentOnly(w: World, t: Trace, i: nat)
    requires Run(w, t) && i < |t| && (t[i].DevInitrdRun? || t[i].DevFirmwareBound?)
    ensures w.secureBoot([]) == Some(0)
  {
    PermittedAt(w, t, i);
    ModeDecided(w, t[..i]);
  }

  lemma {:induction false} AtMostThreePrompts(w: World, t: Trace)
    requires Run(w, t)
    ensures Prompts(t) <= 3
  {
    if t != [] {
      AtMostThreePrompts(w, t[..|t| - 1]);
    }
  }

  /**
   The secret `raw` is what the TPM unsealed for the mode of the boot, what was typed, or what that
   decrypted, just before `i`.
   */
  predicate FromMachine(w: World, t: Trace, i: nat, raw: bytes)
    requires i <= |t|
  {
    || (i >= 1 && t[i - 1].Unsealed? && w.unseal(t[..i - 1], Verified(w)) == Tpm.Ok(raw))
    || (i >= 1 && t[i - 1].Prompted? && Some(raw) == w.prompt(t[..i - 1]) && !w.hasKeyFile(t[..i]))
    || (i >= 2 && t[i - 2].Prompted? && t[i - 1].Decrypted? && w.hasKeyFile(t[..i - 1])
        && w.prompt(t[..i - 2]).Some? && Some(raw) == w.decrypt(t[..i - 1], w.prompt(t[..i - 2]).value))
  }

  lemma KeyIsRecovered(w: World, t: Trace, i: nat)
    requires Run(w, t) && i < |t| && t[i].KeyAdded?
    ensures exists raw :: FromMachine(w, t, i, raw) && Fills(raw, t[i].installed)
  {
    PermittedAt(w, t, i);
    var raw := Recovered(w, t[..i]).value;
    PermittedAt(w, t, i - 1);
    var past := t[..i - 1];
    assert t[..i][i - 1] == t[i - 1];
    if t[i - 1].Unsealed? {
      ModeDecided(w, past);
    } else if t[i - 1].Decrypted? {
      assert past[i - 2] == t[i - 2];
      PermittedAt(w, t, i - 2);
    }
    assert FromMachine(w, t, i, raw);
  }

  /** Just before `i` a key that the TPM unsealed was installed and unlocked the state. */
  predicate UnsealedBefore(w: World, t: Trace, i: nat)
    requires i <= |t|
  {
    && i >= 3 && t[i - 1] == Sentinel(true) && t[i - 2].KeyAdded? && t[i - 2].ok && t[i - 3].Unsealed?
    && w.hasHome(t[..i - 1])
    && w.unseal(t[..i - 3], Verified(w)).Ok? && Fills(w.unseal(t[..i - 3], Verified(w)).value, t[i - 2].installed)
  }

  /** What the phase of a run says about its latest events. */
  lemma PhaseMeans(w: World, t: Trace)
    requires Run(w, t)
    ensures PhaseOf(w, t).MustExtend? <==> t != [] && UnlockedByTpm(t, |t| - 1)
    ensures PhaseOf(w, t).MustPanic? <==> Latest(t, Unsealed(Tpm.Err(Tpm.OutOfBounds)))
    ensures PhaseOf(w, t).Ended? <==> Latest(t, Panicked)
  {
    if t != [] && t[|t| - 1] == Sentinel(true) {
      var past := t[..|t| - 1];
      InstalledMeans(w, past);
      if past != [] {
        assert past[|past| - 1] == t[|t| - 2];
        if |past| > 1 {
          assert past[|past| - 2] == t[|t| - 3];
        }
      }
    }
  }

  /** A key that the TPM unsealed was just installed. */
  predicate InstalledByTpm(t: Trace) {
    |t| >= 2 && t[|t| - 1].KeyAdded? && t[|t| - 1].ok && t[|t| - 2].Unsealed? && !SlicePanics(t[|t| - 2].secret)
  }

  lemma InstalledMeans(w: World, t: Trace)
    requires Run(w, t)
    ensures PhaseOf(w, t) == MustLook(true) <==> InstalledByTpm(t)
  {
    if t != [] && t[|t| - 1].KeyAdded? {
      var past := t[..|t| - 1];
      assert Permitted(w, past, t[|t| - 1]);
      assert past[|past| - 1] == t[|t| - 2];
    }
  }

  lemma FreshlyUnsealedMeans(w: World, t: Trace, i: nat)
    requires Run(w, t) && i <= |t| && PhaseOf(w, t[..i]).MustExtend? && Run(w, t[..i])
    ensures UnsealedBefore(w, t, i)
  {
    PhaseMeans(w, t[..i]);
    assert t[..i][i - 1] == t[i - 1] && t[..i][i - 2] == t[i - 2] && t[..i][i - 3] == t[i - 3];
    PermittedAt(w, t, i - 1);
    UnsealedKey(w, t, i - 2);
  }

  /** A key installed right after an answer of the TPM is that answer, in the mode of the boot. */
  lemma UnsealedKey(w: World, t: Trace, i: nat)
    requires Run(w, t) && 1 <= i < |t| && t[i].KeyAdded? && t[i - 1].Unsealed?
    ensures w.unseal(t[..i - 1], Verified(w)).Ok? && Fills(w.unseal(t[..i - 1], Verified(w)).value, t[i].installed)
  {
    PermittedAt(w, t, i);
    assert t[..i][i - 1] == t[i - 1];
    PermittedAt(w, t, i - 1);
    ModeDecided(w, t[..i - 1]);
  }

  lemma ExtendedAfterUnlock(w: World, t: Trace, i: nat)
    requires Run(w, t) && i < |t| && t[i].Extended?
    ensures UnsealedBefore(w, t, i)
  {
    PermittedAt(w, t, i);
    FreshlyUnsealedMeans(w, t, i);
  }

  /** The state was unlocked by the TPM at `i`: it answered, the key was installed and the sentinel appeared. */
  predicate UnlockedByTpm(t: Trace, i: nat)
    requires i < |t|
  {
    && i >= 2 && t[i] == Sentinel(true) && t[i - 1].KeyAdded? && t[i - 1].ok
    && t[i - 2].Unsealed? && !SlicePanics(t[i - 2].secret)
  }

  /** The run is over, or nothing in particular has to happen next. */
  predicate Settled(w: World, t: Trace) {
    PhaseOf(w, t).Quiet? || PhaseOf(w, t).Ended?
  }

  /** Whatever had to happen next did. */
  lemma ObligationMet(w: World, t: Trace, i: nat)
    requires Run(w, t) && Settled(w, t) && i < |t|
    ensures var phase := PhaseOf(w, t[..i + 1]);
      !phase.Quiet? && !phase.Ended? ==> i + 1 < |t| && MayFollow(phase, t[i + 1])
  {
    assert i + 1 == |t| ==> t[..i + 1] == t;
    if i + 1 < |t| {
      FollowsAt(w, t, i + 1);
    }
  }

  lemma ExtendsAtOnce(w: World, t: Trace, i: nat)
    requires Run(w, t) && Settled(w, t) && i < |t| && UnlockedByTpm(t, i)
    ensures i + 1 < |t| && t[i + 1].Extended?
  {
    var past := t[..i + 1];
    RunUpTo(w, t, i + 1);
    assert past[i] == t[i] && past[i - 1] == t[i - 1] && past[i - 2] == t[i - 2];
    PhaseMeans(w, past);
    ObligationMet(w, t, i);
  }

  lemma RunUpTo(w: World, t: Trace, i: nat)
    requires Run(w, t) && i <= |t|
    ensures Run(w, t[..i])
  {
    if i < |t| {
      RunAt(w, t, i);
    } else {
      assert t[..i] == t;
    }
  }

  /** The key installed at `i` repeats this secret. */
  predicate AddedAt(t: Trace, i: nat, secret: bytes) {
    i < |t| && t[i].KeyAdded? && Fills(secret, t[i].installed)
  }

  /**
   What was recovered at `i` is tried at once: a secret that the TPM unsealed, a password, or if there is
   an encrypted key file what the password decrypts, is installed unless it is empty, and once a key is
   installed the sentinel is looked for.
   */
  predicate TriedAt(w: World, t: Trace, i: nat)
    requires i < |t|
  {
    match t[i]
    case Unsealed(answer) => answer.Ok? && answer.value != [] ==> AddedAt(t, i + 1, answer.value)
    case Prompted(answer) =>
      answer.Some? && answer.value != [] ==>
        if w.hasKeyFile(t[..i + 1]) then i + 1 < |t| && t[i + 1] == Decrypted(w.decrypt(t[..i + 1], answer.value))
        else AddedAt(t, i + 1, answer.value)
    case Decrypted(key) => key.Some? && key.value != [] ==> AddedAt(t, i + 1, key.value)
    case KeyAdded(_, ok) => ok ==> i + 1 < |t| && t[i + 1] == Sentinel(w.hasHome(t[..i + 1]))
    case _ => true
  }

  lemma SecretsAreTried(w: World, t: Trace, i: nat)
    requires Run(w, t) && Settled(w, t) && i < |t|
    ensures TriedAt(w, t, i)
  {
    var past := t[..i + 1];
    assert past[..i] == t[..i] && past[i] == t[i];
    ObligationMet(w, t, i);
    if i + 1 < |t| {
      PermittedAt(w, t, i + 1);
    }
  }

  /** Of a boot that lives, no answer of the TPM was beyond slicing. */
  lemma NoPanicSoFar(w: World, t: Trace, i: nat)
    requires Run(w, t) && PhaseOf(w, t).Quiet? && i < |t|
    ensures t[i] != Panicked && t[i] != Unsealed(Tpm.Err(Tpm.OutOfBounds))
    decreases |t| - i
  {
    var past := t[..i + 1];
    assert past[i] == t[i];
    if i + 1 == |t| {
      assert past == t;
    } else {
      FollowsAt(w, t, i + 1);
      NoPanicSoFar(w, t, i + 1);
    }
  }

  /** The boot asked the TPM and could not slice what it answered. */
  predicate AskedInVain(w: World, t: Trace) {
    exists i :: 0 <= i < |t| && t[i].Unsealed? && SlicePanics(w.unseal(t[..i], Verified(w)))
  }

  lemma PanickedIffAsked(w: World, t: Trace)
    requires Run(w, t)
    ensures UnsealPanicked(t) <==> AskedInVain(w, t)
  {
    forall i | 0 <= i < |t| && t[i].Unsealed?
      ensures t[i].secret == w.unseal(t[..i], Verified(w))
    {
      PermittedAt(w, t, i);
      ModeDecided(w, t[..i]);
    }
  }

  /** State, root and firmware are ready before `i`, all other steps are done, and the machine has this init program. */
  predicate ReadyAt(w: World, t: Trace, i: nat)
    requires i < |t| && t[i].SwitchedRoot?
  {
    && w.init(t[..i]) == Some(t[i].init) && StateMounted(true) in t[..i] && StateReady(t[..i], Verified(w))
    && RootReady(t[..i]) && FirmwareReady(t[..i], Verified(w))
    && forall chore: Chore :: OtherStep(chore, true) in t[..i]
  }

  /** What the stage reached says about what has been done. */
  lemma {:induction false} StageMeans(t: Trace)
    ensures StageOf(t) >= 3 ==> OtherStep(BindState, true) in t
    ensures StageOf(t) >= 4 ==> OtherStep(MountTmpfs, true) in t
    ensures StageOf(t) >= 6 ==> OtherStep(BindImageMounts, true) in t
    ensures StageOf(t) >= 7 ==> OtherStep(BindEncryptedPaths, true) in t
    ensures StageOf(t) >= 8 ==> OtherStep(MountSystem, true) in t
  {
    if t != [] {
      var past, e := t[..|t| - 1], t[|t| - 1];
      StageMeans(past);
      assert e in t && forall x :: x in past ==> x in t;
    }
  }

  lemma SwitchedWhenReady(w: World, t: Trace, i: nat)
    requires Run(w, t) && i < |t| && t[i].SwitchedRoot?
    ensures ReadyAt(w, t, i)
  {
    PermittedAt(w, t, i);
    ModeDecided(w, t[..i]);
    InTurnAt(w, t, i);
    ChoresDone(t[..i]);
  }

  lemma ChoresDone(t: Trace)
    requires StageOf(t) >= 8
    ensures forall chore: Chore :: OtherStep(chore, true) in t
  {
    StageMeans(t);
    forall chore: Chore
      ensures OtherStep(chore, true) in t
    {
      match chore
      case MountTmpfs =>
      case BindImageMounts =>
      case BindState =>
      case BindEncryptedPaths =>
      case MountSystem =>
    }
  }
}
