/**
 An abstract TPM: platform configuration registers kept as extend histories, policy sessions,
 transient and persistent objects. It reads command bytes with the decoder and answers in bytes.
 Hashing and blob encryption are parameters (the `Chip`).
 */
module TpmModel {
  import opened Bytes
  import opened TpmFrames
  import opened TpmDecoder
  import opened TpmTransport

  type Digest = d: bytes | |d| == 32 witness Zeros(32)

  /** The digests extended into one PCR since reset, oldest first. */
  type History = seq<bytes>

  /** One PolicyPCR step: the selection bitmap and the selected PCRs (the others are left empty). */
  datatype Assertion = Assertion(select: bytes, values: seq<History>)

  /** What hashing and wrapping do; nothing is known about them unless a lemma asks for it. */
  datatype Chip = Chip(policyDigest: seq<Assertion> -> Digest,
                       wrap: (bytes, bytes) -> bytes,
                       unwrap: bytes -> Option<(bytes, bytes)>)

  /** Wrapped blobs can be unwrapped again and fit a TPM2B_PRIVATE. */
  ghost predicate WrapsSoundly(chip: Chip) {
    forall data, publicArea {:trigger chip.wrap(data, publicArea)} ::
      && chip.unwrap(chip.wrap(data, publicArea)) == Some((data, publicArea))
      && (|data| <= MAX_SEALED && |publicArea| <= 46 ==> |chip.wrap(data, publicArea)| <= 1024)
  }

  datatype Session = Session(isPolicy: bool, assertions: seq<Assertion>, pcrCounter: Option<nat>)

  datatype Object = Primary | Sealed(data: bytes, policy: bytes)

  datatype TpmState = TpmState(pcrs: seq<History>, pcrCounter: nat, sessions: map<u32, Session>,
                               transient: map<u32, Object>, persistent: map<u32, Object>)

  type Tpm = t: TpmState | |t.pcrs| == PCR_COUNT
    witness TpmState(seq(PCR_COUNT, _ => []), 0, map[], map[], map[])

  const PCR_COUNT: nat := 24
  const MAX_SEALED: nat := 128
  const SESSION_BASE: u32 := 0x0300_0000
  const SESSION_SLOTS: nat := 64
  const TRANSIENT_BASE: u32 := 0x8000_0000
  const TRANSIENT_SLOTS: nat := 3
  const PERSISTENT_FIRST: u32 := 0x8100_0000
  const PERSISTENT_LAST_OWNER: u32 := 0x817F_FFFF
  const PERSISTENT_LAST: u32 := 0x81FF_FFFF

  const RC_VALUE: u32 := 0x084
  const RC_HIERARCHY: u32 := 0x085
  const RC_TYPE: u32 := 0x08A
  const RC_HANDLE: u32 := 0x08B
  const RC_RANGE: u32 := 0x08D
  const RC_SIZE: u32 := 0x095
  const RC_INTEGRITY: u32 := 0x09F
  const RC_AUTH_TYPE: u32 := 0x124
  const RC_PCR_CHANGED: u32 := 0x128
  const RC_NV_DEFINED: u32 := 0x14C
  const RC_OBJECT_MEMORY: u32 := 0x902
  const RC_SESSION_HANDLES: u32 := 0x905
  const RC_LOCALITY: u32 := 0x907
  const RC_POLICY_FAIL: u32 := 0x99D

  /** The lowest free handle among `slots` handles from `base`. */
  function FreeHandle(used: set<u32>, base: u32, slots: nat): (h: Option<u32>)
    requires base + slots < 0x1_0000_0000
    ensures h.Some? ==> base <= h.value < base + slots && h.value !in used
    ensures h.None? ==> forall i :: base <= i < base + slots ==> i in used
    decreases slots
  {
    if slots == 0 then None
    else if base !in used then Some(base)
    else FreeHandle(used, base + 1, slots - 1)
  }

  const BITS: seq<int> := [1, 2, 4, 8, 16, 32, 64, 128]

  predicate Selected(select: bytes, i: nat)
    requires |select| == 3 && i < PCR_COUNT
  {
    select[i / 8] / BITS[i % 8] % 2 == 1
  }

  function Snapshot(pcrs: seq<History>, select: bytes): (values: seq<History>)
    requires |pcrs| == PCR_COUNT && |select| == 3
    ensures |values| == PCR_COUNT
  {
    seq(PCR_COUNT, i requires 0 <= i < PCR_COUNT => if Selected(select, i) then pcrs[i] else [])
  }

  function Lookup(t: Tpm, handle: u32): Option<Object> {
    if handle in t.persistent then Some(t.persistent[handle])
    else if handle in t.transient then Some(t.transient[handle])
    else None
  }

  /** PCRs 16 and 23 are the debug and application PCRs: extending them does not advance the counter. */
  predicate CountsAsChange(pcr: u32) {
    pcr != 16 && pcr != 23
  }

  ghost predicate Valid(t: Tpm) {
    && (forall h :: h in t.sessions ==> ValidSession(t, t.sessions[h]))
    && (forall h :: h in t.persistent ==> PERSISTENT_FIRST <= h <= PERSISTENT_LAST && ValidObject(t.persistent[h]))
    && (forall h :: h in t.transient ==> ValidObject(t.transient[h]))
  }

  ghost predicate ValidObject(o: Object) {
    o.Sealed? ==> |o.data| <= MAX_SEALED
  }

  /** A session whose PCR counter is current has seen the current value of every PCR 7 it selected. */
  ghost predicate ValidSession(t: Tpm, s: Session) {
    && (s.pcrCounter.None? ==> s.assertions == [])
    && (s.pcrCounter.Some? ==> s.pcrCounter.value <= t.pcrCounter)
    && (forall a :: a in s.assertions ==> |a.select| == 3 && |a.values| == PCR_COUNT)
    && (s.pcrCounter == Some(t.pcrCounter) ==>
          forall a :: a in s.assertions && Selected(a.select, 7) ==> a.values[7] == t.pcrs[7])
  }

  /** The response code of a command: zero exactly when it takes effect. This TPM is never busy. */
  function Check(chip: Chip, t: Tpm, cmd: TpmDecoder.Command): (rc: u32)
    ensures !IsRetry(rc)
  {
    match cmd
    case Startup(_) => 0
    case StartAuthSession(sessionType) =>
      if sessionType != SE_POLICY && sessionType != SE_TRIAL then RC_VALUE
      else if FreeSession(t).None? then RC_SESSION_HANDLES
      else 0
    case PolicyPcr(session, select) => CheckPolicyPcr(t, session, select)
    case PolicyGetDigest(session) => if session !in t.sessions then RC_HANDLE else 0
    case FlushContext(handle) => if handle !in t.sessions && handle !in t.transient then RC_HANDLE else 0
    case PcrExtend(pcr, auth, _) =>
      if auth != RS_PW then RC_AUTH_TYPE
      else if pcr >= PCR_COUNT then RC_VALUE
      else if 17 <= pcr <= 22 then RC_LOCALITY
      else 0
    case Unseal(item, auth, _) => CheckUnseal(chip, t, item, auth)
    case CreatePrimary(hierarchy, auth, template) =>
      if hierarchy != RH_OWNER then RC_HIERARCHY
      else if auth != RS_PW then RC_AUTH_TYPE
      else if template != PrimaryTemplate() then RC_VALUE
      else if FreeTransient(t).None? then RC_OBJECT_MEMORY
      else 0
    case EvictControl(hierarchy, item, auth, persistent) => CheckEvictControl(t, hierarchy, item, auth, persistent)
    case DaLockReset(hierarchy, auth) =>
      if hierarchy != RH_LOCKOUT then RC_HIERARCHY else if auth != RS_PW then RC_AUTH_TYPE else 0
    case Create(parent, auth, data, publicArea, policy) =>
      if Lookup(t, parent) != Some(Primary) then RC_HANDLE
      else if auth != RS_PW then RC_AUTH_TYPE
      else if |data| > MAX_SEALED || |policy| > 32 || |publicArea| > 46 then RC_SIZE
      else if |chip.wrap(data, publicArea)| > 1024 then RC_SIZE
      else 0
    case Load(parent, auth, privateBlob, publicArea) => CheckLoad(chip, t, parent, auth, privateBlob, publicArea)
  }

  function FreeSession(t: Tpm): Option<u32> {
    FreeHandle(t.sessions.Keys, SESSION_BASE, SESSION_SLOTS)
  }

  function FreeTransient(t: Tpm): Option<u32> {
    FreeHandle(t.transient.Keys, TRANSIENT_BASE, TRANSIENT_SLOTS)
  }

  /** All PolicyPCR steps of a session must see the same PCR state. */
  function CheckPolicyPcr(t: Tpm, session: u32, select: bytes): u32 {
    if session !in t.sessions then RC_HANDLE
    else if |select| != 3 then RC_SIZE
    else if Outdated(t, t.sessions[session]) then RC_PCR_CHANGED
    else 0
  }

  predicate Outdated(t: Tpm, s: Session) {
    s.pcrCounter.Some? && s.pcrCounter.value != t.pcrCounter
  }

  /** Only a policy session whose digest is the object's policy, and whose PCR state is current. */
  function CheckUnseal(chip: Chip, t: Tpm, item: u32, auth: u32): u32 {
    var o := Lookup(t, item);
    if o.None? then RC_HANDLE
    else if !o.value.Sealed? then RC_TYPE
    else if auth !in t.sessions then RC_HANDLE
    else if !t.sessions[auth].isPolicy then RC_AUTH_TYPE
    else if Outdated(t, t.sessions[auth]) then RC_PCR_CHANGED
    else if chip.policyDigest(t.sessions[auth].assertions) != o.value.policy then RC_POLICY_FAIL
    else if |o.value.data| > MAX_SEALED then RC_SIZE
    else 0
  }

  /** Makes a transient object persistent, or evicts a persistent one. */
  function CheckEvictControl(t: Tpm, hierarchy: u32, item: u32, auth: u32, persistent: u32): u32 {
    if hierarchy != RH_OWNER then RC_HIERARCHY
    else if auth != RS_PW then RC_AUTH_TYPE
    else if !(PERSISTENT_FIRST <= persistent <= PERSISTENT_LAST_OWNER) then RC_RANGE
    else if item in t.persistent then if item != persistent then RC_HANDLE else 0
    else if item !in t.transient then RC_HANDLE
    else if persistent in t.persistent then RC_NV_DEFINED
    else 0
  }

  function CheckLoad(chip: Chip, t: Tpm, parent: u32, auth: u32, privateBlob: bytes, publicArea: bytes): u32 {
    if Lookup(t, parent) != Some(Primary) then RC_HANDLE
    else if auth != RS_PW then RC_AUTH_TYPE
    else
      var inner := chip.unwrap(privateBlob);
      if inner.None? || inner.value.1 != publicArea then RC_INTEGRITY
      else if DecodeSealedPublic(publicArea).None? then RC_VALUE
      else if |inner.value.0| > MAX_SEALED then RC_SIZE
      else if FreeTransient(t).None? then RC_OBJECT_MEMORY
      else 0
  }

  /** The state after a command that takes effect. */
  function Effect(chip: Chip, t: Tpm, cmd: TpmDecoder.Command): Tpm
    requires Check(chip, t, cmd) == 0
  {
    match cmd
    case Startup(_) => t
    case StartAuthSession(sessionType) =>
      t.(sessions := t.sessions[FreeSession(t).value := Session(sessionType == SE_POLICY, [], None)])
    case PolicyPcr(session, select) => t.(sessions := t.sessions[session := Asserted(t, t.sessions[session], select)])
    case PolicyGetDigest(_) => t
    case FlushContext(handle) =>
      if handle in t.sessions then t.(sessions := t.sessions - {handle}) else t.(transient := t.transient - {handle})
    case PcrExtend(pcr, _, digest) =>
      t.(pcrs := t.pcrs[pcr := t.pcrs[pcr] + [digest]],
         pcrCounter := if CountsAsChange(pcr) then t.pcrCounter + 1 else t.pcrCounter)
    case Unseal(_, auth, continueSession) =>
      if continueSession then t else t.(sessions := t.sessions - {auth})
    case CreatePrimary(_, _, _) => t.(transient := t.transient[FreeTransient(t).value := Primary])
    case EvictControl(_, item, _, persistent) =>
      if item in t.persistent then t.(persistent := t.persistent - {item})
      else t.(persistent := t.persistent[persistent := t.transient[item]])
    case DaLockReset(_, _) => t
    case Create(_, _, _, _, _) => t
    case Load(_, _, privateBlob, publicArea) =>
      var o := Sealed(chip.unwrap(privateBlob).value.0, DecodeSealedPublic(publicArea).value);
      t.(transient := t.transient[FreeTransient(t).value := o])
  }

  function Asserted(t: Tpm, s: Session, select: bytes): Session
    requires |select| == 3
  {
    s.(assertions := s.assertions + [Assertion(select, Snapshot(t.pcrs, select))], pcrCounter := Some(t.pcrCounter))
  }

  function Next(chip: Chip, t: Tpm, cmd: TpmDecoder.Command): Tpm {
    if Check(chip, t, cmd) == 0 then Effect(chip, t, cmd) else t
  }

  /** Whether a reply to the command carries an authorization area. */
  predicate IsAuthorized(cmd: TpmDecoder.Command) {
    !(cmd.Startup? || cmd.StartAuthSession? || cmd.PolicyPcr? || cmd.PolicyGetDigest? || cmd.FlushContext?)
  }

  /** The handle returned by a command that takes effect, if it returns one. */
  function ReplyHandle(chip: Chip, t: Tpm, cmd: TpmDecoder.Command): (h: bytes)
    requires Check(chip, t, cmd) == 0
    ensures |h| <= 4
  {
    if cmd.StartAuthSession? then Be32(FreeSession(t).value)
    else if cmd.CreatePrimary? || cmd.Load? then Be32(FreeTransient(t).value)
    else []
  }

  /** The parameters returned; those the program does not read are abbreviated. */
  function ReplyParams(chip: Chip, t: Tpm, cmd: TpmDecoder.Command): (p: bytes)
    requires Check(chip, t, cmd) == 0
    ensures |p| <= 2000
  {
    match cmd
    case StartAuthSession(_) => Sized(Zeros(32))
    case PolicyGetDigest(session) => Sized(chip.policyDigest(t.sessions[session].assertions))
    case Unseal(item, _, _) => Sized(Lookup(t, item).value.data)
    case Create(_, _, data, publicArea, _) =>
      Sized(chip.wrap(data, publicArea)) + Sized(publicArea) + Sized([]) + Sized([])
    case _ => []
  }

  /** The reply frame: an error is a bare header; an authorized command also has sizes and an auth reply. */
  function ReplyBytes(chip: Chip, t: Tpm, cmd: TpmDecoder.Command): (r: bytes)
    ensures 10 <= |r| <= RSP_BUF_SIZE
  {
    var rc := Check(chip, t, cmd);
    if rc != 0 then Frame(ST_NO_SESSIONS, rc, [])
    else
      var handle, params := ReplyHandle(chip, t, cmd), ReplyParams(chip, t, cmd);
      if IsAuthorized(cmd) then Frame(ST_SESSIONS, 0, handle + (Be32(|params|) + (params + Zeros(5))))
      else Frame(ST_NO_SESSIONS, 0, handle + params)
  }

  /** One command, as bytes in: the state after it. Bytes that are no command change nothing. */
  function Served(chip: Chip, t: Tpm, cmd: bytes): Tpm {
    var c := Decode(cmd);
    if c.None? then t else Next(chip, t, c.value)
  }

  /** One command, as bytes in: the reply bytes. */
  function Reply(chip: Chip, t: Tpm, cmd: bytes): (r: bytes)
    ensures 10 <= |r| <= RSP_BUF_SIZE
  {
    var c := Decode(cmd);
    if c.None? then Frame(ST_NO_SESSIONS, RC_SIZE, []) else ReplyBytes(chip, t, c.value)
  }

  /** What can happen to the TPM besides single commands. */
  datatype Event =
    | Command(cmd: bytes)
    | Reopen                      // a new open of the resource manager: no sessions, no transient objects
    | Reboot(pcrs: seq<History>)  // a reset followed by the firmware's measurements

  function After(chip: Chip, t: Tpm, e: Event): Tpm {
    match e
    case Command(cmd) => Served(chip, t, cmd)
    case Reopen => t.(sessions := map[], transient := map[])
    case Reboot(pcrs) =>
      if |pcrs| != PCR_COUNT then t
      else t.(pcrs := pcrs, pcrCounter := 0, sessions := map[], transient := map[])
  }

  lemma FrameCode(tag: u16, rc: u32, body: bytes)
    requires |body| < 0x1_0000_0000 - 10
    ensures ResponseCode(Frame(tag, rc, body)) == rc
  {
    assert Frame(tag, rc, body)[6..10] == Be32(rc);
    At32(Frame(tag, rc, body), 6);
  }

  /** The response code on the wire is the verdict on the command. */
  lemma ReplyCode(chip: Chip, t: Tpm, cmd: bytes)
    ensures ResponseCode(Reply(chip, t, cmd))
         == if Decode(cmd).Some? then Check(chip, t, Decode(cmd).value) else RC_SIZE
  {
    var c := Decode(cmd);
    if c.None? {
      FrameCode(ST_NO_SESSIONS, RC_SIZE, []);
    } else {
      CommandReplyCode(chip, t, c.value);
    }
  }

  lemma CommandReplyCode(chip: Chip, t: Tpm, cmd: TpmDecoder.Command)
    ensures ResponseCode(ReplyBytes(chip, t, cmd)) == Check(chip, t, cmd)
  {
    var rc := Check(chip, t, cmd);
    if rc != 0 {
      FrameCode(ST_NO_SESSIONS, rc, []);
    } else {
      var handle, params := ReplyHandle(chip, t, cmd), ReplyParams(chip, t, cmd);
      FrameCode(ST_SESSIONS, 0, handle + (Be32(|params|) + (params + Zeros(5))));
      FrameCode(ST_NO_SESSIONS, 0, handle + params);
    }
  }
}
