/**
 Sealing and unsealing against the abstract TPM, through bytes in both directions: exactly when
 each succeeds, the round trip, the mode prefix, and the lock-out as the program sees it.
 */
module Sealing {
  import opened Bytes
  import opened TpmFrames
  import opened TpmTransport
  import opened TpmDecoder
  import opened TpmModel
  import opened TpmLockout
  import opened TpmClient

  /** The device node: a TPM and the reply it has ready to be read. */
  datatype Port = Port(tpm: Tpm, pending: bytes)

  function TpmIo(chip: Chip): Io<Port> {
    Io((p: Port, cmd: bytes) => (Port(Served(chip, p.tpm, cmd), Reply(chip, p.tpm, cmd)), true),
       (p: Port) => (Port(p.tpm, []), Some(p.pending)))
  }

  /** What a client sees of one command. */
  function Seen(chip: Chip, t: Tpm, cmd: bytes): (Port, Result<bytes>) {
    var reply := Reply(chip, t, cmd);
    (Port(Served(chip, t, cmd), []),
     if ResponseCode(reply) == 0 then Ok(reply) else Err(TpmError(ResponseCode(reply))))
  }

  /** A TPM that is never busy answers in one turn. */
  lemma CallTpm(chip: Chip, p: Port, cmd: bytes)
    ensures Call(TpmIo(chip), p, cmd) == Seen(chip, p.tpm, cmd)
  {
    ReplyCode(chip, p.tpm, cmd);
    var reply := Reply(chip, p.tpm, cmd);
    assert Try(TpmIo(chip), p, cmd) == (Port(Served(chip, p.tpm, cmd), []), Ok(reply));
  }

  /** A command read as `c` is carried out as `c`, and its reply comes back unless it is refused. */
  lemma CallCommand(chip: Chip, t: Tpm, cmd: bytes, c: TpmDecoder.Command)
    requires Decode(cmd) == Some(c)
    ensures Call(TpmIo(chip), Port(t, []), cmd).0 == Port(Next(chip, t, c), [])
    ensures Call(TpmIo(chip), Port(t, []), cmd).1
         == if Check(chip, t, c) == 0 then Ok(ReplyBytes(chip, t, c)) else Err(TpmError(Check(chip, t, c)))
  {
    CallTpm(chip, Port(t, []), cmd);
    ReplyCode(chip, t, cmd);
  }

  // Slicing the replies at the offsets the program uses.

  lemma SliceHandle(tag: u16, handle: u32, rest: bytes)
    requires |rest| < 4000
    ensures HandleIn(Frame(tag, 0, Be32(handle) + rest)) == Ok(handle)
  {
    var f := Frame(tag, 0, Be32(handle) + rest);
    assert f[10..14] == f[10..][..4] == Be32(handle);
    At32(f, 10);
  }

  lemma SliceSized(tag: u16, before: bytes, data: bytes, rest: bytes)
    requires |before| + |data| + |rest| < 4000
    ensures SizedAt(Frame(tag, 0, before + (Sized(data) + rest)), 10 + |before|) == Ok(data)
    ensures BlobAt(Frame(tag, 0, before + (Sized(data) + rest)), 10 + |before|) == Ok(Sized(data))
  {
    var off := 10 + |before|;
    var f := Frame(tag, 0, before + (Sized(data) + rest));
    assert f[off..] == f[10..][|before|..] == Sized(data) + rest;
    assert f[off..off + 2] == f[off..][..2] == Be16(|data|);
    At16(f, off);
    assert f[off..off + 2 + |data|] == f[off..][..2 + |data|] == Sized(data);
    assert f[off + 2..off + 2 + |data|] == Sized(data)[2..] == data;
  }

  // The steps of the protocol, on a TPM that was just opened.

  predicate FreshlyOpened(t: Tpm) {
    t.sessions == map[] && t.transient == map[]
  }

  /** The TPM with one policy session, bound to the current PCR 7. */
  function WithPolicySession(t: Tpm): Tpm {
    t.(sessions := map[SESSION_BASE := Session(true, [Pcr7Assertion(t.pcrs[7])], Some(t.pcrCounter))])
  }

  lemma SessionStarts(chip: Chip, t: Tpm)
    requires FreshlyOpened(t)
    ensures StartSession(TpmIo(chip), Port(t, []))
         == (Port(t.(sessions := map[SESSION_BASE := Session(true, [], None)]), []), Ok(SESSION_BASE))
  {
    ReadsStartAuthSession(SE_POLICY);
    CallCommand(chip, t, StartAuthSessionFrame(SE_POLICY), StartAuthSession(SE_POLICY));
    assert FreeSession(t) == Some(SESSION_BASE);
    SliceHandle(ST_NO_SESSIONS, SESSION_BASE, Sized(Zeros(32)));
  }

  lemma PolicyCalled(chip: Chip, t: Tpm, session: u32)
    ensures var c := PolicyPcr(session, SELECT_PCR7);
      var (p, r) := Call(TpmIo(chip), Port(t, []), PolicyPcrFrame(session));
      p == Port(Next(chip, t, c), []) && (r.Ok? <==> Check(chip, t, c) == 0)
  {
    ReadsPolicyPcr(session);
    CallCommand(chip, t, PolicyPcrFrame(session), PolicyPcr(session, SELECT_PCR7));
  }

  lemma PolicyApplies(chip: Chip, t: Tpm)
    ensures var t1 := t.(sessions := map[SESSION_BASE := Session(true, [], None)]);
      var c := PolicyPcr(SESSION_BASE, SELECT_PCR7);
      Check(chip, t1, c) == 0 && Next(chip, t1, c) == WithPolicySession(t)
  {
    var t1 := t.(sessions := map[SESSION_BASE := Session(true, [], None)]);
    SnapshotPcr7(t1);
    assert Asserted(t1, t1.sessions[SESSION_BASE], SELECT_PCR7)
        == Session(true, [Pcr7Assertion(t.pcrs[7])], Some(t.pcrCounter));
  }

  lemma DigestCalled(chip: Chip, t: Tpm, session: u32)
    requires session in t.sessions
    ensures GetDigest(TpmIo(chip), Port(t, []), session)
         == (Port(t, []), Ok(chip.policyDigest(t.sessions[session].assertions)))
  {
    ReadsPolicyGetDigest(session);
    var c := PolicyGetDigest(session);
    CallCommand(chip, t, PolicyGetDigestFrame(session), c);
    DigestReply(chip, t, session);
  }

  lemma DigestReply(chip: Chip, t: Tpm, session: u32)
    requires session in t.sessions
    ensures SizedAt(ReplyBytes(chip, t, PolicyGetDigest(session)), 10)
         == Ok(chip.policyDigest(t.sessions[session].assertions))
  {
    DigestSliced(chip.policyDigest(t.sessions[session].assertions));
  }

  lemma DigestSliced(digest: Digest)
    ensures SizedAt(Frame(ST_NO_SESSIONS, 0, [] + Sized(digest)), 10) == Ok(digest)
  {
    assert [] + (Sized(digest) + []) == [] + Sized(digest);
    SliceSized(ST_NO_SESSIONS, [], digest, []);
  }

  /** The policy session ends up with the digest of the current PCR 7. */
  lemma PolicySessionOpens(chip: Chip, t: Tpm)
    requires FreshlyOpened(t)
    ensures PolicySession(TpmIo(chip), Port(t, []))
         == (Port(WithPolicySession(t), []), Ok((SESSION_BASE, SealPolicy(chip, t.pcrs[7]))))
  {
    SessionStarts(chip, t);
    PolicyCalled(chip, t.(sessions := map[SESSION_BASE := Session(true, [], None)]), SESSION_BASE);
    PolicyApplies(chip, t);
    DigestCalled(chip, WithPolicySession(t), SESSION_BASE);
  }

  // Unsealing.

  /** What an Unseal returns to the program. */
  function Unsealed(chip: Chip, t: Tpm, item: u32, session: u32): Result<bytes> {
    var rc := Check(chip, t, TpmDecoder.Unseal(item, session, false));
    if rc == 0 then Ok(Lookup(t, item).value.data) else Err(TpmError(rc))
  }

  lemma UnsealCalled(chip: Chip, t: Tpm, item: u32, session: u32)
    ensures UnsealItem(TpmIo(chip), Port(t, []), item, session)
         == (Port(Next(chip, t, TpmDecoder.Unseal(item, session, false)), []), Unsealed(chip, t, item, session))
  {
    var c := TpmDecoder.Unseal(item, session, false);
    ReadsUnseal(item, session);
    CallCommand(chip, t, UnsealFrame(item, session), c);
    if Check(chip, t, c) == 0 {
      UnsealReply(chip, t, item, session);
    }
  }

  lemma UnsealReply(chip: Chip, t: Tpm, item: u32, session: u32)
    requires Check(chip, t, TpmDecoder.Unseal(item, session, false)) == 0
    ensures SizedAt(ReplyBytes(chip, t, TpmDecoder.Unseal(item, session, false)), 14) == Ok(Lookup(t, item).value.data)
  {
    SecretSliced(Lookup(t, item).value.data);
  }

  lemma SecretSliced(data: bytes)
    requires |data| <= MAX_SEALED
    ensures SizedAt(Frame(ST_SESSIONS, 0, [] + (Be32(|Sized(data)|) + (Sized(data) + Zeros(5)))), 14) == Ok(data)
  {
    var size := Be32(|Sized(data)|);
    assert [] + (size + (Sized(data) + Zeros(5))) == size + (Sized(data) + Zeros(5));
    SliceSized(ST_SESSIONS, size, data, Zeros(5));
  }

  /** A sealed object under `handle` whose policy is met by the PCR 7 of now. */
  predicate Unsealable(chip: Chip, t: Tpm, handle: u32) {
    && handle in t.persistent && t.persistent[handle].Sealed? && |t.persistent[handle].data| <= MAX_SEALED
    && t.persistent[handle].policy == SealPolicy(chip, t.pcrs[7])
  }

  lemma PolicyDecides(chip: Chip, t: Tpm, handle: u32)
    requires FreshlyOpened(t)
    ensures var c := TpmDecoder.Unseal(handle, SESSION_BASE, false);
      var t2 := WithPolicySession(t);
      && Unsealed(chip, t2, handle, SESSION_BASE).Ok? == Unsealable(chip, t, handle)
      && (Unsealable(chip, t, handle) ==> Unsealed(chip, t2, handle, SESSION_BASE) == Ok(t.persistent[handle].data))
      && Next(chip, t2, c).persistent == t.persistent && Next(chip, t2, c).pcrs == t.pcrs
  {}

  predicate Returns(chip: Chip, t: Tpm, handle: u32, prefix: bytes) {
    Unsealable(chip, t, handle) && prefix <= t.persistent[handle].data
  }

  /**
   Unsealing a key, exactly: it succeeds if and only if the persistent object at the handle is
   sealed to the PCR 7 of now and its data begins with the mode prefix, and it then returns the rest
   of that data. It changes no persistent object and no PCR.
   */
  lemma UnsealKeyExact(chip: Chip, t: Tpm, handle: u32, prefix: bytes)
    requires FreshlyOpened(t)
    ensures var (p, r) := UnsealKey(TpmIo(chip), Port(t, []), handle, prefix);
      && (r.Ok? <==> Returns(chip, t, handle, prefix))
      && (r.Ok? ==> t.persistent[handle].data == prefix + r.value)
      && p.tpm.persistent == t.persistent && p.tpm.pcrs == t.pcrs
  {
    PolicySessionOpens(chip, t);
    UnsealCalled(chip, WithPolicySession(t), handle, SESSION_BASE);
    PolicyDecides(chip, t, handle);
    if Unsealable(chip, t, handle) {
      StripExact(t.persistent[handle].data, prefix);
    }
  }

  lemma StripExact(data: bytes, prefix: bytes)
    ensures StripPrefix(data, prefix).Ok? <==> prefix <= data
    ensures prefix <= data ==> data == prefix + StripPrefix(data, prefix).value
  {}

  // Sealing.

  lemma FlushCalled(chip: Chip, t: Tpm)
    requires FreshlyOpened(t)
    ensures var (p, r) := Call(TpmIo(chip), Port(WithPolicySession(t), []), FlushContextFrame(SESSION_BASE));
      p == Port(t, []) && r.Ok?
  {
    ReadsFlushContext(SESSION_BASE);
    CallCommand(chip, WithPolicySession(t), FlushContextFrame(SESSION_BASE), FlushContext(SESSION_BASE));
    assert WithPolicySession(t).sessions - {SESSION_BASE} == map[];
  }

  predicate HasPrimary(t: Tpm) {
    Lookup(t, DEFAULT_PRIMARY_HANDLE) == Some(Primary)
  }

  lemma CreateCalled(chip: Chip, t: Tpm, data: bytes, policy: Digest)
    requires WrapsSoundly(chip)
    ensures var (p, r) := CreateSealed(TpmIo(chip), Port(t, []), DEFAULT_PRIMARY_HANDLE, data, policy);
      && p == Port(t, [])
      && (r.Ok? <==> HasPrimary(t) && |data| <= MAX_SEALED)
      && (r.Ok? ==> r.value == (Sized(chip.wrap(data, SealedPublic(policy))), Sized(SealedPublic(policy))))
  {
    if |data| <= 65531 {
      var publicArea := SealedPublic(policy);
      var c := TpmDecoder.Create(DEFAULT_PRIMARY_HANDLE, RS_PW, data, publicArea, policy);
      ReadsCreate(DEFAULT_PRIMARY_HANDLE, data, policy);
      CallCommand(chip, t, CreateFrame(DEFAULT_PRIMARY_HANDLE, data, policy), c);
      CreateAllowed(chip, t, data, policy);
      if Check(chip, t, c) == 0 {
        CreateReply(chip, t, data, publicArea, policy);
      }
    }
  }

  lemma CreateAllowed(chip: Chip, t: Tpm, data: bytes, policy: Digest)
    requires WrapsSoundly(chip)
    ensures var c := TpmDecoder.Create(DEFAULT_PRIMARY_HANDLE, RS_PW, data, SealedPublic(policy), policy);
      && (Check(chip, t, c) == 0 <==> HasPrimary(t) && |data| <= MAX_SEALED)
      && Next(chip, t, c) == t
  {}

  lemma CreateReply(chip: Chip, t: Tpm, data: bytes, publicArea: bytes, policy: bytes)
    requires Check(chip, t, TpmDecoder.Create(DEFAULT_PRIMARY_HANDLE, RS_PW, data, publicArea, policy)) == 0
    ensures BlobsIn(ReplyBytes(chip, t, TpmDecoder.Create(DEFAULT_PRIMARY_HANDLE, RS_PW, data, publicArea, policy)))
         == Ok((Sized(chip.wrap(data, publicArea)), Sized(publicArea)))
  {
    BlobsSliced(chip.wrap(data, publicArea), publicArea);
  }

  lemma BlobsSliced(blob: bytes, publicArea: bytes)
    requires |blob| <= 1024 && |publicArea| <= 46
    ensures var params := Sized(blob) + Sized(publicArea) + Sized([]) + Sized([]);
      BlobsIn(Frame(ST_SESSIONS, 0, [] + (Be32(|params|) + (params + Zeros(5)))))
        == Ok((Sized(blob), Sized(publicArea)))
  {
    var params := Sized(blob) + Sized(publicArea) + Sized([]) + Sized([]);
    var size, tail := Be32(|params|), Sized([]) + Sized([]) + Zeros(5);
    var body := [] + (size + (params + Zeros(5)));
    assert body == size + (Sized(blob) + (Sized(publicArea) + tail));
    SliceSized(ST_SESSIONS, size, blob, Sized(publicArea) + tail);
    assert body == (size + Sized(blob)) + (Sized(publicArea) + tail);
    SliceSized(ST_SESSIONS, size + Sized(blob), publicArea, tail);
  }

  /** The TPM with the sealed object loaded. */
  function WithLoaded(t: Tpm, data: bytes, policy: Digest): Tpm {
    t.(transient := map[TRANSIENT_BASE := Sealed(data, policy)])
  }

  lemma LoadCalled(chip: Chip, t: Tpm, data: bytes, policy: Digest)
    requires WrapsSoundly(chip) && FreshlyOpened(t) && HasPrimary(t) && |data| <= MAX_SEALED
    ensures var publicArea := SealedPublic(policy);
      LoadSealed(TpmIo(chip), Port(t, []), DEFAULT_PRIMARY_HANDLE, Sized(chip.wrap(data, publicArea)),
                 Sized(publicArea))
        == (Port(WithLoaded(t, data, policy), []), Ok(TRANSIENT_BASE))
  {
    var publicArea := SealedPublic(policy);
    var blob := chip.wrap(data, publicArea);
    var c := TpmDecoder.Load(DEFAULT_PRIMARY_HANDLE, RS_PW, blob, publicArea);
    ReadsLoad(DEFAULT_PRIMARY_HANDLE, blob, publicArea);
    CallCommand(chip, t, LoadFrame(DEFAULT_PRIMARY_HANDLE, Sized(blob), Sized(publicArea)), c);
    LoadTakesEffect(chip, t, data, policy);
    SliceHandle(ST_SESSIONS, TRANSIENT_BASE, Be32(0) + ([] + Zeros(5)));
  }

  lemma LoadTakesEffect(chip: Chip, t: Tpm, data: bytes, policy: Digest)
    requires WrapsSoundly(chip) && FreshlyOpened(t) && HasPrimary(t) && |data| <= MAX_SEALED
    ensures var publicArea := SealedPublic(policy);
      var c := TpmDecoder.Load(DEFAULT_PRIMARY_HANDLE, RS_PW, chip.wrap(data, publicArea), publicArea);
      && Check(chip, t, c) == 0 && Next(chip, t, c) == WithLoaded(t, data, policy)
      && ReplyBytes(chip, t, c) == Frame(ST_SESSIONS, 0, Be32(TRANSIENT_BASE) + (Be32(0) + ([] + Zeros(5))))
  {
    ReadsSealedPublic(policy);
    assert FreeTransient(t) == Some(TRANSIENT_BASE);
  }

  predicate InOwnerRange(handle: u32) {
    PERSISTENT_FIRST <= handle <= PERSISTENT_LAST_OWNER
  }

  lemma EvictCalled(chip: Chip, t: Tpm, item: u32, persistent: u32)
    ensures var c := TpmDecoder.EvictControl(RH_OWNER, item, RS_PW, persistent);
      var call := Call(TpmIo(chip), Port(t, []), EvictControlFrame(item, persistent));
      call.0 == Port(Next(chip, t, c), []) && (call.1.Ok? <==> Check(chip, t, c) == 0)
  {
    ReadsEvictControl(item, persistent);
    CallCommand(chip, t, EvictControlFrame(item, persistent),
                TpmDecoder.EvictControl(RH_OWNER, item, RS_PW, persistent));
  }

  lemma ResetCalled(chip: Chip, t: Tpm)
    ensures Call(TpmIo(chip), Port(t, []), DaLockResetFrame()).0 == Port(t, [])
  {
    ReadsDaLockReset();
    CallCommand(chip, t, DaLockResetFrame(), DaLockReset(RH_LOCKOUT, RS_PW));
  }

  /** The TPM without the persistent object at a handle, if the owner may evict it. */
  function Without(t: Tpm, persistent: u32): Tpm {
    if InOwnerRange(persistent) then t.(persistent := t.persistent - {persistent}) else t
  }

  lemma EvictsAtMostOne(chip: Chip, t: Tpm, persistent: u32)
    requires persistent !in t.transient
    ensures TryEvict(TpmIo(chip), Port(t, []), persistent) == Port(Without(t, persistent), [])
  {
    var c := TpmDecoder.EvictControl(RH_OWNER, persistent, RS_PW, persistent);
    EvictCalled(chip, t, persistent, persistent);
    EvictEffect(chip, t, persistent);
    ResetCalled(chip, Next(chip, t, c));
  }

  lemma EvictEffect(chip: Chip, t: Tpm, persistent: u32)
    requires persistent !in t.transient
    ensures Next(chip, t, TpmDecoder.EvictControl(RH_OWNER, persistent, RS_PW, persistent)) == Without(t, persistent)
  {
    if persistent !in t.persistent {
      assert t.persistent - {persistent} == t.persistent;
    }
  }

  lemma PersistEffect(chip: Chip, t: Tpm, persistent: u32)
    requires TRANSIENT_BASE in t.transient && TRANSIENT_BASE !in t.persistent && persistent !in t.transient
    ensures var c := TpmDecoder.EvictControl(RH_OWNER, TRANSIENT_BASE, RS_PW, persistent);
      var t' := Without(t, persistent);
      && (Check(chip, t', c) == 0 <==> InOwnerRange(persistent))
      && Next(chip, t', c).pcrs == t.pcrs && Next(chip, t', c).sessions == t.sessions
      && Next(chip, t', c).persistent
           == if InOwnerRange(persistent) then t.persistent[persistent := t.transient[TRANSIENT_BASE]] else t.persistent
  {
    var m := t.persistent - {persistent};
    assert m[persistent := t.transient[TRANSIENT_BASE]] == t.persistent[persistent := t.transient[TRANSIENT_BASE]];
  }

  /** Evict what is at the handle, then make the loaded object persistent there. */
  lemma Persists(chip: Chip, t: Tpm, persistent: u32)
    requires TRANSIENT_BASE in t.transient && TRANSIENT_BASE !in t.persistent && persistent !in t.transient
    ensures var p := TryEvict(TpmIo(chip), Port(t, []), persistent);
      var call := Call(TpmIo(chip), p, EvictControlFrame(TRANSIENT_BASE, persistent));
      && (call.1.Ok? <==> InOwnerRange(persistent))
      && call.0.tpm.pcrs == t.pcrs && call.0.tpm.sessions == t.sessions
      && call.0.tpm.persistent
           == if InOwnerRange(persistent) then t.persistent[persistent := t.transient[TRANSIENT_BASE]] else t.persistent
  {
    EvictsAtMostOne(chip, t, persistent);
    EvictCalled(chip, Without(t, persistent), TRANSIENT_BASE, persistent);
    PersistEffect(chip, t, persistent);
  }

  /** When sealing succeeds: a primary key is persistent, the secret fits, the handle is the owner's. */
  predicate CanSeal(t: Tpm, secret: bytes, mode: SealMode, persistent: u32) {
    HasPrimary(t) && |mode.Prefix() + secret| <= MAX_SEALED && InOwnerRange(persistent)
  }

  function SealedObject(chip: Chip, t: Tpm, secret: bytes, mode: SealMode): Object {
    Sealed(mode.Prefix() + secret, SealPolicy(chip, t.pcrs[7]))
  }

  lemma CreatesAndLoads(chip: Chip, t: Tpm, data: bytes, policy: Digest)
    requires WrapsSoundly(chip) && FreshlyOpened(t)
    ensures var (p, r) := CreateAndLoad(TpmIo(chip), Port(t, []), data, policy);
      if HasPrimary(t) && |data| <= MAX_SEALED
      then p == Port(WithLoaded(t, data, policy), []) && r == Ok(TRANSIENT_BASE)
      else p == Port(t, []) && r.Err?
  {
    CreateCalled(chip, t, data, policy);
    if HasPrimary(t) && |data| <= MAX_SEALED {
      LoadCalled(chip, t, data, policy);
    }
  }

  lemma StoresExactly(chip: Chip, t: Tpm, data: bytes, policy: Digest, persistent: u32)
    requires WrapsSoundly(chip) && FreshlyOpened(t) && TRANSIENT_BASE !in t.persistent && persistent != TRANSIENT_BASE
    ensures var (p, r) := Store(TpmIo(chip), Port(t, []), data, policy, persistent);
      && (r.Ok? <==> HasPrimary(t) && |data| <= MAX_SEALED && InOwnerRange(persistent))
      && p.tpm.persistent == (if r.Ok? then t.persistent[persistent := Sealed(data, policy)] else t.persistent)
      && p.tpm.pcrs == t.pcrs && p.tpm.sessions == map[]
  {
    CreatesAndLoads(chip, t, data, policy);
    if HasPrimary(t) && |data| <= MAX_SEALED {
      Persists(chip, WithLoaded(t, data, policy), persistent);
    }
  }

  /**
   Sealing, exactly: it succeeds if and only if the three conditions of CanSeal hold, and then the
   only persistent change is the object at the handle: the mode prefix and the secret, sealed to the
   PCR 7 of now. When it fails, every persistent object is as before. No session is left open.
   */
  lemma SealExact(chip: Chip, t: Tpm, secret: bytes, mode: SealMode, persistent: u32)
    requires WrapsSoundly(chip) && Valid(t) && FreshlyOpened(t)
    requires PERSISTENT_FIRST <= persistent <= PERSISTENT_LAST
    ensures var (p, r) := Seal(TpmIo(chip), Port(t, []), secret, mode, persistent);
      && (r.Ok? <==> CanSeal(t, secret, mode, persistent))
      && p.tpm.persistent
           == (if r.Ok? then t.persistent[persistent := SealedObject(chip, t, secret, mode)] else t.persistent)
      && p.tpm.pcrs == t.pcrs && p.tpm.sessions == map[]
  {
    PolicySessionOpens(chip, t);
    FlushCalled(chip, t);
    StoresExactly(chip, t, mode.Prefix() + secret, SealPolicy(chip, t.pcrs[7]), persistent);
  }

  // Round trips over whole histories.

  /** The event leaves PCR 7 with the given history and does not evict the object at the handle. */
  predicate LeavesAlone(e: Event, h: History, handle: u32) {
    match e
    case Reopen => true
    case Reboot(pcrs) => |pcrs| == PCR_COUNT ==> pcrs[7] == h
    case Command(cmd) =>
      var c := Decode(cmd);
      c.Some? ==> !(c.value.PcrExtend? && c.value.pcr == 7) && !(c.value.EvictControl? && c.value.item == handle)
  }

  lemma LeftAlone(chip: Chip, t: Tpm, e: Event, handle: u32)
    requires LeavesAlone(e, t.pcrs[7], handle) && handle in t.persistent
    ensures var t' := After(chip, t, e);
      t'.pcrs[7] == t.pcrs[7] && handle in t'.persistent && t'.persistent[handle] == t.persistent[handle]
  {
    if e.Command? && Decode(e.cmd).Some? {
      CommandLeftAlone(chip, t, Decode(e.cmd).value, handle);
    }
  }

  lemma CommandLeftAlone(chip: Chip, t: Tpm, c: TpmDecoder.Command, handle: u32)
    requires !(c.PcrExtend? && c.pcr == 7) && !(c.EvictControl? && c.item == handle) && handle in t.persistent
    ensures var t' := Next(chip, t, c);
      t'.pcrs[7] == t.pcrs[7] && handle in t'.persistent && t'.persistent[handle] == t.persistent[handle]
  {}

  lemma {:induction false} RunLeftAlone(chip: Chip, t: Tpm, events: seq<Event>, handle: u32)
    requires handle in t.persistent && forall i :: 0 <= i < |events| ==> LeavesAlone(events[i], t.pcrs[7], handle)
    ensures var t' := Run(chip, t, events);
      t'.pcrs[7] == t.pcrs[7] && handle in t'.persistent && t'.persistent[handle] == t.persistent[handle]
    decreases |events|
  {
    if events != [] {
      LeftAlone(chip, t, events[0], handle);
      RunLeftAlone(chip, After(chip, t, events[0]), events[1..], handle);
    }
  }

  predicate Holds(t: Tpm, handle: u32, o: Object) {
    handle in t.persistent && t.persistent[handle] == o
  }

  /** The TPM after sealing a secret, then any events, then a new open of the device. */
  function AfterSealing(chip: Chip, t: Tpm, secret: bytes, mode: SealMode, handle: u32, events: seq<Event>): Tpm {
    After(chip, Run(chip, Seal(TpmIo(chip), Port(t, []), secret, mode, handle).0.tpm, events), Reopen)
  }

  lemma KeptWhileLeftAlone(chip: Chip, t: Tpm, secret: bytes, mode: SealMode, handle: u32, events: seq<Event>)
    requires WrapsSoundly(chip) && Valid(t) && FreshlyOpened(t) && CanSeal(t, secret, mode, handle)
    requires forall i :: 0 <= i < |events| ==> LeavesAlone(events[i], t.pcrs[7], handle)
    ensures var t' := AfterSealing(chip, t, secret, mode, handle, events);
      FreshlyOpened(t') && t'.pcrs[7] == t.pcrs[7] && Holds(t', handle, SealedObject(chip, t, secret, mode))
  {
    SealExact(chip, t, secret, mode, handle);
    RunLeftAlone(chip, Seal(TpmIo(chip), Port(t, []), secret, mode, handle).0.tpm, events, handle);
  }

  /**
   The round trip. A secret that can be sealed comes back, exactly, when it is unsealed in the same
   mode from the same handle, after any commands, reopens and reboots that leave PCR 7 and that
   handle alone; unsealing it in the other mode always fails.
   */
  lemma SealUnsealRoundTrip(chip: Chip, t: Tpm, secret: bytes, mode: SealMode, handle: u32, events: seq<Event>,
                            other: SealMode)
    requires WrapsSoundly(chip) && Valid(t) && FreshlyOpened(t) && CanSeal(t, secret, mode, handle)
    requires forall i :: 0 <= i < |events| ==> LeavesAlone(events[i], t.pcrs[7], handle)
    ensures var t' := AfterSealing(chip, t, secret, mode, handle, events);
      var r := UnsealKey(TpmIo(chip), Port(t', []), handle, other.Prefix()).1;
      if other == mode then r == Ok(secret) else r.Err?
  {
    var t' := AfterSealing(chip, t, secret, mode, handle, events);
    KeptWhileLeftAlone(chip, t, secret, mode, handle, events);
    ModesDiffer(mode, other, secret);
    UnsealKeyExact(chip, t', handle, other.Prefix());
  }

  lemma ModesDiffer(mode: SealMode, other: SealMode, secret: bytes)
    ensures other.Prefix() <= mode.Prefix() + secret <==> other == mode
    ensures forall rest :: mode.Prefix() + secret == mode.Prefix() + rest ==> rest == secret
  {
    if other != mode {
      assert other.Prefix()[0] != (mode.Prefix() + secret)[0];
    }
    forall rest | mode.Prefix() + secret == mode.Prefix() + rest
      ensures rest == secret
    {
      assert rest == (mode.Prefix() + rest)[5..];
    }
  }

  /** An object sealed to one history of PCR 7 cannot be unsealed under another. */
  lemma OtherHistoryRefused(chip: Chip, t: Tpm, handle: u32, h: History, prefix: bytes)
    requires FreshlyOpened(t) && Separates(chip, h) && t.pcrs[7] != h
    requires handle in t.persistent && t.persistent[handle].Sealed?
    requires t.persistent[handle].policy == SealPolicy(chip, h)
    ensures UnsealKey(TpmIo(chip), Port(t, []), handle, prefix).1.Err?
  {
    PoliciesDiffer(chip, h, t.pcrs[7]);
    UnsealKeyExact(chip, t, handle, prefix);
  }

  lemma PoliciesDiffer(chip: Chip, h: History, h': History)
    requires Separates(chip, h) && h' != h
    ensures SealPolicy(chip, h') != SealPolicy(chip, h)
  {
    assert Pcr7Assertion(h').values[7] != Pcr7Assertion(h).values[7];
    assert [Pcr7Assertion(h')][0] != [Pcr7Assertion(h)][0];
  }

  lemma ExtendGrows(chip: Chip, t: Tpm, digest: bytes)
    requires |digest| == SHA256_DIGEST_SIZE
    ensures Served(chip, t, PcrExtendFrame(7, digest)).pcrs[7] == t.pcrs[7] + [digest]
  {
    ReadsPcrExtend(7, digest);
    ExtendAppends(chip, t, digest);
  }

  lemma ExtendAppends(chip: Chip, t: Tpm, digest: bytes)
    ensures Next(chip, t, PcrExtend(7, RS_PW, digest)).pcrs[7] == t.pcrs[7] + [digest]
  {
    assert Check(chip, t, PcrExtend(7, RS_PW, digest)) == 0;
  }

  /**
   The lock-out, as the program meets it: a secret is sealed, PCR 7 is extended later in the same
   boot, and from then on until the next reboot the program cannot get that secret back, whatever
   else was sent before or after the extension.
   */
  lemma SealedThenLocked(chip: Chip, t: Tpm, secret: bytes, mode: SealMode, handle: u32,
                         before: seq<Event>, digest: bytes, later: seq<Event>, prefix: bytes)
    requires WrapsSoundly(chip) && Valid(t) && FreshlyOpened(t) && CanSeal(t, secret, mode, handle)
    requires Separates(chip, t.pcrs[7]) && |digest| == SHA256_DIGEST_SIZE
    requires SameBoot(before) && SameBoot(later)
    ensures var t1 := Run(chip, Seal(TpmIo(chip), Port(t, []), secret, mode, handle).0.tpm, before);
      var t2 := After(chip, Run(chip, Served(chip, t1, PcrExtendFrame(7, digest)), later), Reopen);
      Holds(t2, handle, SealedObject(chip, t, secret, mode)) ==>
        UnsealKey(TpmIo(chip), Port(t2, []), handle, prefix).1.Err?
  {
    var t0 := Seal(TpmIo(chip), Port(t, []), secret, mode, handle).0.tpm;
    var t1 := Run(chip, t0, before);
    var locked := Served(chip, t1, PcrExtendFrame(7, digest));
    var t2 := After(chip, Run(chip, locked, later), Reopen);
    SealExact(chip, t, secret, mode, handle);
    RunGrowsPcr7(chip, t0, before);
    ExtendGrows(chip, t1, digest);
    RunGrowsPcr7(chip, locked, later);
    assert |t.pcrs[7]| < |t2.pcrs[7]|;
    if Holds(t2, handle, SealedObject(chip, t, secret, mode)) {
      OtherHistoryRefused(chip, t2, handle, t.pcrs[7], prefix);
    }
  }
}
