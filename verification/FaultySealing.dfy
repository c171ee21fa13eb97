/**
 Sealing on a device that may fail at any write or read. `cmd_seal` evicts what is at the handle
 before it makes the new object persistent there, so a failure in between loses the old secret.
 */
module FaultySealing {
  import opened Bytes
  import opened TpmFrames
  import opened TpmTransport
  import opened TpmDecoder
  import opened TpmModel
  import opened TpmLockout
  import opened TpmClient
  import opened Sealing

  /** What goes wrong with one command: nothing, or its write with or without effect, or the read of its reply. */
  datatype Fault = Fine | NotSent | SentUnreported | ReplyLost

  /** The command reached the TPM. */
  predicate Delivered(f: Fault) {
    !f.NotSent?
  }

  /** The device node and how many commands were tried. */
  datatype FaultyPort = FaultyPort(port: Port, tried: nat)

  function FaultyIo(chip: Chip, faults: nat -> Fault): Io<FaultyPort> {
    Io((p: FaultyPort, cmd: bytes) => FaultyWrite(chip, faults, p, cmd), (p: FaultyPort) => FaultyRead(faults, p))
  }

  function FaultyWrite(chip: Chip, faults: nat -> Fault, p: FaultyPort, cmd: bytes): (FaultyPort, bool) {
    var t := p.port.tpm;
    match faults(p.tried)
    case NotSent => (FaultyPort(Port(t, []), p.tried + 1), false)
    case SentUnreported => (FaultyPort(Port(Served(chip, t, cmd), []), p.tried + 1), false)
    case _ => (FaultyPort(Port(Served(chip, t, cmd), Reply(chip, t, cmd)), p.tried), true)
  }

  function FaultyRead(faults: nat -> Fault, p: FaultyPort): (FaultyPort, Option<bytes>) {
    (FaultyPort(Port(p.port.tpm, []), p.tried + 1), if faults(p.tried).ReplyLost? then None else Some(p.port.pending))
  }

  function At(t: Tpm, n: nat): FaultyPort {
    FaultyPort(Port(t, []), n)
  }

  /** The TPM after a command with this fault. */
  function AfterFault(chip: Chip, f: Fault, t: Tpm, cmd: bytes): Tpm {
    if Delivered(f) then Served(chip, t, cmd) else t
  }

  /** One command: as on a sound device if nothing goes wrong, else an error, with or without effect. */
  lemma FaultyCall(chip: Chip, faults: nat -> Fault, t: Tpm, n: nat, cmd: bytes)
    ensures var (p, r) := Call(FaultyIo(chip, faults), At(t, n), cmd);
      && p == At(AfterFault(chip, faults(n), t, cmd), n + 1)
      && r == if faults(n).Fine? then Call(TpmIo(chip), Port(t, []), cmd).1 else Err(IoError)
  {
    ReplyCode(chip, t, cmd);
    CallTpm(chip, Port(t, []), cmd);
    FaultyTry(chip, faults, t, n, cmd);
  }

  lemma FaultyTry(chip: Chip, faults: nat -> Fault, t: Tpm, n: nat, cmd: bytes)
    ensures Try(FaultyIo(chip, faults), At(t, n), cmd)
         == (At(AfterFault(chip, faults(n), t, cmd), n + 1),
             if faults(n).Fine? then Ok(Reply(chip, t, cmd)) else Err(IoError))
  {
    var io, t1, reply := FaultyIo(chip, faults), Served(chip, t, cmd), Reply(chip, t, cmd);
    FaultyPorts(chip, faults, t, n, cmd);
    if faults(n).Fine? || faults(n).ReplyLost? {
      TryReads(io, At(t, n), cmd, FaultyPort(Port(t1, reply), n));
    }
  }

  lemma FaultyPorts(chip: Chip, faults: nat -> Fault, t: Tpm, n: nat, cmd: bytes)
    ensures var io, t1, reply := FaultyIo(chip, faults), Served(chip, t, cmd), Reply(chip, t, cmd);
      if faults(n).Fine? || faults(n).ReplyLost? then
        && io.write(At(t, n), cmd) == (FaultyPort(Port(t1, reply), n), true)
        && io.read(FaultyPort(Port(t1, reply), n)) == (At(t1, n + 1), if faults(n).Fine? then Some(reply) else None)
      else io.write(At(t, n), cmd) == (At(if Delivered(faults(n)) then t1 else t, n + 1), false)
  {}

  lemma TryReads<S>(io: Io<S>, st: S, cmd: bytes, s1: S)
    requires io.write(st, cmd) == (s1, true)
    ensures var (s2, full) := io.read(s1);
      var reply := Received(full);
      Try(io, st, cmd)
        == (s2, if reply.None? then Err(IoError) else if |reply.value| < 10 then Err(ShortReply) else Ok(reply.value))
  {}

  /** Every command on this device goes as its fault says: as on a sound device, or in error with or without effect. */
  ghost predicate Behaves(io: Io<FaultyPort>, chip: Chip, faults: nat -> Fault) {
    && (forall t, n: nat, cmd {:trigger Call(io, At(t, n), cmd)} ::
          && Call(io, At(t, n), cmd).0 == At(AfterFault(chip, faults(n), t, cmd), n + 1)
          && (!faults(n).Fine? ==> Call(io, At(t, n), cmd).1 == Err(IoError)))
    && (forall t, n: nat, cmd {:trigger Call(io, At(t, n), cmd), Call(TpmIo(chip), Port(t, []), cmd)} ::
          faults(n).Fine? ==> Call(io, At(t, n), cmd).1 == Call(TpmIo(chip), Port(t, []), cmd).1)
  }

  lemma FaultyBehaves(chip: Chip, faults: nat -> Fault)
    ensures Behaves(FaultyIo(chip, faults), chip, faults)
  {
    forall t, n: nat, cmd
      ensures Call(FaultyIo(chip, faults), At(t, n), cmd)
           == (At(AfterFault(chip, faults(n), t, cmd), n + 1),
               if faults(n).Fine? then Call(TpmIo(chip), Port(t, []), cmd).1 else Err(IoError))
    {
      FaultyCall(chip, faults, t, n, cmd);
    }
  }

  /** A sound command takes a sound device to the same TPM. */
  lemma FineCall(io: Io<FaultyPort>, chip: Chip, faults: nat -> Fault, t: Tpm, n: nat, cmd: bytes)
    requires Behaves(io, chip, faults) && faults(n).Fine?
    ensures var (p, r) := Call(TpmIo(chip), Port(t, []), cmd);
      Call(io, At(t, n), cmd) == (At(p.tpm, n + 1), r) && p == Port(p.tpm, [])
  {
    CallTpm(chip, Port(t, []), cmd);
  }

  /** Only EvictControl changes persistent objects. */
  lemma Harmless(chip: Chip, t: Tpm, cmd: bytes, c: TpmDecoder.Command)
    requires Decode(cmd) == Some(c) && !c.EvictControl?
    ensures Served(chip, t, cmd).persistent == t.persistent
  {
    NextHarmless(chip, t, c);
  }

  lemma NextHarmless(chip: Chip, t: Tpm, c: TpmDecoder.Command)
    requires !c.EvictControl?
    ensures Next(chip, t, c).persistent == t.persistent
  {}

  /** The outcome is an error that left every persistent object alone. */
  predicate FailsSafely<T>(t: Tpm, outcome: (FaultyPort, Result<T>)) {
    outcome.1.Err? && outcome.0.port.tpm.persistent == t.persistent
  }

  // The steps up to the eviction, each sound or failing safely.

  function WithSession(t: Tpm): Tpm {
    t.(sessions := map[SESSION_BASE := Session(true, [], None)])
  }

  lemma FaultyStart(io: Io<FaultyPort>, chip: Chip, faults: nat -> Fault, t: Tpm, n: nat)
    requires Behaves(io, chip, faults) && FreshlyOpened(t)
    ensures var r := StartSession(io, At(t, n));
      if faults(n).Fine? then r == (At(WithSession(t), n + 1), Ok(SESSION_BASE)) else FailsSafely(t, r)
  {
    var cmd := StartAuthSessionFrame(SE_POLICY);
    ReadsStartAuthSession(SE_POLICY);
    if faults(n).Fine? {
      FineCall(io, chip, faults, t, n, cmd);
      SessionStarts(chip, t);
    } else {
      Harmless(chip, t, cmd, StartAuthSession(SE_POLICY));
    }
  }

  lemma FaultyPolicy(io: Io<FaultyPort>, chip: Chip, faults: nat -> Fault, t: Tpm, n: nat)
    requires Behaves(io, chip, faults)
    ensures var r := Call(io, At(WithSession(t), n), PolicyPcrFrame(SESSION_BASE));
      if faults(n).Fine? then r.0 == At(WithPolicySession(t), n + 1) && r.1.Ok? else FailsSafely(t, r)
  {
    var t1, cmd := WithSession(t), PolicyPcrFrame(SESSION_BASE);
    ReadsPolicyPcr(SESSION_BASE);
    if faults(n).Fine? {
      FineCall(io, chip, faults, t1, n, cmd);
      PolicyCalled(chip, t1, SESSION_BASE);
      PolicyApplies(chip, t);
    } else {
      Harmless(chip, t1, cmd, PolicyPcr(SESSION_BASE, SELECT_PCR7));
    }
  }

  lemma FaultyDigest(io: Io<FaultyPort>, chip: Chip, faults: nat -> Fault, t: Tpm, n: nat)
    requires Behaves(io, chip, faults)
    ensures var r := GetDigest(io, At(WithPolicySession(t), n), SESSION_BASE);
      if faults(n).Fine? then r == (At(WithPolicySession(t), n + 1), Ok(SealPolicy(chip, t.pcrs[7])))
      else FailsSafely(t, r)
  {
    var t2, cmd := WithPolicySession(t), PolicyGetDigestFrame(SESSION_BASE);
    ReadsPolicyGetDigest(SESSION_BASE);
    if faults(n).Fine? {
      FineCall(io, chip, faults, t2, n, cmd);
      DigestCalled(chip, t2, SESSION_BASE);
    } else {
      Harmless(chip, t2, cmd, PolicyGetDigest(SESSION_BASE));
    }
  }

  lemma FaultySession(io: Io<FaultyPort>, chip: Chip, faults: nat -> Fault, t: Tpm)
    requires Behaves(io, chip, faults) && FreshlyOpened(t)
    ensures var r := PolicySession(io, At(t, 0));
      if faults(0).Fine? && faults(1).Fine? && faults(2).Fine?
      then r == (At(WithPolicySession(t), 3), Ok((SESSION_BASE, SealPolicy(chip, t.pcrs[7]))))
      else FailsSafely(t, r)
  {
    FaultyStart(io, chip, faults, t, 0);
    if faults(0).Fine? {
      FaultyPolicy(io, chip, faults, t, 1);
      if faults(1).Fine? {
        FaultyDigest(io, chip, faults, t, 2);
      }
    }
  }

  lemma FaultyFlush(io: Io<FaultyPort>, chip: Chip, faults: nat -> Fault, t: Tpm, n: nat)
    requires Behaves(io, chip, faults) && FreshlyOpened(t)
    ensures var r := Call(io, At(WithPolicySession(t), n), FlushContextFrame(SESSION_BASE));
      if faults(n).Fine? then r.0 == At(t, n + 1) && r.1.Ok? else FailsSafely(t, r)
  {
    var t2, cmd := WithPolicySession(t), FlushContextFrame(SESSION_BASE);
    ReadsFlushContext(SESSION_BASE);
    if faults(n).Fine? {
      FineCall(io, chip, faults, t2, n, cmd);
      FlushCalled(chip, t);
    } else {
      Harmless(chip, t2, cmd, FlushContext(SESSION_BASE));
    }
  }

  /** The primary key is there and the data is not too long. */
  predicate CanCreate(t: Tpm, data: bytes) {
    HasPrimary(t) && |data| <= MAX_SEALED
  }

  lemma FaultyCreate(io: Io<FaultyPort>, chip: Chip, faults: nat -> Fault, t: Tpm, n: nat, data: bytes, policy: Digest)
    requires Behaves(io, chip, faults) && WrapsSoundly(chip)
    ensures var r := CreateSealed(io, At(t, n), DEFAULT_PRIMARY_HANDLE, data, policy);
      if faults(n).Fine? && CanCreate(t, data)
      then r == (At(t, n + 1), Ok((Sized(chip.wrap(data, SealedPublic(policy))), Sized(SealedPublic(policy)))))
      else FailsSafely(t, r)
  {
    if |data| <= 65531 {
      var cmd := CreateFrame(DEFAULT_PRIMARY_HANDLE, data, policy);
      ReadsCreate(DEFAULT_PRIMARY_HANDLE, data, policy);
      Harmless(chip, t, cmd, TpmDecoder.Create(DEFAULT_PRIMARY_HANDLE, RS_PW, data, SealedPublic(policy), policy));
      if faults(n).Fine? {
        FineCall(io, chip, faults, t, n, cmd);
        CreateCalled(chip, t, data, policy);
      }
    }
  }

  lemma FaultyLoad(io: Io<FaultyPort>, chip: Chip, faults: nat -> Fault, t: Tpm, n: nat, data: bytes, policy: Digest)
    requires Behaves(io, chip, faults) && WrapsSoundly(chip) && FreshlyOpened(t) && CanCreate(t, data)
    ensures var publicArea := SealedPublic(policy);
      var blob := chip.wrap(data, publicArea);
      var r := LoadSealed(io, At(t, n), DEFAULT_PRIMARY_HANDLE, Sized(blob), Sized(publicArea));
      if faults(n).Fine? then r == (At(WithLoaded(t, data, policy), n + 1), Ok(TRANSIENT_BASE)) else FailsSafely(t, r)
  {
    var publicArea := SealedPublic(policy);
    var blob := chip.wrap(data, publicArea);
    var cmd := LoadFrame(DEFAULT_PRIMARY_HANDLE, Sized(blob), Sized(publicArea));
    ReadsLoad(DEFAULT_PRIMARY_HANDLE, blob, publicArea);
    if faults(n).Fine? {
      FineCall(io, chip, faults, t, n, cmd);
      LoadCalled(chip, t, data, policy);
    } else {
      Harmless(chip, t, cmd, TpmDecoder.Load(DEFAULT_PRIMARY_HANDLE, RS_PW, blob, publicArea));
    }
  }

  lemma FaultyCreateAndLoad(io: Io<FaultyPort>, chip: Chip, faults: nat -> Fault, t: Tpm, n: nat, data: bytes,
                            policy: Digest)
    requires Behaves(io, chip, faults) && WrapsSoundly(chip) && FreshlyOpened(t)
    ensures var r := CreateAndLoad(io, At(t, n), data, policy);
      if faults(n).Fine? && faults(n + 1).Fine? && CanCreate(t, data)
      then r == (At(WithLoaded(t, data, policy), n + 2), Ok(TRANSIENT_BASE))
      else FailsSafely(t, r)
  {
    FaultyCreate(io, chip, faults, t, n, data, policy);
    if faults(n).Fine? && CanCreate(t, data) {
      FaultyLoad(io, chip, faults, t, n + 1, data, policy);
    }
  }

  // The eviction and the persisting.

  /** The old object is there and the owner may evict it. */
  predicate Evictable(t: Tpm, handle: u32) {
    InOwnerRange(handle) && handle in t.persistent
  }

  /** The number of the command that persists the new object: a failed eviction is followed by a lockout reset. */
  function PersistAt(faults: nat -> Fault, n: nat, t: Tpm, handle: u32): nat {
    if faults(n).Fine? && Evictable(t, handle) then n + 1 else n + 2
  }

  /** The TPM after an eviction that did or did not reach it. */
  function Evicted(t: Tpm, handle: u32, evicted: bool): Tpm {
    if evicted then Without(t, handle) else t
  }

  lemma FaultyEvict(io: Io<FaultyPort>, chip: Chip, faults: nat -> Fault, t: Tpm, n: nat, handle: u32)
    requires Behaves(io, chip, faults) && handle !in t.transient
    ensures TryEvict(io, At(t, n), handle)
         == At(Evicted(t, handle, Delivered(faults(n))), PersistAt(faults, n, t, handle))
  {
    var cmd, c := EvictControlFrame(handle, handle), TpmDecoder.EvictControl(RH_OWNER, handle, RS_PW, handle);
    ReadsEvictControl(handle, handle);
    EvictCalled(chip, t, handle, handle);
    EvictEffect(chip, t, handle);
    EvictAllowed(chip, t, handle);
    var t1 := AfterFault(chip, faults(n), t, cmd);
    FaultyReset(io, chip, faults, t1, n + 1);
  }

  lemma EvictAllowed(chip: Chip, t: Tpm, handle: u32)
    requires handle !in t.transient
    ensures Check(chip, t, TpmDecoder.EvictControl(RH_OWNER, handle, RS_PW, handle)) == 0 <==> Evictable(t, handle)
  {}

  lemma FaultyReset(io: Io<FaultyPort>, chip: Chip, faults: nat -> Fault, t: Tpm, n: nat)
    requires Behaves(io, chip, faults)
    ensures Call(io, At(t, n), DaLockResetFrame()).0 == At(t, n + 1)
  {
    ReadsDaLockReset();
    ResetNext(chip, t);
  }

  lemma ResetNext(chip: Chip, t: Tpm)
    ensures Next(chip, t, DaLockReset(RH_LOCKOUT, RS_PW)) == t
  {}

  /** What the last command leaves, and what it reports. */
  lemma FaultyPersist(io: Io<FaultyPort>, chip: Chip, faults: nat -> Fault, t: Tpm, n: nat, handle: u32)
    requires Behaves(io, chip, faults) && TRANSIENT_BASE in t.transient && TRANSIENT_BASE !in t.persistent
    requires handle !in t.transient
    ensures var (p, r) := Call(io, At(t, n), EvictControlFrame(TRANSIENT_BASE, handle));
      var free := InOwnerRange(handle) && handle !in t.persistent;
      && (r.Ok? <==> free && faults(n).Fine?)
      && p.port.tpm.persistent
           == if free && Delivered(faults(n)) then t.persistent[handle := t.transient[TRANSIENT_BASE]] else t.persistent
  {
    var cmd := EvictControlFrame(TRANSIENT_BASE, handle);
    ReadsEvictControl(TRANSIENT_BASE, handle);
    EvictCalled(chip, t, TRANSIENT_BASE, handle);
    PersistNext(chip, t, handle);
  }

  lemma PersistNext(chip: Chip, t: Tpm, handle: u32)
    requires TRANSIENT_BASE in t.transient && TRANSIENT_BASE !in t.persistent
    ensures var c := TpmDecoder.EvictControl(RH_OWNER, TRANSIENT_BASE, RS_PW, handle);
      var free := InOwnerRange(handle) && handle !in t.persistent;
      && (Check(chip, t, c) == 0 <==> free)
      && Next(chip, t, c).persistent
           == if free then t.persistent[handle := t.transient[TRANSIENT_BASE]] else t.persistent
  {}

  // The whole of sealing.

  /** The persistent objects after an eviction and a persisting that did or did not reach the TPM. */
  function Left(before: map<u32, Object>, handle: u32, new_: Object, evicted: bool, kept: bool): map<u32, Object> {
    if handle in before && !evicted then before
    else if kept then before[handle := new_]
    else before - {handle}
  }

  /** Nothing goes wrong with the six commands before the eviction. */
  predicate Prepared(faults: nat -> Fault) {
    && faults(0).Fine? && faults(1).Fine? && faults(2).Fine?
    && faults(3).Fine? && faults(4).Fine? && faults(5).Fine?
  }

  lemma EvictedThenKept(t: Tpm, handle: u32, new_: Object, evicted: bool, kept: bool)
    requires InOwnerRange(handle)
    ensures var mid := Evicted(t, handle, evicted).persistent;
      && (handle !in mid <==> (handle in t.persistent ==> evicted))
      && (if handle !in mid && kept then mid[handle := new_] else mid)
           == Left(t.persistent, handle, new_, evicted, kept)
  {
    assert (t.persistent - {handle})[handle := new_] == t.persistent[handle := new_];
    assert handle !in t.persistent ==> t.persistent - {handle} == t.persistent;
  }

  lemma FaultyReplace(io: Io<FaultyPort>, chip: Chip, faults: nat -> Fault, t: Tpm, n: nat, handle: u32, evicted: bool)
    requires Behaves(io, chip, faults) && TRANSIENT_BASE in t.transient && TRANSIENT_BASE !in t.persistent
    requires handle !in t.transient
    ensures var (p, r) := Call(io, At(Evicted(t, handle, evicted), n), EvictControlFrame(TRANSIENT_BASE, handle));
      && (r.Ok? <==> InOwnerRange(handle) && (handle in t.persistent ==> evicted) && faults(n).Fine?)
      && p.port.tpm.persistent
           == if InOwnerRange(handle)
              then Left(t.persistent, handle, t.transient[TRANSIENT_BASE], evicted, Delivered(faults(n)))
              else t.persistent
  {
    FaultyPersist(io, chip, faults, Evicted(t, handle, evicted), n, handle);
    if InOwnerRange(handle) {
      EvictedThenKept(t, handle, t.transient[TRANSIENT_BASE], evicted, Delivered(faults(n)));
    }
  }

  /** The fault of the command that makes the new object persistent. */
  function LastFault(faults: nat -> Fault, t: Tpm, handle: u32): Fault {
    faults(PersistAt(faults, 6, t, handle))
  }

  lemma StoreFails<S>(io: Io<S>, st: S, data: bytes, policy: bytes, handle: u32, s1: S)
    requires CreateAndLoad(io, st, data, policy).0 == s1 && CreateAndLoad(io, st, data, policy).1.Err?
    ensures Store(io, st, data, policy, handle).0 == s1 && Store(io, st, data, policy, handle).1.Err?
  {}

  lemma StoreGoesOn<S>(io: Io<S>, st: S, data: bytes, policy: bytes, handle: u32, s1: S, item: u32, s2: S)
    requires CreateAndLoad(io, st, data, policy) == (s1, Ok(item)) && TryEvict(io, s1, handle) == s2
    ensures var kept := Call(io, s2, EvictControlFrame(item, handle));
      var r := Store(io, st, data, policy, handle);
      r.0 == kept.0 && (r.1.Ok? <==> kept.1.Ok?)
  {}

  /** The outcome of storing, once the new object is loaded. */
  predicate Stores(outcome: (FaultyPort, Result<()>), faults: nat -> Fault, t: Tpm, handle: u32, new_: Object) {
    var evicted, last := Delivered(faults(6)), LastFault(faults, t, handle);
    && (outcome.1.Ok? <==> (handle in t.persistent ==> evicted) && last.Fine?)
    && outcome.0.port.tpm.persistent == Left(t.persistent, handle, new_, evicted, Delivered(last))
  }

  lemma FaultyStore(io: Io<FaultyPort>, chip: Chip, faults: nat -> Fault, t: Tpm, data: bytes, policy: Digest,
                    handle: u32)
    requires Behaves(io, chip, faults) && WrapsSoundly(chip) && FreshlyOpened(t)
    requires TRANSIENT_BASE !in t.persistent && handle != TRANSIENT_BASE
    ensures var outcome := Store(io, At(t, 4), data, policy, handle);
      if faults(4).Fine? && faults(5).Fine? && CanCreate(t, data) && InOwnerRange(handle)
      then Stores(outcome, faults, t, handle, Sealed(data, policy))
      else FailsSafely(t, outcome)
  {
    FaultyCreateAndLoad(io, chip, faults, t, 4, data, policy);
    if faults(4).Fine? && faults(5).Fine? && CanCreate(t, data) {
      FaultyStoreLoaded(io, chip, faults, t, data, policy, handle);
    } else {
      StoreFails(io, At(t, 4), data, policy, handle, CreateAndLoad(io, At(t, 4), data, policy).0);
    }
  }

  lemma FaultyStoreLoaded(io: Io<FaultyPort>, chip: Chip, faults: nat -> Fault, t: Tpm, data: bytes, policy: Digest,
                          handle: u32)
    requires Behaves(io, chip, faults) && FreshlyOpened(t)
    requires TRANSIENT_BASE !in t.persistent && handle != TRANSIENT_BASE
    requires CreateAndLoad(io, At(t, 4), data, policy) == (At(WithLoaded(t, data, policy), 6), Ok(TRANSIENT_BASE))
    ensures var outcome := Store(io, At(t, 4), data, policy, handle);
      if InOwnerRange(handle) then Stores(outcome, faults, t, handle, Sealed(data, policy)) else FailsSafely(t, outcome)
  {
    var t1, evicted, n := WithLoaded(t, data, policy), Delivered(faults(6)), PersistAt(faults, 6, t, handle);
    FaultyEvict(io, chip, faults, t1, 6, handle);
    FaultyReplace(io, chip, faults, t1, n, handle, evicted);
    StoreGoesOn(io, At(t, 4), data, policy, handle, At(t1, 6), TRANSIENT_BASE, At(Evicted(t1, handle, evicted), n));
  }

  /**
   Sealing on a device that may fail at any command. It succeeds if and only if the secret can be
   sealed, nothing goes wrong before the eviction or with the last command, and the eviction of an
   old object, if there is one, reaches the TPM. What it leaves is always one of three states: as
   before, without the old object, or with the new one.
   */
  lemma SealUnderFaults(chip: Chip, faults: nat -> Fault, t: Tpm, secret: bytes, mode: SealMode, handle: u32)
    requires WrapsSoundly(chip) && Valid(t) && FreshlyOpened(t)
    requires PERSISTENT_FIRST <= handle <= PERSISTENT_LAST
    ensures var outcome := Seal(FaultyIo(chip, faults), At(t, 0), secret, mode, handle);
      if Prepared(faults) && CanSeal(t, secret, mode, handle)
      then Stores(outcome, faults, t, handle, SealedObject(chip, t, secret, mode))
      else FailsSafely(t, outcome)
  {
    FaultyBehaves(chip, faults);
    FaultySeal(FaultyIo(chip, faults), chip, faults, t, secret, mode, handle);
  }

  lemma FaultySeal(io: Io<FaultyPort>, chip: Chip, faults: nat -> Fault, t: Tpm, secret: bytes, mode: SealMode,
                   handle: u32)
    requires Behaves(io, chip, faults) && WrapsSoundly(chip) && Valid(t) && FreshlyOpened(t)
    requires PERSISTENT_FIRST <= handle <= PERSISTENT_LAST
    ensures var outcome := Seal(io, At(t, 0), secret, mode, handle);
      if Prepared(faults) && CanSeal(t, secret, mode, handle)
      then Stores(outcome, faults, t, handle, SealedObject(chip, t, secret, mode))
      else FailsSafely(t, outcome)
  {
    FaultySession(io, chip, faults, t);
    if faults(0).Fine? && faults(1).Fine? && faults(2).Fine? {
      FaultyFlush(io, chip, faults, t, 3);
      if faults(3).Fine? {
        FaultyStore(io, chip, faults, t, mode.Prefix() + secret, SealPolicy(chip, t.pcrs[7]), handle);
      }
    }
  }

  /**
   What a failed sealing leaves. The persistent objects are as before; or the new one is there, and
   only the report of it was lost; or the one at the handle is gone and no other, and that is so if
   and only if its eviction reached the TPM and the command after it did not.
   */
  lemma FailedSealLeaves(chip: Chip, faults: nat -> Fault, t: Tpm, secret: bytes, mode: SealMode, handle: u32)
    requires WrapsSoundly(chip) && Valid(t) && FreshlyOpened(t)
    requires PERSISTENT_FIRST <= handle <= PERSISTENT_LAST
    requires Seal(FaultyIo(chip, faults), At(t, 0), secret, mode, handle).1.Err?
    ensures var now := Seal(FaultyIo(chip, faults), At(t, 0), secret, mode, handle).0.port.tpm.persistent;
      var last := LastFault(faults, t, handle);
      var reached := Prepared(faults) && CanSeal(t, secret, mode, handle) && Delivered(faults(6));
      && (now == t.persistent || now == t.persistent - {handle}
          || now == t.persistent[handle := SealedObject(chip, t, secret, mode)])
      && (handle in t.persistent ==> (handle !in now <==> reached && !Delivered(last)))
      && (now != t.persistent && handle in now ==> Delivered(last) && !last.Fine?)
  {
    SealUnderFaults(chip, faults, t, secret, mode, handle);
    assert handle !in t.persistent ==> t.persistent - {handle} == t.persistent;
  }

  lemma NothingToUnseal(chip: Chip, t: Tpm, handle: u32, prefix: bytes)
    requires handle !in t.persistent
    ensures UnsealKey(TpmIo(chip), Port(After(chip, t, Reopen), []), handle, prefix).1.Err?
  {
    UnsealKeyExact(chip, After(chip, t, Reopen), handle, prefix);
  }

  /** The device fails once, at the command after the eviction. */
  function FailsAfterEviction(n: nat): Fault {
    if n == 7 then NotSent else Fine
  }

  /**
   A failed sealing can lose the secret that was there: from any TPM on which the sealing would
   succeed, one write that fails after the eviction leaves an error and nothing to unseal at the
   handle, in either mode, when the device is opened again.
   */
  lemma FailedSealLosesSecret(chip: Chip, t: Tpm, secret: bytes, mode: SealMode, handle: u32, other: SealMode)
    requires WrapsSoundly(chip) && Valid(t) && FreshlyOpened(t)
    requires CanSeal(t, secret, mode, handle) && handle in t.persistent
    ensures var (p, r) := Seal(FaultyIo(chip, FailsAfterEviction), At(t, 0), secret, mode, handle);
      && r.Err? && p.port.tpm.persistent == t.persistent - {handle}
      && UnsealKey(TpmIo(chip), Port(After(chip, p.port.tpm, Reopen), []), handle, other.Prefix()).1.Err?
  {
    SealUnderFaults(chip, FailsAfterEviction, t, secret, mode, handle);
    NothingToUnseal(chip, Seal(FaultyIo(chip, FailsAfterEviction), At(t, 0), secret, mode, handle).0.port.tpm, handle,
                    other.Prefix());
  }
}
