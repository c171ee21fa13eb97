/**
 The TPM calls the program makes, over any device: each builds a frame, sends it through the retry
 loop, checks the response code and slices what it needs out of the reply at fixed offsets. On top
 of them, sealing a secret and unsealing a key.
 */
module TpmClient {
  import opened Bytes
  import opened TpmFrames
  import opened TpmBuilders
  import opened TpmTransport

  const DEFAULT_PRIMARY_HANDLE: u32 := 0x8100_0000
  const DEFAULT_SEALED_HANDLE_DEV: u32 := 0x8100_1002
  const DEFAULT_SEALED_HANDLE_SECURE: u32 := 0x8100_1003

  datatype SealMode = Dev | Secure {
    function PersistentHandle(): u32 {
      if Dev? then DEFAULT_SEALED_HANDLE_DEV else DEFAULT_SEALED_HANDLE_SECURE
    }

    /** "devc:" or "secc:". */
    function Prefix(): bytes {
      if Dev? then [0x64, 0x65, 0x76, 0x63, 0x3A] else [0x73, 0x65, 0x63, 0x63, 0x3A]
    }
  }

  // Slicing replies.

  /** A reply with response code zero; anything else is an error. */
  function Checked(r: Result<bytes>): Result<bytes> {
    var reply :- r;
    if |reply| < 10 then Err(OutOfBounds)
    else if ResponseCode(reply) != 0 then Err(TpmError(ResponseCode(reply)))
    else Ok(reply)
  }

  function HandleIn(reply: bytes): Result<u32> {
    if |reply| < 14 then Err(OutOfBounds) else Ok(BeAt32(reply, 10))
  }

  /** The sized field at an offset, with or without its two-byte size. */
  function SizedAt(reply: bytes, off: nat): Result<bytes> {
    if |reply| < off + 2 || |reply| < off + 2 + BeAt16(reply, off) then Err(OutOfBounds)
    else Ok(reply[off + 2..off + 2 + BeAt16(reply, off)])
  }

  function BlobAt(reply: bytes, off: nat): (r: Result<bytes>)
    ensures r.Ok? ==> |r.value| <= 65537
  {
    if |reply| < off + 2 || |reply| < off + 2 + BeAt16(reply, off) then Err(OutOfBounds)
    else Ok(reply[off..off + 2 + BeAt16(reply, off)])
  }

  function BlobsIn(reply: bytes): (r: Result<(bytes, bytes)>)
    ensures r.Ok? ==> |r.value.0| <= 65537 && |r.value.1| <= 65537
  {
    var privateBlob :- BlobAt(reply, 14);
    var publicBlob :- BlobAt(reply, 14 + |privateBlob|);
    Ok((privateBlob, publicBlob))
  }

  function StripPrefix(secret: bytes, prefix: bytes): (r: Result<bytes>)
    ensures forall rest :: r == Ok(rest) <==> secret == prefix + rest
    ensures r.Err? ==> r.error == WrongPrefix
  {
    if prefix <= secret then
      assert secret == prefix + secret[|prefix|..];
      Ok(secret[|prefix|..])
    else Err(WrongPrefix)
  }

  // What the calls do, as functions of the device.

  function Call<S>(io: Io<S>, st: S, cmd: bytes): (S, Result<bytes>) {
    var o := Exchange(io, st, cmd, 0);
    (o.state, Checked(o.result))
  }

  function StartSession<S>(io: Io<S>, st: S): (S, Result<u32>) {
    var (s, reply) := Call(io, st, StartAuthSessionFrame(SE_POLICY));
    (s, if reply.Ok? then HandleIn(reply.value) else Err(reply.error))
  }

  function GetDigest<S>(io: Io<S>, st: S, session: u32): (S, Result<bytes>) {
    var (s, reply) := Call(io, st, PolicyGetDigestFrame(session));
    (s, if reply.Ok? then SizedAt(reply.value, 10) else reply)
  }

  function UnsealItem<S>(io: Io<S>, st: S, item: u32, session: u32): (S, Result<bytes>) {
    var (s, reply) := Call(io, st, UnsealFrame(item, session));
    (s, if reply.Ok? then SizedAt(reply.value, 14) else reply)
  }

  /** Data or a policy too long for its size field overruns the command buffer. */
  function CreateSealed<S>(io: Io<S>, st: S, parent: u32, data: bytes, policy: bytes): (r: (S, Result<(bytes, bytes)>))
    ensures r.1.Ok? ==> |r.1.value.0| <= 65537 && |r.1.value.1| <= 65537
  {
    if |data| > 65531 || |policy| > 65521 then (st, Err(OutOfBounds))
    else
      var (s, reply) := Call(io, st, CreateFrame(parent, data, policy));
      (s, if reply.Ok? then BlobsIn(reply.value) else Err(reply.error))
  }

  function LoadSealed<S>(io: Io<S>, st: S, parent: u32, privateBlob: bytes, publicBlob: bytes): (S, Result<u32>)
    requires |privateBlob| + |publicBlob| < 0x1_0000_0000 - 27
  {
    var (s, reply) := Call(io, st, LoadFrame(parent, privateBlob, publicBlob));
    (s, if reply.Ok? then HandleIn(reply.value) else Err(reply.error))
  }

  /** Evicts, ignoring errors; a failed eviction is followed by a lockout reset. */
  function TryEvict<S>(io: Io<S>, st: S, persistent: u32): S {
    var (s, r) := Call(io, st, EvictControlFrame(persistent, persistent));
    if r.Err? then Call(io, s, DaLockResetFrame()).0 else s
  }

  /** A policy session bound to PCR 7, and its digest. */
  function PolicySession<S>(io: Io<S>, st: S): (S, Result<(u32, bytes)>) {
    var (s1, session) := StartSession(io, st);
    if session.Err? then (s1, Err(session.error))
    else
      var (s2, applied) := Call(io, s1, PolicyPcrFrame(session.value));
      if applied.Err? then (s2, Err(applied.error))
      else
        var (s3, digest) := GetDigest(io, s2, session.value);
        if digest.Err? then (s3, Err(digest.error)) else (s3, Ok((session.value, digest.value)))
  }

  /** Creates a sealed object under the primary key and loads it. */
  function CreateAndLoad<S>(io: Io<S>, st: S, data: bytes, policy: bytes): (S, Result<u32>) {
    var (s1, blobs) := CreateSealed(io, st, DEFAULT_PRIMARY_HANDLE, data, policy);
    if blobs.Err? then (s1, Err(blobs.error))
    else LoadSealed(io, s1, DEFAULT_PRIMARY_HANDLE, blobs.value.0, blobs.value.1)
  }

  /** Creates a sealed object and keeps it at a persistent handle, in place of whatever is there. */
  function Store<S>(io: Io<S>, st: S, data: bytes, policy: bytes, persistent: u32): (S, Result<()>) {
    var (s1, loaded) := CreateAndLoad(io, st, data, policy);
    if loaded.Err? then (s1, Err(loaded.error))
    else
      var (s2, kept) := Call(io, TryEvict(io, s1, persistent), EvictControlFrame(loaded.value, persistent));
      (s2, if kept.Err? then Err(kept.error) else Ok(()))
  }

  function Seal<S>(io: Io<S>, st: S, secret: bytes, mode: SealMode, persistent: u32): (S, Result<()>) {
    var (s1, policy) := PolicySession(io, st);
    if policy.Err? then (s1, Err(policy.error))
    else
      var (s2, flushed) := Call(io, s1, FlushContextFrame(policy.value.0));
      if flushed.Err? then (s2, Err(flushed.error))
      else Store(io, s2, mode.Prefix() + secret, policy.value.1, persistent)
  }

  function UnsealKey<S>(io: Io<S>, st: S, handle: u32, prefix: bytes): (S, Result<bytes>) {
    var (s1, policy) := PolicySession(io, st);
    if policy.Err? then (s1, Err(policy.error))
    else
      var (s2, secret) := UnsealItem(io, s1, handle, policy.value.0);
      if secret.Err? then (s2, secret) else (s2, StripPrefix(secret.value, prefix))
  }

  // The calls themselves.

  method Transceive<S>(dev: Device<S>, cmd: bytes) returns (r: Result<bytes>)
    modifies dev
    ensures (dev.state, r) == Call(dev.io, old(dev.state), cmd)
  {
    r := dev.Transact(cmd);
    r := Checked(r);
  }

  method StartPolicySession<S>(dev: Device<S>) returns (session: Result<u32>)
    modifies dev
    ensures (dev.state, session) == StartSession(dev.io, old(dev.state))
  {
    var cmd := BuildStartAuthSession(SE_POLICY);
    var reply := Transceive(dev, cmd);
    session := if reply.Ok? then HandleIn(reply.value) else Err(reply.error);
  }

  method ApplyPolicyPcr<S>(dev: Device<S>, session: u32) returns (r: Result<bytes>)
    modifies dev
    ensures (dev.state, r) == Call(dev.io, old(dev.state), PolicyPcrFrame(session))
  {
    var cmd := BuildPolicyPcr(session);
    r := Transceive(dev, cmd);
  }

  method GetPolicyDigest<S>(dev: Device<S>, session: u32) returns (digest: Result<bytes>)
    modifies dev
    ensures (dev.state, digest) == GetDigest(dev.io, old(dev.state), session)
  {
    var cmd := BuildPolicyGetDigest(session);
    var reply := Transceive(dev, cmd);
    digest := if reply.Ok? then SizedAt(reply.value, 10) else reply;
  }

  method Flush<S>(dev: Device<S>, handle: u32) returns (r: Result<bytes>)
    modifies dev
    ensures (dev.state, r) == Call(dev.io, old(dev.state), FlushContextFrame(handle))
  {
    var cmd := BuildFlushContext(handle);
    r := Transceive(dev, cmd);
  }

  method ExtendPcr<S>(dev: Device<S>, pcr: u32, digest: bytes) returns (r: Result<bytes>)
    requires |digest| == SHA256_DIGEST_SIZE
    modifies dev
    ensures (dev.state, r) == Call(dev.io, old(dev.state), PcrExtendFrame(pcr, digest))
  {
    var cmd := BuildPcrExtend(pcr, digest);
    r := Transceive(dev, cmd);
  }

  method Unseal<S>(dev: Device<S>, item: u32, session: u32) returns (data: Result<bytes>)
    modifies dev
    ensures (dev.state, data) == UnsealItem(dev.io, old(dev.state), item, session)
  {
    var cmd := BuildUnseal(item, session);
    var reply := Transceive(dev, cmd);
    data := if reply.Ok? then SizedAt(reply.value, 14) else reply;
  }

  method Create<S>(dev: Device<S>, parent: u32, data: bytes, policy: bytes) returns (blobs: Result<(bytes, bytes)>)
    modifies dev
    ensures (dev.state, blobs) == CreateSealed(dev.io, old(dev.state), parent, data, policy)
  {
    if |data| > 65531 || |policy| > 65521 {
      return Err(OutOfBounds);
    }
    var cmd := BuildCreate(parent, data, policy);
    var reply := Transceive(dev, cmd);
    blobs := if reply.Ok? then BlobsIn(reply.value) else Err(reply.error);
  }

  method Load<S>(dev: Device<S>, parent: u32, privateBlob: bytes, publicBlob: bytes) returns (handle: Result<u32>)
    requires |privateBlob| + |publicBlob| < 0x1_0000_0000 - 27
    modifies dev
    ensures (dev.state, handle) == LoadSealed(dev.io, old(dev.state), parent, privateBlob, publicBlob)
  {
    var cmd := BuildLoad(parent, privateBlob, publicBlob);
    var reply := Transceive(dev, cmd);
    handle := if reply.Ok? then HandleIn(reply.value) else Err(reply.error);
  }

  method EvictControl<S>(dev: Device<S>, item: u32, persistent: u32) returns (r: Result<bytes>)
    modifies dev
    ensures (dev.state, r) == Call(dev.io, old(dev.state), EvictControlFrame(item, persistent))
  {
    var cmd := BuildEvictControl(item, persistent);
    r := Transceive(dev, cmd);
  }

  method TryEvictPersistent<S>(dev: Device<S>, persistent: u32)
    modifies dev
    ensures dev.state == TryEvict(dev.io, old(dev.state), persistent)
  {
    var r := EvictControl(dev, persistent, persistent);
    if r.Err? {
      var cmd := BuildDaLockReset();
      r := Transceive(dev, cmd);
    }
  }

  method OpenPolicySession<S>(dev: Device<S>) returns (r: Result<(u32, bytes)>)
    modifies dev
    ensures (dev.state, r) == PolicySession(dev.io, old(dev.state))
  {
    var session := StartPolicySession(dev);
    if session.Err? {
      return Err(session.error);
    }
    var applied := ApplyPolicyPcr(dev, session.value);
    if applied.Err? {
      return Err(applied.error);
    }
    var digest := GetPolicyDigest(dev, session.value);
    if digest.Err? {
      return Err(digest.error);
    }
    r := Ok((session.value, digest.value));
  }

  method SealSecret<S>(dev: Device<S>, secret: bytes, mode: SealMode, handle: Option<u32>) returns (r: Result<()>)
    modifies dev
    ensures var persistent := if handle.Some? then handle.value else mode.PersistentHandle();
      (dev.state, r) == Seal(dev.io, old(dev.state), secret, mode, persistent)
  {
    var policy := OpenPolicySession(dev);
    if policy.Err? {
      return Err(policy.error);
    }
    var flushed := Flush(dev, policy.value.0);
    if flushed.Err? {
      return Err(flushed.error);
    }
    var persistent := if handle.Some? then handle.value else mode.PersistentHandle();
    r := StoreSealed(dev, mode.Prefix() + secret, policy.value.1, persistent);
  }

  method StoreSealed<S>(dev: Device<S>, data: bytes, policy: bytes, persistent: u32) returns (r: Result<()>)
    modifies dev
    ensures (dev.state, r) == Store(dev.io, old(dev.state), data, policy, persistent)
  {
    var loaded := CreateThenLoad(dev, data, policy);
    if loaded.Err? {
      return Err(loaded.error);
    }
    TryEvictPersistent(dev, persistent);
    var kept := EvictControl(dev, loaded.value, persistent);
    r := if kept.Err? then Err(kept.error) else Ok(());
  }

  method CreateThenLoad<S>(dev: Device<S>, data: bytes, policy: bytes) returns (handle: Result<u32>)
    modifies dev
    ensures (dev.state, handle) == CreateAndLoad(dev.io, old(dev.state), data, policy)
  {
    var blobs := Create(dev, DEFAULT_PRIMARY_HANDLE, data, policy);
    if blobs.Err? {
      return Err(blobs.error);
    }
    handle := Load(dev, DEFAULT_PRIMARY_HANDLE, blobs.value.0, blobs.value.1);
  }

  method UnsealKeyFromHandle<S>(dev: Device<S>, handle: u32, prefix: bytes) returns (r: Result<bytes>)
    modifies dev
    ensures (dev.state, r) == UnsealKey(dev.io, old(dev.state), handle, prefix)
  {
    var policy := OpenPolicySession(dev);
    if policy.Err? {
      return Err(policy.error);
    }
    var secret := Unseal(dev, handle, policy.value.0);
    r := if secret.Err? then secret else StripPrefix(secret.value, prefix);
  }
}
