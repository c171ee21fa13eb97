/**
 The command builders of src/tpm2.rs. Each allocates a zeroed buffer of a size computed
 up front and fills it in place, field by field; each is proved to fill it exactly and to
 leave precisely the frame specified in TpmFrames, so every size field is the true size.
 */
module TpmBuilders {
  import opened Bytes
  import opened TpmFrames

  /** A pre-sized command buffer. `written` is what has been marshalled so far; the rest is zero. */
  class Buffer {
    const data: array<byte>
    ghost var written: bytes

    ghost predicate Valid()
      reads this, data
    {
      && |written| <= data.Length
      && (forall i {:trigger data[i]} :: 0 <= i < |written| ==> data[i] == written[i])
      && (forall i {:trigger data[i]} :: |written| <= i < data.Length ==> data[i] == 0)
    }

    constructor (size: nat)
      ensures Valid() && written == [] && data.Length == size && fresh(data)
    {
      data := new byte[size](_ => 0);
      written := [];
    }

    method PutU8(off: nat, val: byte) returns (next: nat)
      requires Valid() && off == |written| && off + 1 <= data.Length
      modifies this, data
      ensures Valid() && next == |written| && written == old(written) + [val]
    {
      data[off] := val;
      next := off + 1;
      written := written + [val];
    }

    method PutU16(off: nat, val: u16) returns (next: nat)
      requires Valid() && off == |written| && off + 2 <= data.Length
      modifies this, data
      ensures Valid() && next == |written| && written == old(written) + Be16(val)
    {
      data[off] := val / 0x100;
      data[off + 1] := val % 0x100;
      next := off + 2;
      written := written + Be16(val);
    }

    method PutU32(off: nat, val: u32) returns (next: nat)
      requires Valid() && off == |written| && off + 4 <= data.Length
      modifies this, data
      ensures Valid() && next == |written| && written == old(written) + Be32(val)
    {
      var high, low := val / 0x1_0000, val % 0x1_0000;
      data[off] := high / 0x100;
      data[off + 1] := high % 0x100;
      data[off + 2] := low / 0x100;
      data[off + 3] := low % 0x100;
      next := off + 4;
      written := written + Be32(val);
    }

    /** Copies a slice into the buffer. */
    method PutBytes(off: nat, val: bytes) returns (next: nat)
      requires Valid() && off == |written| && off + |val| <= data.Length
      modifies this, data
      ensures Valid() && next == |written| && written == old(written) + val
    {
      forall i | 0 <= i < |val| {
        data[off + i] := val[i];
      }
      next := off + |val|;
      written := written + val;
    }

    /** Moves the offset over bytes that stay zero. */
    method Skip(off: nat, count: nat) returns (next: nat)
      requires Valid() && off == |written| && off + count <= data.Length
      modifies this
      ensures Valid() && next == |written| && written == old(written) + Zeros(count)
    {
      next := off + count;
      written := written + Zeros(count);
    }

    method WriteHeader(tag: u16, size: u32, code: u32) returns (next: nat)
      requires Valid() && written == [] && 10 <= data.Length
      modifies this, data
      ensures Valid() && next == |written| && written == Header(tag, size, code)
    {
      next := PutU16(0, tag);
      assert written == Be16(tag);
      next := PutU32(next, size);
      next := PutU32(next, code);
    }

    /** The size of the authorization area and the one session in it. */
    method WriteAuthArea(off: nat, session: u32) returns (next: nat)
      requires Valid() && off == |written| && off + 13 <= data.Length
      modifies this, data
      ensures Valid() && next == |written| && written == old(written) + AuthArea(session)
    {
      ghost var before := written;
      next := PutU32(off, PW_AUTH_SIZE);
      ghost var start := written;
      next := PutU32(next, session);
      next := PutU16(next, 0);
      next := PutU8(next, 0);
      next := PutU16(next, 0);
      Nest4(start, Be32(session), Be16(0), [0], Be16(0));
      Associate(before, Be32(PW_AUTH_SIZE), Auth(session));
    }

    /** A two-byte length, truncated as the source truncates it, and then the slice itself. */
    method WriteSized(off: nat, val: bytes) returns (next: nat)
      requires Valid() && off == |written| && off + 2 + |val| <= data.Length && |val| < 0x1_0000
      modifies this, data
      ensures Valid() && next == |written| && written == old(written) + Sized(val)
    {
      ghost var before := written;
      next := PutU16(off, |val| % 0x1_0000);
      next := PutBytes(next, val);
      Associate(before, Be16(|val|), val);
    }

    /** An empty TPM2B, or any other field that is two zero bytes. */
    method WriteEmpty(off: nat) returns (next: nat)
      requires Valid() && off == |written| && off + 2 <= data.Length
      modifies this, data
      ensures Valid() && next == |written| && written == old(written) + Sized([])
    {
      next := PutU16(off, 0);
    }

    /** The whole buffer, once it is full. */
    method Contents() returns (s: bytes)
      requires Valid() && |written| == data.Length
      ensures s == written
    {
      s := data[..];
    }
  }

  // Concatenating field by field onto a prefix is the prefix followed by the fields.

  lemma Nest3(h: bytes, a: bytes, b: bytes, c: bytes)
    ensures h + a + b + c == h + (a + b + c)
  {}

  lemma Nest4(h: bytes, a: bytes, b: bytes, c: bytes, d: bytes)
    ensures h + a + b + c + d == h + (a + b + c + d)
  {}

  lemma Nest5(h: bytes, a: bytes, b: bytes, c: bytes, d: bytes, e: bytes)
    ensures h + a + b + c + d + e == h + (a + b + c + d + e)
  {}

  lemma Nest6(h: bytes, a: bytes, b: bytes, c: bytes, d: bytes, e: bytes, f: bytes)
    ensures h + a + b + c + d + e + f == h + (a + b + c + d + e + f)
  {}

  method BuildStartup() returns (s: bytes)
    ensures s == StartupFrame()
  {
    var size: u32 := 10 + 2;
    var cmd := new Buffer(size);
    var off := cmd.WriteHeader(ST_NO_SESSIONS, size, CC_STARTUP);
    off := cmd.PutU16(off, 0);
    s := cmd.Contents();
  }

  method BuildStartAuthSession(sessionType: byte) returns (s: bytes)
    ensures s == StartAuthSessionFrame(sessionType)
  {
    var size: u32 := 10 + 4 + 4 + (2 + SHA256_DIGEST_SIZE) + 2 + 1 + 2 + 2;
    var cmd := new Buffer(size);
    var off := cmd.WriteHeader(ST_NO_SESSIONS, size, CC_START_AUTH_SESSION);
    off := cmd.PutU32(off, RH_NULL);
    off := cmd.PutU32(off, RH_NULL);
    ghost var before := cmd.written;
    off := cmd.PutU16(off, SHA256_DIGEST_SIZE);
    off := cmd.Skip(off, SHA256_DIGEST_SIZE);
    Associate(before, Be16(SHA256_DIGEST_SIZE), Zeros(SHA256_DIGEST_SIZE));
    off := cmd.WriteEmpty(off);
    before := cmd.written;
    off := cmd.PutU8(off, sessionType);
    off := cmd.PutU16(off, ALG_NULL);
    off := cmd.PutU16(off, ALG_SHA256);
    Nest3(before, [sessionType], Be16(ALG_NULL), Be16(ALG_SHA256));
    Nest5(Header(ST_NO_SESSIONS, size, CC_START_AUTH_SESSION), Be32(RH_NULL), Be32(RH_NULL),
          Sized(Zeros(SHA256_DIGEST_SIZE)), Sized([]), [sessionType] + Be16(ALG_NULL) + Be16(ALG_SHA256));
    s := cmd.Contents();
  }

  method BuildPolicyPcr(session: u32) returns (s: bytes)
    ensures s == PolicyPcrFrame(session)
  {
    var size: u32 := 10 + 4 + 2 + 4 + 2 + 1 + 3;
    var cmd := new Buffer(size);
    var off := cmd.WriteHeader(ST_NO_SESSIONS, size, CC_POLICY_PCR);
    off := cmd.PutU32(off, session);
    off := cmd.WriteEmpty(off);
    ghost var before := cmd.written;
    off := cmd.PutU32(off, 1);
    off := cmd.PutU16(off, ALG_SHA256);
    off := cmd.PutU8(off, 3);
    off := cmd.PutU8(off, 0x80);
    off := cmd.Skip(off, 2);
    Associate(before + Be32(1) + Be16(ALG_SHA256) + [3], [0x80], Zeros(2));
    Nest4(before, Be32(1), Be16(ALG_SHA256), [3], [0x80] + Zeros(2));
    Nest3(Header(ST_NO_SESSIONS, size, CC_POLICY_PCR), Be32(session), Sized([]), Selection([0x80] + Zeros(2)));
    s := cmd.Contents();
  }

  method BuildPolicyGetDigest(session: u32) returns (s: bytes)
    ensures s == PolicyGetDigestFrame(session)
  {
    var size: u32 := 10 + 4;
    var cmd := new Buffer(size);
    var off := cmd.WriteHeader(ST_NO_SESSIONS, size, CC_POLICY_GET_DIGEST);
    off := cmd.PutU32(off, session);
    s := cmd.Contents();
  }

  method BuildFlushContext(handle: u32) returns (s: bytes)
    ensures s == FlushContextFrame(handle)
  {
    var size: u32 := 10 + 4;
    var cmd := new Buffer(size);
    var off := cmd.WriteHeader(ST_NO_SESSIONS, size, CC_FLUSH_CONTEXT);
    off := cmd.PutU32(off, handle);
    s := cmd.Contents();
  }

  method BuildPcrExtend(pcr: u32, digest: bytes) returns (s: bytes)
    requires |digest| == SHA256_DIGEST_SIZE
    ensures s == PcrExtendFrame(pcr, digest)
  {
    var size: u32 := 10 + 4 + 4 + PW_AUTH_SIZE + 4 + 2 + SHA256_DIGEST_SIZE;
    var cmd := new Buffer(size);
    var off := cmd.WriteHeader(ST_SESSIONS, size, CC_PCR_EXTEND);
    off := cmd.PutU32(off, pcr);
    off := cmd.WriteAuthArea(off, RS_PW);
    ghost var before := cmd.written;
    off := cmd.PutU32(off, 1);
    off := cmd.PutU16(off, ALG_SHA256);
    off := cmd.PutBytes(off, digest);
    Nest3(before, Be32(1), Be16(ALG_SHA256), digest);
    Nest3(Header(ST_SESSIONS, size, CC_PCR_EXTEND), Be32(pcr), AuthArea(RS_PW), Be32(1) + Be16(ALG_SHA256) + digest);
    s := cmd.Contents();
  }

  method BuildUnseal(item: u32, session: u32) returns (s: bytes)
    ensures s == UnsealFrame(item, session)
  {
    var authSize: u32 := 4 + 2 + 1 + 2;
    var size: u32 := 10 + 4 + 4 + authSize;
    var cmd := new Buffer(size);
    var off := cmd.WriteHeader(ST_SESSIONS, size, CC_UNSEAL);
    off := cmd.PutU32(off, item);
    off := cmd.WriteAuthArea(off, session);
    Associate(Header(ST_SESSIONS, size, CC_UNSEAL), Be32(item), AuthArea(session));
    assert Be32(item) + AuthArea(session) + [] == Be32(item) + AuthArea(session);
    s := cmd.Contents();
  }

  method BuildDaLockReset() returns (s: bytes)
    ensures s == DaLockResetFrame()
  {
    var size: u32 := 10 + 4 + 4 + PW_AUTH_SIZE;
    var cmd := new Buffer(size);
    var off := cmd.WriteHeader(ST_SESSIONS, size, CC_DA_LOCK_RESET);
    off := cmd.PutU32(off, RH_LOCKOUT);
    off := cmd.WriteAuthArea(off, RS_PW);
    Associate(Header(ST_SESSIONS, size, CC_DA_LOCK_RESET), Be32(RH_LOCKOUT), AuthArea(RS_PW));
    assert Be32(RH_LOCKOUT) + AuthArea(RS_PW) + [] == Be32(RH_LOCKOUT) + AuthArea(RS_PW);
    s := cmd.Contents();
  }

  method BuildEvictControl(item: u32, persistent: u32) returns (s: bytes)
    ensures s == EvictControlFrame(item, persistent)
  {
    var size: u32 := 10 + 4 + 4 + 4 + PW_AUTH_SIZE + 4;
    var cmd := new Buffer(size);
    var off := cmd.WriteHeader(ST_SESSIONS, size, CC_EVICT_CONTROL);
    off := cmd.PutU32(off, RH_OWNER);
    off := cmd.PutU32(off, item);
    off := cmd.WriteAuthArea(off, RS_PW);
    off := cmd.PutU32(off, persistent);
    Nest4(Header(ST_SESSIONS, size, CC_EVICT_CONTROL), Be32(RH_OWNER), Be32(item), AuthArea(RS_PW), Be32(persistent));
    s := cmd.Contents();
  }

  /** Marshals the fields of the storage-primary template. */
  method WriteTemplate(cmd: Buffer, off: nat) returns (next: nat)
    requires cmd.Valid() && off == |cmd.written| && off + 26 <= cmd.data.Length
    modifies cmd, cmd.data
    ensures cmd.Valid() && next == |cmd.written| && cmd.written == old(cmd.written) + PrimaryTemplate()
  {
    ghost var before := cmd.written;
    next := cmd.PutU16(off, ALG_RSA);
    next := cmd.PutU16(next, ALG_SHA256);
    next := cmd.PutU32(next, STORAGE_KEY_ATTRS);
    next := cmd.PutU16(next, 0);
    next := cmd.PutU16(next, ALG_AES);
    next := cmd.PutU16(next, 128);
    next := cmd.PutU16(next, ALG_CFB);
    next := cmd.PutU16(next, ALG_NULL);
    next := cmd.PutU16(next, 2048);
    next := cmd.PutU32(next, 0);
    next := cmd.PutU16(next, 0);
    NestTemplate(before);
  }

  lemma NestTemplate(h: bytes)
    ensures h + Be16(ALG_RSA) + Be16(ALG_SHA256) + Be32(STORAGE_KEY_ATTRS) + Be16(0) + Be16(ALG_AES) + Be16(128)
            + Be16(ALG_CFB) + Be16(ALG_NULL) + Be16(2048) + Be32(0) + Be16(0)
         == h + PrimaryTemplate()
  {
    var first := Be16(ALG_RSA) + Be16(ALG_SHA256) + Be32(STORAGE_KEY_ATTRS) + Be16(0) + Be16(ALG_AES) + Be16(128);
    Nest6(h, Be16(ALG_RSA), Be16(ALG_SHA256), Be32(STORAGE_KEY_ATTRS), Be16(0), Be16(ALG_AES), Be16(128));
    Nest6(h, first, Be16(ALG_CFB), Be16(ALG_NULL), Be16(2048), Be32(0), Be16(0));
  }

  method BuildCreatePrimary() returns (s: bytes)
    ensures s == CreatePrimaryFrame()
  {
    var publicSize: u16 := 26;
    var sensitiveSize: u16 := 4;
    var size: u32 := 10 + 4 + 4 + PW_AUTH_SIZE + 2 + sensitiveSize + 2 + publicSize + 2 + 4;
    var cmd := new Buffer(size);
    var off := cmd.WriteHeader(ST_SESSIONS, size, CC_CREATE_PRIMARY);
    off := cmd.PutU32(off, RH_OWNER);
    off := cmd.WriteAuthArea(off, RS_PW);
    ghost var start := cmd.written;
    off := WriteSensitive(cmd, off, sensitiveSize, []);

    ghost var before := cmd.written;
    off := cmd.PutU16(off, publicSize);
    off := WriteTemplate(cmd, off);
    Associate(before, Be16(publicSize), PrimaryTemplate());

    off := cmd.WriteEmpty(off);
    off := cmd.PutU32(off, 0);
    Nest4(start, Sized(SensitiveArea([])), Sized(PrimaryTemplate()), Sized([]), Be32(0));
    Nest3(Header(ST_SESSIONS, size, CC_CREATE_PRIMARY), Be32(RH_OWNER), AuthArea(RS_PW),
          CreateParams(SensitiveArea([]), PrimaryTemplate()));
    s := cmd.Contents();
  }

  // The source computes these in 16 bits, truncating the lengths first.

  function SensitiveSize(dataLen: nat): u16 {
    (2 + 2 + dataLen % 0x1_0000) % 0x1_0000
  }

  function PublicSize(policyLen: nat): u16 {
    (2 + 2 + 4 + (2 + policyLen % 0x1_0000) + 2 + 2) % 0x1_0000
  }

  function CreateSize(dataLen: nat, policyLen: nat): u32 {
    10 + 4 + 4 + PW_AUTH_SIZE + (2 + SensitiveSize(dataLen)) + (2 + PublicSize(policyLen)) + 2 + 4
  }

  /**
   The bytes Create has to marshal fit the buffer it allocates if and only if both lengths fit
   their 16-bit size fields; otherwise the buffer is too small and a copy into it is out of range.
   */
  lemma CreateBufferFits(dataLen: nat, policyLen: nat)
    ensures 55 + dataLen + policyLen <= CreateSize(dataLen, policyLen)
      <==> dataLen <= 65531 && policyLen <= 65521
    ensures dataLen <= 65531 && policyLen <= 65521
      ==> 55 + dataLen + policyLen == CreateSize(dataLen, policyLen)
  {}

  method BuildCreate(parent: u32, data: bytes, policy: bytes) returns (s: bytes)
    requires |data| <= 65531 && |policy| <= 65521
    ensures s == CreateFrame(parent, data, policy)
  {
    CreateBufferFits(|data|, |policy|);
    s := FillCreate(CreateSize(|data|, |policy|), SensitiveSize(|data|), PublicSize(|policy|), parent, data, policy);
  }

  method FillCreate(size: u32, sensitiveSize: u16, publicSize: u16, parent: u32, data: bytes, policy: bytes)
    returns (s: bytes)
    requires |data| <= 65531 && |policy| <= 65521
    requires size == 55 + |data| + |policy| && sensitiveSize == 4 + |data| && publicSize == 14 + |policy|
    ensures s == CreateFrame(parent, data, policy)
  {
    var cmd := new Buffer(size);
    var off := cmd.WriteHeader(ST_SESSIONS, size, CC_CREATE);
    off := cmd.PutU32(off, parent);
    off := cmd.WriteAuthArea(off, RS_PW);
    ghost var start := cmd.written;
    off := WriteSensitive(cmd, off, sensitiveSize, data);
    off := WritePublic(cmd, off, publicSize, policy);
    off := cmd.WriteEmpty(off);
    off := cmd.PutU32(off, 0);
    Nest4(start, Sized(SensitiveArea(data)), Sized(SealedPublic(policy)), Sized([]), Be32(0));
    Nest3(Header(ST_SESSIONS, size, CC_CREATE), Be32(parent), AuthArea(RS_PW),
          CreateParams(SensitiveArea(data), SealedPublic(policy)));
    s := cmd.Contents();
  }

  method WriteSensitive(cmd: Buffer, off: nat, size: u16, data: bytes) returns (next: nat)
    requires cmd.Valid() && off == |cmd.written| && off + 6 + |data| <= cmd.data.Length
    requires |data| <= 65531 && size == 4 + |data|
    modifies cmd, cmd.data
    ensures cmd.Valid() && next == |cmd.written| && cmd.written == old(cmd.written) + Sized(SensitiveArea(data))
  {
    ghost var before := cmd.written;
    next := cmd.PutU16(off, size);
    next := cmd.WriteEmpty(next);
    next := cmd.WriteSized(next, data);
    Associate(before + Be16(size), Sized([]), Sized(data));
    Associate(before, Be16(size), SensitiveArea(data));
  }

  method WritePublic(cmd: Buffer, off: nat, size: u16, policy: bytes) returns (next: nat)
    requires cmd.Valid() && off == |cmd.written| && off + 16 + |policy| <= cmd.data.Length
    requires |policy| <= 65521 && size == 14 + |policy|
    modifies cmd, cmd.data
    ensures cmd.Valid() && next == |cmd.written| && cmd.written == old(cmd.written) + Sized(SealedPublic(policy))
  {
    ghost var before := cmd.written;
    next := cmd.PutU16(off, size);
    ghost var start := cmd.written;
    next := cmd.PutU16(next, ALG_KEYEDHASH);
    next := cmd.PutU16(next, ALG_SHA256);
    next := cmd.PutU32(next, SEALED_OBJ_ATTRS);
    next := cmd.WriteSized(next, policy);
    next := cmd.PutU16(next, ALG_NULL);
    next := cmd.WriteEmpty(next);
    Nest6(start, Be16(ALG_KEYEDHASH), Be16(ALG_SHA256), Be32(SEALED_OBJ_ATTRS), Sized(policy), Be16(ALG_NULL),
          Sized([]));
    Associate(before, Be16(size), SealedPublic(policy));
  }

  method BuildLoad(parent: u32, privateArea: bytes, publicArea: bytes) returns (s: bytes)
    requires |privateArea| + |publicArea| < 0x1_0000_0000 - 27
    ensures s == LoadFrame(parent, privateArea, publicArea)
  {
    var size: u32 := 10 + 4 + 4 + PW_AUTH_SIZE + |privateArea| + |publicArea|;
    var cmd := new Buffer(size);
    var off := cmd.WriteHeader(ST_SESSIONS, size, CC_LOAD);
    off := cmd.PutU32(off, parent);
    off := cmd.WriteAuthArea(off, RS_PW);
    ghost var before := cmd.written;
    off := cmd.PutBytes(off, privateArea);
    off := cmd.PutBytes(off, publicArea);
    Associate(before, privateArea, publicArea);
    Nest3(Header(ST_SESSIONS, size, CC_LOAD), Be32(parent), AuthArea(RS_PW), privateArea + publicArea);
    s := cmd.Contents();
  }
}
