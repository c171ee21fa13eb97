/**
 The frames byte by byte, as TPM 2.0 Library Parts 2 and 3 number the structure tags, command codes,
 handles, algorithms and attributes. Only fields that vary are not written out.
 */
module TpmWire {
  import opened Bytes
  import opened TpmFrames
  import opened TpmTransport
  import opened TpmClient

  lemma StartupOnWire()
    ensures StartupFrame() == [0x80, 0x01, 0, 0, 0, 12, 0, 0, 0x01, 0x44, 0, 0]
  {}

  lemma StartAuthSessionOnWire(sessionType: byte)
    ensures StartAuthSessionFrame(sessionType)
         == [0x80, 0x01, 0, 0, 0, 59, 0, 0, 0x01, 0x76] + [0x40, 0, 0, 7] + [0x40, 0, 0, 7]
            + [0, 32] + Zeros(32) + [0, 0] + [sessionType] + [0, 0x10] + [0, 0x0B]
  {}

  lemma PolicyPcrOnWire(session: u32)
    ensures PolicyPcrFrame(session)
         == [0x80, 0x01, 0, 0, 0, 26, 0, 0, 0x01, 0x7F] + Be32(session) + [0, 0]
            + [0, 0, 0, 1] + [0, 0x0B] + [3, 0x80, 0, 0]
  {}

  lemma PolicyGetDigestOnWire(session: u32)
    ensures PolicyGetDigestFrame(session) == [0x80, 0x01, 0, 0, 0, 14, 0, 0, 0x01, 0x89] + Be32(session)
  {}

  lemma FlushContextOnWire(handle: u32)
    ensures FlushContextFrame(handle) == [0x80, 0x01, 0, 0, 0, 14, 0, 0, 0x01, 0x65] + Be32(handle)
  {}

  lemma PcrExtendOnWire(pcr: u32, digest: bytes)
    requires |digest| == 32
    ensures PcrExtendFrame(pcr, digest)
         == [0x80, 0x02, 0, 0, 0, 65, 0, 0, 0x01, 0x82] + Be32(pcr) + [0, 0, 0, 9] + [0x40, 0, 0, 9, 0, 0, 0, 0, 0]
            + [0, 0, 0, 1] + [0, 0x0B] + digest
  {}

  lemma UnsealOnWire(item: u32, session: u32)
    ensures UnsealFrame(item, session)
         == [0x80, 0x02, 0, 0, 0, 27, 0, 0, 0x01, 0x5E] + Be32(item) + [0, 0, 0, 9] + Be32(session) + [0, 0, 0, 0, 0]
  {}

  lemma DaLockResetOnWire()
    ensures DaLockResetFrame()
         == [0x80, 0x02, 0, 0, 0, 27, 0, 0, 0x01, 0x39] + [0x40, 0, 0, 0x0A]
            + [0, 0, 0, 9] + [0x40, 0, 0, 9, 0, 0, 0, 0, 0]
  {}

  lemma EvictControlOnWire(item: u32, persistent: u32)
    ensures EvictControlFrame(item, persistent)
         == [0x80, 0x02, 0, 0, 0, 35, 0, 0, 0x01, 0x20] + [0x40, 0, 0, 1] + Be32(item)
            + [0, 0, 0, 9] + [0x40, 0, 0, 9, 0, 0, 0, 0, 0] + Be32(persistent)
  {}

  /** An RSA-2048 storage key with AES-128-CFB, no signing scheme and the default exponent. */
  lemma PrimaryTemplateOnWire()
    ensures PrimaryTemplate()
         == [0, 0x01, 0, 0x0B, 0, 0x03, 0, 0x72, 0, 0, 0, 0x06, 0, 0x80, 0, 0x43, 0, 0x10, 0x08, 0]
            + [0, 0, 0, 0, 0, 0]
  {}

  lemma CreatePrimaryOnWire()
    ensures CreatePrimaryFrame()
         == [0x80, 0x02, 0, 0, 0, 67, 0, 0, 0x01, 0x31] + [0x40, 0, 0, 1]
            + [0, 0, 0, 9] + [0x40, 0, 0, 9, 0, 0, 0, 0, 0]
            + [0, 4, 0, 0, 0, 0] + [0, 26] + PrimaryTemplate() + [0, 0] + [0, 0, 0, 0]
  {}

  lemma SensitiveAreaOnWire(data: bytes)
    requires |data| <= 65531
    ensures SensitiveArea(data) == [0, 0] + Be16(|data|) + data
  {}

  /** A keyed-hash object that only its policy opens, fixed to this TPM and its parent. */
  lemma SealedPublicOnWire(policy: bytes)
    requires |policy| <= 65521
    ensures SealedPublic(policy) == [0, 0x08, 0, 0x0B, 0, 0, 0, 0x12] + Be16(|policy|) + policy + [0, 0x10, 0, 0]
  {}

  lemma CreateOnWire(parent: u32, data: bytes, policy: bytes)
    requires |data| <= 65531 && |policy| <= 65521
    ensures CreateFrame(parent, data, policy)
         == [0x80, 0x02] + Be32(55 + |data| + |policy|) + [0, 0, 0x01, 0x53] + Be32(parent)
            + [0, 0, 0, 9] + [0x40, 0, 0, 9, 0, 0, 0, 0, 0]
            + Be16(4 + |data|) + SensitiveArea(data) + Be16(14 + |policy|) + SealedPublic(policy)
            + [0, 0] + [0, 0, 0, 0]
  {
    CreateBody(parent, SensitiveArea(data), SealedPublic(policy));
  }

  lemma CreateBody(parent: u32, sensitive: bytes, publicArea: bytes)
    requires |sensitive| < 0x1_0000 && |publicArea| < 0x1_0000
    ensures Authorized(CC_CREATE, parent, RS_PW, CreateParams(sensitive, publicArea))
         == [0x80, 0x02] + Be32(37 + |sensitive| + |publicArea|) + [0, 0, 0x01, 0x53] + Be32(parent)
            + [0, 0, 0, 9] + [0x40, 0, 0, 9, 0, 0, 0, 0, 0]
            + Be16(|sensitive|) + sensitive + Be16(|publicArea|) + publicArea + [0, 0] + [0, 0, 0, 0]
  {
    AuthorizedOnWire(parent, CreateParams(sensitive, publicArea));
    ParamsOnWire(sensitive, publicArea);
    Regroup(CreateFront(parent, 37 + |sensitive| + |publicArea|), Be16(|sensitive|), sensitive, Be16(|publicArea|),
            publicArea);
  }

  function CreateFront(parent: u32, size: u32): bytes {
    [0x80, 0x02] + Be32(size) + [0, 0, 0x01, 0x53] + Be32(parent) + [0, 0, 0, 9] + [0x40, 0, 0, 9, 0, 0, 0, 0, 0]
  }

  lemma AuthorizedOnWire(handle: u32, params: bytes)
    requires |params| < 0x1_0000_0000 - 27
    ensures Authorized(CC_CREATE, handle, RS_PW, params) == CreateFront(handle, 27 + |params|) + params
  {}

  lemma ParamsOnWire(sensitive: bytes, publicArea: bytes)
    requires |sensitive| < 0x1_0000 && |publicArea| < 0x1_0000
    ensures CreateParams(sensitive, publicArea)
         == Be16(|sensitive|) + sensitive + Be16(|publicArea|) + publicArea + [0, 0] + [0, 0, 0, 0]
  {}

  lemma Regroup(front: bytes, a: bytes, b: bytes, c: bytes, d: bytes)
    ensures front + (a + b + c + d + [0, 0] + [0, 0, 0, 0]) == front + a + b + c + d + [0, 0] + [0, 0, 0, 0]
  {}

  lemma LoadOnWire(parent: u32, privateArea: bytes, publicArea: bytes)
    requires |privateArea| + |publicArea| < 0x1_0000_0000 - 27
    ensures LoadFrame(parent, privateArea, publicArea)
         == [0x80, 0x02] + Be32(27 + |privateArea| + |publicArea|) + [0, 0, 0x01, 0x57] + Be32(parent)
            + [0, 0, 0, 9] + [0x40, 0, 0, 9, 0, 0, 0, 0, 0] + privateArea + publicArea
  {}

  // What else is sent, and what is looked for in replies.

  /** The persistent handles, and the marks in front of a sealed secret, one for each mode. */
  lemma HandlesAndMarks()
    ensures DEFAULT_PRIMARY_HANDLE == 0x8100_0000
    ensures Dev.PersistentHandle() == 0x8100_1002 && Secure.PersistentHandle() == 0x8100_1003
    ensures |Dev.Prefix()| == 5 && forall i :: 0 <= i < 5 ==> Dev.Prefix()[i] == "devc:"[i] as int
    ensures |Secure.Prefix()| == 5 && forall i :: 0 <= i < 5 ==> Secure.Prefix()[i] == "secc:"[i] as int
  {}

  /** A reply asks for a retry with TPM_RC_YIELDED, TPM_RC_LOCKOUT or TPM_RC_RETRY. */
  lemma RetryCodes(reply: bytes)
    requires |reply| >= 10
    ensures IsRetry(ResponseCode(reply)) <==> reply[6..10] in {[0, 0, 9, 0x08], [0, 0, 9, 0x21], [0, 0, 9, 0x22]}
    ensures ResponseCode(reply) == RC_LOCKOUT <==> reply[6..10] == [0, 0, 9, 0x21]
  {
    var code := reply[6..10];
    assert code == [reply[6], reply[7], reply[8], reply[9]];
  }

  /** At most 21 attempts are made, and all of them before a request to retry is passed on. */
  lemma AttemptLimit<S>(o: Outcome<S>)
    requires Bounded(o, 0)
    ensures 1 <= |o.turns| <= 21
    ensures o.result.Ok? && IsRetry(ResponseCode(o.result.value)) ==> |o.turns| == 21
  {}

  /** Replies are read up to 4096 bytes. */
  lemma ReplyLimit(reply: bytes)
    ensures Received(Some(reply)) == Some(if |reply| <= 4096 then reply else reply[..4096])
  {}

  /** Sessions are started as policy sessions, which are of type 1. */
  lemma PolicySessionType()
    ensures StartAuthSessionFrame(SE_POLICY)[54] == 1
  {
    StartAuthSessionOnWire(SE_POLICY);
  }

  /** What follows a lockout on any device: that frame is written and one reply is read. */
  lemma ResetOnWire<S>(io: Io<S>, st: S)
    ensures var frame := [0x80, 0x02, 0, 0, 0, 27, 0, 0, 0x01, 0x39] + [0x40, 0, 0, 0x0A]
                         + [0, 0, 0, 9] + [0x40, 0, 0, 9, 0, 0, 0, 0, 0];
      Reset(io, st) == io.read(io.write(st, frame).0).0
  {
    DaLockResetOnWire();
  }
}
