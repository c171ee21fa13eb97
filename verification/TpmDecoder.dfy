/**
 How a TPM reads a command: the unmarshalling rules of TPM 2.0 Library Part 3, written
 independently of the builders and applied to arbitrary byte strings. The lemmas say that
 the TPM recovers from every frame exactly the fields the builder was given.
 */
module TpmDecoder {
  import opened Bytes
  import opened TpmFrames

  datatype Command =
    | Startup(startupType: u16)
    | StartAuthSession(sessionType: byte)
    | PolicyPcr(session: u32, select: bytes)
    | PolicyGetDigest(session: u32)
    | FlushContext(handle: u32)
    | PcrExtend(pcr: u32, auth: u32, digest: bytes)
    | Unseal(item: u32, auth: u32, continueSession: bool)
    | CreatePrimary(hierarchy: u32, auth: u32, template: bytes)
    | EvictControl(hierarchy: u32, item: u32, auth: u32, persistent: u32)
    | DaLockReset(hierarchy: u32, auth: u32)
    | Create(parent: u32, auth: u32, data: bytes, publicArea: bytes, policy: bytes)
    | Load(parent: u32, auth: u32, privateBlob: bytes, publicArea: bytes)

  // Unmarshalling primitives: a value and the bytes after it, or nothing when too short.

  function TakeU8(s: bytes): Option<(byte, bytes)> {
    if |s| < 1 then None else Some((s[0], s[1..]))
  }

  function TakeU16(s: bytes): Option<(u16, bytes)> {
    if |s| < 2 then None else Some((FromBe16(s[..2]), s[2..]))
  }

  function TakeU32(s: bytes): Option<(u32, bytes)> {
    if |s| < 4 then None else Some((FromBe32(s[..4]), s[4..]))
  }

  function Take(s: bytes, n: nat): Option<(bytes, bytes)> {
    if |s| < n then None else Some((s[..n], s[n..]))
  }

  function TakeSized(s: bytes): Option<(bytes, bytes)> {
    var (n, rest) :- TakeU16(s);
    Take(rest, n)
  }

  /** One authorization session: its handle and its attribute byte. */
  function TakeAuth(s: bytes): Option<((u32, byte), bytes)> {
    var (n, rest) :- TakeU32(s);
    var (area, after) :- Take(rest, n);
    var (session, a1) :- TakeU32(area);
    var (nonce, a2) :- TakeSized(a1);
    var (attributes, a3) :- TakeU8(a2);
    var (hmac, a4) :- TakeSized(a3);
    if a4 != [] then None else Some(((session, attributes), after))
  }

  function Decode(s: bytes): Option<Command> {
    var (tag, s1) :- TakeU16(s);
    var (size, s2) :- TakeU32(s1);
    var (code, body) :- TakeU32(s2);
    if size != |s| then None
    else if tag == ST_NO_SESSIONS then DecodePlain(code, body)
    else if tag == ST_SESSIONS then DecodeAuthorized(code, body)
    else None
  }

  function DecodePlain(code: u32, body: bytes): Option<Command> {
    if code == CC_STARTUP then
      var (t, rest) :- TakeU16(body);
      if rest == [] then Some(Startup(t)) else None
    else if code == CC_START_AUTH_SESSION then DecodeStartAuthSession(body)
    else if code == CC_POLICY_PCR then DecodePolicyPcr(body)
    else if code == CC_POLICY_GET_DIGEST then
      var (session, rest) :- TakeU32(body);
      if rest == [] then Some(PolicyGetDigest(session)) else None
    else if code == CC_FLUSH_CONTEXT then
      var (handle, rest) :- TakeU32(body);
      if rest == [] then Some(FlushContext(handle)) else None
    else None
  }

  /** Only unbound, unsalted SHA-256 sessions without parameter encryption. */
  function DecodeStartAuthSession(body: bytes): Option<Command> {
    var (key, s1) :- TakeU32(body);
    var (bind, s2) :- TakeU32(s1);
    var (nonce, s3) :- TakeSized(s2);
    var (salt, s4) :- TakeSized(s3);
    var (sessionType, s5) :- TakeU8(s4);
    var (symmetric, s6) :- TakeU16(s5);
    var (hash, rest) :- TakeU16(s6);
    if rest == [] && key == RH_NULL && bind == RH_NULL && 16 <= |nonce| <= 32 && salt == []
       && symmetric == ALG_NULL && hash == ALG_SHA256
    then Some(StartAuthSession(sessionType)) else None
  }

  /** One SHA-256 selection and no expected digest. */
  function DecodePolicyPcr(body: bytes): Option<Command> {
    var (session, s1) :- TakeU32(body);
    var (expected, s2) :- TakeSized(s1);
    var select :- DecodeSelection(s2);
    if expected == [] then Some(PolicyPcr(session, select)) else None
  }

  function DecodeSelection(s: bytes): (select: Option<bytes>)
    ensures select.Some? ==> |select.value| == 3
  {
    var (count, s1) :- TakeU32(s);
    var (hash, s2) :- TakeU16(s1);
    var (sizeofSelect, s3) :- TakeU8(s2);
    var (select, rest) :- Take(s3, 3);
    if rest == [] && count == 1 && hash == ALG_SHA256 && sizeofSelect == 3 then Some(select) else None
  }

  function DecodeAuthorized(code: u32, body: bytes): Option<Command> {
    var (handle, s1) :- TakeU32(body);
    if code == CC_EVICT_CONTROL then
      var (item, s2) :- TakeU32(s1);
      var (auth, params) :- TakeAuth(s2);
      var (persistent, rest) :- TakeU32(params);
      if rest == [] then Some(EvictControl(handle, item, auth.0, persistent)) else None
    else
      var (auth, params) :- TakeAuth(s1);
      DecodeParams(code, handle, auth.0, auth.1, params)
  }

  function DecodeParams(code: u32, handle: u32, auth: u32, attributes: byte, params: bytes): Option<Command> {
    if code == CC_PCR_EXTEND then DecodePcrExtend(handle, auth, params)
    else if code == CC_UNSEAL then
      if params == [] then Some(Unseal(handle, auth, attributes % 2 == 1)) else None
    else if code == CC_DA_LOCK_RESET then
      if params == [] then Some(DaLockReset(handle, auth)) else None
    else if code == CC_CREATE_PRIMARY then DecodeCreatePrimary(handle, auth, params)
    else if code == CC_CREATE then DecodeCreate(handle, auth, params)
    else if code == CC_LOAD then
      var (privateBlob, p1) :- TakeSized(params);
      var (publicArea, rest) :- TakeSized(p1);
      if rest == [] then Some(Load(handle, auth, privateBlob, publicArea)) else None
    else None
  }

  function DecodePcrExtend(pcr: u32, auth: u32, params: bytes): Option<Command> {
    var (count, p1) :- TakeU32(params);
    var (hash, p2) :- TakeU16(p1);
    var (digest, rest) :- Take(p2, SHA256_DIGEST_SIZE);
    if rest == [] && count == 1 && hash == ALG_SHA256 then Some(PcrExtend(pcr, auth, digest)) else None
  }

  /** The data to seal and the public area; user auth, outside info and creation PCRs must be empty. */
  function TakeCreateParams(params: bytes): Option<(bytes, bytes)> {
    var (sensitive, p1) :- TakeSized(params);
    var (publicArea, p2) :- TakeSized(p1);
    var (outsideInfo, p3) :- TakeSized(p2);
    var (pcrCount, rest) :- TakeU32(p3);
    var (userAuth, s1) :- TakeSized(sensitive);
    var (data, s2) :- TakeSized(s1);
    if rest == [] && s2 == [] && userAuth == [] && outsideInfo == [] && pcrCount == 0
    then Some((data, publicArea)) else None
  }

  function DecodeCreatePrimary(hierarchy: u32, auth: u32, params: bytes): Option<Command> {
    var (data, template) :- TakeCreateParams(params);
    if data == [] then Some(CreatePrimary(hierarchy, auth, template)) else None
  }

  function DecodeCreate(parent: u32, auth: u32, params: bytes): Option<Command> {
    var (data, publicArea) :- TakeCreateParams(params);
    var policy :- DecodeSealedPublic(publicArea);
    Some(Create(parent, auth, data, publicArea, policy))
  }

  /** The authorization policy of a sealed-data public area. */
  function DecodeSealedPublic(publicArea: bytes): Option<bytes> {
    var (kind, s1) :- TakeU16(publicArea);
    var (nameAlg, s2) :- TakeU16(s1);
    var (attributes, s3) :- TakeU32(s2);
    var (policy, s4) :- TakeSized(s3);
    var (scheme, s5) :- TakeU16(s4);
    var (unique, rest) :- TakeSized(s5);
    if rest == [] && kind == ALG_KEYEDHASH && nameAlg == ALG_SHA256 && attributes == SEALED_OBJ_ATTRS
       && scheme == ALG_NULL && unique == []
    then Some(policy) else None
  }

  // Reading back what the builders marshal.

  lemma TakeSizedOf(s: bytes, rest: bytes)
    requires |s| < 0x1_0000
    ensures TakeSized(Sized(s) + rest) == Some((s, rest))
  {
    assert Sized(s) + rest == Be16(|s|) + (s + rest);
  }

  lemma TakeAuthOf(session: u32, rest: bytes)
    ensures TakeAuth(AuthArea(session) + rest) == Some(((session, 0), rest))
  {
    assert AuthArea(session) + rest == Be32(9) + (Auth(session) + rest);
    assert Auth(session) == Be32(session) + (Sized([]) + ([0] + (Sized([]) + [])));
    TakeSizedOf([], [0] + (Sized([]) + []));
    TakeSizedOf([], []);
  }

  lemma DecodeFrame(tag: u16, code: u32, body: bytes)
    requires |body| < 0x1_0000_0000 - 10
    ensures tag == ST_NO_SESSIONS ==> Decode(Frame(tag, code, body)) == DecodePlain(code, body)
    ensures tag == ST_SESSIONS ==> Decode(Frame(tag, code, body)) == DecodeAuthorized(code, body)
  {
    assert Frame(tag, code, body) == Be16(tag) + (Be32(10 + |body|) + (Be32(code) + body));
  }

  lemma DecodeAuthorizedFrame(code: u32, handle: u32, session: u32, params: bytes)
    requires |params| < 0x1_0000_0000 - 27 && code != CC_EVICT_CONTROL
    ensures Decode(Authorized(code, handle, session, params)) == DecodeParams(code, handle, session, 0, params)
  {
    DecodeFrame(ST_SESSIONS, code, Be32(handle) + AuthArea(session) + params);
    Associate(Be32(handle), AuthArea(session), params);
    DecodeAuthorizedBody(code, handle, session, params);
  }

  lemma DecodeAuthorizedBody(code: u32, handle: u32, session: u32, params: bytes)
    requires code != CC_EVICT_CONTROL
    ensures DecodeAuthorized(code, Be32(handle) + (AuthArea(session) + params))
         == DecodeParams(code, handle, session, 0, params)
  {
    TakeAuthOf(session, params);
  }

  lemma ReadsStartup()
    ensures Decode(StartupFrame()) == Some(Startup(0))
  {
    DecodeFrame(ST_NO_SESSIONS, CC_STARTUP, Be16(0));
  }

  lemma ReadsStartAuthSession(sessionType: byte)
    ensures Decode(StartAuthSessionFrame(sessionType)) == Some(StartAuthSession(sessionType))
  {
    DecodeFrame(ST_NO_SESSIONS, CC_START_AUTH_SESSION, StartAuthSessionBody(sessionType));
    ReadsStartAuthSessionBody(sessionType);
  }

  lemma ReadsStartAuthSessionBody(sessionType: byte)
    ensures DecodeStartAuthSession(StartAuthSessionBody(sessionType)) == Some(StartAuthSession(sessionType))
  {
    var nonce := Zeros(SHA256_DIGEST_SIZE);
    var tail := [sessionType] + Be16(ALG_NULL) + Be16(ALG_SHA256);
    Regroup5(Be32(RH_NULL), Be32(RH_NULL), Sized(nonce), Sized([]), tail);
    TakeSizedOf(nonce, Sized([]) + tail);
    TakeSizedOf([], tail);
    assert tail == [sessionType] + (Be16(ALG_NULL) + (Be16(ALG_SHA256) + []));
  }

  lemma ReadsPolicyPcr(session: u32)
    ensures Decode(PolicyPcrFrame(session)) == Some(PolicyPcr(session, [0x80, 0, 0]))
  {
    var bitmap := [0x80] + Zeros(2);
    DecodeFrame(ST_NO_SESSIONS, CC_POLICY_PCR, Be32(session) + Sized([]) + Selection(bitmap));
    ReadsPolicyPcrBody(session, bitmap);
    assert bitmap == [0x80, 0, 0];
  }

  lemma ReadsPolicyPcrBody(session: u32, bitmap: bytes)
    requires |bitmap| == 3
    ensures DecodePolicyPcr(Be32(session) + Sized([]) + Selection(bitmap)) == Some(PolicyPcr(session, bitmap))
  {
    assert Be32(session) + Sized([]) + Selection(bitmap) == Be32(session) + (Sized([]) + Selection(bitmap));
    TakeSizedOf([], Selection(bitmap));
    ReadsSelection(bitmap);
  }

  lemma ReadsSelection(bitmap: bytes)
    requires |bitmap| == 3
    ensures DecodeSelection(Selection(bitmap)) == Some(bitmap)
  {
    Regroup5(Be32(1), Be16(ALG_SHA256), [3], bitmap, []);
    assert Selection(bitmap) + [] == Selection(bitmap);
  }

  lemma ReadsPolicyGetDigest(session: u32)
    ensures Decode(PolicyGetDigestFrame(session)) == Some(PolicyGetDigest(session))
  {
    DecodeFrame(ST_NO_SESSIONS, CC_POLICY_GET_DIGEST, Be32(session));
  }

  lemma ReadsFlushContext(handle: u32)
    ensures Decode(FlushContextFrame(handle)) == Some(FlushContext(handle))
  {
    DecodeFrame(ST_NO_SESSIONS, CC_FLUSH_CONTEXT, Be32(handle));
  }

  lemma ReadsPcrExtend(pcr: u32, digest: bytes)
    requires |digest| == SHA256_DIGEST_SIZE
    ensures Decode(PcrExtendFrame(pcr, digest)) == Some(PcrExtend(pcr, RS_PW, digest))
  {
    var params := Be32(1) + Be16(ALG_SHA256) + digest;
    DecodeAuthorizedFrame(CC_PCR_EXTEND, pcr, RS_PW, params);
    assert params == Be32(1) + (Be16(ALG_SHA256) + (digest + []));
  }

  lemma ReadsUnseal(item: u32, session: u32)
    ensures Decode(UnsealFrame(item, session)) == Some(Unseal(item, session, false))
  {
    DecodeAuthorizedFrame(CC_UNSEAL, item, session, []);
  }

  lemma ReadsDaLockReset()
    ensures Decode(DaLockResetFrame()) == Some(DaLockReset(RH_LOCKOUT, RS_PW))
  {
    DecodeAuthorizedFrame(CC_DA_LOCK_RESET, RH_LOCKOUT, RS_PW, []);
  }

  lemma ReadsEvictControl(item: u32, persistent: u32)
    ensures Decode(EvictControlFrame(item, persistent)) == Some(EvictControl(RH_OWNER, item, RS_PW, persistent))
  {
    var body := Be32(RH_OWNER) + Be32(item) + AuthArea(RS_PW) + Be32(persistent);
    DecodeFrame(ST_SESSIONS, CC_EVICT_CONTROL, body);
    Regroup5(Be32(RH_OWNER), Be32(item), AuthArea(RS_PW), Be32(persistent), []);
    assert body + [] == body;
    TakeAuthOf(RS_PW, Be32(persistent) + []);
  }

  lemma Regroup5(a: bytes, b: bytes, c: bytes, d: bytes, e: bytes)
    ensures a + b + c + d + e == a + (b + (c + (d + e)))
  {}

  lemma ReadsCreateParams(data: bytes, publicArea: bytes)
    requires |data| <= 65531 && |publicArea| < 0x1_0000
    ensures TakeCreateParams(CreateParams(SensitiveArea(data), publicArea)) == Some((data, publicArea))
  {
    var sensitive := SensitiveArea(data);
    Regroup5(Sized(sensitive), Sized(publicArea), Sized([]), Be32(0), []);
    assert CreateParams(sensitive, publicArea) + [] == CreateParams(sensitive, publicArea);
    TakeSizedOf(sensitive, Sized(publicArea) + (Sized([]) + (Be32(0) + [])));
    TakeSizedOf(publicArea, Sized([]) + (Be32(0) + []));
    TakeSizedOf([], Be32(0) + []);
    assert sensitive == Sized([]) + (Sized(data) + []);
    TakeSizedOf([], Sized(data) + []);
    TakeSizedOf(data, []);
  }

  lemma ReadsCreatePrimary()
    ensures Decode(CreatePrimaryFrame()) == Some(CreatePrimary(RH_OWNER, RS_PW, PrimaryTemplate()))
  {
    DecodeAuthorizedFrame(CC_CREATE_PRIMARY, RH_OWNER, RS_PW, CreateParams(SensitiveArea([]), PrimaryTemplate()));
    ReadsPrimaryParams(PrimaryTemplate());
  }

  lemma ReadsPrimaryParams(template: bytes)
    requires |template| < 0x1_0000
    ensures DecodeParams(CC_CREATE_PRIMARY, RH_OWNER, RS_PW, 0, CreateParams(SensitiveArea([]), template))
         == Some(CreatePrimary(RH_OWNER, RS_PW, template))
  {
    ReadsCreateParams([], template);
  }

  lemma ReadsSealedPublic(policy: bytes)
    requires |policy| <= 65521
    ensures DecodeSealedPublic(SealedPublic(policy)) == Some(policy)
  {
    var tail := Be16(ALG_NULL) + (Sized([]) + []);
    assert SealedPublic(policy)
        == Be16(ALG_KEYEDHASH) + (Be16(ALG_SHA256) + (Be32(SEALED_OBJ_ATTRS) + (Sized(policy) + tail))) by {
      RegroupPublic(Be16(ALG_KEYEDHASH), Be16(ALG_SHA256), Be32(SEALED_OBJ_ATTRS), Sized(policy), Be16(ALG_NULL),
                    Sized([]));
    }
    TakeSizedOf(policy, tail);
    TakeSizedOf([], []);
  }

  lemma RegroupPublic(a: bytes, b: bytes, c: bytes, d: bytes, e: bytes, f: bytes)
    ensures a + b + c + d + e + f == a + (b + (c + (d + (e + (f + [])))))
  {}

  lemma ReadsCreate(parent: u32, data: bytes, policy: bytes)
    requires |data| <= 65531 && |policy| <= 65521
    ensures Decode(CreateFrame(parent, data, policy))
         == Some(Create(parent, RS_PW, data, SealedPublic(policy), policy))
  {
    DecodeAuthorizedFrame(CC_CREATE, parent, RS_PW, CreateParams(SensitiveArea(data), SealedPublic(policy)));
    ReadsCreateParams(data, SealedPublic(policy));
    ReadsSealedPublic(policy);
  }

  /** The blobs Load is given are the TPM2B structures that Create returned. */
  lemma ReadsLoad(parent: u32, privateBlob: bytes, publicArea: bytes)
    requires |privateBlob| < 0x1_0000 && |publicArea| < 0x1_0000
    ensures Decode(LoadFrame(parent, Sized(privateBlob), Sized(publicArea)))
         == Some(Load(parent, RS_PW, privateBlob, publicArea))
  {
    DecodeAuthorizedFrame(CC_LOAD, parent, RS_PW, Sized(privateBlob) + Sized(publicArea));
    TakeSizedOf(privateBlob, Sized(publicArea));
    assert Sized(publicArea) == Sized(publicArea) + [];
    TakeSizedOf(publicArea, []);
  }
}
