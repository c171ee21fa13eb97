/** The TPM 2.0 command frames that src/tpm2.rs marshals by hand, each built from its fields. */
module TpmFrames {
  import opened Bytes

  const CC_EVICT_CONTROL: u32 := 0x120
  const CC_CREATE_PRIMARY: u32 := 0x131
  const CC_DA_LOCK_RESET: u32 := 0x139
  const CC_STARTUP: u32 := 0x144
  const CC_CREATE: u32 := 0x153
  const CC_LOAD: u32 := 0x157
  const CC_UNSEAL: u32 := 0x15E
  const CC_FLUSH_CONTEXT: u32 := 0x165
  const CC_START_AUTH_SESSION: u32 := 0x176
  const CC_POLICY_PCR: u32 := 0x17F
  const CC_PCR_EXTEND: u32 := 0x182
  const CC_POLICY_GET_DIGEST: u32 := 0x189

  const ST_NO_SESSIONS: u16 := 0x8001
  const ST_SESSIONS: u16 := 0x8002
  const RH_OWNER: u32 := 0x4000_0001
  const RH_NULL: u32 := 0x4000_0007
  const RS_PW: u32 := 0x4000_0009
  const RH_LOCKOUT: u32 := 0x4000_000A
  const ALG_RSA: u16 := 0x0001
  const ALG_AES: u16 := 0x0006
  const ALG_KEYEDHASH: u16 := 0x0008
  const ALG_SHA256: u16 := 0x000B
  const ALG_NULL: u16 := 0x0010
  const ALG_CFB: u16 := 0x0043

  const SHA256_DIGEST_SIZE: nat := 32
  const STORAGE_KEY_ATTRS: u32 := 0x0003_0072
  const SEALED_OBJ_ATTRS: u32 := 0x0000_0012
  const PW_AUTH_SIZE: u32 := 9
  const SE_POLICY: byte := 1
  const SE_TRIAL: byte := 3

  /** A TPM2B structure: a two-byte size and that many bytes. */
  function Sized(s: bytes): (b: bytes)
    requires |s| < 0x1_0000
    ensures |b| == 2 + |s|
  {
    Be16(|s|) + s
  }

  /** A whole frame: the size field counts the header and everything after it. */
  function Frame(tag: u16, code: u32, body: bytes): (f: bytes)
    requires |body| < 0x1_0000_0000 - 10
    ensures |f| == 10 + |body| && f[10..] == body
  {
    Header(tag, 10 + |body|, code) + body
  }

  function Header(tag: u16, size: u32, code: u32): (h: bytes)
    ensures |h| == 10
  {
    Be16(tag) + Be32(size) + Be32(code)
  }

  /** One authorization session: handle, empty nonce, no attributes, empty HMAC. */
  function Auth(session: u32): (a: bytes)
    ensures |a| == 9
  {
    Be32(session) + Be16(0) + [0] + Be16(0)
  }

  /** The authorization area: its size and its one session. */
  function AuthArea(session: u32): (a: bytes)
    ensures |a| == 13
  {
    Be32(PW_AUTH_SIZE) + Auth(session)
  }

  /** A command on one handle, authorized by one session. */
  function Authorized(code: u32, handle: u32, session: u32, params: bytes): (f: bytes)
    requires |params| < 0x1_0000_0000 - 27
    ensures |f| == 27 + |params|
  {
    Frame(ST_SESSIONS, code, Be32(handle) + AuthArea(session) + params)
  }

  function StartupFrame(): bytes {
    Frame(ST_NO_SESSIONS, CC_STARTUP, Be16(0))
  }

  function StartAuthSessionFrame(sessionType: byte): bytes {
    Frame(ST_NO_SESSIONS, CC_START_AUTH_SESSION, StartAuthSessionBody(sessionType))
  }

  function StartAuthSessionBody(sessionType: byte): (b: bytes)
    ensures |b| == 49
  {
    Be32(RH_NULL) + Be32(RH_NULL) + Sized(Zeros(SHA256_DIGEST_SIZE)) + Sized([])
    + ([sessionType] + Be16(ALG_NULL) + Be16(ALG_SHA256))
  }

  /** PolicyPCR over one SHA-256 selection; the three-byte bitmap selects PCR 7. */
  function PolicyPcrFrame(session: u32): bytes {
    Frame(ST_NO_SESSIONS, CC_POLICY_PCR, Be32(session) + Sized([]) + Selection([0x80] + Zeros(2)))
  }

  function Selection(bitmap: bytes): (s: bytes)
    requires |bitmap| == 3
    ensures |s| == 10
  {
    Be32(1) + Be16(ALG_SHA256) + [3] + bitmap
  }

  function PolicyGetDigestFrame(session: u32): bytes {
    Frame(ST_NO_SESSIONS, CC_POLICY_GET_DIGEST, Be32(session))
  }

  function FlushContextFrame(handle: u32): bytes {
    Frame(ST_NO_SESSIONS, CC_FLUSH_CONTEXT, Be32(handle))
  }

  function PcrExtendFrame(pcr: u32, digest: bytes): bytes
    requires |digest| == SHA256_DIGEST_SIZE
  {
    Authorized(CC_PCR_EXTEND, pcr, RS_PW, Be32(1) + Be16(ALG_SHA256) + digest)
  }

  function UnsealFrame(item: u32, session: u32): bytes {
    Authorized(CC_UNSEAL, item, session, [])
  }

  function DaLockResetFrame(): bytes {
    Authorized(CC_DA_LOCK_RESET, RH_LOCKOUT, RS_PW, [])
  }

  function EvictControlFrame(item: u32, persistent: u32): bytes {
    Frame(ST_SESSIONS, CC_EVICT_CONTROL, Be32(RH_OWNER) + Be32(item) + AuthArea(RS_PW) + Be32(persistent))
  }

  /** The public template of the RSA-2048 storage primary. */
  function PrimaryTemplate(): (p: bytes)
    ensures |p| == 26
  {
    Be16(ALG_RSA) + Be16(ALG_SHA256) + Be32(STORAGE_KEY_ATTRS) + Be16(0) + Be16(ALG_AES) + Be16(128)
    + Be16(ALG_CFB) + Be16(ALG_NULL) + Be16(2048) + Be32(0) + Be16(0)
  }

  /** Sensitive area, public area, no outside info and no creation PCRs. */
  function CreateParams(sensitive: bytes, publicArea: bytes): (p: bytes)
    requires |sensitive| < 0x1_0000 && |publicArea| < 0x1_0000
    ensures |p| == 10 + |sensitive| + |publicArea|
  {
    Sized(sensitive) + Sized(publicArea) + Sized([]) + Be32(0)
  }

  function CreatePrimaryFrame(): bytes {
    Authorized(CC_CREATE_PRIMARY, RH_OWNER, RS_PW, CreateParams(SensitiveArea([]), PrimaryTemplate()))
  }

  /** The sensitive area of a new object: empty user auth, then the data to seal. */
  function SensitiveArea(data: bytes): (s: bytes)
    requires |data| <= 65531
    ensures |s| == 4 + |data|
  {
    Sized([]) + Sized(data)
  }

  /** The public area of a sealed object: a keyed-hash object under an authorization policy. */
  function SealedPublic(policy: bytes): (p: bytes)
    requires |policy| <= 65521
    ensures |p| == 14 + |policy|
  {
    Be16(ALG_KEYEDHASH) + Be16(ALG_SHA256) + Be32(SEALED_OBJ_ATTRS) + Sized(policy) + Be16(ALG_NULL) + Sized([])
  }

  function CreateFrame(parent: u32, data: bytes, policy: bytes): (f: bytes)
    requires |data| <= 65531 && |policy| <= 65521
    ensures |f| == 55 + |data| + |policy|
  {
    Authorized(CC_CREATE, parent, RS_PW, CreateParams(SensitiveArea(data), SealedPublic(policy)))
  }

  function LoadFrame(parent: u32, privateArea: bytes, publicArea: bytes): bytes
    requires |privateArea| + |publicArea| < 0x1_0000_0000 - 27
  {
    Authorized(CC_LOAD, parent, RS_PW, privateArea + publicArea)
  }
}
