/**
 The loader's `main`: read the configuration, decide whether Secure Boot is on, verify what it loads
 against the signature database, and hand over to the kernel or reboot.
 */
module LoaderBoot {
  import opened Bytes
  import opened SignatureDatabase
  import opened SignatureSearch

  /**
   What the firmware and the boot partition hold. `secureBoot` and `db` are what reading those
   variables yields, `None` when it fails; `commandLine` takes the first line of the configuration.
   */
  datatype Machine = Machine(config: Option<bytes>, secureBoot: Option<bytes>, db: Option<bytes>,
                             kernel: Option<bytes>, initrd: Option<bytes>,
                             crypto: Crypto, files: string -> Option<bytes>, commandLine: bytes -> string)

  /** `ramdisk` is empty when the kernel is given none. */
  datatype Outcome = Reboot | Handover(cmdline: string, kernel: bytes, ramdisk: bytes)

  datatype Role = ConfigRole | KernelRole | InitrdRole

  function PathOf(role: Role): Template {
    match role
    case ConfigRole => Template("\\EFI\\BOOT\\", ".sig")
    case KernelRole => Template("\\EFI\\BOOT\\", ".kernel.sig")
    case InitrdRole => Template("\\EFI\\BOOT\\", ".initrd.sig")
  }

  predicate SecureBootOn(m: Machine) {
    m.secureBoot.Some? && m.secureBoot.value != [] && m.secureBoot.value[0] == 1
  }

  function Query(m: Machine, role: Role, data: bytes): Search {
    Search(m.crypto, m.files, data, PathOf(role))
  }

  /** An RSA certificate of the database signed `data`, and the signature is in the boot directory under this name. */
  predicate SignedIn(m: Machine, der: bytes, data: bytes, suffix: string) {
    && m.crypto.parse(der).Some?
    && var cert := m.crypto.parse(der).value;
       var sig := m.files("\\EFI\\BOOT\\" + cert.keyId + suffix);
       && sig.Some? && cert.isRsa && m.crypto.isRsaKey(cert.key)
       && m.crypto.rsaVerify(cert.key, m.crypto.sha256(data), sig.value)
  }

  /** Some entry the loader visits in this machine's database signed `data` under names with this suffix. */
  predicate Trusted(m: Machine, data: bytes, suffix: string) {
    && m.db.Some? && m.db.value != []
    && var slices := LoaderWalk(m.db.value, 0).slices;
       exists i :: 0 <= i < |slices| && SignedIn(m, slices[i], data, suffix)
  }

  /** Everything that will be handed over, and the configuration, is trusted. */
  predicate AllTrusted(m: Machine)
    requires m.config.Some? && m.kernel.Some?
  {
    && Trusted(m, m.config.value, ".sig") && Trusted(m, m.kernel.value, ".kernel.sig")
    && (m.initrd.Some? ==> Trusted(m, m.initrd.value, ".initrd.sig"))
  }

  function Suffix(role: Role): string {
    match role
    case ConfigRole => ".sig"
    case KernelRole => ".kernel.sig"
    case InitrdRole => ".initrd.sig"
  }

  /** An entry matches if and only if it signed the data. */
  lemma MatchMeans(m: Machine, role: Role, data: bytes, der: bytes)
    ensures Judge(Query(m, role, data), der) == Match <==> SignedIn(m, der, data, Suffix(role))
  {}

  /** The loader checks a part of the boot against the database. */
  method Check(m: Machine, role: Role, data: bytes) returns (ok: bool)
    requires m.db.Some? && m.db.value != []
    ensures ok <==> Trusted(m, data, Suffix(role))
  {
    var verdict := VerifyDataSignature(Query(m, role, data), m.db.value);
    ok := verdict == Accepted;
    ghost var slices := LoaderWalk(m.db.value, 0).slices;
    forall i | 0 <= i < |slices|
      ensures Judge(Query(m, role, data), slices[i]) == Match <==> SignedIn(m, slices[i], data, Suffix(role))
    {
      MatchMeans(m, role, data, slices[i]);
    }
  }

  // Where the signing script puts the signatures, on a file system that writes backslashes.

  function WithBackslashes(path: string): (p: string)
    ensures |p| == |path|
  {
    seq(|path|, i requires 0 <= i < |path| => if path[i] == '/' then '\\' else path[i])
  }

  /** The file that `sign` writes for the configuration, the kernel or the initrd, below the boot partition. */
  function SignerFile(role: Role, keyId: string): string {
    match role
    case ConfigRole => "/EFI/BOOT/" + keyId + ".sig"
    case KernelRole => "/EFI/BOOT/" + keyId + ".kernel.sig"
    case InitrdRole => "/EFI/BOOT/" + keyId + ".initrd.sig"
  }

  /** The loader looks for each signature where the signing script writes it. */
  lemma LoaderLooksWhereSigned(role: Role, keyId: string)
    requires '/' !in keyId
    ensures PathOf(role).before + keyId + PathOf(role).after == WithBackslashes(SignerFile(role, keyId))
  {
    BootDirectory(keyId + Suffix(role));
    assert SignerFile(role, keyId) == "/EFI/BOOT/" + (keyId + Suffix(role));
  }

  lemma BootDirectory(name: string)
    requires '/' !in name
    ensures WithBackslashes("/EFI/BOOT/" + name) == "\\EFI\\BOOT\\" + name
  {}

  /**
   The loader hands over exactly when it has a configuration and a kernel and, with Secure Boot on,
   all it loaded is trusted; and it hands over what it verified. A database that is missing, unreadable or
   empty never leads to a handover, and the guard that skips the ramdisk's check is never met.
   */
  method Boot(m: Machine) returns (r: Outcome)
    ensures r.Handover? <==> m.config.Some? && m.kernel.Some? && (SecureBootOn(m) ==> AllTrusted(m))
    ensures r.Handover? ==> r.kernel == m.kernel.value && r.cmdline == m.commandLine(m.config.value)
    ensures r.Handover? ==> r.ramdisk == if m.initrd.Some? then m.initrd.value else []
  {
    if m.config.None? {
      return Reboot;
    }
    var cmdline := m.commandLine(m.config.value);
    var secureBoot := false;
    if m.secureBoot.Some? && m.secureBoot.value != [] {
      secureBoot := m.secureBoot.value[0] == 1;
    }
    var db: bytes := [];
    if secureBoot {
      if m.db.None? || m.db.value == [] {
        return Reboot;
      }
      db := m.db.value;
      var ok := Check(m, ConfigRole, m.config.value);
      if !ok {
        return Reboot;
      }
    }
    if m.kernel.None? {
      return Reboot;
    }
    if secureBoot {
      var ok := Check(m, KernelRole, m.kernel.value);
      if !ok {
        return Reboot;
      }
    }
    var ramdisk: bytes := [];
    if m.initrd.Some? {
      ramdisk := m.initrd.value;
      if secureBoot && db != [] {
        var ok := Check(m, InitrdRole, ramdisk);
        if !ok {
          return Reboot;
        }
      }
    }
    r := Handover(cmdline, m.kernel.value, ramdisk);
  }
}
