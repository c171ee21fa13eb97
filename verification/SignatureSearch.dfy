/**
 Looking for a certificate in the signature database that vouches for some data: the loader's
 `verify_data_signature` and the initrd's `parse_esl` and `verify_image_db`, as the loops they are.
 Certificate parsing, hashing and RSA are parameters.
 */
module SignatureSearch {
  import opened Bytes
  import opened SignatureDatabase
  import opened SignatureNames

  /** What the searches read of a parsed certificate; `key` is empty when it has no whole-byte key. */
  datatype Cert = Cert(keyId: string, isRsa: bool, key: bytes)

  datatype Crypto = Crypto(parse: bytes -> Option<Cert>,
                           sha256: bytes -> bytes,
                           isRsaKey: bytes -> bool,
                           rsaVerify: (bytes, bytes, bytes) -> bool)

  // The loader.

  /** What the loader makes of one database entry. */
  datatype Finding = NoCert | NoFile | Unsupported | Mismatch | Match

  /** A signature path: `before`, the key id, `after`. */
  datatype Template = Template(before: string, after: string)

  datatype Search = Search(crypto: Crypto, files: string -> Option<bytes>, data: bytes, template: Template)

  function Judge(q: Search, der: bytes): Finding {
    var cert := q.crypto.parse(der);
    if cert.None? then NoCert
    else
      var sig := q.files(q.template.before + cert.value.keyId + q.template.after);
      if sig.None? then NoFile
      else if !cert.value.isRsa || !q.crypto.isRsaKey(cert.value.key) then Unsupported
      else if q.crypto.rsaVerify(cert.value.key, q.crypto.sha256(q.data), sig.value) then Match
      else Mismatch
  }

  datatype Verdict = Accepted | MalformedDb | NoCertificates | NoSignatureFile | SignatureMismatch | UnsupportedKey

  /** Some visited entry has a finding that satisfies the condition. */
  predicate Any(q: Search, slices: seq<bytes>, f: set<Finding>) {
    exists i :: 0 <= i < |slices| && Judge(q, slices[i]) in f
  }

  const PARSED: set<Finding> := {NoFile, Unsupported, Mismatch, Match}
  const WITH_FILE: set<Finding> := {Unsupported, Mismatch, Match}

  /** What the loader answers after visiting these entries and ending this way. */
  function Answer(q: Search, w: Walk): Verdict {
    if Any(q, w.slices, {Match}) then Accepted
    else if !w.done then MalformedDb
    else if !Any(q, w.slices, PARSED) then NoCertificates
    else if !Any(q, w.slices, WITH_FILE) then NoSignatureFile
    else if Any(q, w.slices, {Mismatch}) then SignatureMismatch
    else UnsupportedKey
  }

  /** The counters the loader keeps while it searches. */
  datatype Tally = Tally(certs: nat, files: nat, mismatches: nat, unsupported: nat)

  predicate Tallies(q: Search, seen: seq<bytes>, t: Tally) {
    && (t.certs > 0 <==> Any(q, seen, PARSED))
    && (t.files > 0 <==> Any(q, seen, WITH_FILE))
    && (t.mismatches > 0 <==> Any(q, seen, {Mismatch}))
    && !Any(q, seen, {Match})
  }

  lemma AnyAppend(q: Search, a: seq<bytes>, b: seq<bytes>, f: set<Finding>)
    ensures Any(q, a + b, f) <==> Any(q, a, f) || Any(q, b, f)
  {
    forall i | 0 <= i < |a + b| && Judge(q, (a + b)[i]) in f
      ensures Any(q, a, f) || Any(q, b, f)
    {
      if i < |a| { assert Judge(q, a[i]) in f; } else { assert Judge(q, b[i - |a|]) in f; }
    }
    forall i | 0 <= i < |a| && Judge(q, a[i]) in f
      ensures Any(q, a + b, f)
    {
      assert (a + b)[i] == a[i];
    }
    forall i | 0 <= i < |b| && Judge(q, b[i]) in f
      ensures Any(q, a + b, f)
    {
      assert (a + b)[|a| + i] == b[i];
    }
  }

  lemma TallyOne(q: Search, seen: seq<bytes>, der: bytes, t: Tally, t': Tally)
    requires Tallies(q, seen, t) && Judge(q, der) != Match
    requires t'.certs == t.certs + (if Judge(q, der) in PARSED then 1 else 0)
    requires t'.files == t.files + (if Judge(q, der) in WITH_FILE then 1 else 0)
    requires t'.mismatches == t.mismatches + (if Judge(q, der) == Mismatch then 1 else 0)
    ensures Tallies(q, seen + [der], t')
  {
    AnyAppend(q, seen, [der], PARSED);
    AnyAppend(q, seen, [der], WITH_FILE);
    AnyAppend(q, seen, [der], {Mismatch});
    AnyAppend(q, seen, [der], {Match});
    assert forall f :: Any(q, [der], f) <==> Judge(q, [der][0]) in f;
  }

  /** Judges one entry and counts it. */
  method CheckEntry(q: Search, der: bytes, tally: Tally, ghost seen: seq<bytes>) returns (found: bool, t: Tally)
    requires Tallies(q, seen, tally)
    ensures found <==> Judge(q, der) == Match
    ensures !found ==> Tallies(q, seen + [der], t)
  {
    t := tally;
    found := false;
    var cert := q.crypto.parse(der);
    if cert.Some? {
      t := t.(certs := t.certs + 1);
      var sig := q.files(q.template.before + cert.value.keyId + q.template.after);
      if sig.Some? {
        t := t.(files := t.files + 1);
        if cert.value.isRsa {
          if q.crypto.isRsaKey(cert.value.key) {
            if q.crypto.rsaVerify(cert.value.key, q.crypto.sha256(q.data), sig.value) {
              return true, t;
            } else {
              t := t.(mismatches := t.mismatches + 1);
            }
          } else {
            t := t.(unsupported := t.unsupported + 1);
          }
        } else {
          t := t.(unsupported := t.unsupported + 1);
        }
      }
    }
    TallyOne(q, seen, der, tally, t);
  }

  lemma MatchFound(q: Search, passed: seq<bytes>, der: bytes, rest: seq<bytes>)
    requires Judge(q, der) == Match
    ensures Any(q, passed + ([der] + rest), {Match})
  {
    assert (passed + ([der] + rest))[|passed|] == der;
  }

  /** The inner loop: the entries of one list, stopping at a match. */
  method SearchList(q: Search, db: bytes, start: nat, end: nat, sigSize: nat, tally: Tally, ghost seen: seq<bytes>)
    returns (found: bool, t: Tally)
    requires start <= end <= |db| && sigSize >= 16 && Tallies(q, seen, tally)
    ensures found <==> Any(q, Entries(db, start, end, sigSize), {Match})
    ensures !found ==> Tallies(q, seen + Entries(db, start, end, sigSize), t)
  {
    ghost var all := Entries(db, start, end, sigSize);
    ghost var passed: seq<bytes> := [];
    var sigOffset := start;
    t := tally;
    assert seen + passed == seen;
    while sigOffset + sigSize <= end
      invariant start <= sigOffset <= end
      invariant all == passed + Entries(db, sigOffset, end, sigSize)
      invariant Tallies(q, seen + passed, t)
    {
      var der := db[sigOffset + 16..sigOffset + sigSize];
      ghost var rest := Entries(db, sigOffset + sigSize, end, sigSize);
      found, t := CheckEntry(q, der, t, seen + passed);
      if found {
        MatchFound(q, passed, der, rest);
        return;
      }
      assert seen + passed + [der] == seen + (passed + [der]);
      Associate(passed, [der], rest);
      passed := passed + [der];
      sigOffset := sigOffset + sigSize;
    }
    assert all == passed;
    AnyAppend(q, seen, all, {Match});
    found := false;
  }

  /** The header of the list at an offset, and the loader's checks of it. */
  method LoaderLook(db: bytes, offset: nat) returns (v: View)
    requires HasHeader(db, offset)
    ensures v == LoaderView(db, offset)
  {
    var isX509 := IsX509(db, offset);
    var listSize: nat := LeAt32(db, offset + 16);
    var headerSize: nat := LeAt32(db, offset + 20);
    var sigSize: nat := LeAt32(db, offset + 24);
    if listSize == 0 {
      return End;
    }
    if offset + listSize > |db| {
      return Malformed;
    }
    if !isX509 {
      return Skip(offset + listSize);
    }
    var sigsStart := offset + 28 + headerSize;
    var sigsEnd := offset + listSize;
    if sigSize < 16 || sigsStart > sigsEnd {
      return Malformed;
    }
    v := Take(sigsStart, sigsEnd, sigSize);
  }

  /** The error reported when no entry matched, from the counters. */
  function Classify(t: Tally): Verdict {
    if t.certs == 0 then NoCertificates
    else if t.files == 0 then NoSignatureFile
    else if t.mismatches > 0 then SignatureMismatch
    else UnsupportedKey
  }

  lemma ClassifyMeans(q: Search, seen: seq<bytes>, t: Tally)
    requires Tallies(q, seen, t)
    ensures Answer(q, Walk(seen, true)) == Classify(t)
    ensures Answer(q, Walk(seen, false)) == MalformedDb
  {}

  /**
   The outer loop, over the lists of the database: the loader's verdict on some data. It is accepted
   if and only if some visited entry matches, and for each refusal the answer says which of the
   others holds.
   */
  method VerifyDataSignature(q: Search, db: bytes) returns (r: Verdict)
    ensures r == Answer(q, LoaderWalk(db, 0))
  {
    ghost var whole := LoaderWalk(db, 0);
    ghost var rest := whole;
    ghost var seen: seq<bytes> := [];
    var offset := 0;
    var tally := Tally(0, 0, 0, 0);
    while offset + 28 <= |db|
      invariant rest == LoaderWalk(db, offset)
      invariant whole == Walk(seen + rest.slices, rest.done)
      invariant Tallies(q, seen, tally)
      decreases |db| - offset
    {
      var v := LoaderLook(db, offset);
      if v.End? {
        break;
      }
      if v.Malformed? {
        assert whole == Walk(seen, false);
        ClassifyMeans(q, seen, tally);
        return MalformedDb;
      }
      if v.Take? {
        ghost var entries, later := Entries(db, v.from, v.next, v.size), LoaderWalk(db, v.next).slices;
        var found;
        found, tally := SearchList(q, db, v.from, v.next, v.size, tally, seen);
        if found {
          MatchAmong(q, seen, entries, later);
          return Accepted;
        }
        Associate(seen, entries, later);
        seen := seen + entries;
      }
      rest := LoaderWalk(db, v.next);
      offset := v.next;
    }
    assert whole == Walk(seen, true);
    ClassifyMeans(q, seen, tally);
    r := Classify(tally);
  }

  lemma MatchAmong(q: Search, seen: seq<bytes>, entries: seq<bytes>, later: seq<bytes>)
    requires Any(q, entries, {Match})
    ensures Any(q, seen + (entries + later), {Match})
  {
    AnyAppend(q, entries, later, {Match});
    AnyAppend(q, seen, entries + later, {Match});
  }

  // The initrd.

  /** The certificates that parse, in order; the others are skipped. */
  function Parsed(c: Crypto, slices: seq<bytes>): seq<Cert> {
    if slices == [] then []
    else ParsedOne(c, slices[0]) + Parsed(c, slices[1..])
  }

  lemma {:induction false} ParsedAppend(c: Crypto, a: seq<bytes>, b: seq<bytes>)
    ensures Parsed(c, a + b) == Parsed(c, a) + Parsed(c, b)
  {
    if a == [] {
      assert a + b == b;
    } else {
      ParsedAppend(c, a[1..], b);
      assert (a + b)[1..] == a[1..] + b;
      Associate(ParsedOne(c, a[0]), Parsed(c, a[1..]), Parsed(c, b));
    }
  }

  function ParsedOne(c: Crypto, der: bytes): seq<Cert> {
    if c.parse(der).Some? then [c.parse(der).value] else []
  }

  lemma {:induction false} ParsedCons(c: Crypto, der: bytes, rest: seq<bytes>)
    ensures Parsed(c, [der] + rest) == ParsedOne(c, der) + Parsed(c, rest)
  {
    assert ([der] + rest)[1..] == rest;
  }

  lemma {:induction false} ParseStep(c: Crypto, db: bytes, off: nat, end: nat, size: nat, certs: seq<Cert>)
    requires size >= 16 && off + size <= end && off + size <= |db|
    ensures certs + Parsed(c, Entries(db, off, end, size))
         == certs + ParsedOne(c, db[off + 16..off + size]) + Parsed(c, Entries(db, off + size, end, size))
  {
    var der, later := db[off + 16..off + size], Entries(db, off + size, end, size);
    ParsedCons(c, der, later);
    Associate(certs, ParsedOne(c, der), Parsed(c, later));
  }

  /** The inner loop of the initrd's parser: a list may overrun the data, an entry may not. */
  method ParseList(c: Crypto, db: bytes, start: nat, end: nat, sigSize: nat) returns (certs: seq<Cert>)
    requires start <= end && sigSize >= 16
    ensures certs == Parsed(c, Entries(db, start, end, sigSize))
  {
    ghost var all := Parsed(c, Entries(db, start, end, sigSize));
    certs := [];
    var sigOffset := start;
    while sigOffset + sigSize <= end
      invariant sigOffset <= end
      invariant all == certs + Parsed(c, Entries(db, sigOffset, end, sigSize))
    {
      if sigOffset + sigSize > |db| {
        break;
      }
      ParseStep(c, db, sigOffset, end, sigSize, certs);
      var cert := c.parse(db[sigOffset + 16..sigOffset + sigSize]);
      if cert.Some? {
        certs := certs + [cert.value];
      } else {
        assert certs + [] == certs;
      }
      sigOffset := sigOffset + sigSize;
    }
  }

  /** The header of the list at an offset, and the initrd's checks of it. */
  method EslLook(db: bytes, offset: nat) returns (v: View)
    requires HasHeader(db, offset)
    ensures v == EslView(db, offset)
  {
    var listSize: nat := LeAt32(db, offset + 16);
    var headerSize: nat := LeAt32(db, offset + 20);
    var sigSize: nat := LeAt32(db, offset + 24);
    if !IsX509(db, offset) {
      return if listSize == 0 then End else Skip(offset + listSize);
    }
    if sigSize < 16 || listSize < 28 + headerSize {
      return Malformed;
    }
    v := Take(offset + 28 + headerSize, offset + listSize, sigSize);
  }

  function Outcome(c: Crypto, w: Walk): Option<seq<Cert>> {
    if w.done then Some(Parsed(c, w.slices)) else None
  }

  /** Parses a whole database; an X.509 list with a bad layout is an error. */
  method ParseEsl(c: Crypto, db: bytes) returns (r: Option<seq<Cert>>)
    ensures r == Outcome(c, EslWalk(db, 0))
  {
    ghost var whole := EslWalk(db, 0);
    ghost var rest := whole;
    var certs: seq<Cert> := [];
    var offset := 0;
    while offset + 28 <= |db|
      invariant rest == EslWalk(db, offset) && whole.done == rest.done
      invariant Parsed(c, whole.slices) == certs + Parsed(c, rest.slices)
      decreases |db| - offset
    {
      var v := EslLook(db, offset);
      if v.End? {
        break;
      }
      if v.Malformed? {
        return None;
      }
      if v.Take? {
        var some := ParseList(c, db, v.from, v.next, v.size);
        ParsedThen(c, certs, Entries(db, v.from, v.next, v.size), EslWalk(db, v.next).slices);
        certs := certs + some;
      }
      rest := EslWalk(db, v.next);
      offset := v.next;
    }
    assert rest == Walk([], true) && certs + [] == certs;
    r := Some(certs);
  }

  /** The certificates of one list and those after it. */
  lemma ParsedThen(c: Crypto, certs: seq<Cert>, entries: seq<bytes>, later: seq<bytes>)
    ensures certs + Parsed(c, entries + later) == certs + Parsed(c, entries) + Parsed(c, later)
  {
    ParsedAppend(c, entries, later);
    Associate(certs, Parsed(c, entries), Parsed(c, later));
  }

  /** The result of reading a signature file. */
  datatype FileRead = Contents(data: bytes) | NotFound | Unreadable

  /** The check of one image: its fs-verity digest, its name and what its signature files hold. */
  datatype ImageCheck = ImageCheck(crypto: Crypto, files: string -> FileRead, digest: bytes, image: string)

  datatype Opinion = Pass | Fail | Vouch

  /** What the initrd makes of one certificate. */
  function Opine(q: ImageCheck, cert: Cert): Opinion {
    if cert.key == [] then Pass
    else
      match q.files(SignaturePath(q.image, cert.keyId + ".db.sig"))
      case NotFound => Pass
      case Unreadable => Fail
      case Contents(sig) =>
        if q.crypto.isRsaKey(cert.key) && q.crypto.rsaVerify(cert.key, q.crypto.sha256(q.digest), sig) then Vouch
        else Pass
  }

  /** The signature file that the signing script writes for this image and key holds a signature of the digest. */
  predicate Signs(q: ImageCheck, cert: Cert) {
    && cert.key != [] && q.files(SignerPath(q.image, cert.keyId)).Contents? && q.crypto.isRsaKey(cert.key)
    && q.crypto.rsaVerify(cert.key, q.crypto.sha256(q.digest), q.files(SignerPath(q.image, cert.keyId)).data)
  }

  /** A certificate vouches if and only if its key signed, and fails the check if and only if its file is unreadable. */
  lemma OpinionMeans(q: ImageCheck, cert: Cert)
    requires q.image != ".."
    ensures Opine(q, cert) == Vouch <==> Signs(q, cert)
    ensures Opine(q, cert) == Fail <==> cert.key != [] && q.files(SignerPath(q.image, cert.keyId)).Unreadable?
  {
    SignerAgrees(q.image, cert.keyId);
  }

  /** The first certificate that does not pass has this opinion. */
  predicate Decides(q: ImageCheck, certs: seq<Cert>, o: Opinion) {
    exists i :: 0 <= i < |certs| && Opine(q, certs[i]) == o && forall j :: 0 <= j < i ==> Opine(q, certs[j]) == Pass
  }

  /** A certificate that vouches, with no failure before it, or an earlier one that vouches, decides. */
  lemma {:induction false} FirstVouch(q: ImageCheck, certs: seq<Cert>, i: nat)
    requires i < |certs| && Opine(q, certs[i]) == Vouch && forall j :: 0 <= j < i ==> Opine(q, certs[j]) != Fail
    ensures Decides(q, certs, Vouch)
    decreases i
  {
    if j :| 0 <= j < i && Opine(q, certs[j]) != Pass {
      FirstVouch(q, certs, j);
    }
  }

  /** The loop over the certificates: the first that does not pass decides. */
  method AskCertificates(q: ImageCheck, certs: seq<Cert>) returns (r: Option<bool>)
    ensures r == Some(true) <==> Decides(q, certs, Vouch)
    ensures r == None <==> Decides(q, certs, Fail)
  {
    for i := 0 to |certs|
      invariant forall j :: 0 <= j < i ==> Opine(q, certs[j]) == Pass
    {
      var cert := certs[i];
      if cert.key == [] {
        continue;
      }
      var read := q.files(SignaturePath(q.image, cert.keyId + ".db.sig"));
      if read.NotFound? {
        continue;
      }
      if read.Unreadable? {
        return None;
      }
      if !q.crypto.isRsaKey(cert.key) {
        continue;
      }
      if q.crypto.rsaVerify(cert.key, q.crypto.sha256(q.digest), read.data) {
        return Some(true);
      }
    }
    r := Some(false);
  }

  /**
   `verify_image_db` after measuring the image: `Some(true)` if and only if some certificate vouches
   for the digest and no signature file before it is unreadable, an error if and only if the database
   is malformed or an unreadable file comes first.
   */
  method VerifyImageDb(q: ImageCheck, db: bytes) returns (r: Option<bool>)
    ensures r == Some(true) <==>
      EslWalk(db, 0).done && Decides(q, Parsed(q.crypto, EslWalk(db, 0).slices), Vouch)
    ensures r == None <==>
      EslWalk(db, 0).done ==> Decides(q, Parsed(q.crypto, EslWalk(db, 0).slices), Fail)
  {
    var parsed := ParseEsl(q.crypto, db);
    if parsed.None? {
      return None;
    }
    r := AskCertificates(q, parsed.value);
  }
}
