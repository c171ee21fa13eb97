/**
 The loader and the initrd compared as searches of one signature database. They trust the same
 certificates except that the loader insists on the rsaEncryption algorithm identifier and the initrd
 only on a key that decodes as an RSA key, and that the initrd gives up at an unreadable signature file.
 */
module SharedTrust {
  import opened Bytes
  import opened SignatureDatabase
  import opened SignatureNames
  import opened SignatureSearch

  /** Both searches find the same signature for this certificate, or neither finds one. */
  predicate SameFile(q: Search, p: ImageCheck, cert: Cert) {
    var loaderFile := q.files(q.template.before + cert.keyId + q.template.after);
    var initrdFile := p.files(SignaturePath(p.image, cert.keyId + ".db.sig"));
    && (loaderFile.Some? <==> initrdFile.Contents?)
    && (loaderFile.Some? ==> loaderFile.value == initrdFile.data)
  }

  /** The searches ask about the same bytes with the same signature files; an empty string is no RSA key. */
  ghost predicate Comparable(q: Search, p: ImageCheck, slices: seq<bytes>) {
    && p.crypto == q.crypto && p.digest == q.data && !q.crypto.isRsaKey([])
    && forall i :: 0 <= i < |slices| && q.crypto.parse(slices[i]).Some? ==>
      SameFile(q, p, q.crypto.parse(slices[i]).value)
  }

  /** An entry only the initrd trusts: another algorithm identifier, and yet an RSA key that made the signature. */
  predicate OtherAlgorithm(q: Search, der: bytes) {
    && q.crypto.parse(der).Some?
    && var cert := q.crypto.parse(der).value;
       var sig := q.files(q.template.before + cert.keyId + q.template.after);
       && !cert.isRsa && q.crypto.isRsaKey(cert.key) && sig.Some?
       && q.crypto.rsaVerify(cert.key, q.crypto.sha256(q.data), sig.value)
  }

  predicate SomeOtherAlgorithm(q: Search, slices: seq<bytes>) {
    exists i :: 0 <= i < |slices| && OtherAlgorithm(q, slices[i])
  }

  lemma {:induction false} ParsedFrom(c: Crypto, slices: seq<bytes>, k: nat)
    requires k < |Parsed(c, slices)|
    ensures exists i :: 0 <= i < |slices| && c.parse(slices[i]) == Some(Parsed(c, slices)[k])
  {
    var first := ParsedOne(c, slices[0]);
    if k < |first| {
      assert c.parse(slices[0]) == Some(Parsed(c, slices)[k]);
    } else {
      ParsedFrom(c, slices[1..], k - |first|);
      var i :| 0 <= i < |slices[1..]| && c.parse(slices[1..][i]) == Some(Parsed(c, slices[1..])[k - |first|]);
      assert c.parse(slices[i + 1]) == Some(Parsed(c, slices)[k]);
    }
  }

  lemma {:induction false} ParsedTo(c: Crypto, slices: seq<bytes>, i: nat)
    requires i < |slices| && c.parse(slices[i]).Some?
    ensures exists k :: 0 <= k < |Parsed(c, slices)| && Parsed(c, slices)[k] == c.parse(slices[i]).value
  {
    var first := ParsedOne(c, slices[0]);
    if i == 0 {
      assert Parsed(c, slices)[0] == c.parse(slices[i]).value;
    } else {
      ParsedTo(c, slices[1..], i - 1);
      var k :| 0 <= k < |Parsed(c, slices[1..])| && Parsed(c, slices[1..])[k] == c.parse(slices[1..][i - 1]).value;
      assert Parsed(c, slices)[|first| + k] == c.parse(slices[i]).value;
    }
  }

  /** A certificate that vouches is the first to speak, or one before it has an unreadable file or vouches. */
  lemma {:induction false} SomeoneDecides(p: ImageCheck, certs: seq<Cert>, k: nat)
    requires k < |certs| && Opine(p, certs[k]) != Pass
    ensures Decides(p, certs, Vouch) || Decides(p, certs, Fail)
    decreases k
  {
    if j :| 0 <= j < k && Opine(p, certs[j]) != Pass {
      SomeoneDecides(p, certs, j);
    }
  }

  lemma OnlyOneDecides(p: ImageCheck, certs: seq<Cert>)
    ensures !(Decides(p, certs, Vouch) && Decides(p, certs, Fail))
  {}

  /** What vouches in the initrd's search is what matches in the loader's, or has another algorithm identifier. */
  lemma VouchingEntry(q: Search, p: ImageCheck, der: bytes)
    requires p.crypto == q.crypto && p.digest == q.data && !q.crypto.isRsaKey([])
    requires q.crypto.parse(der).Some? && SameFile(q, p, q.crypto.parse(der).value)
    ensures Opine(p, q.crypto.parse(der).value) == Vouch <==> Judge(q, der) == Match || OtherAlgorithm(q, der)
  {}

  /**
   Over the same entries: the initrd accepts if and only if the loader finds a match or some entry has
   another algorithm identifier and an RSA key that made the signature, and no unreadable
   signature file comes first.
   */
  lemma TrustCompared(q: Search, p: ImageCheck, slices: seq<bytes>)
    requires Comparable(q, p, slices)
    ensures var certs := Parsed(p.crypto, slices);
      Decides(p, certs, Vouch) <==>
      (Any(q, slices, {Match}) || SomeOtherAlgorithm(q, slices)) && !Decides(p, certs, Fail)
  {
    var certs := Parsed(p.crypto, slices);
    OnlyOneDecides(p, certs);
    if i :| 0 <= i < |slices| && (Judge(q, slices[i]) == Match || OtherAlgorithm(q, slices[i])) {
      VouchingEntry(q, p, slices[i]);
      ParsedTo(p.crypto, slices, i);
      var k :| 0 <= k < |certs| && certs[k] == p.crypto.parse(slices[i]).value;
      SomeoneDecides(p, certs, k);
    }
    if Decides(p, certs, Vouch) {
      var k :| 0 <= k < |certs| && Opine(p, certs[k]) == Vouch;
      ParsedFrom(p.crypto, slices, k);
      var i :| 0 <= i < |slices| && p.crypto.parse(slices[i]) == Some(certs[k]);
      VouchingEntry(q, p, slices[i]);
      assert Judge(q, slices[i]) in {Match} || OtherAlgorithm(q, slices[i]);
    }
  }

  /** `VerifyImageDb` answers `Some(true)`. */
  predicate InitrdAccepts(p: ImageCheck, db: bytes) {
    EslWalk(db, 0).done && Decides(p, Parsed(p.crypto, EslWalk(db, 0).slices), Vouch)
  }

  /** `VerifyImageDb` answers `None` although the database is well-formed. */
  predicate InitrdGivesUp(p: ImageCheck, db: bytes) {
    EslWalk(db, 0).done && Decides(p, Parsed(p.crypto, EslWalk(db, 0).slices), Fail)
  }

  /**
   On any database on which the walks agree, the initrd accepts some bytes if and only if the loader
   does or an entry with another algorithm identifier signed them, the walk of the database
   finishes (the loader may match before a malformed list), and no unreadable file comes first.
   */
  lemma TrustComparedOn(q: Search, p: ImageCheck, db: bytes)
    requires !Parts(db, LoaderStop(db, 0)) && Comparable(q, p, LoaderWalk(db, 0).slices)
    ensures InitrdAccepts(p, db) <==>
      && (Answer(q, LoaderWalk(db, 0)) == Accepted || SomeOtherAlgorithm(q, LoaderWalk(db, 0).slices))
      && LoaderWalk(db, 0).done && !InitrdGivesUp(p, db)
  {
    WalksAgree(db, 0);
    TrustCompared(q, p, LoaderWalk(db, 0).slices);
  }

  /** On a well-formed database both searches range over exactly its certificates. */
  lemma TrustComparedWellFormed(q: Search, p: ImageCheck, lists: seq<SignatureList>)
    requires AllWellFormed(lists) && Comparable(q, p, Certificates(lists))
    ensures Answer(q, LoaderWalk(DatabaseBytes(lists), 0)) == Accepted <==>
      exists i :: 0 <= i < |Certificates(lists)| && Judge(q, Certificates(lists)[i]) == Match
    ensures InitrdAccepts(p, DatabaseBytes(lists)) <==>
      && (Answer(q, LoaderWalk(DatabaseBytes(lists), 0)) == Accepted || SomeOtherAlgorithm(q, Certificates(lists)))
      && !InitrdGivesUp(p, DatabaseBytes(lists))
  {
    WalksVisitCertificates(lists);
    TrustCompared(q, p, Certificates(lists));
  }

  /** A crypto whose only certificate has another algorithm identifier and an RSA key that signs everything. */
  function OtherOidCrypto(): Crypto {
    Crypto(der => Some(Cert("k", false, [1])), data => [], key => key == [1], (key, hash, sig) => true)
  }

  /** At such a certificate the two differ: the loader finds no match and the initrd vouches. */
  lemma OtherAlgorithmParts(der: bytes)
    ensures var q := Search(OtherOidCrypto(), path => Some([]), [], Template("", ""));
      var p := ImageCheck(OtherOidCrypto(), path => Contents([]), [], "");
      Comparable(q, p, [der]) && !Any(q, [der], {Match}) && Decides(p, Parsed(p.crypto, [der]), Vouch)
  {
    var p := ImageCheck(OtherOidCrypto(), path => Contents([]), [], "");
    assert Parsed(p.crypto, [der]) == [Cert("k", false, [1])];
    assert Opine(p, Parsed(p.crypto, [der])[0]) == Vouch;
  }
}
