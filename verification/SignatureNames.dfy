/**
 Where signatures are kept: the file name the initrd looks for, the one the signing script writes,
 and the directory search that decides whether an image counts as signed.
 */
module SignatureNames {

  /** The last dot of a file name. */
  function LastDot(name: string): (i: int)
    ensures -1 <= i < |name|
    ensures i >= 0 ==> name[i] == '.'
    ensures forall j :: i < j < |name| ==> name[j] != '.'
  {
    if name == "" then -1
    else if name[|name| - 1] == '.' then |name| - 1
    else LastDot(name[..|name| - 1])
  }

  predicate HasExtension(name: string) {
    name != ".." && LastDot(name) > 0
  }

  function Extension(name: string): string
    requires HasExtension(name)
  {
    name[LastDot(name) + 1..]
  }

  /** Rust's `with_extension` on a file name. */
  function WithExtension(name: string, extension: string): string {
    if name == ".." then name
    else (if HasExtension(name) then name[..LastDot(name)] else name)
         + (if extension == "" then "" else "." + extension)
  }

  function SignaturePath(name: string, suffix: string): string {
    WithExtension(name, if HasExtension(name) then Extension(name) + "." + suffix else suffix)
  }

  /** The signature file the signing script writes for an image and a database key. */
  function SignerPath(name: string, keyId: string): string {
    name + "." + keyId + ".db.sig"
  }

  /**
   With any number of dots, leading or trailing, the signature of a file is its name, a dot and the
   suffix. (`..` is no file name; an empty suffix is never asked for.)
   */
  lemma SignaturePathAppends(name: string, suffix: string)
    requires name != ".." && suffix != ""
    ensures SignaturePath(name, suffix) == name + "." + suffix
  {
    if HasExtension(name) {
      var dot := LastDot(name);
      assert name == name[..dot] + "." + Extension(name);
      assert name[..dot] + ("." + (Extension(name) + "." + suffix)) == name + "." + suffix;
    }
  }

  /** The initrd looks for a signature exactly where the signer puts it. */
  lemma SignerAgrees(name: string, keyId: string)
    requires name != ".."
    ensures SignaturePath(name, keyId + ".db.sig") == SignerPath(name, keyId)
  {
    SignaturePathAppends(name, keyId + ".db.sig");
    assert name + "." + (keyId + ".db.sig") == SignerPath(name, keyId);
  }

  predicate EndsWith(s: string, end: string) {
    |end| <= |s| && s[|s| - |end|..] == end
  }

  /** A signature name with some mark between the image's name and the suffix. */
  function Marked(name: string, mark: string): string {
    name + "." + mark + ".sig"
  }

  /** A directory entry that makes an image count as signed. */
  predicate SignsInListing(name: string, e: string) {
    e == SignaturePath(name, "sig") || (name + "." <= e && EndsWith(e, ".sig"))
  }

  /** The image counts as signed: `name.sig` exists, or an entry starts with `name.` and ends with `.sig`. */
  predicate LooksSigned(name: string, entries: set<string>) {
    exists e :: e in entries && SignsInListing(name, e)
  }

  /** Exactly the entries `name.sig` and `name.*.sig` make an image count as signed. */
  lemma SigningEntries(name: string, e: string)
    requires name != ".."
    ensures SignsInListing(name, e) <==> e == name + ".sig" || exists t :: e == Marked(name, t)
  {
    SignaturePathAppends(name, "sig");
    assert name + "." + "sig" == name + ".sig";
    if name + "." <= e && EndsWith(e, ".sig") {
      SignedEntry(name, e);
    }
    if t :| e == Marked(name, t) {
      MarkedSigns(name, t);
    }
  }

  lemma MarkedSigns(name: string, mark: string)
    ensures name + "." <= Marked(name, mark) && EndsWith(Marked(name, mark), ".sig")
  {}

  lemma SignedEntry(name: string, e: string)
    requires name + "." <= e && EndsWith(e, ".sig")
    ensures e == name + ".sig" || exists t :: e == Marked(name, t)
  {
    var rest := e[|name| + 1..];
    assert e == name + "." + rest;
    if |rest| < 4 {
      assert e[|e| - 4..] == ".sig";
      assert e[|name|] == '.';
      if |rest| != 3 {
        assert false;
      }
      assert e == name + ".sig";
    } else {
      var t := rest[..|rest| - 4];
      assert e == Marked(name, t);
    }
  }

  /** Any file that could make the database check accept an image makes the image count as signed. */
  lemma AcceptableLooksSigned(name: string, keyId: string, entries: set<string>)
    requires name != ".." && SignaturePath(name, keyId + ".db.sig") in entries
    ensures LooksSigned(name, entries)
  {
    var e := SignerPath(name, keyId);
    SignerAgrees(name, keyId);
    assert e == Marked(name, keyId + ".db");
    MarkedSigns(name, keyId + ".db");
    assert SignsInListing(name, e);
  }
}
