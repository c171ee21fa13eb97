/**
 The UEFI signature database, and the two walks over it: `parse_esl` in the initrd and
 `verify_data_signature` in the loader. Both are given as functions of the database and the
 offset reached.
 */
module SignatureDatabase {
  import opened Bytes

  /** EFI_CERT_X509_GUID in its in-memory byte order. */
  const X509_GUID: bytes :=
    [0xa1, 0x59, 0xc0, 0xa5, 0xe4, 0x94, 0xa7, 0x4a, 0x87, 0xb5, 0xab, 0x15, 0x5c, 0x2b, 0xf0, 0x72]

  /** EFI_CERT_X509_GUID is a5c059a1-94e4-4aa7-87b5-ab155c2bf072; its first three fields are little-endian. */
  lemma X509GuidFields()
    ensures X509_GUID
         == Le32(0xa5c0_59a1) + Le16(0x94e4) + Le16(0x4aa7) + [0x87, 0xb5, 0xab, 0x15, 0x5c, 0x2b, 0xf0, 0x72]
  {}

  // The fields of the signature-list header at an offset.

  predicate HasHeader(db: bytes, off: nat) {
    off + 28 <= |db|
  }

  predicate IsX509(db: bytes, off: nat)
    requires HasHeader(db, off)
  {
    forall i :: 0 <= i < 16 ==> db[off + i] == X509_GUID[i]
  }

  function ListSize(db: bytes, off: nat): nat
    requires HasHeader(db, off)
  {
    LeAt32(db, off + 16)
  }

  function HeaderSize(db: bytes, off: nat): nat
    requires HasHeader(db, off)
  {
    LeAt32(db, off + 20)
  }

  function SigSize(db: bytes, off: nat): nat
    requires HasHeader(db, off)
  {
    LeAt32(db, off + 24)
  }

  /** An X.509 list whose signatures or header cannot be laid out. */
  predicate BadLayout(db: bytes, off: nat)
    requires HasHeader(db, off)
  {
    SigSize(db, off) < 16 || ListSize(db, off) < 28 + HeaderSize(db, off)
  }

  /** The list does not fit in the database. */
  predicate Overruns(db: bytes, off: nat)
    requires HasHeader(db, off)
  {
    off + ListSize(db, off) > |db|
  }

  /**
   The certificates in an area of fixed-size signatures, each after a 16-byte owner GUID. The area
   may be said to end past the database; an entry may not.
   */
  function Entries(db: bytes, from: nat, to: nat, size: nat): seq<bytes>
    requires size >= 16
    decreases |db| - from
  {
    if from + size > to || from + size > |db| then []
    else [db[from + 16..from + size]] + Entries(db, from + size, to, size)
  }

  /**
   What a walk finds at an offset: its end, an error, a list to pass over, or an area of certificates and
   then the next list.
   */
  datatype View = End | Malformed | Skip(next: nat) | Take(from: nat, next: nat, size: nat)

  /** The loader's view: a list that overruns the database is malformed. */
  function LoaderView(db: bytes, off: nat): (v: View)
    ensures v.Skip? || v.Take? ==> off < v.next <= |db|
    ensures v.Take? ==> off < v.from <= v.next && v.size >= 16
  {
    if !HasHeader(db, off) || ListSize(db, off) == 0 then End
    else if Overruns(db, off) then Malformed
    else if !IsX509(db, off) then Skip(off + ListSize(db, off))
    else if BadLayout(db, off) then Malformed
    else Take(off + 28 + HeaderSize(db, off), off + ListSize(db, off), SigSize(db, off))
  }

  /** The initrd's view: it reads what there is of a list that overruns the database. */
  function EslView(db: bytes, off: nat): (v: View)
    ensures v.Skip? || v.Take? ==> off < v.next && off < |db|
    ensures v.Take? ==> off < v.from <= v.next && v.size >= 16
  {
    if !HasHeader(db, off) then End
    else if !IsX509(db, off) then
      if ListSize(db, off) == 0 then End else Skip(off + ListSize(db, off))
    else if BadLayout(db, off) then Malformed
    else Take(off + 28 + HeaderSize(db, off), off + ListSize(db, off), SigSize(db, off))
  }

  /** What a walk visited, and whether it finished. */
  datatype Walk = Walk(slices: seq<bytes>, done: bool)

  function LoaderWalk(db: bytes, off: nat): Walk
    decreases |db| - off
  {
    match LoaderView(db, off)
    case End => Walk([], true)
    case Malformed => Walk([], false)
    case Skip(next) => LoaderWalk(db, next)
    case Take(from, next, size) =>
      var rest := LoaderWalk(db, next);
      Walk(Entries(db, from, next, size) + rest.slices, rest.done)
  }

  function EslWalk(db: bytes, off: nat): Walk
    decreases |db| - off
  {
    match EslView(db, off)
    case End => Walk([], true)
    case Malformed => Walk([], false)
    case Skip(next) => EslWalk(db, next)
    case Take(from, next, size) =>
      var rest := EslWalk(db, next);
      Walk(Entries(db, from, next, size) + rest.slices, rest.done)
  }

  /** The offset at which the loader's walk stops. */
  function LoaderStop(db: bytes, off: nat): (stop: nat)
    ensures off <= stop
    decreases |db| - off
  {
    var v := LoaderView(db, off);
    if v.Skip? || v.Take? then LoaderStop(db, v.next) else off
  }

  /**
   Where the two walks part: at an empty X.509 list, where the loader stops and the initrd reports
   an error, and at a list that overruns the database, which the loader rejects and the initrd reads
   unless its layout is bad.
   */
  predicate Parts(db: bytes, off: nat) {
    && HasHeader(db, off)
    && if ListSize(db, off) == 0 then IsX509(db, off)
       else Overruns(db, off) && !(IsX509(db, off) && BadLayout(db, off))
  }

  /**
   The two walks compared on arbitrary bytes. What the loader visits is the beginning of what the
   initrd visits; if the loader finishes or the initrd does not, they visit the same; and they
   visit the same with the same outcome if and only if the loader does not stop where they part.
   */
  lemma {:induction false} WalksAgree(db: bytes, off: nat)
    ensures LoaderWalk(db, off).slices <= EslWalk(db, off).slices
    ensures LoaderWalk(db, off).done || !EslWalk(db, off).done ==> LoaderWalk(db, off).slices == EslWalk(db, off).slices
    ensures LoaderWalk(db, off) == EslWalk(db, off) <==> !Parts(db, LoaderStop(db, off))
    decreases |db| - off
  {
    ViewsCompared(db, off);
    var v, w := LoaderView(db, off), EslView(db, off);
    if v.Skip? || v.Take? {
      WalksAgree(db, v.next);
    } else if w.Skip? || w.Take? {
      PastTheEnd(db, w.next);
    }
  }

  /**
   The two views are the same where the walks do not part; where they do, the loader stops and the initrd
   fails or leaves the database.
   */
  lemma ViewsCompared(db: bytes, off: nat)
    ensures var v, w := LoaderView(db, off), EslView(db, off);
      if !Parts(db, off) then v == w
      else (v.End? && w.Malformed?) || (v.Malformed? && (w.Skip? || w.Take?) && w.next > |db|)
  {}

  lemma PastTheEnd(db: bytes, off: nat)
    requires off >= |db|
    ensures EslWalk(db, off) == Walk([], true)
  {}

  /** An X.509 list of size zero: the loader stops there, the initrd refuses the database. */
  lemma EmptyX509ListParts()
    ensures LoaderWalk(X509_GUID + Zeros(12), 0) == Walk([], true)
    ensures EslWalk(X509_GUID + Zeros(12), 0) == Walk([], false)
  {
    var db := X509_GUID + Zeros(12);
    assert IsX509(db, 0) && ListSize(db, 0) == 0 && SigSize(db, 0) == 0;
  }

  /** A list of another type that claims one byte too many: the loader refuses it, the initrd passes over it. */
  lemma OverrunningListParts()
    ensures LoaderWalk(Zeros(16) + Le32(29) + Zeros(8), 0) == Walk([], false)
    ensures EslWalk(Zeros(16) + Le32(29) + Zeros(8), 0) == Walk([], true)
  {
    var db := Zeros(16) + Le32(29) + Zeros(8);
    assert X509_GUID[0] != db[0] && !IsX509(db, 0);
    assert db[16..20] == Le32(29);
    At32(db, 16);
    assert ListSize(db, 0) == 29;
    PastTheEnd(db, 29);
  }

  // Well-formed databases.

  datatype Signature = Signature(owner: bytes, data: bytes)

  /** An EFI_SIGNATURE_LIST. */
  datatype SignatureList = SignatureList(kind: bytes, header: bytes, sigSize: nat, signatures: seq<Signature>)

  predicate Fixed(signatures: seq<Signature>, size: nat) {
    forall i :: 0 <= i < |signatures| ==> |signatures[i].owner| == 16 && 16 + |signatures[i].data| == size
  }

  predicate WellFormed(l: SignatureList) {
    && |l.kind| == 16 && 16 <= l.sigSize < 0x1_0000_0000 && Fixed(l.signatures, l.sigSize)
    && 28 + |l.header| + |SignatureBytes(l.signatures)| < 0x1_0000_0000
  }

  predicate AllWellFormed(lists: seq<SignatureList>) {
    forall i :: 0 <= i < |lists| ==> WellFormed(lists[i])
  }

  function SignatureBytes(signatures: seq<Signature>): bytes {
    if signatures == [] then [] else signatures[0].owner + signatures[0].data + SignatureBytes(signatures[1..])
  }

  function ListBytes(l: SignatureList): (b: bytes)
    requires WellFormed(l)
    ensures |b| == 28 + |l.header| + |SignatureBytes(l.signatures)|
  {
    l.kind + Le32(28 + |l.header| + |SignatureBytes(l.signatures)|) + Le32(|l.header|) + Le32(l.sigSize)
    + (l.header + SignatureBytes(l.signatures))
  }

  function DatabaseBytes(lists: seq<SignatureList>): bytes
    requires AllWellFormed(lists)
  {
    if lists == [] then [] else ListBytes(lists[0]) + DatabaseBytes(lists[1..])
  }

  function Data(signatures: seq<Signature>): seq<bytes> {
    if signatures == [] then [] else [signatures[0].data] + Data(signatures[1..])
  }

  /** The certificates of the X.509 lists, in order. */
  function Certificates(lists: seq<SignatureList>): seq<bytes> {
    if lists == [] then []
    else (if lists[0].kind == X509_GUID then Data(lists[0].signatures) else []) + Certificates(lists[1..])
  }

  lemma {:induction false} EntriesOf(before: bytes, signatures: seq<Signature>, after: bytes, size: nat)
    requires size >= 16 && Fixed(signatures, size)
    ensures var area := SignatureBytes(signatures);
      Entries(before + area + after, |before|, |before| + |area|, size) == Data(signatures)
    decreases |signatures|
  {
    if signatures != [] {
      var s, rest := signatures[0], SignatureBytes(signatures[1..]);
      var db := before + SignatureBytes(signatures) + after;
      EntriesOf(before + (s.owner + s.data), signatures[1..], after, size);
      Split(before, s.owner, s.data, rest, after);
    }
  }

  lemma Split(before: bytes, owner: bytes, data: bytes, rest: bytes, after: bytes)
    requires |owner| == 16
    ensures var db := before + (owner + data + rest) + after;
      && db == before + (owner + data) + rest + after
      && db[|before| + 16..|before| + 16 + |data|] == data
  {
    var db := before + (owner + data + rest) + after;
    assert db == before + owner + (data + (rest + after));
  }

  lemma ListFields(before: bytes, l: SignatureList, after: bytes)
    requires WellFormed(l)
    ensures var db := before + ListBytes(l) + after;
      var off := |before|;
      && HasHeader(db, off) && (IsX509(db, off) <==> l.kind == X509_GUID)
      && ListSize(db, off) == |ListBytes(l)| && HeaderSize(db, off) == |l.header| && SigSize(db, off) == l.sigSize
  {
    FieldBytes(before, l, after);
    FieldsAt(before + ListBytes(l) + after, |before|, l.kind, |ListBytes(l)|, |l.header|, l.sigSize);
  }

  lemma FieldsAt(db: bytes, off: nat, kind: bytes, listSize: u32, headerSize: u32, sigSize: u32)
    requires HasHeader(db, off) && |kind| == 16
    requires db[off + 16..off + 20] == Le32(listSize) && db[off + 20..off + 24] == Le32(headerSize)
    requires db[off + 24..off + 28] == Le32(sigSize)
    requires forall i :: 0 <= i < 16 ==> db[off + i] == kind[i]
    ensures IsX509(db, off) <==> kind == X509_GUID
    ensures ListSize(db, off) == listSize && HeaderSize(db, off) == headerSize && SigSize(db, off) == sigSize
  {
    At32(db, off + 16);
    At32(db, off + 20);
    At32(db, off + 24);
  }

  lemma FieldBytes(before: bytes, l: SignatureList, after: bytes)
    requires WellFormed(l)
    ensures var db := before + ListBytes(l) + after;
      var off := |before|;
      && |db| >= off + 28
      && db[off + 16..off + 20] == Le32(|ListBytes(l)|) && db[off + 20..off + 24] == Le32(|l.header|)
      && db[off + 24..off + 28] == Le32(l.sigSize)
      && (forall i :: 0 <= i < 16 ==> db[off + i] == l.kind[i])
  {}

  lemma ListEntriesOf(before: bytes, l: SignatureList, after: bytes)
    requires WellFormed(l)
    ensures var db := before + ListBytes(l) + after;
      var off := |before|;
      Entries(db, off + 28 + |l.header|, off + |ListBytes(l)|, l.sigSize) == Data(l.signatures)
  {
    var fixed := l.kind + Le32(|ListBytes(l)|) + Le32(|l.header|) + Le32(l.sigSize) + l.header;
    var signatures := SignatureBytes(l.signatures);
    assert ListBytes(l) == fixed + signatures;
    assert before + (fixed + signatures) + after == before + fixed + signatures + after;
    EntriesOf(before + fixed, l.signatures, after, l.sigSize);
  }

  /** The database is these lists from an offset to its end. */
  predicate HasLists(db: bytes, off: nat, lists: seq<SignatureList>)
    requires AllWellFormed(lists)
    decreases |lists|
  {
    if lists == [] then off == |db|
    else OccursAt(db, off, ListBytes(lists[0])) && HasLists(db, off + |ListBytes(lists[0])|, lists[1..])
  }

  lemma {:induction false} DatabaseHasLists(before: bytes, lists: seq<SignatureList>)
    requires AllWellFormed(lists)
    ensures HasLists(before + DatabaseBytes(lists), |before|, lists)
    decreases |lists|
  {
    if lists != [] {
      var first, after := ListBytes(lists[0]), DatabaseBytes(lists[1..]);
      Associate(before, first, after);
      OccursInside(before, first, after);
      DatabaseHasLists(before + first, lists[1..]);
    }
  }

  /** A list as the walks see it at an offset. */
  predicate Shows(db: bytes, off: nat, l: SignatureList) {
    var v := LoaderView(db, off);
    && EslView(db, off) == v
    && (if l.kind == X509_GUID then v.Take? && Entries(db, v.from, v.next, v.size) == Data(l.signatures) else v.Skip?)
  }

  /** From an offset to its end, the walks see these lists. */
  predicate ShowsAll(db: bytes, off: nat, lists: seq<SignatureList>)
    decreases |lists|
  {
    if lists == [] then off == |db|
    else Shows(db, off, lists[0]) && ShowsAll(db, LoaderView(db, off).next, lists[1..])
  }

  lemma ShowsInside(before: bytes, l: SignatureList, after: bytes)
    requires WellFormed(l)
    ensures Shows(before + ListBytes(l) + after, |before|, l)
    ensures LoaderView(before + ListBytes(l) + after, |before|).next == |before + ListBytes(l)|
  {
    ListFields(before, l, after);
    ListEntriesOf(before, l, after);
  }

  lemma HeldListShows(db: bytes, off: nat, l: SignatureList)
    requires off <= |db| && WellFormed(l) && OccursAt(db, off, ListBytes(l))
    ensures Shows(db, off, l) && LoaderView(db, off).next == off + |ListBytes(l)|
  {
    OccursSplit(db, off, ListBytes(l));
    ShowsInside(db[..off], l, db[off + |ListBytes(l)|..]);
  }

  lemma {:induction false} ListsShow(db: bytes, off: nat, lists: seq<SignatureList>)
    requires off <= |db| && AllWellFormed(lists) && HasLists(db, off, lists)
    ensures ShowsAll(db, off, lists)
    decreases |lists|
  {
    if lists != [] {
      HeldListShows(db, off, lists[0]);
      ListsShow(db, off + |ListBytes(lists[0])|, lists[1..]);
    }
  }

  lemma {:induction false} WalksVisit(db: bytes, off: nat, lists: seq<SignatureList>)
    requires ShowsAll(db, off, lists)
    ensures LoaderWalk(db, off) == Walk(Certificates(lists), true)
    ensures EslWalk(db, off) == Walk(Certificates(lists), true)
    decreases |lists|
  {
    if lists != [] {
      WalksVisit(db, LoaderView(db, off).next, lists[1..]);
    }
  }

  /**
   On a database that is a concatenation of well-formed signature lists, of any types and any header
   sizes, both walks visit exactly the certificates of the X.509 lists, in order, and finish.
   */
  lemma WalksVisitCertificates(lists: seq<SignatureList>)
    requires AllWellFormed(lists)
    ensures LoaderWalk(DatabaseBytes(lists), 0) == Walk(Certificates(lists), true)
    ensures EslWalk(DatabaseBytes(lists), 0) == Walk(Certificates(lists), true)
  {
    assert [] + DatabaseBytes(lists) == DatabaseBytes(lists);
    DatabaseHasLists([], lists);
    ListsShow(DatabaseBytes(lists), 0, lists);
    WalksVisit(DatabaseBytes(lists), 0, lists);
  }
}
