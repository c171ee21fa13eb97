/**
 The boot entry the machine was started from: an EFI_LOAD_OPTION (section 3.1.3 of UEFI 2.10) whose
 device path holds a Hard Drive node (section 10.3.5.1). The initrd reads it twice, once for the
 partition number and once for the number and the partition's identity.
 */
module LoadOption {
  import opened Bytes

  /** Why an extractor fails; `Panic` is an index outside the device path. */
  datatype Failure = TooShort | Unterminated | Overlong | Panic

  datatype Result<+T> = Ok(value: T) | Err(error: Failure)

  datatype DeviceInfo = DeviceInfo(number: u32, guid: Option<bytes>, mbrSignature: Option<u32>, format: byte)

  // The device path.

  /** The end of the description that starts at `off`, past its terminator. */
  function DescriptionEnd(p: bytes, off: nat): Option<nat>
    decreases |p| - off
  {
    if off + 1 >= |p| then None
    else if LeAt16(p, off) == 0 then Some(off + 2)
    else DescriptionEnd(p, off + 2)
  }

  /** The device path of a load option. */
  function DevicePath(p: bytes): Result<bytes> {
    if |p| < 6 then Err(TooShort)
    else
      var start := DescriptionEnd(p, 6);
      if start.None? then Err(Unterminated)
      else if start.value + LeAt16(p, 4) > |p| then Err(Overlong)
      else Ok(p[start.value..start.value + LeAt16(p, 4)])
  }

  /** The loop that skips the description, and the bounds checks around it. */
  method LocateDevicePath(p: bytes) returns (r: Result<bytes>)
    ensures r == DevicePath(p)
  {
    if |p| < 6 {
      return Err(TooShort);
    }
    var length := LeAt16(p, 4);
    var offset := 6;
    var foundNull := false;
    while offset + 1 < |p|
      invariant 6 <= offset <= |p| && !foundNull
      invariant DescriptionEnd(p, 6) == DescriptionEnd(p, offset)
    {
      var unit := LeAt16(p, offset);
      offset := offset + 2;
      if unit == 0 {
        foundNull := true;
        break;
      }
    }
    if !foundNull {
      return Err(Unterminated);
    }
    var end := offset + length;
    if end > |p| {
      return Err(Overlong);
    }
    r := Ok(p[offset..end]);
  }

  // The nodes of a device path.

  /** A node starts here and fits: a walk goes on. */
  predicate NodeAt(path: bytes, off: nat) {
    off + 4 <= |path| && LeAt16(path, off + 2) >= 4 && off + LeAt16(path, off + 2) <= |path|
  }

  function NodeLength(path: bytes, off: nat): nat
    requires NodeAt(path, off)
  {
    LeAt16(path, off + 2)
  }

  predicate IsHardDrive(path: bytes, off: nat)
    requires NodeAt(path, off)
  {
    path[off] == 4 && path[off + 1] == 1
  }

  /** The offset of the first Hard Drive node of at least this length. */
  function FirstHardDrive(path: bytes, off: nat, least: nat): Option<nat>
    decreases |path| - off
  {
    if !NodeAt(path, off) then None
    else if IsHardDrive(path, off) && NodeLength(path, off) >= least then Some(off)
    else FirstHardDrive(path, off + NodeLength(path, off), least)
  }

  lemma {:induction false} FirstIsNode(path: bytes, off: nat, least: nat)
    requires FirstHardDrive(path, off, least).Some?
    ensures var at := FirstHardDrive(path, off, least).value;
      off <= at && NodeAt(path, at) && IsHardDrive(path, at) && NodeLength(path, at) >= least
    decreases |path| - off
  {
    if !(IsHardDrive(path, off) && NodeLength(path, off) >= least) {
      FirstIsNode(path, off + NodeLength(path, off), least);
    }
  }

  /** What the second extractor reads of a Hard Drive node. */
  function InfoAt(path: bytes, at: nat): Result<DeviceInfo>
    requires NodeAt(path, at)
  {
    if at + 8 > |path| then Err(Panic)
    else
      var number := LeAt32(path, at + 4);
      if NodeLength(path, at) >= 42 then
        var format, signatureType := path[at + 40], path[at + 41];
        if format == 2 && signatureType == 2 then Ok(DeviceInfo(number, Some(path[at + 24..at + 40]), None, format))
        else if format == 1 && signatureType == 1 then Ok(DeviceInfo(number, None, Some(LeAt32(path, at + 24)), format))
        else Ok(DeviceInfo(number, None, None, format))
      else Ok(DeviceInfo(number, None, None, if NodeLength(path, at) >= 25 then path[at + 24] else 0))
  }

  function NumberIn(path: bytes): Option<u32> {
    var at := FirstHardDrive(path, 0, 42);
    if at.None? then None
    else
      FirstIsNode(path, 0, 42);
      Some(LeAt32(path, at.value + 4))
  }

  function InfoIn(path: bytes): Result<Option<DeviceInfo>> {
    var at := FirstHardDrive(path, 0, 0);
    if at.None? then Ok(None)
    else
      FirstIsNode(path, 0, 0);
      match InfoAt(path, at.value)
      case Err(e) => Err(e)
      case Ok(info) => Ok(Some(info))
  }

  function PartitionId(p: bytes): Result<Option<u32>> {
    match DevicePath(p)
    case Err(e) => Err(e)
    case Ok(path) => Ok(NumberIn(path))
  }

  function BootDevice(p: bytes): Result<Option<DeviceInfo>> {
    match DevicePath(p)
    case Err(e) => Err(e)
    case Ok(path) => InfoIn(path)
  }

  /** `extract_boot_partition_id`; no payload when BootCurrent or the variable it names is unreadable. */
  method ExtractBootPartitionId(payload: Option<bytes>) returns (r: Result<Option<u32>>)
    ensures r == if payload.None? then Ok(None) else PartitionId(payload.value)
  {
    if payload.None? {
      return Ok(None);
    }
    var located := LocateDevicePath(payload.value);
    if located.Err? {
      return Err(located.error);
    }
    var path := located.value;
    var nodeOffset := 0;
    while nodeOffset + 4 <= |path|
      invariant FirstHardDrive(path, 0, 42) == FirstHardDrive(path, nodeOffset, 42)
      decreases |path| - nodeOffset
    {
      var nodeLength := LeAt16(path, nodeOffset + 2);
      if nodeLength < 4 || nodeOffset + nodeLength > |path| {
        break;
      }
      if path[nodeOffset] == 4 && path[nodeOffset + 1] == 1 {
        if nodeLength >= 42 {
          return Ok(Some(LeAt32(path, nodeOffset + 4)));
        }
      }
      nodeOffset := nodeOffset + nodeLength;
    }
    r := Ok(None);
  }

  /** `extract_boot_device_info`. */
  method ExtractBootDeviceInfo(payload: Option<bytes>) returns (r: Result<Option<DeviceInfo>>)
    ensures r == if payload.None? then Ok(None) else BootDevice(payload.value)
  {
    if payload.None? {
      return Ok(None);
    }
    var located := LocateDevicePath(payload.value);
    if located.Err? {
      return Err(located.error);
    }
    var path := located.value;
    var nodeOffset := 0;
    while nodeOffset + 4 <= |path|
      invariant FirstHardDrive(path, 0, 0) == FirstHardDrive(path, nodeOffset, 0)
      decreases |path| - nodeOffset
    {
      var nodeLength := LeAt16(path, nodeOffset + 2);
      if nodeLength < 4 || nodeOffset + nodeLength > |path| {
        break;
      }
      if path[nodeOffset] == 4 && path[nodeOffset + 1] == 1 {
        if nodeOffset + 8 > |path| {
          return Err(Panic);
        }
        var info := DeviceInfo(LeAt32(path, nodeOffset + 4), None, None, 0);
        if nodeLength >= 42 {
          var format, signatureType := path[nodeOffset + 40], path[nodeOffset + 41];
          info := info.(format := format);
          if format == 2 && signatureType == 2 {
            info := info.(guid := Some(path[nodeOffset + 24..nodeOffset + 40]));
          } else if format == 1 && signatureType == 1 {
            info := info.(mbrSignature := Some(LeAt32(path, nodeOffset + 24)));
          }
        } else if nodeLength >= 25 {
          info := info.(format := path[nodeOffset + 24]);
        }
        return Ok(Some(info));
      }
      nodeOffset := nodeOffset + nodeLength;
    }
    r := Ok(None);
  }

  // Agreement.

  /** The two extractors give the same partition number, both none, or the same failure. */
  predicate Agree(id: Result<Option<u32>>, info: Result<Option<DeviceInfo>>) {
    match (id, info)
    case (Err(e), Err(f)) => e == f
    case (Ok(None), Ok(None)) => true
    case (Ok(Some(n)), Ok(Some(i))) => n == i.number
    case _ => false
  }

  /** The first Hard Drive node, if there is one, has the full length. */
  predicate FirstIsFull(path: bytes) {
    var at := FirstHardDrive(path, 0, 0);
    at.Some? ==>
      (FirstIsNode(path, 0, 0);
       NodeLength(path, at.value) >= 42)
  }

  /** A short first node is followed by a full one with the number that the short one seems to have. */
  predicate RepeatedNumber(path: bytes) {
    var short, full := FirstHardDrive(path, 0, 0), FirstHardDrive(path, 0, 42);
    && short.Some? && full.Some?
    && (FirstIsNode(path, 0, 42);
        short.value + 8 <= |path| && LeAt32(path, short.value + 4) == LeAt32(path, full.value + 4))
  }

  lemma {:induction false} FullIsFirst(path: bytes, off: nat)
    requires var at := FirstHardDrive(path, off, 0);
      at.None? || (NodeAt(path, at.value) && NodeLength(path, at.value) >= 42)
    ensures FirstHardDrive(path, off, 42) == FirstHardDrive(path, off, 0)
    decreases |path| - off
  {
    if NodeAt(path, off) && !IsHardDrive(path, off) {
      FullIsFirst(path, off + NodeLength(path, off));
    }
  }

  /**
   On every payload, whatever its bytes, the extractors agree if and only if the load option itself
   is malformed, its first Hard Drive node is full or absent, or a short one happens to repeat the
   number of the full one after it.
   */
  lemma ExtractorsAgree(p: bytes)
    ensures Agree(PartitionId(p), BootDevice(p)) <==>
      DevicePath(p).Ok? ==> FirstIsFull(DevicePath(p).value) || RepeatedNumber(DevicePath(p).value)
  {
    if DevicePath(p).Ok? {
      var path := DevicePath(p).value;
      if FirstHardDrive(path, 0, 0).Some? { FirstIsNode(path, 0, 0); }
      if FirstHardDrive(path, 0, 42).Some? { FirstIsNode(path, 0, 42); }
      if FirstIsFull(path) { FullIsFirst(path, 0); }
    }
  }

  /** A Hard Drive node of eight bytes: one extractor passes over it, the other takes its number. */
  lemma ShortNodeParts()
    ensures var p := Zeros(4) + Le16(8) + Le16(0) + [4, 1, 8, 0, 1, 0, 0, 0];
      PartitionId(p) == Ok(None) && BootDevice(p) == Ok(Some(DeviceInfo(1, None, None, 0)))
  {
    var path := [4, 1, 8, 0, 1, 0, 0, 0];
    var p := Zeros(4) + Le16(8) + Le16(0) + path;
    assert LeAt16(p, 4) == 8 && LeAt16(p, 6) == 0;
    assert p[8..16] == path;
    assert DescriptionEnd(p, 6) == Some(8) && DevicePath(p) == Ok(path);
    assert NodeAt(path, 0) && !NodeAt(path, 8);
    assert FirstHardDrive(path, 0, 42) == FirstHardDrive(path, 8, 42) == None;
    assert FirstHardDrive(path, 0, 0) == Some(0) && NodeLength(path, 0) == 8 && LeAt32(path, 4) == 1;
  }

  /** A Hard Drive node of four bytes at the end of the path: the second extractor indexes beyond it. */
  lemma BareNodePanics()
    ensures var p := Zeros(4) + Le16(4) + Le16(0) + [4, 1, 4, 0];
      PartitionId(p) == Ok(None) && BootDevice(p) == Err(Panic)
  {
    var path := [4, 1, 4, 0];
    var p := Zeros(4) + Le16(4) + Le16(0) + path;
    assert LeAt16(p, 4) == 4 && LeAt16(p, 6) == 0;
    assert p[8..12] == path;
    assert DescriptionEnd(p, 6) == Some(8) && DevicePath(p) == Ok(path);
    assert NodeAt(path, 0) && !NodeAt(path, 4);
    assert FirstHardDrive(path, 0, 42) == FirstHardDrive(path, 4, 42) == None;
    assert FirstHardDrive(path, 0, 0) == Some(0);
  }

  // Round trip.

  datatype Node = Node(kind: byte, subtype: byte, data: bytes)

  datatype Entry = Entry(attributes: u32, description: seq<u16>, path: seq<Node>, optional: bytes)

  predicate WellFormed(e: Entry) {
    && (forall i :: 0 <= i < |e.description| ==> e.description[i] != 0)
    && (forall i :: 0 <= i < |e.path| ==> |e.path[i].data| <= 0xFFFB)
    && |PathBytes(e.path)| < 0x1_0000
  }

  function NodeBytes(n: Node): bytes {
    [n.kind, n.subtype] + Le16((4 + |n.data|) % 0x1_0000) + n.data
  }

  function PathBytes(nodes: seq<Node>): bytes {
    if nodes == [] then [] else NodeBytes(nodes[0]) + PathBytes(nodes[1..])
  }

  function DescriptionBytes(text: seq<u16>): bytes {
    if text == [] then Le16(0) else Le16(text[0]) + DescriptionBytes(text[1..])
  }

  /** The EFI_LOAD_OPTION as stored in a Boot#### variable. */
  function EntryBytes(e: Entry): bytes
    requires WellFormed(e)
  {
    Le32(e.attributes) + Le16(|PathBytes(e.path)|) + DescriptionBytes(e.description) + PathBytes(e.path) + e.optional
  }

  predicate HardDrive(n: Node) {
    n.kind == 4 && n.subtype == 1
  }

  /** The first Hard Drive node with this much data. */
  function FirstDrive(nodes: seq<Node>, least: nat): (n: Option<Node>)
    ensures n.Some? ==> n.value in nodes && HardDrive(n.value) && |n.value.data| >= least
  {
    if nodes == [] then None
    else if HardDrive(nodes[0]) && |nodes[0].data| >= least then Some(nodes[0])
    else FirstDrive(nodes[1..], least)
  }

  /** The fields of a Hard Drive node, as section 10.3.5.1 lays them out. */
  function Describe(n: Node): DeviceInfo
    requires |n.data| >= 4
  {
    var number := FromLe32(n.data[0..4]);
    if |n.data| >= 38 then
      var format, signatureType := n.data[36], n.data[37];
      DeviceInfo(number,
                 if format == 2 && signatureType == 2 then Some(n.data[20..36]) else None,
                 if format == 1 && signatureType == 1 then Some(FromLe32(n.data[20..24])) else None,
                 format)
    else DeviceInfo(number, None, None, if |n.data| >= 21 then n.data[20] else 0)
  }

  lemma {:induction false} DescriptionSkipped(before: bytes, text: seq<u16>, after: bytes)
    requires forall i :: 0 <= i < |text| ==> text[i] != 0
    ensures DescriptionEnd(before + DescriptionBytes(text) + after, |before|) == Some(|before + DescriptionBytes(text)|)
    decreases |text|
  {
    var p := before + DescriptionBytes(text) + after;
    if text == [] {
      UnitAt(before, 0, after);
    } else {
      var rest := DescriptionBytes(text[1..]);
      UnitAt(before, text[0], rest + after);
      assert p == before + Le16(text[0]) + (rest + after) == before + Le16(text[0]) + rest + after;
      DescriptionSkipped(before + Le16(text[0]), text[1..], after);
    }
  }

  lemma UnitAt(before: bytes, unit: u16, after: bytes)
    ensures |before + Le16(unit) + after| >= |before| + 2 && LeAt16(before + Le16(unit) + after, |before|) == unit
  {}

  lemma DevicePathFound(e: Entry)
    requires WellFormed(e)
    ensures DevicePath(EntryBytes(e)) == Ok(PathBytes(e.path))
  {
    var path, text := PathBytes(e.path), DescriptionBytes(e.description);
    var front := Le32(e.attributes) + Le16(|path|);
    var p := front + text + path + e.optional;
    assert p == front + text + (path + e.optional);
    DescriptionSkipped(front, e.description, path + e.optional);
    UnitAt(Le32(e.attributes), |path|, text + path + e.optional);
    assert p == Le32(e.attributes) + Le16(|path|) + (text + path + e.optional);
    assert p[|front + text|..|front + text| + |path|] == path;
  }

  /** From an offset to its end, the device path is these nodes. */
  predicate HasNodes(path: bytes, off: nat, nodes: seq<Node>)
    decreases |nodes|
  {
    if nodes == [] then off == |path|
    else OccursAt(path, off, NodeBytes(nodes[0])) && HasNodes(path, off + |NodeBytes(nodes[0])|, nodes[1..])
  }

  lemma {:induction false} PathHasNodes(before: bytes, nodes: seq<Node>)
    ensures HasNodes(before + PathBytes(nodes), |before|, nodes)
    decreases |nodes|
  {
    if nodes == [] {
      assert before + PathBytes(nodes) == before;
    } else {
      var first, after := NodeBytes(nodes[0]), PathBytes(nodes[1..]);
      Associate(before, first, after);
      OccursInside(before, first, after);
      PathHasNodes(before + first, nodes[1..]);
    }
  }

  lemma NodeSeen(path: bytes, off: nat, n: Node)
    requires off <= |path| && |n.data| <= 0xFFFB && OccursAt(path, off, NodeBytes(n))
    ensures NodeAt(path, off) && NodeLength(path, off) == 4 + |n.data| && (IsHardDrive(path, off) <==> HardDrive(n))
    ensures path[off + 4..off + 4 + |n.data|] == n.data
  {
    OccursSplit(path, off, NodeBytes(n));
    var before, after := path[..off], path[off + |NodeBytes(n)|..];
    UnitAt(before + [n.kind, n.subtype], 4 + |n.data|, n.data + after);
    assert path == before + [n.kind, n.subtype] + Le16(4 + |n.data|) + (n.data + after);
  }

  /** The walk finds the node that the search over the nodes finds. */
  lemma {:induction false} WalkFindsDrive(path: bytes, off: nat, nodes: seq<Node>, least: nat)
    requires off <= |path| && HasNodes(path, off, nodes)
    requires forall i :: 0 <= i < |nodes| ==> |nodes[i].data| <= 0xFFFB
    ensures var at, n := FirstHardDrive(path, off, 4 + least), FirstDrive(nodes, least);
      && (at.Some? <==> n.Some?)
      && (at.Some? ==> NodeAt(path, at.value) && NodeLength(path, at.value) == 4 + |n.value.data| >= 4 + least
                       && path[at.value + 4..at.value + 4 + |n.value.data|] == n.value.data)
    decreases |nodes|
  {
    if nodes != [] {
      NodeSeen(path, off, nodes[0]);
      if !(HardDrive(nodes[0]) && |nodes[0].data| >= least) {
        WalkFindsDrive(path, off + |NodeBytes(nodes[0])|, nodes[1..], least);
      }
    }
  }

  lemma {:induction false} NodesHaveHeaders(path: bytes, off: nat)
    ensures FirstHardDrive(path, off, 0) == FirstHardDrive(path, off, 4)
    decreases |path| - off
  {
    if NodeAt(path, off) && !IsHardDrive(path, off) {
      NodesHaveHeaders(path, off + NodeLength(path, off));
    }
  }

  lemma NumberOfData(path: bytes, at: nat, data: bytes)
    requires |data| >= 4 && at + 4 + |data| <= |path| && path[at + 4..at + 4 + |data|] == data
    ensures LeAt32(path, at + 4) == FromLe32(data[0..4])
    ensures |data| >= 24 ==> LeAt32(path, at + 24) == FromLe32(data[20..24])
  {
    At32(path, at + 4);
    SliceOfSlice(path, at + 4, at + 4 + |data|, 0, 4);
    if |data| >= 24 {
      At32(path, at + 24);
      SliceOfSlice(path, at + 4, at + 4 + |data|, 20, 24);
    }
  }

  lemma InfoOfData(path: bytes, at: nat, n: Node)
    requires NodeAt(path, at) && NodeLength(path, at) == 4 + |n.data| && |n.data| >= 4
    requires path[at + 4..at + 4 + |n.data|] == n.data
    ensures InfoAt(path, at) == Ok(Describe(n))
  {
    NumberOfData(path, at, n.data);
    if |n.data| >= 36 {
      SliceOfSlice(path, at + 4, at + 4 + |n.data|, 20, 36);
    }
    assert forall i :: 0 <= i < |n.data| ==> n.data[i] == path[at + 4 + i];
  }

  lemma PathRoundTrip(path: bytes, nodes: seq<Node>)
    requires HasNodes(path, 0, nodes)
    requires forall i :: 0 <= i < |nodes| ==> |nodes[i].data| <= 0xFFFB
    ensures NumberIn(path) == NumberOf(nodes)
    ensures Numbered(nodes) ==> InfoIn(path) == Ok(InfoOf(nodes))
  {
    WalkFindsDrive(path, 0, nodes, 38);
    if FirstHardDrive(path, 0, 42).Some? {
      NumberOfData(path, FirstHardDrive(path, 0, 42).value, FirstDrive(nodes, 38).value.data);
    }
    NodesHaveHeaders(path, 0);
    WalkFindsDrive(path, 0, nodes, 0);
    if FirstHardDrive(path, 0, 0).Some? && Numbered(nodes) {
      InfoOfData(path, FirstHardDrive(path, 0, 0).value, FirstDrive(nodes, 0).value);
    }
  }

  function NumberOf(nodes: seq<Node>): Option<u32> {
    var n := FirstDrive(nodes, 38);
    if n.Some? then Some(FromLe32(n.value.data[0..4])) else None
  }

  /** The first Hard Drive node, if there is one, is long enough for a partition number. */
  predicate Numbered(nodes: seq<Node>) {
    FirstDrive(nodes, 0).Some? ==> |FirstDrive(nodes, 0).value.data| >= 4
  }

  function InfoOf(nodes: seq<Node>): Option<DeviceInfo>
    requires Numbered(nodes)
  {
    var n := FirstDrive(nodes, 0);
    if n.Some? then Some(Describe(n.value)) else None
  }

  /**
   Any boot entry, with any NUL-free description, any device path and any optional data, read back:
   the first extractor yields the number of the first Hard Drive node with all its fields, the second
   the number and identity of the first Hard Drive node, if that has a number.
   */
  lemma RoundTrip(e: Entry)
    requires WellFormed(e)
    ensures PartitionId(EntryBytes(e)) == Ok(NumberOf(e.path))
    ensures Numbered(e.path) ==> BootDevice(EntryBytes(e)) == Ok(InfoOf(e.path))
  {
    DevicePathFound(e);
    assert [] + PathBytes(e.path) == PathBytes(e.path);
    PathHasNodes([], e.path);
    PathRoundTrip(PathBytes(e.path), e.path);
  }
}
