/** Names of disks and partitions: composing them, taking them apart, and ordering them. */
module DeviceNames {
  import opened Bytes
  import opened Decimals

  predicate EndsInDigit(s: string) {
    s != "" && IsDigit(s[|s| - 1])
  }

  /** The updater's name for a partition of a disk. */
  function PartitionDevice(disk: string, slot: string): string {
    if EndsInDigit(disk) then disk + "p" + slot else disk + slot
  }

  function TrimDigits(s: string): string {
    if EndsInDigit(s) then TrimDigits(s[..|s| - 1]) else s
  }

  /** A disk name that ends in a digit and a `p`, as a partition prefix does. */
  predicate EndsInDigitP(s: string) {
    s != "" && s[|s| - 1] == 'p' && EndsInDigit(s[..|s| - 1])
  }

  /** The initrd's way back from a partition to its disk. */
  function ParentDisk(name: string): Option<string> {
    var trimmed := TrimDigits(name);
    var disk := if EndsInDigitP(trimmed) then trimmed[..|trimmed| - 1] else trimmed;
    if disk == "" then None else Some(disk)
  }

  lemma {:induction false} TrimAppended(s: string, digits: string)
    requires AllDigits(digits)
    ensures TrimDigits(s + digits) == TrimDigits(s)
    decreases |digits|
  {
    if digits == "" {
      assert s + digits == s;
    } else {
      TrimAppended(s, digits[..|digits| - 1]);
      assert (s + digits)[..|s + digits| - 1] == s + digits[..|digits| - 1];
    }
  }

  /**
   For every disk name and partition number, the initrd recovers the disk from the updater's
   partition name if and only if the disk's name is not empty and does not end in a digit and a `p`.
   */
  lemma ParentDiskInverts(disk: string, number: nat)
    ensures ParentDisk(PartitionDevice(disk, Decimal(number))) == Some(disk) <==> disk != "" && !EndsInDigitP(disk)
  {
    var n := Decimal(number);
    if EndsInDigit(disk) {
      TrimAppended(disk + "p", n);
      assert (disk + "p")[..|disk|] == disk;
    } else {
      TrimAppended(disk, n);
    }
  }

  /** A disk called `x1p`: its partition 7 is taken to belong to a disk `x1`. */
  lemma DigitPLosesDisk()
    ensures ParentDisk(PartitionDevice("x1p", Decimal(7))) == Some("x1")
  {
    TrimAppended("x1p", Decimal(7));
    assert "x1p"[..2] == "x1";
  }

  // Ordering.

  function DigitsOf(s: string): (d: string)
    ensures AllDigits(d)
  {
    if s == "" then ""
    else DigitsOf(s[..|s| - 1]) + (if IsDigit(s[|s| - 1]) then [s[|s| - 1]] else "")
  }

  /** The key partitions are sorted by: all the digits of the name as a 32-bit number, or zero. */
  function SortKey(name: string): nat {
    var v := Value(DigitsOf(name));
    if v < 0x1_0000_0000 then v else 0
  }

  lemma {:induction false} DigitsAppended(s: string, digits: string)
    requires AllDigits(digits)
    ensures DigitsOf(s + digits) == DigitsOf(s) + digits
    decreases |digits|
  {
    if digits == "" {
      assert s + digits == s;
    } else {
      var init := digits[..|digits| - 1];
      DigitsAppended(s, init);
      assert (s + digits)[..|s + digits| - 1] == s + init;
      assert DigitsOf(s) + init + [digits[|digits| - 1]] == DigitsOf(s) + digits;
    }
  }

  /** The digits of `front` followed by those of `n`. */
  function Joined(front: nat, n: nat): nat {
    if n < 10 then front * 10 + n else Joined(front, n / 10) * 10 + n % 10
  }

  lemma {:induction false} JoinedValue(front: string, n: nat)
    requires AllDigits(front)
    ensures Value(front + Decimal(n)) == Joined(Value(front), n)
  {
    var s := front + Decimal(n);
    if n < 10 {
      assert s[..|s| - 1] == front;
    } else {
      JoinedValue(front, n / 10);
      assert s[..|s| - 1] == front + Decimal(n / 10);
    }
  }

  lemma {:induction false} JoinedGrows(front: nat, n: nat)
    ensures Joined(front, n) >= front * 10 + n
  {
    if n >= 10 {
      JoinedGrows(front, n / 10);
    }
  }

  lemma {:induction false} JoinedMonotone(front: nat, a: nat, b: nat)
    requires a < b
    ensures Joined(front, a) < Joined(front, b)
  {
    if b >= 10 {
      if a < 10 {
        JoinedGrows(front, b / 10);
      } else if a / 10 < b / 10 {
        JoinedMonotone(front, a / 10, b / 10);
      }
    }
  }

  /** The number whose digits are those of the disk and then those of the partition. */
  function Concatenated(disk: string, number: nat): nat {
    Joined(Value(DigitsOf(disk)), number)
  }

  lemma PartitionDigits(disk: string, number: nat)
    ensures Value(DigitsOf(PartitionDevice(disk, Decimal(number)))) == Concatenated(disk, number)
  {
    JoinedValue(DigitsOf(disk), number);
    if EndsInDigit(disk) {
      assert (disk + "p")[..|disk|] == disk;
      assert DigitsOf(disk + "p") == DigitsOf(disk) + "" == DigitsOf(disk);
      DigitsAppended(disk + "p", Decimal(number));
    } else {
      DigitsAppended(disk, Decimal(number));
    }
  }

  /**
   Of two partitions of one disk, the one with the larger number sorts after the other if and only if
   its concatenated digits fit in 32 bits.
   */
  lemma SortsByNumber(disk: string, a: nat, b: nat)
    requires a < b
    ensures SortKey(PartitionDevice(disk, Decimal(a))) < SortKey(PartitionDevice(disk, Decimal(b)))
      <==> Concatenated(disk, b) < 0x1_0000_0000
  {
    PartitionDigits(disk, a);
    PartitionDigits(disk, b);
    JoinedMonotone(Value(DigitsOf(disk)), a, b);
  }

  /** On the disk `md42949672`, the key of partition 95 is the largest of 32 bits, and partition 96 sorts before it. */
  lemma NextPartitionSortsFirst()
    ensures var disk := "md" + Decimal(42949672);
      && SortKey(PartitionDevice(disk, Decimal(95))) == 0xFFFF_FFFF
      && SortKey(PartitionDevice(disk, Decimal(96))) == 0
  {
    var disk := "md" + Decimal(42949672);
    PartitionDigits(disk, 95);
    PartitionDigits(disk, 96);
    DigitsAppended("md", Decimal(42949672));
    NoDigits();
    assert "" + Decimal(42949672) == Decimal(42949672);
    DecimalValue(42949672);
    assert Joined(42949672, 9) == 429496729;
  }

  lemma NoDigits()
    ensures DigitsOf("md") == ""
  {
    assert "md"[..1] == "m";
    assert DigitsOf("m") == "";
  }

  predicate SortedByKey(names: seq<string>) {
    forall i, j :: 0 <= i < j < |names| ==> SortKey(names[i]) <= SortKey(names[j])
  }

  /** A listing of one disk's partitions that is sorted by key is sorted by partition number. */
  lemma ListingSorted(disk: string, numbers: seq<nat>, names: seq<string>)
    requires |names| == |numbers| && SortedByKey(names)
    requires forall i :: 0 <= i < |names| ==> names[i] == PartitionDevice(disk, Decimal(numbers[i]))
    requires forall i :: 0 <= i < |numbers| ==> Concatenated(disk, numbers[i]) < 0x1_0000_0000
    ensures forall i, j :: 0 <= i < j < |numbers| ==> numbers[i] <= numbers[j]
  {
    forall i, j | 0 <= i < j < |numbers|
      ensures numbers[i] <= numbers[j]
    {
      if numbers[j] < numbers[i] {
        SortsByNumber(disk, numbers[j], numbers[i]);
      }
    }
  }
}
