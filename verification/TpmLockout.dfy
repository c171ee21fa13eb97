/**
 What every command keeps, and the lock-out: once PCR 7 has been extended, nothing sent in the
 same boot can unseal an object that was sealed before.
 */
module TpmLockout {
  import opened Bytes
  import opened TpmFrames
  import opened TpmDecoder
  import opened TpmModel
  import opened TpmTransport

  const SELECT_PCR7: bytes := [0x80, 0, 0]

  /** The single assertion that the program's one PolicyPCR call makes, for a PCR 7 history. */
  function Pcr7Assertion(h: History): Assertion {
    Assertion(SELECT_PCR7, seq(PCR_COUNT, i => if i == 7 then h else []))
  }

  function SealPolicy(chip: Chip, h: History): Digest {
    chip.policyDigest([Pcr7Assertion(h)])
  }

  /** No other policy has the digest of this one (second-preimage resistance at one point). */
  ghost predicate Separates(chip: Chip, h: History) {
    forall assertions {:trigger chip.policyDigest(assertions)} ::
      chip.policyDigest(assertions) == SealPolicy(chip, h) ==> assertions == [Pcr7Assertion(h)]
  }

  lemma SelectsOnlyPcr7(i: nat)
    requires i < PCR_COUNT
    ensures Selected(SELECT_PCR7, i) <==> i == 7
  {
    if i / 8 == 0 {
      assert BITS[i % 8] == 128 <==> i == 7;
    }
  }

  lemma SnapshotPcr7(t: Tpm)
    ensures Assertion(SELECT_PCR7, Snapshot(t.pcrs, SELECT_PCR7)) == Pcr7Assertion(t.pcrs[7])
  {
    var a, b := Snapshot(t.pcrs, SELECT_PCR7), Pcr7Assertion(t.pcrs[7]).values;
    forall i | 0 <= i < PCR_COUNT
      ensures a[i] == b[i]
    {
      SelectsOnlyPcr7(i);
    }
  }

  // Every step keeps the TPM valid.

  /** Sessions may be dropped, and objects come and go as long as each is valid. */
  lemma StillValid(t: Tpm, t': Tpm)
    requires Valid(t) && t'.pcrs == t.pcrs && t'.pcrCounter == t.pcrCounter
    requires forall h :: h in t'.sessions ==> h in t.sessions && t'.sessions[h] == t.sessions[h]
    requires forall h :: h in t'.persistent ==>
      PERSISTENT_FIRST <= h <= PERSISTENT_LAST && ValidObject(t'.persistent[h])
    requires forall h :: h in t'.transient ==> ValidObject(t'.transient[h])
    ensures Valid(t')
  {
    forall h | h in t'.sessions
      ensures ValidSession(t', t'.sessions[h])
    {
      assert ValidSession(t, t.sessions[h]);
    }
  }

  /** One session may be replaced by a valid one. */
  lemma SessionReplaced(t: Tpm, handle: u32, s: Session)
    requires Valid(t) && ValidSession(t, s)
    ensures Valid(t.(sessions := t.sessions[handle := s]))
  {
    var t' := t.(sessions := t.sessions[handle := s]);
    forall h | h in t'.sessions
      ensures ValidSession(t', t'.sessions[h])
    {
      if h != handle {
        assert ValidSession(t, t.sessions[h]);
      }
    }
  }

  lemma AssertedValid(t: Tpm, s: Session, select: bytes)
    requires ValidSession(t, s) && !Outdated(t, s) && |select| == 3
    ensures ValidSession(t, Asserted(t, s, select))
  {
    var s' := Asserted(t, s, select);
    var last := s'.assertions[|s.assertions|];
    assert forall a :: a in s'.assertions ==> a in s.assertions || a == last;
  }

  lemma ExtendedValid(t: Tpm, pcr: u32, digest: bytes)
    requires Valid(t) && pcr < PCR_COUNT
    ensures Valid(t.(pcrs := t.pcrs[pcr := t.pcrs[pcr] + [digest]],
                     pcrCounter := if CountsAsChange(pcr) then t.pcrCounter + 1 else t.pcrCounter))
  {
    var t' := t.(pcrs := t.pcrs[pcr := t.pcrs[pcr] + [digest]],
                 pcrCounter := if CountsAsChange(pcr) then t.pcrCounter + 1 else t.pcrCounter);
    forall h | h in t'.sessions
      ensures ValidSession(t', t'.sessions[h])
    {
      assert ValidSession(t, t.sessions[h]);
    }
  }

  lemma ObjectEffectKeepsValid(chip: Chip, t: Tpm, cmd: TpmDecoder.Command)
    requires Valid(t) && Check(chip, t, cmd) == 0
    requires cmd.Load? || cmd.EvictControl? || cmd.CreatePrimary?
    ensures Valid(Effect(chip, t, cmd))
  {
    StillValid(t, Effect(chip, t, cmd));
  }

  lemma SessionEffectKeepsValid(chip: Chip, t: Tpm, cmd: TpmDecoder.Command)
    requires Valid(t) && Check(chip, t, cmd) == 0
    requires cmd.FlushContext? || cmd.Unseal?
    ensures Valid(Effect(chip, t, cmd))
  {
    StillValid(t, Effect(chip, t, cmd));
  }

  lemma EffectKeepsValid(chip: Chip, t: Tpm, cmd: TpmDecoder.Command)
    requires Valid(t) && Check(chip, t, cmd) == 0
    ensures Valid(Effect(chip, t, cmd))
  {
    match cmd {
      case StartAuthSession(sessionType) =>
        SessionReplaced(t, FreeSession(t).value, Session(sessionType == SE_POLICY, [], None));
      case PolicyPcr(session, select) =>
        AssertedValid(t, t.sessions[session], select);
        SessionReplaced(t, session, Asserted(t, t.sessions[session], select));
      case PcrExtend(pcr, auth, digest) => ExtendedValid(t, pcr, digest);
      case FlushContext(_) => SessionEffectKeepsValid(chip, t, cmd);
      case Unseal(_, _, _) => SessionEffectKeepsValid(chip, t, cmd);
      case Load(_, _, _, _) => ObjectEffectKeepsValid(chip, t, cmd);
      case EvictControl(_, _, _, _) => ObjectEffectKeepsValid(chip, t, cmd);
      case CreatePrimary(_, _, _) => ObjectEffectKeepsValid(chip, t, cmd);
      case _ =>
    }
  }

  lemma NextKeepsValid(chip: Chip, t: Tpm, cmd: TpmDecoder.Command)
    requires Valid(t)
    ensures Valid(Next(chip, t, cmd))
  {
    if Check(chip, t, cmd) == 0 {
      EffectKeepsValid(chip, t, cmd);
    }
  }

  lemma AfterKeepsValid(chip: Chip, t: Tpm, e: Event)
    requires Valid(t)
    ensures Valid(After(chip, t, e))
  {
    if e.Command? && Decode(e.cmd).Some? {
      NextKeepsValid(chip, t, Decode(e.cmd).value);
    }
  }

  /** PCR 7 only grows, except across a reboot. */
  lemma Pcr7Grows(chip: Chip, t: Tpm, e: Event)
    requires !e.Reboot?
    ensures t.pcrs[7] <= After(chip, t, e).pcrs[7]
  {
    if e.Command? && Decode(e.cmd).Some? {
      NextGrowsPcr7(chip, t, Decode(e.cmd).value);
    }
  }

  lemma NextGrowsPcr7(chip: Chip, t: Tpm, cmd: TpmDecoder.Command)
    ensures t.pcrs[7] <= Next(chip, t, cmd).pcrs[7]
  {}

  // Whole runs.

  function Run(chip: Chip, t: Tpm, events: seq<Event>): Tpm
    decreases |events|
  {
    if events == [] then t else Run(chip, After(chip, t, events[0]), events[1..])
  }

  predicate SameBoot(events: seq<Event>) {
    forall i :: 0 <= i < |events| ==> !events[i].Reboot?
  }

  lemma {:induction false} RunKeepsValid(chip: Chip, t: Tpm, events: seq<Event>)
    requires Valid(t)
    ensures Valid(Run(chip, t, events))
    decreases |events|
  {
    if events != [] {
      AfterKeepsValid(chip, t, events[0]);
      RunKeepsValid(chip, After(chip, t, events[0]), events[1..]);
    }
  }

  lemma {:induction false} RunGrowsPcr7(chip: Chip, t: Tpm, events: seq<Event>)
    requires SameBoot(events)
    ensures t.pcrs[7] <= Run(chip, t, events).pcrs[7]
    decreases |events|
  {
    if events != [] {
      Pcr7Grows(chip, t, events[0]);
      RunGrowsPcr7(chip, After(chip, t, events[0]), events[1..]);
    }
  }

  predicate SealedTo(chip: Chip, t: Tpm, item: u32, h: History) {
    var o := Lookup(t, item);
    o.Some? && o.value.Sealed? && o.value.policy == SealPolicy(chip, h)
  }

  /** With PCR 7 past the history an object was sealed to, Unseal of that object fails. */
  lemma StaleObjectStaysSealed(chip: Chip, t: Tpm, h: History, item: u32, auth: u32)
    requires Valid(t) && h < t.pcrs[7] && Separates(chip, h) && SealedTo(chip, t, item, h)
    ensures CheckUnseal(chip, t, item, auth) != 0
  {
    if auth in t.sessions {
      var s := t.sessions[auth];
      assert ValidSession(t, s);
      if chip.policyDigest(s.assertions) == SealPolicy(chip, h) {
        var a := s.assertions[0];
        assert s.assertions == [Pcr7Assertion(h)] && a in s.assertions;
        SelectsOnlyPcr7(7);
      }
    }
  }

  /** The byte string is read as an Unseal of an object sealed to this history. */
  predicate AsksFor(chip: Chip, t: Tpm, cmd: bytes, h: History) {
    var c := Decode(cmd);
    c.Some? && c.value.Unseal? && SealedTo(chip, t, c.value.item, h)
  }

  /**
   The lock-out. From any state in which PCR 7 has been extended past the history `h`, whatever
   byte strings are then sent in the same boot, no byte string that is read as an Unseal of an
   object sealed to `h` is answered with success.
   */
  lemma LockedOut(chip: Chip, t: Tpm, h: History, events: seq<Event>, cmd: bytes)
    requires Valid(t) && h < t.pcrs[7] && Separates(chip, h) && SameBoot(events)
    ensures var t' := Run(chip, t, events);
      AsksFor(chip, t', cmd, h) ==> ResponseCode(Reply(chip, t', cmd)) != 0
  {
    var t' := Run(chip, t, events);
    RunKeepsValid(chip, t, events);
    RunGrowsPcr7(chip, t, events);
    if AsksFor(chip, t', cmd, h) {
      var c := Decode(cmd).value;
      StaleObjectStaysSealed(chip, t', h, c.item, c.auth);
      ReplyCode(chip, t', cmd);
    }
  }

  /** The frame `pcr_extend` builds for PCR 7 is what establishes the premise of the lock-out. */
  lemma ExtendLocks(chip: Chip, t: Tpm, h: History, digest: bytes)
    requires Valid(t) && h <= t.pcrs[7] && |digest| == SHA256_DIGEST_SIZE
    ensures ResponseCode(Reply(chip, t, PcrExtendFrame(7, digest))) == 0
    ensures var t' := Served(chip, t, PcrExtendFrame(7, digest));
      Valid(t') && h < t'.pcrs[7] && t'.persistent == t.persistent
  {
    ReadsPcrExtend(7, digest);
    var cmd := PcrExtendFrame(7, digest);
    ReplyCode(chip, t, cmd);
    ExtendEffect(chip, t, h, digest);
  }

  lemma ExtendEffect(chip: Chip, t: Tpm, h: History, digest: bytes)
    requires Valid(t) && h <= t.pcrs[7]
    ensures Check(chip, t, PcrExtend(7, RS_PW, digest)) == 0
    ensures var t' := Next(chip, t, PcrExtend(7, RS_PW, digest));
      Valid(t') && h < t'.pcrs[7] && t'.persistent == t.persistent
  {
    NextKeepsValid(chip, t, PcrExtend(7, RS_PW, digest));
  }

  // The hypotheses about the chip can be met.

  /** How many bytes come before the first that is not zero. */
  function Leading(s: bytes): nat {
    if s == [] || s[0] != 0 then 0 else 1 + Leading(s[1..])
  }

  lemma {:induction false} LeadingZeros(n: nat, rest: bytes)
    ensures Leading(Zeros(n) + ([1] + rest)) == n
  {
    var s := Zeros(n) + ([1] + rest);
    if n > 0 {
      LeadingZeros(n - 1, rest);
      assert s[1..] == Zeros(n - 1) + ([1] + rest);
    }
  }

  function ToyWrap(data: bytes, publicArea: bytes): bytes {
    Zeros(|data|) + ([1] + (data + publicArea))
  }

  function ToyUnwrap(blob: bytes): Option<(bytes, bytes)> {
    var n := Leading(blob);
    if 2 * n + 1 > |blob| then None else Some((blob[n + 1..2 * n + 1], blob[2 * n + 1..]))
  }

  lemma ToyUnwraps(data: bytes, publicArea: bytes)
    ensures ToyUnwrap(ToyWrap(data, publicArea)) == Some((data, publicArea))
  {
    var n, blob := |data|, ToyWrap(data, publicArea);
    LeadingZeros(n, data + publicArea);
    assert blob[n + 1..] == data + publicArea;
    assert blob[n + 1..2 * n + 1] == blob[n + 1..][..n] == data;
    assert blob[2 * n + 1..] == blob[n + 1..][n..] == publicArea;
  }

  function ToyChip(h: History): Chip {
    Chip((a: seq<Assertion>) => if a == [Pcr7Assertion(h)] then [1] + Zeros(31) else Zeros(32), ToyWrap, ToyUnwrap)
  }

  /** For every history there is a chip that wraps soundly and separates it. */
  lemma HypothesesCanBeMet(h: History)
    ensures WrapsSoundly(ToyChip(h)) && Separates(ToyChip(h), h)
  {
    var chip := ToyChip(h);
    forall data: bytes, publicArea: bytes
      ensures chip.unwrap(chip.wrap(data, publicArea)) == Some((data, publicArea))
      ensures |data| <= MAX_SEALED && |publicArea| <= 46 ==> |chip.wrap(data, publicArea)| <= 1024
    {
      ToyUnwraps(data, publicArea);
    }
    assert Zeros(32)[0] != ([1] + Zeros(31))[0];
  }
}
