/**
 The boot on a machine with a TPM: what the boot is told when it unseals is what `UnsealKey` makes of
 that TPM's replies, and after the boot has extended PCR 7 the secret it used is out of reach.
 */
module BootLockout {
  import opened Bytes
  import opened TpmFrames
  import opened TpmTransport
  import opened TpmClient
  import Model = TpmModel
  import Lock = TpmLockout
  import Seal = Sealing
  import BootTrace

  /** The TPM goes from one state to another by commands and reopens, without a reboot. */
  ghost predicate Reaches(chip: Model.Chip, t: Model.Tpm, t': Model.Tpm) {
    exists events :: Lock.SameBoot(events) && t' == Lock.Run(chip, t, events)
  }

  /** The TPM was extended on the way: something, `pcr_extend` on PCR 7, something. */
  ghost predicate Extends(chip: Model.Chip, t: Model.Tpm, t': Model.Tpm) {
    exists middle: Model.Tpm, digest: bytes ::
      && |digest| == SHA256_DIGEST_SIZE && Reaches(chip, t, middle)
      && Reaches(chip, Model.Served(chip, middle, PcrExtendFrame(7, digest)), t')
  }

  function ModeFor(verified: bool): SealMode {
    if verified then Secure else Dev
  }

  /** A new open of the device. */
  function Opened(chip: Model.Chip, t: Model.Tpm): Model.Tpm {
    Model.After(chip, t, Model.Reopen)
  }

  /** What `unseal_key` returns on this TPM. */
  function Unseals(chip: Model.Chip, t: Model.Tpm, verified: bool): Result<bytes> {
    var mode := ModeFor(verified);
    UnsealKey(Seal.TpmIo(chip), Seal.Port(Opened(chip, t), []), mode.PersistentHandle(), mode.Prefix()).1
  }

  /**
   The machine has this TPM: it answers the boot's unsealing, it is extended when the boot extends, and
   whatever else is sent to it happens in the same boot.
   */
  ghost predicate HasTpm(w: BootTrace.World, chip: Model.Chip, tpm: BootTrace.Trace -> Model.Tpm) {
    && (forall t, verified :: w.unseal(t, verified) == Unseals(chip, tpm(t), verified))
    && (forall t, e :: Reaches(chip, tpm(t), tpm(t + [e])))
    && (forall t :: Extends(chip, tpm(t), tpm(t + [BootTrace.Extended(true)])))
  }

  lemma ReachesGrows(chip: Model.Chip, t: Model.Tpm, t': Model.Tpm)
    requires Reaches(chip, t, t')
    ensures t.pcrs[7] <= t'.pcrs[7]
  {
    var events :| Lock.SameBoot(events) && t' == Lock.Run(chip, t, events);
    Lock.RunGrowsPcr7(chip, t, events);
  }

  lemma ExtendsGrows(chip: Model.Chip, t: Model.Tpm, t': Model.Tpm)
    requires Extends(chip, t, t')
    ensures t.pcrs[7] < t'.pcrs[7]
  {
    var middle: Model.Tpm, digest: bytes :|
      && |digest| == SHA256_DIGEST_SIZE && Reaches(chip, t, middle)
      && Reaches(chip, Model.Served(chip, middle, PcrExtendFrame(7, digest)), t');
    ReachesGrows(chip, t, middle);
    Seal.ExtendGrows(chip, middle, digest);
    ReachesGrows(chip, Model.Served(chip, middle, PcrExtendFrame(7, digest)), t');
  }

  lemma ExtensionGrows(w: BootTrace.World, chip: Model.Chip, tpm: BootTrace.Trace -> Model.Tpm, t: BootTrace.Trace)
    requires HasTpm(w, chip, tpm)
    ensures tpm(t).pcrs[7] < tpm(t + [BootTrace.Extended(true)]).pcrs[7]
  {
    ExtendsGrows(chip, tpm(t), tpm(t + [BootTrace.Extended(true)]));
  }

  lemma {:induction false} TraceGrows(w: BootTrace.World, chip: Model.Chip, tpm: BootTrace.Trace -> Model.Tpm,
                                      t: BootTrace.Trace, later: BootTrace.Trace)
    requires HasTpm(w, chip, tpm) && t <= later
    ensures tpm(t).pcrs[7] <= tpm(later).pcrs[7]
    decreases |later|
  {
    if t != later {
      var past, e := later[..|later| - 1], later[|later| - 1];
      TraceGrows(w, chip, tpm, t, past);
      assert past + [e] == later;
      ReachesGrows(chip, tpm(past), tpm(past + [e]));
    } else {
      assert t == later;
    }
  }

  /**
   What was sealed is what the boot is given. A secret sealed in secure mode under 0x81001003, or in development
   mode under 0x81001002, is unsealed by a boot with Secure Boot on, or off, after anything that leaves PCR 7 and
   that handle alone.
   */
  lemma BootUnsealsWhatWasSealed(w: BootTrace.World, chip: Model.Chip, tpm: BootTrace.Trace -> Model.Tpm,
                                 t: BootTrace.Trace, sealing: Model.Tpm, secret: bytes, events: seq<Model.Event>)
    requires HasTpm(w, chip, tpm) && Model.WrapsSoundly(chip) && Model.Valid(sealing) && Seal.FreshlyOpened(sealing)
    requires var mode, handle := if BootTrace.Verified(w) then Secure else Dev,
                                 if BootTrace.Verified(w) then 0x8100_1003 else 0x8100_1002;
      && Seal.CanSeal(sealing, secret, mode, handle)
      && (forall i :: 0 <= i < |events| ==> Seal.LeavesAlone(events[i], sealing.pcrs[7], handle))
      && Opened(chip, tpm(t)) == Seal.AfterSealing(chip, sealing, secret, mode, handle, events)
    ensures w.unseal(t, BootTrace.Verified(w)) == Ok(secret)
  {
    var mode := if BootTrace.Verified(w) then Secure else Dev;
    Seal.SealUnsealRoundTrip(chip, sealing, secret, mode, mode.PersistentHandle(), events, mode);
  }

  /**
   In every boot on such a machine: once PCR 7 has been extended, whatever happens later in that boot, and
   wherever the object that was unsealed is then kept, the program does not get its secret back.
   */
  lemma LockedAfterBoot(w: BootTrace.World, chip: Model.Chip, tpm: BootTrace.Trace -> Model.Tpm,
                        t: BootTrace.Trace, i: nat, later: BootTrace.Trace, handle: u32, prefix: bytes)
    requires HasTpm(w, chip, tpm) && BootTrace.Run(w, t) && i < |t| && t[i] == BootTrace.Extended(true)
    requires t[..i + 1] <= later
    ensures i >= 3 && t[i - 3].Unsealed?
    ensures ModeFor(BootTrace.Verified(w)).PersistentHandle() in tpm(t[..i - 3]).persistent
    ensures var asked, mode := tpm(t[..i - 3]), ModeFor(BootTrace.Verified(w));
      var now := Opened(chip, tpm(later));
      Lock.Separates(chip, asked.pcrs[7]) && Seal.Holds(now, handle, asked.persistent[mode.PersistentHandle()]) ==>
      UnsealKey(Seal.TpmIo(chip), Seal.Port(now, []), handle, prefix).1.Err?
  {
    BootTrace.ExtendedAfterUnlock(w, t, i);
    var asked, mode := tpm(t[..i - 3]), ModeFor(BootTrace.Verified(w));
    var now := Opened(chip, tpm(later));
    Seal.UnsealKeyExact(chip, Opened(chip, asked), mode.PersistentHandle(), mode.Prefix());
    Prefixes(t, i);
    GrownSince(w, chip, tpm, t[..i - 3], t[..i], later);
    if Lock.Separates(chip, asked.pcrs[7]) && Seal.Holds(now, handle, asked.persistent[mode.PersistentHandle()]) {
      Seal.OtherHistoryRefused(chip, now, handle, asked.pcrs[7], prefix);
    }
  }

  lemma GrownSince(w: BootTrace.World, chip: Model.Chip, tpm: BootTrace.Trace -> Model.Tpm,
                   asked: BootTrace.Trace, before: BootTrace.Trace, later: BootTrace.Trace)
    requires HasTpm(w, chip, tpm) && asked <= before && before + [BootTrace.Extended(true)] <= later
    ensures tpm(asked).pcrs[7] < tpm(later).pcrs[7]
  {
    TraceGrows(w, chip, tpm, asked, before);
    ExtensionGrows(w, chip, tpm, before);
    TraceGrows(w, chip, tpm, before + [BootTrace.Extended(true)], later);
    Chain(tpm(asked).pcrs[7], tpm(before).pcrs[7], tpm(before + [BootTrace.Extended(true)]).pcrs[7],
          tpm(later).pcrs[7]);
  }

  lemma Prefixes(t: BootTrace.Trace, i: nat)
    requires 3 <= i < |t|
    ensures t[..i - 3] <= t[..i] && t[..i] + [t[i]] == t[..i + 1]
  {}

  lemma Chain<T>(a: seq<T>, b: seq<T>, c: seq<T>, d: seq<T>)
    requires a <= b < c <= d
    ensures a < d
  {}

  // A reply too short to slice.

  /** A device that answers everything with the bare header of success. */
  function HeaderOnly(): Io<()> {
    Io((s: (), cmd: bytes) => (s, true), (s: ()) => (s, Some(Frame(ST_NO_SESSIONS, 0, []))))
  }

  /** On it the program slices the session handle beyond the end of the reply. */
  lemma ShortReplyPanics(handle: u32, prefix: bytes)
    ensures UnsealKey(HeaderOnly(), (), handle, prefix).1 == Err(OutOfBounds)
    ensures BootTrace.SlicePanics(UnsealKey(HeaderOnly(), (), handle, prefix).1)
  {
    Model.FrameCode(ST_NO_SESSIONS, 0, []);
    assert Try(HeaderOnly(), (), StartAuthSessionFrame(SE_POLICY)) == ((), Ok(Frame(ST_NO_SESSIONS, 0, [])));
    assert Call(HeaderOnly(), (), StartAuthSessionFrame(SE_POLICY)) == ((), Ok(Frame(ST_NO_SESSIONS, 0, [])));
  }
}
