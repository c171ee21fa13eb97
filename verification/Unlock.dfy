/** Unlocking the encrypted state directory: by the TPM, or by up to three passwords. */
module Unlock {
  import opened Bytes
  import opened BootTrace
  import Tpm = TpmTransport

  /** Repeats a secret to fill the 64 bytes of an fscrypt key. */
  method ExpandKey(raw: bytes) returns (key: bytes)
    requires raw != []
    ensures Fills(raw, key)
  {
    var buffer := new byte[64](_ => 0);
    for i := 0 to 64
      invariant forall j :: 0 <= j < i ==> buffer[j] == raw[j % |raw|]
    {
      buffer[i] := raw[i % |raw|];
    }
    key := buffer[..];
  }

  /** The run goes on in the mode and at the stage it was in, and `c` is not looked at again. */
  ghost predicate Continues(w: World, was: Trace, now: Trace) {
    && Run(w, now) && was <= now && Switched(now) == Switched(was) && RootMounts(now) == RootMounts(was)
    && StageOf(now) == StageOf(was) && (ModeOf(was).Some? ==> ModeOf(now) == ModeOf(was))
    && forall b :: StateC(b) in now <==> StateC(b) in was
  }

  // Machines whose state can be unlocked.

  /** Every step that can be tried succeeds. */
  ghost predicate Obliges(w: World) {
    forall t, e :: w.succeeds(t, e)
  }

  /** A key that repeats this secret was installed. */
  ghost predicate Installed(t: Trace, secret: bytes) {
    exists key :: KeyAdded(key, true) in t && Fills(secret, key)
  }

  /** The state is unlocked from the moment on at which a key that repeats this secret is installed. */
  ghost predicate OpensWith(w: World, secret: bytes) {
    secret != [] && forall t :: w.hasHome(t) <==> Installed(t, secret)
  }

  /** The TPM unseals the secret that opens the state. */
  ghost predicate TpmOpens(w: World, verified: bool) {
    exists secret :: OpensWith(w, secret) && forall t :: w.hasTpm(t) && w.unseal(t, verified) == Tpm.Ok(secret)
  }

  /** The TPM is not there or answers with an error. */
  ghost predicate TpmSilent(w: World, verified: bool) {
    forall t :: w.hasTpm(t) ==> w.unseal(t, verified).Err? && !SlicePanics(w.unseal(t, verified))
  }

  /** After `k` others this password is typed, and it is the secret or decrypts it from the key file. */
  ghost predicate Types(w: World, password: bytes, k: nat, secret: bytes) {
    && k < 3 && password != []
    && forall t ::
      && (Prompts(t) < k ==> w.prompt(t).Some?) && (Prompts(t) == k ==> w.prompt(t) == Some(password))
      && if w.hasKeyFile(t) then w.decrypt(t, password) == Some(secret) else password == secret
  }

  /** One of the first three passwords typed opens the state. */
  ghost predicate PasswordOpens(w: World) {
    exists secret, password, k :: OpensWith(w, secret) && Types(w, password, k, secret)
  }

  /** There are such machines: any, without its TPM, when this password is typed and opens the state. */
  lemma SomePasswordOpens(w: World, password: bytes) returns (v: World)
    requires password != []
    ensures v == w.(hasHome := v.hasHome, hasKeyFile := _ => false, hasTpm := _ => false, prompt := _ => Some(password))
    ensures forall verified :: TpmSilent(v, verified)
    ensures PasswordOpens(v)
  {
    v := w.(hasHome := (t: Trace) => Installed(t, password), hasKeyFile := _ => false, hasTpm := _ => false,
            prompt := _ => Some(password));
    assert OpensWith(v, password) && Types(v, password, 0, password);
  }

  // Trying a secret.

  /** Installs the secret just recovered; an empty one is refused. */
  method AddKey(h: Host, raw: bytes, ghost tpm: bool) returns (ok: bool)
    requires Run(h.world, h.trace) && StageOf(h.trace) == 1
    requires PhaseOf(h.world, h.trace) == AfterSecret(raw, tpm) && Recovered(h.world, h.trace) == Some(raw)
    modifies h
    ensures Continues(h.world, old(h.trace), h.trace) && Prompts(h.trace) == old(Prompts(h.trace))
    ensures PhaseOf(h.world, h.trace) == if ok then MustLook(tpm) else Quiet
    ensures if raw == [] then !ok && h.trace == old(h.trace)
            else exists key :: Fills(raw, key) && h.trace == old(h.trace) + [KeyAdded(key, ok)]
    ensures ok ==> Installed(h.trace, raw)
    ensures Obliges(h.world) && raw != [] ==> ok
  {
    if raw == [] {
      return false;
    }
    var key := ExpandKey(raw);
    ok := h.world.succeeds(h.trace, KeyAdded(key, true));
    h.Record(KeyAdded(key, ok));
    assert Latest(h.trace, KeyAdded(key, ok));
  }

  method LookForSentinel(h: Host) returns (seen: bool)
    requires Run(h.world, h.trace) && StageOf(h.trace) == 1
    requires PhaseOf(h.world, h.trace).Quiet? || PhaseOf(h.world, h.trace).MustLook?
    modifies h
    ensures Continues(h.world, old(h.trace), h.trace)
    ensures h.trace == old(h.trace) + [Sentinel(seen)] && Prompts(h.trace) == old(Prompts(h.trace))
    ensures seen == h.world.hasHome(old(h.trace))
    ensures PhaseOf(h.world, h.trace)
         == if seen && PhaseOf(h.world, old(h.trace)) == MustLook(true) then MustExtend else Quiet
  {
    seen := h.world.hasHome(h.trace);
    h.Record(Sentinel(seen));
  }

  /** Tries the secret just recovered: installed, and the sentinel appears. */
  method TrySecret(h: Host, raw: bytes, ghost tpm: bool) returns (ok: bool)
    requires Run(h.world, h.trace) && StageOf(h.trace) == 1 && !Unlocked(h.trace)
    requires PhaseOf(h.world, h.trace) == AfterSecret(raw, tpm) && Recovered(h.world, h.trace) == Some(raw)
    modifies h
    ensures Continues(h.world, old(h.trace), h.trace) && Prompts(h.trace) == old(Prompts(h.trace))
    ensures ok <==> Unlocked(h.trace)
    ensures PhaseOf(h.world, h.trace) == if ok && tpm then MustExtend else Quiet
    ensures Obliges(h.world) && OpensWith(h.world, raw) ==> ok
  {
    ok := AddKey(h, raw, tpm);
    if !ok {
      return;
    }
    ok := LookForSentinel(h);
  }

  /**
   Unseals the key and tries it; when that unlocks the state, extends PCR 7 so that the key cannot be
   unsealed again. A failed extension is not an error; a reply too short to slice ends the process.
   */
  method UnlockWithTpm(h: Host, verified: bool) returns (r: Attempt)
    requires Going(h.world, h.trace) && StageOf(h.trace) == 1 && !Unlocked(h.trace) && ModeOf(h.trace) == Some(verified)
    modifies h
    ensures Continues(h.world, old(h.trace), h.trace) && Prompts(h.trace) == old(Prompts(h.trace))
    ensures r.Succeeded? <==> Unlocked(h.trace)
    ensures r.Died? <==> SlicePanics(h.world.unseal(old(h.trace), verified))
    ensures if r.Died? then Latest(h.trace, Panicked) && UnsealPanicked(h.trace) else PhaseOf(h.world, h.trace).Quiet?
    ensures r.Died? ==> PhaseOf(h.world, h.trace).Ended?
    ensures r.Succeeded? ==> h.trace[|h.trace| - 1].Extended?
    ensures old(h.trace) + [Unsealed(h.world.unseal(old(h.trace), verified))] <= h.trace
    ensures var answer := h.world.unseal(old(h.trace), verified);
      Obliges(h.world) && answer.Ok? && OpensWith(h.world, answer.value) ==> r.Succeeded?
  {
    var answer := AskTpm(h, verified);
    if answer.Err? {
      if answer.error == Tpm.OutOfBounds {
        Panic(h);
        return Died;
      }
      return Failed;
    }
    var ok := TrySecret(h, answer.value, true);
    if ok {
      ExtendPcr7(h);
      return Succeeded;
    }
    r := Failed;
  }

  method AskTpm(h: Host, verified: bool) returns (answer: Tpm.Result<bytes>)
    requires Going(h.world, h.trace) && StageOf(h.trace) == 1 && ModeOf(h.trace) == Some(verified)
    modifies h
    ensures Continues(h.world, old(h.trace), h.trace) && Prompts(h.trace) == old(Prompts(h.trace))
    ensures answer == h.world.unseal(old(h.trace), verified) && h.trace == old(h.trace) + [Unsealed(answer)]
    ensures PhaseOf(h.world, h.trace) == AfterUnseal(answer)
    ensures answer.Ok? ==> Recovered(h.world, h.trace) == Some(answer.value)
  {
    answer := h.world.unseal(h.trace, verified);
    h.Record(Unsealed(answer));
  }

  /** The process ends where it sliced a reply beyond its end. */
  method Panic(h: Host)
    requires Run(h.world, h.trace) && PhaseOf(h.world, h.trace).MustPanic?
    modifies h
    ensures Continues(h.world, old(h.trace), h.trace) && Prompts(h.trace) == old(Prompts(h.trace))
    ensures h.trace == old(h.trace) + [Panicked] && PhaseOf(h.world, h.trace).Ended?
  {
    h.Record(Panicked);
  }

  method ExtendPcr7(h: Host)
    requires Run(h.world, h.trace) && PhaseOf(h.world, h.trace).MustExtend?
    modifies h
    ensures Continues(h.world, old(h.trace), h.trace) && Prompts(h.trace) == old(Prompts(h.trace))
    ensures PhaseOf(h.world, h.trace).Quiet?
    ensures exists ok :: h.trace == old(h.trace) + [Extended(ok)]
  {
    var ok := h.world.succeeds(h.trace, Extended(true));
    h.Record(Extended(ok));
  }

  method Prompt(h: Host) returns (answer: Option<bytes>)
    requires Going(h.world, h.trace) && StageOf(h.trace) == 1 && !Unlocked(h.trace) && Prompts(h.trace) < 3
    modifies h
    ensures Continues(h.world, old(h.trace), h.trace) && !Unlocked(h.trace)
    ensures Prompts(h.trace) == old(Prompts(h.trace)) + 1
    ensures Latest(h.trace, Prompted(answer)) && answer == h.world.prompt(old(h.trace))
    ensures PhaseOf(h.world, h.trace) == AfterPrompt(answer, h.world.hasKeyFile(h.trace))
  {
    answer := h.world.prompt(h.trace);
    h.Record(Prompted(answer));
  }

  /** The secret behind a password: itself, or the key decrypted with it if there is an encrypted key file. */
  method SecretFor(h: Host, password: bytes) returns (secret: Option<bytes>)
    requires Run(h.world, h.trace) && !Unlocked(h.trace) && password != []
    requires Latest(h.trace, Prompted(Some(password)))
    requires PhaseOf(h.world, h.trace) == AfterPrompt(Some(password), h.world.hasKeyFile(h.trace))
    modifies h
    ensures Continues(h.world, old(h.trace), h.trace) && !Unlocked(h.trace)
    ensures Prompts(h.trace) == old(Prompts(h.trace))
    ensures secret.Some? ==> Recovered(h.world, h.trace) == secret
    ensures PhaseOf(h.world, h.trace) == if secret.Some? then AfterSecret(secret.value, false) else Quiet
    ensures secret
         == if h.world.hasKeyFile(old(h.trace)) then h.world.decrypt(old(h.trace), password) else Some(password)
  {
    secret := Some(password);
    if h.world.hasKeyFile(h.trace) {
      secret := h.world.decrypt(h.trace, password);
      h.Record(Decrypted(secret));
    }
  }

  /** Gives up after three passwords, or when one cannot be read; a password that opens the state is not missed. */
  method UnlockWithPassword(h: Host) returns (ok: bool)
    requires Going(h.world, h.trace) && StageOf(h.trace) == 1 && !Unlocked(h.trace) && Prompts(h.trace) == 0
    modifies h
    ensures Continues(h.world, old(h.trace), h.trace) && PhaseOf(h.world, h.trace).Quiet?
    ensures ok <==> Unlocked(h.trace)
    ensures !ok ==> Prompts(h.trace) == 3 || Latest(h.trace, Prompted(None))
    ensures Obliges(h.world) && PasswordOpens(h.world) ==> ok
  {
    for attempt := 1 to 4
      invariant Continues(h.world, old(h.trace), h.trace) && PhaseOf(h.world, h.trace).Quiet?
      invariant !Unlocked(h.trace) && Prompts(h.trace) == attempt - 1
      invariant Obliges(h.world) ==> NotYetTyped(h.world, attempt - 1)
    {
      var answer := Prompt(h);
      if answer.None? {
        return false;
      }
      if answer.value == [] {
        continue;
      }
      ok := TryPassword(h, answer.value);
      if ok {
        return;
      }
    }
    ok := false;
  }

  /** A password that opens the state is still to come. */
  ghost predicate NotYetTyped(w: World, typed: nat) {
    forall secret, password, k :: OpensWith(w, secret) && Types(w, password, k, secret) ==> typed <= k
  }

  /** The password just typed is tried. */
  method TryPassword(h: Host, password: bytes) returns (ok: bool)
    requires Run(h.world, h.trace) && StageOf(h.trace) == 1 && !Unlocked(h.trace) && password != []
    requires Latest(h.trace, Prompted(Some(password)))
    requires PhaseOf(h.world, h.trace) == AfterPrompt(Some(password), h.world.hasKeyFile(h.trace))
    modifies h
    ensures Continues(h.world, old(h.trace), h.trace) && Prompts(h.trace) == old(Prompts(h.trace))
    ensures ok <==> Unlocked(h.trace)
    ensures PhaseOf(h.world, h.trace).Quiet?
    ensures Obliges(h.world) ==>
      forall k, secret :: OpensWith(h.world, secret) && Types(h.world, password, k, secret) ==> ok
  {
    var secret := SecretFor(h, password);
    ok := false;
    if secret.Some? {
      ok := TrySecret(h, secret.value, false);
    }
  }

  /** By the TPM if there is one, else or failing that by passwords. */
  method UnlockLocked(h: Host, verified: bool) returns (r: Attempt)
    requires Going(h.world, h.trace) && StageOf(h.trace) == 1 && !Unlocked(h.trace)
    requires Prompts(h.trace) == 0 && ModeOf(h.trace) == Some(verified)
    modifies h
    ensures Continues(h.world, old(h.trace), h.trace)
    ensures r.Succeeded? <==> Unlocked(h.trace)
    ensures r.Died? <==> h.world.hasTpm(old(h.trace)) && SlicePanics(h.world.unseal(old(h.trace), verified))
    ensures if r.Died? then Latest(h.trace, Panicked) && UnsealPanicked(h.trace) else PhaseOf(h.world, h.trace).Quiet?
    ensures r.Died? ==> PhaseOf(h.world, h.trace).Ended?
    ensures h.world.hasTpm(old(h.trace)) ==>
      old(h.trace) + [Unsealed(h.world.unseal(old(h.trace), verified))] <= h.trace
    ensures Obliges(h.world) && TpmOpens(h.world, verified) ==> r.Succeeded?
    ensures Obliges(h.world) && TpmSilent(h.world, verified) && PasswordOpens(h.world) ==> r.Succeeded?
  {
    if h.world.hasTpm(h.trace) {
      r := UnlockWithTpm(h, verified);
      if !r.Failed? {
        return;
      }
    }
    var ok := UnlockWithPassword(h);
    r := if ok then Succeeded else Failed;
  }

  /** The state needs no unlocking, or the TPM or a password opens it. */
  ghost predicate StateOpens(w: World, verified: bool) {
    || (forall t :: !w.hasStateC(t))
    || TpmOpens(w, verified)
    || (TpmSilent(w, verified) && PasswordOpens(w))
  }

  /**
   `unlock_state_c`: succeeds exactly when `c` is absent, or is unlocked and, in verified mode, was seen
   locked before. On a machine that does what it is asked and whose state the TPM or a password opens, it
   succeeds. Asking, extending and installing keys keep to the laws of a run.
   */
  method UnlockStateC(h: Host, verified: bool) returns (r: Attempt)
    requires Going(h.world, h.trace) && StageOf(h.trace) == 1 && Prompts(h.trace) == 0
    requires ModeOf(h.trace) == Some(verified) && forall b :: StateC(b) !in h.trace && Sentinel(b) !in h.trace
    requires forall key :: KeyAdded(key, true) !in h.trace
    modifies h
    ensures Run(h.world, h.trace) && ModeOf(h.trace) == old(ModeOf(h.trace)) && old(h.trace) <= h.trace
    ensures Switched(h.trace) == Switched(old(h.trace)) && RootMounts(h.trace) == old(RootMounts(h.trace))
    ensures StageOf(h.trace) == 1
    ensures r.Succeeded? <==> StateReady(h.trace, verified)
    ensures if r.Died? then Latest(h.trace, Panicked) && UnsealPanicked(h.trace) else PhaseOf(h.world, h.trace).Quiet?
    ensures r.Died? ==> PhaseOf(h.world, h.trace).Ended?
    ensures Obliges(h.world) && StateOpens(h.world, verified) ==> r.Succeeded?
  {
    var present := LookForC(h);
    if !present {
      return Succeeded;
    }
    r := UnlockPresent(h, verified);
  }

  /** The directory `c` was found, and nothing is known of it yet. */
  method UnlockPresent(h: Host, verified: bool) returns (r: Attempt)
    requires Going(h.world, h.trace) && StageOf(h.trace) == 1
    requires Prompts(h.trace) == 0 && ModeOf(h.trace) == Some(verified)
    requires StateC(true) in h.trace && StateC(false) !in h.trace && forall b :: Sentinel(b) !in h.trace
    requires forall key :: KeyAdded(key, true) !in h.trace
    modifies h
    ensures Continues(h.world, old(h.trace), h.trace)
    ensures r.Succeeded? <==> StateReady(h.trace, verified)
    ensures if r.Died? then Latest(h.trace, Panicked) && UnsealPanicked(h.trace) else PhaseOf(h.world, h.trace).Quiet?
    ensures r.Died? ==> PhaseOf(h.world, h.trace).Ended?
    ensures Obliges(h.world) && TpmOpens(h.world, verified) ==> r.Succeeded?
    ensures Obliges(h.world) && TpmSilent(h.world, verified) && PasswordOpens(h.world) ==> r.Succeeded?
  {
    LockedAtFirst(h.world, h.trace, verified);
    var unlocked := LookForSentinel(h);
    if unlocked {
      return if verified then Failed else Succeeded;
    }
    ghost var locked := h.trace;
    assert Latest(locked, Sentinel(false));
    r := UnlockLocked(h, verified);
    ReadyIffUnlocked(h.world, locked, h.trace, verified);
  }

  lemma LockedAtFirst(w: World, t: Trace, verified: bool)
    requires forall key :: KeyAdded(key, true) !in t
    ensures TpmOpens(w, verified) || PasswordOpens(w) ==> !w.hasHome(t)
  {}

  method LookForC(h: Host) returns (present: bool)
    requires Going(h.world, h.trace) && StageOf(h.trace) == 1
    modifies h
    ensures Going(h.world, h.trace) && Prompts(h.trace) == old(Prompts(h.trace)) && StageOf(h.trace) == 1
    ensures Switched(h.trace) == Switched(old(h.trace)) && RootMounts(h.trace) == old(RootMounts(h.trace))
    ensures ModeOf(old(h.trace)).Some? ==> ModeOf(h.trace) == ModeOf(old(h.trace))
    ensures present == h.world.hasStateC(old(h.trace)) && h.trace == old(h.trace) + [StateC(present)]
  {
    present := h.world.hasStateC(h.trace);
    h.Record(StateC(present));
  }

  lemma ReadyIffUnlocked(w: World, locked: Trace, now: Trace, verified: bool)
    requires Continues(w, locked, now)
    requires StateC(true) in locked && StateC(false) !in locked && Sentinel(false) in locked
    ensures StateReady(now, verified) <==> Unlocked(now)
  {
    assert Sentinel(false) in now;
  }
}
