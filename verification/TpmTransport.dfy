/**
 Sending a command to the TPM device: the bounded retry loop of `tpm_transact`, against a device
 that may answer in any way at all.
 */
module TpmTransport {
  import opened Bytes
  import opened TpmFrames
  import opened TpmBuilders

  const RSP_BUF_SIZE: nat := 4096
  const RC_YIELDED: u32 := 0x908
  const RC_LOCKOUT: u32 := 0x921
  const RC_RETRY: u32 := 0x922
  const MAX_RETRIES: nat := 20

  /** OutOfBounds is a slice of a reply that is too short: the source panics there. */
  datatype Error = IoError | ShortReply | TpmError(rc: u32) | OutOfBounds | WrongPrefix

  datatype Result<+T> = Ok(value: T) | Err(error: Error) {
    predicate IsFailure() {
      Err?
    }

    function PropagateFailure<U>(): Result<U>
      requires Err?
    {
      Err(error)
    }

    function Extract(): T
      requires Ok?
    {
      value
    }
  }

  /** Any device: how a write and a read change its state, and what they report. */
  datatype Io<!S> = Io(write: (S, bytes) -> (S, bool), read: S -> (S, Option<bytes>))

  /**
   One attempt on the wire. `Unsent`: the write failed and nothing was read. `Answered`: one write
   and one read, followed by the write and the read of a lockout reset if `reset`.
   */
  datatype Turn = Unsent | Answered(reply: Option<bytes>, reset: bool)

  datatype Outcome<S> = Outcome(state: S, result: Result<bytes>, turns: seq<Turn>)

  /** A read fills at most the reply buffer. */
  function Received(reply: Option<bytes>): (r: Option<bytes>)
    ensures r.Some? <==> reply.Some?
    ensures r.Some? ==> r.value <= reply.value && |r.value| <= RSP_BUF_SIZE
  {
    if reply.Some? && |reply.value| > RSP_BUF_SIZE then Some(reply.value[..RSP_BUF_SIZE]) else reply
  }

  function ResponseCode(reply: bytes): u32
    requires |reply| >= 10
  {
    BeAt32(reply, 6)
  }

  predicate IsRetry(rc: u32) {
    rc == RC_RETRY || rc == RC_YIELDED || rc == RC_LOCKOUT
  }

  /** A best-effort lockout reset: it writes and reads, and ignores both outcomes. */
  function Reset<S>(io: Io<S>, st: S): S {
    io.read(io.write(st, DaLockResetFrame()).0).0
  }

  /** One write and one read. */
  function Try<S>(io: Io<S>, st: S, cmd: bytes): (t: (S, Result<bytes>))
    ensures t.1.Ok? ==> |t.1.value| >= 10
    ensures t.1.Err? ==> t.1.error == IoError || t.1.error == ShortReply
  {
    var (s1, ok) := io.write(st, cmd);
    if !ok then (s1, Err(IoError))
    else
      var (s2, full) := io.read(s1);
      var reply := Received(full);
      if reply.None? then (s2, Err(IoError))
      else if |reply.value| < 10 then (s2, Err(ShortReply))
      else (s2, Ok(reply.value))
  }

  /** The turn that one write and one read is, when no lockout reset follows. */
  function TurnOf<S>(io: Io<S>, st: S, cmd: bytes): Turn {
    var (s1, ok) := io.write(st, cmd);
    if !ok then Unsent else Answered(Received(io.read(s1).1), false)
  }

  /** Attempt number `attempt` and, while the device asks for it, the attempts after it. */
  function Exchange<S>(io: Io<S>, st: S, cmd: bytes, attempt: nat): Outcome<S>
    requires attempt <= MAX_RETRIES
    decreases MAX_RETRIES - attempt
  {
    var (s, result) := Try(io, st, cmd);
    if result.Ok? && IsRetry(ResponseCode(result.value)) && attempt < MAX_RETRIES then
      var locked := ResponseCode(result.value) == RC_LOCKOUT;
      var later := Exchange(io, if locked then Reset(io, s) else s, cmd, attempt + 1);
      Outcome(later.state, later.result, [Answered(Some(result.value), locked)] + later.turns)
    else Outcome(s, result, [TurnOf(io, st, cmd)])
  }

  /** A turn after which the loop goes on: the reply asks for a retry, and a lockout is reset first. */
  predicate AsksAgain(turn: Turn) {
    && turn.Answered? && turn.reply.Some? && |turn.reply.value| >= 10
    && IsRetry(ResponseCode(turn.reply.value))
    && turn.reset == (ResponseCode(turn.reply.value) == RC_LOCKOUT)
  }

  /** What the last turn was, for each result. */
  predicate EndsWith(turn: Turn, result: Result<bytes>) {
    match result
    case Ok(reply) => turn == Answered(Some(reply), false) && |reply| >= 10
    case Err(ShortReply) => turn.Answered? && !turn.reset && turn.reply.Some? && |turn.reply.value| < 10
    case Err(IoError) => turn == Unsent || turn == Answered(None, false)
    case Err(_) => false
  }

  /**
   What the retry loop may do from attempt number `attempt` on. At most 21 attempts are made in all;
   every one before the last was answered with a request to retry; the result is what the last one
   got; and a result that itself asks for a retry answers the 21st attempt.
   */
  predicate Bounded<S>(o: Outcome<S>, attempt: nat) {
    && 1 <= |o.turns| <= MAX_RETRIES + 1 - attempt
    && (forall i :: 0 <= i < |o.turns| - 1 ==> AsksAgain(o.turns[i]))
    && EndsWith(o.turns[|o.turns| - 1], o.result)
    && (o.result.Ok? && IsRetry(ResponseCode(o.result.value)) ==> |o.turns| == MAX_RETRIES + 1 - attempt)
  }

  /** The retry loop is bounded against any device. */
  lemma {:induction false} ExchangeBounded<S>(io: Io<S>, st: S, cmd: bytes, attempt: nat)
    requires attempt <= MAX_RETRIES
    ensures Bounded(Exchange(io, st, cmd, attempt), attempt)
    decreases MAX_RETRIES - attempt
  {
    var t := Try(io, st, cmd);
    if t.1.Ok? && IsRetry(ResponseCode(t.1.value)) && attempt < MAX_RETRIES {
      var locked := ResponseCode(t.1.value) == RC_LOCKOUT;
      var next := if locked then Reset(io, t.0) else t.0;
      ExchangeBounded(io, next, cmd, attempt + 1);
      PrependTurn(Answered(Some(t.1.value), locked), Exchange(io, next, cmd, attempt + 1), attempt);
    } else {
      StopsBounded(io, st, cmd, attempt);
    }
  }

  lemma PrependTurn<S>(turn: Turn, later: Outcome<S>, attempt: nat)
    requires attempt < MAX_RETRIES && Bounded(later, attempt + 1) && AsksAgain(turn)
    ensures Bounded(Outcome(later.state, later.result, [turn] + later.turns), attempt)
  {}

  lemma StopsBounded<S>(io: Io<S>, st: S, cmd: bytes, attempt: nat)
    requires attempt <= MAX_RETRIES
    requires var t := Try(io, st, cmd);
      t.1.Ok? && IsRetry(ResponseCode(t.1.value)) ==> attempt == MAX_RETRIES
    ensures Bounded(Outcome(Try(io, st, cmd).0, Try(io, st, cmd).1, [TurnOf(io, st, cmd)]), attempt)
  {}

  /** How many writes and reads a sequence of turns puts on the wire. */
  function Sends(turns: seq<Turn>): nat {
    if turns == [] then 0 else (if turns[0].Answered? && turns[0].reset then 2 else 1) + Sends(turns[1..])
  }

  function Receives(turns: seq<Turn>): nat {
    if turns == [] then 0
    else (if turns[0].Unsent? then 0 else if turns[0].reset then 2 else 1) + Receives(turns[1..])
  }

  /** Every write, lockout resets included, is answered by one read, unless the last write failed. */
  lemma {:induction false} WritesPaired(turns: seq<Turn>)
    requires turns != [] && forall i :: 0 <= i < |turns| - 1 ==> turns[i].Answered?
    ensures Sends(turns) == Receives(turns) + if turns[|turns| - 1].Unsent? then 1 else 0
  {
    if |turns| > 1 {
      WritesPaired(turns[1..]);
    }
  }

  /**
   Against any device the command is written between 1 and 21 times, and the writes, lockout resets
   included, are as many as the reads, or one more when the last write failed and nothing was returned.
   */
  lemma ExchangePaired<S>(io: Io<S>, st: S, cmd: bytes)
    ensures var o := Exchange(io, st, cmd, 0);
      && 1 <= |o.turns| <= MAX_RETRIES + 1
      && Sends(o.turns) - Receives(o.turns) == (if o.turns[|o.turns| - 1].Unsent? then 1 else 0)
      && (o.turns[|o.turns| - 1].Unsent? ==> o.result == Err(IoError))
  {
    ExchangeBounded(io, st, cmd, 0);
    WritesPaired(Exchange(io, st, cmd, 0).turns);
  }

  lemma CountTurns<S>(io: Io<S>, st: S, cmd: bytes, attempt: nat)
    requires attempt <= MAX_RETRIES
    ensures var o := Exchange(io, st, cmd, attempt);
      var (s, result) := Try(io, st, cmd);
      if result.Ok? && IsRetry(ResponseCode(result.value)) && attempt < MAX_RETRIES then
        var locked := ResponseCode(result.value) == RC_LOCKOUT;
        var later := Exchange(io, if locked then Reset(io, s) else s, cmd, attempt + 1);
        && o.state == later.state && o.result == later.result && |o.turns| == 1 + |later.turns|
        && Sends(o.turns) == (if locked then 2 else 1) + Sends(later.turns)
        && Receives(o.turns) == (if locked then 2 else 1) + Receives(later.turns)
      else
        && o.state == s && o.result == result && |o.turns| == 1 && Sends(o.turns) == 1
        && Receives(o.turns) == if TurnOf(io, st, cmd).Unsent? then 0 else 1
  {
    var (s, result) := Try(io, st, cmd);
    if result.Ok? && IsRetry(ResponseCode(result.value)) && attempt < MAX_RETRIES {
      var locked := ResponseCode(result.value) == RC_LOCKOUT;
      var later := Exchange(io, if locked then Reset(io, s) else s, cmd, attempt + 1).turns;
      assert ([Answered(Some(result.value), locked)] + later)[1..] == later;
    } else {
      assert [TurnOf(io, st, cmd)][1..] == [];
    }
  }

  /** An open TPM device; `commands` counts the attempts, `sent` and `received` all that goes over the wire. */
  class Device<S> {
    const io: Io<S>
    var state: S
    ghost var commands: nat
    ghost var sent: nat
    ghost var received: nat

    constructor (io: Io<S>, state: S)
      ensures this.io == io && this.state == state && commands == sent == received == 0
    {
      this.io := io;
      this.state := state;
      commands, sent, received := 0, 0, 0;
    }

    method Write(cmd: bytes) returns (ok: bool)
      modifies this
      ensures (state, ok) == io.write(old(state), cmd)
      ensures commands == old(commands) && sent == old(sent) + 1 && received == old(received)
    {
      var next := io.write(state, cmd);
      state, ok := next.0, next.1;
      sent := sent + 1;
    }

    method Read() returns (reply: Option<bytes>)
      modifies this
      ensures state == io.read(old(state)).0 && reply == Received(io.read(old(state)).1)
      ensures commands == old(commands) && sent == old(sent) && received == old(received) + 1
    {
      var next := io.read(state);
      state, reply := next.0, Received(next.1);
      received := received + 1;
    }

    method DaLockResetRaw()
      modifies this
      ensures state == Reset(io, old(state))
      ensures commands == old(commands) && sent == old(sent) + 1 && received == old(received) + 1
    {
      var cmd := BuildDaLockReset();
      var ok := Write(cmd);
      var reply := Read();
    }

    /** One attempt: a write, then a read of at least a reply header. */
    method Attempt(cmd: bytes) returns (r: Result<bytes>)
      modifies this
      ensures (state, r) == Try(io, old(state), cmd)
      ensures commands == old(commands) + 1 && sent == old(sent) + 1
      ensures received == old(received) + if TurnOf(io, old(state), cmd).Unsent? then 0 else 1
    {
      commands := commands + 1;
      var ok := Write(cmd);
      if !ok {
        return Err(IoError);
      }
      var reply := Read();
      if reply.None? {
        return Err(IoError);
      }
      if |reply.value| < 10 {
        return Err(ShortReply);
      }
      return Ok(reply.value);
    }

    /** The body of the retry loop: done with a result, or ready for the next attempt. */
    method Round(cmd: bytes, attempt: nat) returns (done: bool, r: Result<bytes>)
      requires attempt <= MAX_RETRIES
      modifies this
      ensures !done ==> attempt < MAX_RETRIES
      ensures var o := Exchange(io, old(state), cmd, attempt);
        if done then
          && o.state == state && o.result == r && commands == old(commands) + |o.turns|
          && sent == old(sent) + Sends(o.turns) && received == old(received) + Receives(o.turns)
        else
          var later := Exchange(io, state, cmd, attempt + 1);
          && o.state == later.state && o.result == later.result
          && old(commands) + |o.turns| == commands + |later.turns|
          && old(sent) + Sends(o.turns) == sent + Sends(later.turns)
          && old(received) + Receives(o.turns) == received + Receives(later.turns)
    {
      CountTurns(io, state, cmd, attempt);
      r := Attempt(cmd);
      if r.Err? {
        return true, r;
      }
      var rc := ResponseCode(r.value);
      if rc == RC_RETRY || rc == RC_YIELDED || rc == RC_LOCKOUT {
        if attempt < MAX_RETRIES {
          if rc == RC_LOCKOUT {
            DaLockResetRaw();
          }
          return false, r;
        }
      }
      return true, r;
    }

    /**
     The source ends its counted loop with `unreachable!()`; this loop always returns from inside. The
     command is written at most 21 times, and every write is read back unless the last one failed.
     */
    method Transact(cmd: bytes) returns (r: Result<bytes>)
      modifies this
      ensures 1 <= commands - old(commands) <= MAX_RETRIES + 1
      ensures (sent - old(sent)) - (received - old(received)) in {0, 1}
      ensures r != Err(IoError) ==> sent - old(sent) == received - old(received)
      ensures var o := Exchange(io, old(state), cmd, 0);
        && state == o.state && r == o.result && commands == old(commands) + |o.turns|
        && sent == old(sent) + Sends(o.turns) && received == old(received) + Receives(o.turns)
    {
      ghost var whole := Exchange(io, state, cmd, 0);
      ghost var rest := whole;
      ExchangePaired(io, state, cmd);
      var attempt := 0;
      while true
        invariant attempt <= MAX_RETRIES
        invariant old(commands) + |whole.turns| == commands + |rest.turns|
        invariant rest == Exchange(io, state, cmd, attempt)
        invariant whole.state == rest.state && whole.result == rest.result
        invariant old(sent) + Sends(whole.turns) == sent + Sends(rest.turns)
        invariant old(received) + Receives(whole.turns) == received + Receives(rest.turns)
        decreases MAX_RETRIES - attempt
      {
        var done;
        done, r := Round(cmd, attempt);
        if done {
          return;
        }
        attempt := attempt + 1;
        rest := Exchange(io, state, cmd, attempt);
      }
    }
  }
}
