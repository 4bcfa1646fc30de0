/** The bounded capture of a command's two output pipes. */
module Capture {
  import opened Arithmetic

  datatype Stream = Out | Err

  /** A pipe is ready, with so many bytes to read right now; at the end of its stream a read returns
      nothing, otherwise at least one byte. */
  datatype Ready = Ready(stream: Stream, available: nat)

  /** One turn of the selector: the deadline has passed, or some pipes are ready. */
  datatype Poll = Expired | Wake(ready: seq<Ready>)

  datatype Ending = Complete | Truncated | TimedOut

  const READ_SIZE: nat := 4096

  /** os.read: between one byte and what was asked for, as far as the stream goes. */
  function ReadLength(left: nat, available: nat, requested: nat): (k: nat)
    requires requested >= 1
    ensures k <= left && k <= requested && (k == 0 <==> left == 0)
    ensures 1 <= available <= left && available <= requested ==> k == available
  {
    Min(left, Min(requested, if available == 0 then 1 else available))
  }

  function WakesIn(ready: seq<Ready>, stream: Stream): nat {
    if ready == [] then 0
    else WakesIn(ready[..|ready| - 1], stream) + if ready[|ready| - 1].stream == stream then 1 else 0
  }

  /** How often a pipe was reported ready. */
  function Wakes(polls: seq<Poll>, stream: Stream): nat {
    if polls == [] then 0
    else
      var last := polls[|polls| - 1];
      Wakes(polls[..|polls| - 1], stream) + if last.Wake? then WakesIn(last.ready, stream) else 0
  }

  lemma WakesInAppend(ready: seq<Ready>, i: nat, stream: Stream)
    requires i < |ready|
    ensures WakesIn(ready[..i + 1], stream) == WakesIn(ready[..i], stream) + if ready[i].stream == stream then 1 else 0
  {
    assert ready[..i + 1][..i] == ready[..i];
  }

  lemma WakesAppend(polls: seq<Poll>, i: nat, stream: Stream)
    requires i < |polls| && polls[i].Wake?
    ensures Wakes(polls[..i + 1], stream) == Wakes(polls[..i], stream) + WakesIn(polls[i].ready, stream)
  {
    assert polls[..i + 1][..i] == polls[..i];
  }

  /** One read of a pipe of which `taken` was captured, with `room` bytes left: it asks for one byte
      more than fits, so that an overflow shows. */
  method ReadPipe(source: seq<bv8>, taken: seq<bv8>, available: nat, room: nat)
    returns (kept: seq<bv8>, atEnd: bool, overflow: bool, requested: nat)
    requires taken <= source
    ensures 1 <= requested <= READ_SIZE && taken + kept <= source && |kept| <= room
    ensures atEnd ==> kept == [] && taken == source && !overflow
    ensures overflow ==> |kept| == room && |taken| + room < |source|
    ensures !atEnd && !overflow ==> kept != []
  {
    requested := Min(READ_SIZE, room + 1);
    var length := ReadLength(|source| - |taken|, available, requested);
    var chunk := source[|taken|..][..length];
    atEnd := chunk == [];
    overflow := |chunk| > room;
    kept := chunk[..Min(|chunk|, room)];
    assert kept == source[|taken|..|taken| + |kept|];
    assert taken == source[..|taken|];
    assert taken + kept == source[..|taken| + |kept|];
  }

  /** The loop's variables: the two buffers, which pipes are still registered, whether the limit was
      overrun, and what was asked of the pipes. */
  datatype Progress = Progress(
    stdout: seq<bv8>, stderr: seq<bv8>, outOpen: bool, errOpen: bool, truncated: bool, requests: seq<nat>)

  ghost predicate Sound(p: Progress, out: seq<bv8>, err: seq<bv8>, maxBytes: nat) {
    && p.stdout <= out && p.stderr <= err && |p.stdout| + |p.stderr| <= maxBytes
    && (p.truncated ==> !p.outOpen && !p.errOpen && |p.stdout| + |p.stderr| == maxBytes < |out| + |err|)
    && (!p.truncated ==> (!p.outOpen ==> p.stdout == out) && (!p.errOpen ==> p.stderr == err))
    && forall r :: r in p.requests ==> 1 <= r <= READ_SIZE
  }

  /** A pipe that is still registered is read; an overrun unregisters both. */
  method ReadReady(p: Progress, event: Ready, out: seq<bv8>, err: seq<bv8>, maxBytes: nat) returns (q: Progress)
    requires Sound(p, out, err, maxBytes) && !p.truncated
    ensures Sound(q, out, err, maxBytes)
    ensures q.outOpen ==> |q.stdout| >= |p.stdout| + if event.stream.Out? then 1 else 0
    ensures q.errOpen ==> |q.stderr| >= |p.stderr| + if event.stream.Err? then 1 else 0
    ensures (q.outOpen ==> p.outOpen) && (q.errOpen ==> p.errOpen)
  {
    q := p;
    var room := maxBytes - |p.stdout| - |p.stderr|;
    if event.stream.Out? && p.outOpen {
      var kept, atEnd, overflow, requested := ReadPipe(out, p.stdout, event.available, room);
      q := Progress(p.stdout + kept, p.stderr, !atEnd && !overflow, p.errOpen && !overflow, overflow,
        p.requests + [requested]);
    } else if event.stream.Err? && p.errOpen {
      var kept, atEnd, overflow, requested := ReadPipe(err, p.stderr, event.available, room);
      q := Progress(p.stdout, p.stderr + kept, p.outOpen && !overflow, !atEnd && !overflow, overflow,
        p.requests + [requested]);
    }
  }

  /** The pipes that are ready in one turn, until the limit is overrun. */
  method ReadTurn(p: Progress, ready: seq<Ready>, out: seq<bv8>, err: seq<bv8>, maxBytes: nat) returns (q: Progress)
    requires Sound(p, out, err, maxBytes) && !p.truncated
    ensures Sound(q, out, err, maxBytes)
    ensures q.outOpen ==> p.outOpen && |q.stdout| >= |p.stdout| + WakesIn(ready, Out)
    ensures q.errOpen ==> p.errOpen && |q.stderr| >= |p.stderr| + WakesIn(ready, Err)
  {
    q := p;
    var i := 0;
    while i < |ready| && !q.truncated
      invariant 0 <= i <= |ready| && Sound(q, out, err, maxBytes)
      invariant q.outOpen ==> p.outOpen && |q.stdout| >= |p.stdout| + WakesIn(ready[..i], Out)
      invariant q.errOpen ==> p.errOpen && |q.stderr| >= |p.stderr| + WakesIn(ready[..i], Err)
    {
      WakesInAppend(ready, i, Out);
      WakesInAppend(ready, i, Err);
      q := ReadReady(q, ready[i], out, err, maxBytes);
      i := i + 1;
    }
    assert ready[..|ready|] == ready;
  }

  /** The read loop of run_command. `polls` is what the selector reports, in order; when it runs out
      the deadline passes. Every report makes progress, so the deadline can only end the loop while
      some pipe was reported ready no more often than its stream has bytes. */
  method CaptureOutput(out: seq<bv8>, err: seq<bv8>, maxBytes: nat, polls: seq<Poll>)
    returns (stdout: seq<bv8>, stderr: seq<bv8>, ending: Ending, requests: seq<nat>, turns: nat)
    ensures forall r :: r in requests ==> 1 <= r <= 4096
    ensures stdout <= out && stderr <= err && |stdout| + |stderr| <= maxBytes
    ensures ending.Truncated? ==> |stdout| + |stderr| == maxBytes
    ensures ending.Complete? ==> stdout == out && stderr == err
    ensures !ending.TimedOut? ==> (ending.Truncated? <==> |out| + |err| > maxBytes)
    ensures turns <= |polls| && forall k :: 0 <= k < turns ==> polls[k].Wake?
    ensures ending.TimedOut? ==> turns == |polls| || polls[turns].Expired?
    ensures ending.TimedOut? ==> Wakes(polls[..turns], Out) <= |out| || Wakes(polls[..turns], Err) <= |err|
  {
    var p := Progress([], [], true, true, false, []);
    turns := 0;
    while p.outOpen || p.errOpen
      invariant turns <= |polls| && forall k :: 0 <= k < turns ==> polls[k].Wake?
      invariant Sound(p, out, err, maxBytes)
      invariant p.outOpen ==> Wakes(polls[..turns], Out) <= |p.stdout|
      invariant p.errOpen ==> Wakes(polls[..turns], Err) <= |p.stderr|
      decreases |polls| - turns
    {
      if turns == |polls| || polls[turns].Expired? {
        return p.stdout, p.stderr, TimedOut, p.requests, turns;
      }
      WakesAppend(polls, turns, Out);
      WakesAppend(polls, turns, Err);
      p := ReadTurn(p, polls[turns].ready, out, err, maxBytes);
      turns := turns + 1;
    }
    return p.stdout, p.stderr, if p.truncated then Truncated else Complete, p.requests, turns;
  }
}
