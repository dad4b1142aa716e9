/**
 The two-way relay of src/relay.rs: `copy_bidirectional` raced against cancellation.

 Each direction is a pump that reads from one byte stream into a buffer and writes the buffer
 to another.  A pump that meets the end of its source flushes what is left, shuts its sink
 down for writing and is then done; the other direction goes on (half-close).
 */
module Relay {
  import opened Prelude
  import Watch

  /** One direction of a connection: all that was ever written, how much of it was read, and the writer's shutdown. */
  datatype Pipe = Pipe(sent: seq<byte>, read: nat, fin: bool)

  const EMPTY: Pipe := Pipe([], 0, false)

  datatype Stage = Running | ShuttingDown | Done

  datatype Pump = Pump(buffer: seq<byte>, copied: nat, eof: bool, stage: Stage)

  const NEW: Pump := Pump([], 0, false, Running)

  const BUFFER_SIZE: nat := 8192

  /** One thing a pump may do when it is polled. */
  datatype Move = Fill(n: nat) | SeeEof | Drain(n: nat) | Finish | Shutdown

  datatype Hop = Hop(src: Pipe, pump: Pump, dst: Pipe)

  predicate CanMove(h: Hop, move: Move)
    requires h.src.read <= |h.src.sent|
  {
    match move
    case Fill(n) =>
      && h.pump.stage == Running && !h.pump.eof
      && 0 < n <= |h.src.sent| - h.src.read && |h.pump.buffer| + n <= BUFFER_SIZE
    case SeeEof => h.pump.stage == Running && !h.pump.eof && h.src.fin && h.src.read == |h.src.sent|
    case Drain(n) => h.pump.stage == Running && 0 < n <= |h.pump.buffer|
    case Finish => h.pump.stage == Running && h.pump.eof && h.pump.buffer == []
    case Shutdown => h.pump.stage == ShuttingDown
  }

  function Moved(h: Hop, move: Move): Hop
    requires h.src.read <= |h.src.sent| && CanMove(h, move)
  {
    match move
    case Fill(n) =>
      Hop(h.src.(read := h.src.read + n),
          h.pump.(buffer := h.pump.buffer + h.src.sent[h.src.read..h.src.read + n]),
          h.dst)
    case SeeEof => h.(pump := h.pump.(eof := true))
    case Drain(n) =>
      Hop(h.src,
          h.pump.(buffer := h.pump.buffer[n..], copied := h.pump.copied + n),
          h.dst.(sent := h.dst.sent + h.pump.buffer[..n]))
    case Finish => h.(pump := h.pump.(stage := ShuttingDown))
    case Shutdown => h.(pump := h.pump.(stage := Done), dst := h.dst.(fin := true))
  }

  /**
   A hop has lost, added and reordered nothing: what it wrote after `preface`, followed by what
   it still buffers, is what it read.  It closes its sink only after the end of its source.
   */
  ghost predicate Faithful(h: Hop, preface: seq<byte>) {
    && h.src.read <= |h.src.sent|
    && h.dst.sent + h.pump.buffer == preface + h.src.sent[..h.src.read]
    && |preface| + h.pump.copied == |h.dst.sent|
    && (h.pump.eof ==> h.src.fin && h.src.read == |h.src.sent|)
    && (h.pump.stage != Running ==> h.pump.eof && h.pump.buffer == [])
    && (h.dst.fin <==> h.pump.stage == Done)
  }

  lemma FillKeepsFaithful(h: Hop, n: nat, preface: seq<byte>)
    requires Faithful(h, preface) && CanMove(h, Fill(n))
    ensures Faithful(Moved(h, Fill(n)), preface)
  {
    var taken := h.src.sent[h.src.read..h.src.read + n];
    assert h.src.sent[..h.src.read + n] == h.src.sent[..h.src.read] + taken;
    assert h.dst.sent + (h.pump.buffer + taken) == (h.dst.sent + h.pump.buffer) + taken;
    assert preface + (h.src.sent[..h.src.read] + taken) == (preface + h.src.sent[..h.src.read]) + taken;
  }

  lemma DrainKeepsFaithful(h: Hop, n: nat, preface: seq<byte>)
    requires Faithful(h, preface) && CanMove(h, Drain(n))
    ensures Faithful(Moved(h, Drain(n)), preface)
  {
    assert h.pump.buffer == h.pump.buffer[..n] + h.pump.buffer[n..];
    assert h.dst.sent + h.pump.buffer[..n] + h.pump.buffer[n..] == h.dst.sent + h.pump.buffer;
  }

  lemma MoveKeepsFaithful(h: Hop, move: Move, preface: seq<byte>)
    requires Faithful(h, preface) && CanMove(h, move)
    ensures Faithful(Moved(h, move), preface)
  {
    match move {
      case Fill(n) => FillKeepsFaithful(h, n, preface);
      case Drain(n) => DrainKeepsFaithful(h, n, preface);
      case _ =>
    }
  }

  /** More bytes on the source, before its end, change nothing for a hop; nor do reads from the sink. */
  lemma WriteKeepsFaithful(h: Hop, preface: seq<byte>, bytes: seq<byte>)
    requires Faithful(h, preface) && !h.src.fin
    ensures Faithful(h.(src := h.src.(sent := h.src.sent + bytes)), preface)
    ensures Faithful(h.(src := h.src.(fin := true)), preface)
  {
    assert (h.src.sent + bytes)[..h.src.read] == h.src.sent[..h.src.read];
  }

  /** A pump that is done has delivered its whole source, and counted it. */
  lemma DoneDelivers(h: Hop, preface: seq<byte>)
    requires Faithful(h, preface) && h.pump.stage == Done
    ensures h.dst.sent == preface + h.src.sent && h.dst.fin && h.src.fin
    ensures h.pump.copied == |h.src.sent|
  {
    assert h.src.sent[..h.src.read] == h.src.sent;
    assert h.dst.sent + [] == h.dst.sent;
  }

  /** At every moment the sink holds a prefix of the preface and the source. */
  lemma FaithfulIsPrefix(h: Hop, preface: seq<byte>)
    requires Faithful(h, preface)
    ensures h.dst.sent <= preface + h.src.sent
  {
    assert preface + h.src.sent == (preface + h.src.sent[..h.src.read]) + h.src.sent[h.src.read..];
  }

  // ----- the relay as the program runs it

  datatype Stats = Stats(leftToRight: nat, rightToLeft: nat)

  datatype End = Pending | Completed(stats: Stats) | Interrupted | Failed

  class Stream {
    var pipe: Pipe

    constructor (pipe: Pipe)
      ensures this.pipe == pipe
    {
      this.pipe := pipe;
    }

    predicate AtEof()
      reads this
    {
      pipe.fin && pipe.read == |pipe.sent|
    }

    method Read(n: nat) returns (bytes: seq<byte>)
      requires pipe.read + n <= |pipe.sent|
      modifies this
      ensures bytes == old(pipe.sent[pipe.read..pipe.read + n])
      ensures pipe == old(pipe).(read := old(pipe.read) + n)
    {
      bytes := pipe.sent[pipe.read..pipe.read + n];
      pipe := pipe.(read := pipe.read + n);
    }

    method Write(bytes: seq<byte>)
      modifies this
      ensures pipe == old(pipe).(sent := old(pipe.sent) + bytes)
    {
      pipe := pipe.(sent := pipe.sent + bytes);
    }

    method ShutdownWrite()
      modifies this
      ensures pipe == old(pipe).(fin := true)
    {
      pipe := pipe.(fin := true);
    }
  }

  class CopyBuffer {
    var pump: Pump

    constructor ()
      ensures pump == NEW
    {
      pump := NEW;
    }

    /** Performs one move if the streams and the buffer allow it. */
    method Poll(src: Stream, dst: Stream, move: Move)
      requires src != dst && src.pipe.read <= |src.pipe.sent|
      modifies this, src, dst
      ensures var before := old(Hop(src.pipe, pump, dst.pipe));
              Hop(src.pipe, pump, dst.pipe) == if CanMove(before, move) then Moved(before, move) else before
    {
      match move {
        case Fill(n) =>
          if pump.stage == Running && !pump.eof && 0 < n <= |src.pipe.sent| - src.pipe.read && |pump.buffer| + n <= BUFFER_SIZE {
            var bytes := src.Read(n);
            pump := pump.(buffer := pump.buffer + bytes);
          }
        case SeeEof =>
          if pump.stage == Running && !pump.eof && src.AtEof() {
            pump := pump.(eof := true);
          }
        case Drain(n) =>
          if pump.stage == Running && 0 < n <= |pump.buffer| {
            dst.Write(pump.buffer[..n]);
            pump := pump.(buffer := pump.buffer[n..], copied := pump.copied + n);
          }
        case Finish =>
          if pump.stage == Running && pump.eof && pump.buffer == [] {
            pump := pump.(stage := ShuttingDown);
          }
        case Shutdown =>
          if pump.stage == ShuttingDown {
            dst.ShutdownWrite();
            pump := pump.(stage := Done);
          }
      }
    }
  }

  /** What happens next to a running relay: it is polled, or one of its peers or its streams acts. */
  datatype Event =
    | Upward(move: Move)
    | Downward(move: Move)
    | Complete
    | Cancel
    | Break
    | LeftWrites(bytes: seq<byte>)
    | LeftEnds
    | RightWrites(bytes: seq<byte>)
    | RightEnds
    | ShutdownSent

  /** A relay with its two hops, the shutdown signal and what its receiver has seen of it. */
  datatype State = State(forth: Hop, back: Hop, signal: Watch.Signal, seen: nat, end: End)

  predicate InBounds(s: State) {
    s.forth.src.read <= |s.forth.src.sent| && s.back.src.read <= |s.back.src.sent|
  }

  function Tried(h: Hop, move: Move): Hop
    requires h.src.read <= |h.src.sent|
  {
    if CanMove(h, move) then Moved(h, move) else h
  }

  /** A peer writes, unless it has ended its output, or ends it. */
  function Arrived(h: Hop, bytes: seq<byte>, ends: bool): Hop {
    if h.src.fin then h
    else if ends then h.(src := h.src.(fin := true))
    else h.(src := h.src.(sent := h.src.sent + bytes))
  }

  /** One turn of the select; an event that is not possible is passed over. */
  function Turned(s: State, e: Event): State
    requires InBounds(s)
  {
    match e
    case Upward(move) => s.(forth := Tried(s.forth, move))
    case Downward(move) => s.(back := Tried(s.back, move))
    case Complete =>
      if s.forth.pump.stage == Done && s.back.pump.stage == Done
      then s.(end := Completed(Stats(s.forth.pump.copied, s.back.pump.copied))) else s
    case Cancel => if Watch.Ready(s.signal, s.seen) then s.(seen := s.signal.version, end := Interrupted) else s
    case Break => s.(end := Failed)
    case LeftWrites(bytes) => s.(forth := Arrived(s.forth, bytes, false))
    case LeftEnds => s.(forth := Arrived(s.forth, [], true))
    case RightWrites(bytes) => s.(back := Arrived(s.back, bytes, false))
    case RightEnds => s.(back := Arrived(s.back, [], true))
    case ShutdownSent => s.(signal := s.signal.(version := s.signal.version + 1))
  }

  lemma TurnedInBounds(s: State, e: Event)
    requires InBounds(s)
    ensures InBounds(Turned(s, e))
  {
  }

  /** The relay after a schedule; it stops at its end. */
  function Played(s: State, schedule: seq<Event>): (r: State)
    requires InBounds(s)
    ensures InBounds(r)
  {
    if schedule == [] then s
    else
      var before := Played(s, schedule[..|schedule| - 1]);
      if before.end != Pending then before
      else
        TurnedInBounds(before, schedule[|schedule| - 1]);
        Turned(before, schedule[|schedule| - 1])
  }

  ghost predicate Inv(s: State, toRight: seq<byte>, toLeft: seq<byte>, first: nat) {
    && Faithful(s.forth, toRight)
    && Faithful(s.back, toLeft)
    && (s.end.Completed? ==> s.forth.pump.stage == Done && s.back.pump.stage == Done
                             && s.end.stats == Stats(s.forth.pump.copied, s.back.pump.copied))
    && (s.end == Interrupted ==> Watch.Ready(s.signal, first))
    && (s.end != Interrupted ==> s.seen == first)
  }

  lemma TurnedKeepsInv(s: State, e: Event, toRight: seq<byte>, toLeft: seq<byte>, first: nat)
    requires Inv(s, toRight, toLeft, first) && s.end == Pending
    ensures Inv(Turned(s, e), toRight, toLeft, first)
  {
    match e {
      case Upward(move) => if CanMove(s.forth, move) { MoveKeepsFaithful(s.forth, move, toRight); }
      case Downward(move) => if CanMove(s.back, move) { MoveKeepsFaithful(s.back, move, toLeft); }
      case LeftWrites(bytes) => if !s.forth.src.fin { WriteKeepsFaithful(s.forth, toRight, bytes); }
      case RightWrites(bytes) => if !s.back.src.fin { WriteKeepsFaithful(s.back, toLeft, bytes); }
      case _ =>
    }
  }

  lemma {:induction false} PlayedKeepsInv(s: State, schedule: seq<Event>, toRight: seq<byte>, toLeft: seq<byte>, first: nat)
    requires Inv(s, toRight, toLeft, first)
    ensures Inv(Played(s, schedule), toRight, toLeft, first)
  {
    if schedule != [] {
      var before := schedule[..|schedule| - 1];
      PlayedKeepsInv(s, before, toRight, toLeft, first);
      if Played(s, before).end == Pending {
        TurnedKeepsInv(Played(s, before), schedule[|schedule| - 1], toRight, toLeft, first);
      }
    }
  }

  /**
   Whatever the schedule, each side holds a prefix of what the other side sent, an end of output
   arrives only after all of it, Ok means that both sides received everything and the counts say
   how much that was, and `Interrupted` is only returned after a signal.
   */
  lemma PlayedDelivers(s: State, schedule: seq<Event>, toRight: seq<byte>, toLeft: seq<byte>)
    requires s.end == Pending && Faithful(s.forth, toRight) && Faithful(s.back, toLeft)
    ensures var r := Played(s, schedule);
            && r.forth.dst.sent <= toRight + r.forth.src.sent
            && r.back.dst.sent <= toLeft + r.back.src.sent
            && (r.forth.dst.fin ==> r.forth.src.fin && r.forth.dst.sent == toRight + r.forth.src.sent)
            && (r.back.dst.fin ==> r.back.src.fin && r.back.dst.sent == toLeft + r.back.src.sent)
            && (r.end.Completed? ==> r.forth.dst.fin && r.back.dst.fin
                                     && r.end.stats == Stats(|r.forth.src.sent|, |r.back.src.sent|))
            && (r.end == Interrupted ==> Watch.Ready(r.signal, s.seen))
  {
    PlayedKeepsInv(s, schedule, toRight, toLeft, s.seen);
    var r := Played(s, schedule);
    FaithfulIsPrefix(r.forth, toRight);
    FaithfulIsPrefix(r.back, toLeft);
    if r.forth.pump.stage == Done { DoneDelivers(r.forth, toRight); }
    if r.back.pump.stage == Done { DoneDelivers(r.back, toLeft); }
  }

  // ----- how a relay ends

  lemma PlayedOneMore(s: State, schedule: seq<Event>, e: Event)
    requires InBounds(s)
    ensures Played(s, schedule + [e]) == if Played(s, schedule).end != Pending then Played(s, schedule) else Turned(Played(s, schedule), e)
  {
    assert (schedule + [e])[..|schedule|] == schedule;
  }

  function Signals(schedule: seq<Event>): nat {
    if schedule == [] then 0
    else Signals(schedule[..|schedule| - 1]) + (if schedule[|schedule| - 1] == ShutdownSent then 1 else 0)
  }

  /** While a relay runs its receiver sees nothing, and each send adds a version. */
  lemma {:induction false} PendingHasSeenNothing(s: State, schedule: seq<Event>)
    requires InBounds(s) && Played(s, schedule).end == Pending
    ensures s.end == Pending && Played(s, schedule).seen == s.seen
    ensures Played(s, schedule).signal == s.signal.(version := s.signal.version + Signals(schedule))
  {
    if schedule != [] {
      PendingHasSeenNothing(s, schedule[..|schedule| - 1]);
    }
  }

  /**
   How a running relay ends, after any schedule: at a turn of the cancellation branch with
   `Interrupted`, if and only if a signal has been sent or the sender is gone; at a turn of the copying
   branch with Ok, if and only if both pumps have closed their sinks; on an error of a stream; and
   at no other turn.
   */
  lemma EndsExactly(s: State, schedule: seq<Event>, e: Event, toRight: seq<byte>, toLeft: seq<byte>)
    requires Faithful(s.forth, toRight) && Faithful(s.back, toLeft) && Played(s, schedule).end == Pending
    ensures var (before, after) := (Played(s, schedule), Played(s, schedule + [e]));
            && (after.end == Interrupted <==>
                  e == Cancel && (s.signal.version + Signals(schedule) != s.seen || s.signal.closed))
            && (after.end.Completed? <==> e == Complete && before.forth.dst.fin && before.back.dst.fin)
            && (after.end == Failed <==> e == Break)
            && (after.end == Interrupted ==> after.forth == before.forth && after.back == before.back)
  {
    PendingHasSeenNothing(s, schedule);
    PlayedKeepsInv(s, schedule, toRight, toLeft, s.seen);
    PlayedOneMore(s, schedule, e);
  }

  /** Cancellation works: once a signal has been sent, the next turn of that branch ends the relay. */
  lemma CancellationEnds(s: State, schedule: seq<Event>)
    requires InBounds(s) && s.seen <= s.signal.version
    requires Played(s, schedule).end == Pending && ShutdownSent in schedule
    ensures Played(s, schedule + [Cancel]).end == Interrupted
  {
    SomeSignal(schedule);
    PendingHasSeenNothing(s, schedule);
    PlayedOneMore(s, schedule, Cancel);
  }

  lemma {:induction false} SomeSignal(schedule: seq<Event>)
    requires ShutdownSent in schedule
    ensures Signals(schedule) > 0
  {
    if schedule[|schedule| - 1] != ShutdownSent {
      SomeSignal(schedule[..|schedule| - 1]);
    }
  }

  function Rank(p: Pump): nat {
    if p.stage == Done then 0 else if p.stage == ShuttingDown then 1 else if p.eof then 2 else 3
  }

  function HopWork(h: Hop): nat
    requires h.src.read <= |h.src.sent|
  {
    2 * (|h.src.sent| - h.src.read) + |h.pump.buffer| + Rank(h.pump)
  }

  /** A turn that polls one direction with a move it can make; there is one for every hop that is not done. */
  lemma HopGoesOn(h: Hop, preface: seq<byte>) returns (move: Move)
    requires Faithful(h, preface) && h.src.fin && h.pump.stage != Done && |h.pump.buffer| <= BUFFER_SIZE
    ensures CanMove(h, move) && HopWork(Moved(h, move)) < HopWork(h)
    ensures |Moved(h, move).pump.buffer| <= BUFFER_SIZE && Moved(h, move).src.fin && Moved(h, move).src.sent == h.src.sent
  {
    if h.pump.stage == ShuttingDown {
      move := Shutdown;
    } else if h.pump.buffer != [] {
      move := Drain(1);
    } else if h.src.read < |h.src.sent| {
      move := Fill(1);
    } else {
      move := if h.pump.eof then Finish else SeeEof;
    }
  }

  predicate Ended(s: State) {
    && InBounds(s) && s.forth.src.fin && s.back.src.fin
    && |s.forth.pump.buffer| <= BUFFER_SIZE && |s.back.pump.buffer| <= BUFFER_SIZE
  }

  /**
   A running relay whose peers have both ended can always be brought to Ok by polling it: both sides then
   hold everything.
   */
  lemma {:induction false} CanComplete(s: State, toRight: seq<byte>, toLeft: seq<byte>) returns (schedule: seq<Event>)
    requires Faithful(s.forth, toRight) && Faithful(s.back, toLeft) && s.end == Pending && Ended(s)
    ensures forall k :: 0 <= k < |schedule| ==> schedule[k].Upward? || schedule[k].Downward? || schedule[k] == Complete
    ensures Played(s, schedule).end == Completed(Stats(|s.forth.src.sent|, |s.back.src.sent|))
    ensures Played(s, schedule).forth.dst.sent == toRight + s.forth.src.sent
    ensures Played(s, schedule).back.dst.sent == toLeft + s.back.src.sent
    decreases HopWork(s.forth) + HopWork(s.back)
  {
    var e;
    if s.forth.pump.stage != Done {
      var move := HopGoesOn(s.forth, toRight);
      MoveKeepsFaithful(s.forth, move, toRight);
      e := Upward(move);
    } else if s.back.pump.stage != Done {
      var move := HopGoesOn(s.back, toLeft);
      MoveKeepsFaithful(s.back, move, toLeft);
      e := Downward(move);
    } else {
      DoneDelivers(s.forth, toRight);
      DoneDelivers(s.back, toLeft);
      schedule := [Complete];
      assert schedule[..0] == [];
      return;
    }
    var rest := CanComplete(Turned(s, e), toRight, toLeft);
    schedule := [e] + rest;
    PlayedFirst(s, e, rest);
  }

  lemma {:induction false} PlayedFirst(s: State, e: Event, rest: seq<Event>)
    requires InBounds(s) && s.end == Pending && InBounds(Turned(s, e))
    ensures Played(s, [e] + rest) == Played(Turned(s, e), rest)
  {
    if rest == [] {
      assert [e] + rest == [e] && [e][..0] == [];
    } else {
      var last := |rest| - 1;
      PlayedFirst(s, e, rest[..last]);
      assert [e] + rest == ([e] + rest[..last]) + [rest[last]];
      PlayedOneMore(s, [e] + rest[..last], rest[last]);
    }
  }

  /** What a peer does reaches its own stream and no other. */
  lemma PeersAct(s: State, bytes: seq<byte>)
    requires InBounds(s)
    ensures var left := Turned(s, LeftWrites(bytes));
            && left.forth.src.sent == s.forth.src.sent + (if s.forth.src.fin then [] else bytes) && left.back == s.back
    ensures var right := Turned(s, RightWrites(bytes));
            && right.back.src.sent == s.back.src.sent + (if s.back.src.fin then [] else bytes) && right.forth == s.forth
    ensures Turned(s, LeftEnds).forth.src.fin && Turned(s, LeftEnds).back == s.back
    ensures Turned(s, RightEnds).back.src.fin && Turned(s, RightEnds).forth == s.forth
  {
    assert s.forth.src.sent + [] == s.forth.src.sent && s.back.src.sent + [] == s.back.src.sent;
  }

  class Copying {
    const leftIn: Stream
    const leftOut: Stream
    const rightIn: Stream
    const rightOut: Stream
    const up: CopyBuffer
    const down: CopyBuffer
    const shutdown: Watch.Receiver
    var end: End

    ghost function Streams(): set<object> {
      {leftIn, leftOut, rightIn, rightOut}
    }

    function Value(): State
      reads this, Streams(), up, down, shutdown, shutdown.channel
    {
      State(Hop(leftIn.pipe, up.pump, rightOut.pipe), Hop(rightIn.pipe, down.pump, leftOut.pipe),
            shutdown.channel.signal, shutdown.seen, end)
    }

    ghost predicate Valid()
      reads leftIn, rightIn
    {
      && leftIn != leftOut && leftIn != rightIn && leftIn != rightOut
      && leftOut != rightIn && leftOut != rightOut && rightIn != rightOut
      && up != down
      && leftIn.pipe.read <= |leftIn.pipe.sent| && rightIn.pipe.read <= |rightIn.pipe.sent|
    }

    constructor (leftIn: Stream, leftOut: Stream, rightIn: Stream, rightOut: Stream, shutdown: Watch.Receiver)
      requires leftIn != leftOut && leftIn != rightIn && leftIn != rightOut
      requires leftOut != rightIn && leftOut != rightOut && rightIn != rightOut
      requires leftIn.pipe.read <= |leftIn.pipe.sent| && rightIn.pipe.read <= |rightIn.pipe.sent|
      ensures this.leftIn == leftIn && this.leftOut == leftOut && this.rightIn == rightIn && this.rightOut == rightOut
      ensures this.shutdown == shutdown && fresh(up) && fresh(down) && Valid()
      ensures Value() == Fresh(leftIn.pipe, leftOut.pipe, rightIn.pipe, rightOut.pipe, shutdown.channel.signal, shutdown.seen)
    {
      this.leftIn, this.leftOut, this.rightIn, this.rightOut := leftIn, leftOut, rightIn, rightOut;
      this.shutdown := shutdown;
      up := new CopyBuffer();
      down := new CopyBuffer();
      end := Pending;
    }

    method Arrive(stream: Stream, bytes: seq<byte>, ends: bool)
      modifies stream
      ensures stream.pipe == Arrived(Hop(old(stream.pipe), NEW, EMPTY), bytes, ends).src
    {
      if !stream.pipe.fin {
        if ends {
          stream.ShutdownWrite();
        } else {
          stream.Write(bytes);
        }
      }
    }

    /** One turn of the select. */
    method Turn(event: Event)
      requires Valid() && end == Pending
      modifies this, Streams(), up, down, shutdown, shutdown.channel
      ensures Valid() && Value() == Turned(old(Value()), event)
    {
      match event {
        case Upward(move) => up.Poll(leftIn, rightOut, move);
        case Downward(move) => down.Poll(rightIn, leftOut, move);
        case Complete =>
          if up.pump.stage == Done && down.pump.stage == Done {
            end := Completed(Stats(up.pump.copied, down.pump.copied));
          }
        case Cancel =>
          if shutdown.IsReady() {
            var _ := shutdown.Changed();
            end := Interrupted;
          }
        case Break => end := Failed;
        case LeftWrites(bytes) => Arrive(leftIn, bytes, false);
        case LeftEnds => Arrive(leftIn, [], true);
        case RightWrites(bytes) => Arrive(rightIn, bytes, false);
        case RightEnds => Arrive(rightIn, [], true);
        case ShutdownSent => shutdown.channel.Send();
      }
    }
  }

  /** A relay that has just been started. */
  function Fresh(leftIn: Pipe, leftOut: Pipe, rightIn: Pipe, rightOut: Pipe, signal: Watch.Signal, seen: nat): State {
    State(Hop(leftIn, NEW, rightOut), Hop(rightIn, NEW, leftOut), signal, seen, Pending)
  }

  /** `relay`, run against any schedule of events. */
  method Run(leftIn: Stream, leftOut: Stream, rightIn: Stream, rightOut: Stream,
             shutdown: Watch.Receiver, schedule: seq<Event>)
    returns (end: End)
    requires leftIn != leftOut && leftIn != rightIn && leftIn != rightOut
    requires leftOut != rightIn && leftOut != rightOut && rightIn != rightOut
    requires leftIn.pipe.read <= |leftIn.pipe.sent| && rightIn.pipe.read <= |rightIn.pipe.sent|
    modifies leftIn, leftOut, rightIn, rightOut, shutdown, shutdown.channel
    ensures var r := Played(old(Fresh(leftIn.pipe, leftOut.pipe, rightIn.pipe, rightOut.pipe,
                                      shutdown.channel.signal, shutdown.seen)), schedule);
            && leftIn.pipe == r.forth.src && rightOut.pipe == r.forth.dst
            && rightIn.pipe == r.back.src && leftOut.pipe == r.back.dst
            && shutdown.channel.signal == r.signal && shutdown.seen == r.seen
            && end == r.end
  {
    var copying := new Copying(leftIn, leftOut, rightIn, rightOut, shutdown);
    ghost var start := copying.Value();
    var k := 0;
    while k < |schedule| && copying.end == Pending
      invariant k <= |schedule|
      invariant copying.Valid() && copying.Value() == Played(start, schedule[..k])
    {
      copying.Turn(schedule[k]);
      k := k + 1;
      assert schedule[..k][..k - 1] == schedule[..k - 1];
    }
    PlayedStops(start, schedule, k);
    end := copying.end;
  }

  lemma {:induction false} PlayedStops(s: State, schedule: seq<Event>, k: nat)
    requires InBounds(s) && k <= |schedule|
    requires k == |schedule| || Played(s, schedule[..k]).end != Pending
    ensures Played(s, schedule) == Played(s, schedule[..k])
    decreases |schedule| - k
  {
    if k == |schedule| {
      assert schedule[..k] == schedule;
    } else {
      assert schedule[..k + 1][..k] == schedule[..k];
      PlayedStops(s, schedule, k + 1);
    }
  }
}
