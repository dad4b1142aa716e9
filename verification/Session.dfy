/**
 One client session of src/client.rs: reconnect before the relay, relay at most once.

 What the network, the peer, the jitter and the shutdown signal do is an environment: for each
 attempt, how long the TCP connect and the TLS handshake would take and how they would end.
 Timeouts are exact, a sleep may wake late, and the session's own code takes no time.
 */
module Session {
  import opened Prelude
  import opened Retry

  const TCP_CONNECT_TIMEOUT: Nanos := 5 * SECOND
  const TLS_HANDSHAKE_TIMEOUT: Nanos := 10 * SECOND
  const ALPN_PROTOCOL: string := "gpg-bridge/1"

  datatype ErrorKind =
    | ConnectionAborted | ConnectionReset | TimedOut | UnexpectedEof | BrokenPipe
    | ConnectionRefused | InvalidData | OtherKind

  predicate TransientTlsError(kind: ErrorKind) {
    kind == ConnectionAborted || kind == ConnectionReset || kind == TimedOut || kind == UnexpectedEof || kind == BrokenPipe
  }

  /** An operation that would end, with this result, after this time. */
  datatype Timed<T> = Timed(takes: Nanos, result: T)

  datatype Tcp = TcpConnected | TcpFailed

  datatype Tls = Handshaken(alpn: Option<string>) | TlsFailed(kind: ErrorKind)

  datatype RelayOutcome = Completed | Cancelled | FailedClosed

  /** The environment of one attempt and of the sleep and the relay that may follow it. */
  datatype Attempt = Attempt(
    tcp: Timed<Tcp>,
    tls: Timed<Tls>,
    jitter: Nanos -> Nanos,
    late: Nanos,                  // by how much the sleep oversleeps
    prefersSleep: bool,           // which branch the select takes when both complete together
    consumes: nat,                // how many local bytes a relay would read
    outcome: RelayOutcome)        // and how it would end

  /** `timeout(limit, operation)`: nothing if the operation takes longer than the limit. */
  function Timeout<T>(limit: Nanos, op: Timed<T>): Timed<Option<T>> {
    if op.takes <= limit then Timed(op.takes, Some(op.result)) else Timed(limit, None)
  }

  // The program's Result<stream, bool>: connected, or whether the failure is transient.
  datatype Verdict = Established | Transient | Rejected

  function Establish(a: Attempt): Timed<Verdict> {
    var tcp: Timed<Option<Tcp>> := Timeout(TCP_CONNECT_TIMEOUT, a.tcp);
    if tcp.result != Some(TcpConnected) then Timed(tcp.takes, Transient)
    else
      var tls: Timed<Option<Tls>> := Timeout(TLS_HANDSHAKE_TIMEOUT, a.tls);
      var verdict :=
        match tls.result
        case None => Transient
        case Some(TlsFailed(kind)) => if TransientTlsError(kind) then Transient else Rejected
        case Some(Handshaken(alpn)) => if alpn == Some(ALPN_PROTOCOL) then Established else Rejected;
      Timed(tcp.takes + tls.takes, verdict)
  }

  /** The TCP connection stands within its five seconds. */
  predicate Reaches(a: Attempt) {
    a.tcp.result == TcpConnected && a.tcp.takes <= TCP_CONNECT_TIMEOUT
  }

  /** What the network does to an attempt that is worth another one. */
  predicate FailsTransiently(a: Attempt) {
    || a.tcp.takes > TCP_CONNECT_TIMEOUT
    || a.tcp.result == TcpFailed
    || a.tls.takes > TLS_HANDSHAKE_TIMEOUT
    || (a.tls.result.TlsFailed?
        && a.tls.result.kind in {ConnectionAborted, ConnectionReset, TimedOut, UnexpectedEof, BrokenPipe})
  }

  /** What the peer does to an attempt that ends the session: another TLS error, or the wrong protocol. */
  predicate IsRefused(a: Attempt) {
    && Reaches(a) && a.tls.takes <= TLS_HANDSHAKE_TIMEOUT
    && match a.tls.result
       case TlsFailed(kind) => kind in {ConnectionRefused, InvalidData, OtherKind}
       case Handshaken(alpn) => alpn != Some(ALPN_PROTOCOL)
  }

  predicate Succeeds(a: Attempt) {
    Reaches(a) && a.tls.takes <= TLS_HANDSHAKE_TIMEOUT && a.tls.result == Handshaken(Some(ALPN_PROTOCOL))
  }

  /** The verdict on an attempt and its duration, in terms of what the network and the peer do. */
  lemma EstablishExactly(a: Attempt)
    ensures Establish(a).result == Transient <==> FailsTransiently(a)
    ensures Establish(a).result == Rejected <==> IsRefused(a)
    ensures Establish(a).result == Established <==> Succeeds(a)
    ensures !Reaches(a) ==> Establish(a).takes == Min(a.tcp.takes, TCP_CONNECT_TIMEOUT)
    ensures Reaches(a) ==> Establish(a).takes == a.tcp.takes + Min(a.tls.takes, TLS_HANDSHAKE_TIMEOUT)
  {
  }

  datatype Event =
    | Attempted(start: Nanos, end: Nanos, verdict: Verdict)
    | Slept(from: Nanos, delay: Nanos)
    | Relayed(at: Nanos, offset: nat, consumed: nat, outcome: RelayOutcome)

  datatype End = Exhausted | ShutDown | RelayEnded(outcome: RelayOutcome) | Refused

  class LocalStream {
    var consumed: nat

    constructor ()
      ensures consumed == 0
    {
      consumed := 0;
    }

    method Consume(n: nat)
      modifies this
      ensures consumed == old(consumed) + n
    {
      consumed := consumed + n;
    }
  }

  // ----- what a trace of a session looks like

  /** Every attempt starts inside the window, and every sleep is scheduled to end inside it. */
  predicate EventInWindow(e: Event) {
    match e
    case Attempted(start, end, _) =>
      && start < PRE_RELAY_RECONNECT_WINDOW
      && start <= end <= start + TCP_CONNECT_TIMEOUT + TLS_HANDSHAKE_TIMEOUT
    case Slept(from, delay) => from + delay < PRE_RELAY_RECONNECT_WINDOW && delay <= MAX_RECONNECT_DELAY
    case Relayed(at, _, _, _) => at < PRE_RELAY_RECONNECT_WINDOW + TCP_CONNECT_TIMEOUT + TLS_HANDSHAKE_TIMEOUT
  }

  predicate InWindow(trace: seq<Event>) {
    forall k :: 0 <= k < |trace| ==> EventInWindow(trace[k])
  }

  predicate IsAttempt(e: Event, end: Nanos, verdict: Verdict) {
    e.Attempted? && e.end == end && e.verdict == verdict
  }

  /** What may come directly after what: nothing after a relay or a rejection. */
  predicate Follows(before: Option<Event>, e: Event) {
    match e
    case Attempted(_, _, _) => before.None? || before.value.Slept?
    case Slept(from, _) => before.Some? && IsAttempt(before.value, from, Transient)
    case Relayed(at, offset, _, _) => before.Some? && IsAttempt(before.value, at, Established) && offset == 0
  }

  function Before(trace: seq<Event>, k: nat): Option<Event>
    requires k <= |trace|
  {
    if k == 0 then None else Some(trace[k - 1])
  }

  predicate WellOrdered(trace: seq<Event>) {
    forall k {:trigger Before(trace, k)} :: 0 <= k < |trace| ==> Follows(Before(trace, k), trace[k])
  }

  function Attempts(trace: seq<Event>): nat {
    if trace == [] then 0
    else Attempts(trace[..|trace| - 1]) + (if trace[|trace| - 1].Attempted? then 1 else 0)
  }

  function Consumed(trace: seq<Event>): nat {
    if trace == [] then 0
    else Consumed(trace[..|trace| - 1]) + (if trace[|trace| - 1].Relayed? then trace[|trace| - 1].consumed else 0)
  }

  /** A sleep of positive length is over by the time of the signal. */
  predicate Heeds(e: Event, signal: Option<Nanos>) {
    e.Slept? && e.delay > 0 && signal.Some? ==> e.from + e.delay <= signal.value
  }

  predicate MissesNoSignal(trace: seq<Event>, signal: Option<Nanos>) {
    forall k :: 0 <= k < |trace| ==> Heeds(trace[k], signal)
  }

  ghost predicate Good(trace: seq<Event>, signal: Option<Nanos>, attempts: nat, consumed: nat) {
    InWindow(trace) && WellOrdered(trace) && MissesNoSignal(trace, signal) && Attempts(trace) == attempts && Consumed(trace) == consumed
  }

  lemma Append(trace: seq<Event>, e: Event, signal: Option<Nanos>, attempts: nat, consumed: nat)
    requires Good(trace, signal, attempts, consumed)
    requires EventInWindow(e) && Heeds(e, signal) && Follows(Before(trace, |trace|), e)
    ensures Good(trace + [e], signal, if e.Attempted? then attempts + 1 else attempts,
                 if e.Relayed? then consumed + e.consumed else consumed)
  {
    var longer := trace + [e];
    assert longer[..|trace|] == trace;
    forall k | 0 <= k < |longer|
      ensures Follows(Before(longer, k), longer[k]) && EventInWindow(longer[k]) && Heeds(longer[k], signal)
    {
      if k < |trace| {
        assert Before(longer, k) == Before(trace, k);
      }
    }
  }

  lemma NothingAfterRelay(trace: seq<Event>, k: nat)
    requires WellOrdered(trace) && k + 1 < |trace|
    ensures !trace[k].Relayed?
  {
    assert Follows(Before(trace, k + 1), trace[k + 1]);
  }

  /**
   In a well-ordered trace at most one relay runs: it is the last event, it follows the one
   established attempt, every attempt before that failed transiently, and it starts at offset zero.
   */
  lemma RelayedOnceAndLast(trace: seq<Event>, j: nat)
    requires WellOrdered(trace) && j < |trace| && trace[j].Relayed?
    ensures j == |trace| - 1 && trace[j].offset == 0
    ensures 0 < j && trace[j - 1].Attempted? && trace[j - 1].verdict == Established
    ensures forall k :: 0 <= k < j - 1 && trace[k].Attempted? ==> trace[k].verdict == Transient
    ensures forall k :: 0 <= k < j ==> !trace[k].Relayed?
    ensures Consumed(trace) == trace[j].consumed
  {
    assert Follows(Before(trace, j), trace[j]);
    if j + 1 < |trace| {
      NothingAfterRelay(trace, j);
    }
    forall k | 0 <= k < j
      ensures trace[k].Attempted? && k < j - 1 ==> trace[k].verdict == Transient
      ensures !trace[k].Relayed?
    {
      assert Follows(Before(trace, k + 1), trace[k + 1]);
      if k + 2 <= j {
        assert Follows(Before(trace, k + 2), trace[k + 2]);
      }
    }
    NothingConsumed(trace[..j]);
  }

  lemma {:induction false} NothingConsumed(trace: seq<Event>)
    requires forall k :: 0 <= k < |trace| ==> !trace[k].Relayed?
    ensures Consumed(trace) == 0
  {
    if trace != [] {
      NothingConsumed(trace[..|trace| - 1]);
    }
  }

  ghost predicate ExactTimers(env: nat -> Attempt) {
    forall n :: env(n).late == 0
  }

  /** No attempt succeeds or is rejected. */
  ghost predicate AlwaysTransient(env: nat -> Attempt) {
    forall n :: FailsTransiently(env(n))
  }

  /** As slow as it gets: the connection stands in the last moment, the handshake never, and every jitter picks its cap. */
  ghost predicate Slowest(env: nat -> Attempt) {
    forall n :: env(n).tcp == Timed(5 * SECOND, TcpConnected) && env(n).tls.takes >= 10 * SECOND
                && env(n).jitter(Cap(n)) >= Cap(n)
  }

  /** The latest moment at which attempt `n` can start: every earlier one and every earlier delay at full length. */
  function LatestStart(n: nat): Nanos {
    15 * SECOND * n + TotalCap(n)
  }

  /** Three full attempts and delays leave room for a fourth attempt to start, but not for a fifth. */
  lemma FourAttemptsFit()
    ensures LatestStart(0) == 0
    ensures LatestStart(1) < LatestStart(2) < LatestStart(3) < PRE_RELAY_RECONNECT_WINDOW < LatestStart(4)
  {
    PowersOfTwo();
  }

  lemma LatestStartGrows(n: nat)
    ensures n >= 4 ==> LatestStart(n) >= LatestStart(4)
  {
    PowersOfTwo();
  }

  /** What attempt `n` and the delay after it add, and that three of them never exhaust the window. */
  lemma Budget(n: nat, clock: Nanos, takes: Nanos, delay: Nanos)
    requires clock <= LatestStart(n) && takes <= 15 * SECOND && delay <= Cap(n)
    ensures clock + takes + delay <= LatestStart(n + 1)
    ensures clock == LatestStart(n) && takes == 15 * SECOND && delay == Cap(n) ==> clock + takes + delay == LatestStart(n + 1)
    ensures n < 3 ==> clock + takes + delay < PRE_RELAY_RECONNECT_WINDOW
    ensures clock == LatestStart(n) && clock < PRE_RELAY_RECONNECT_WINDOW ==> n < 4
  {
    TotalCapStep(n);
    FourAttemptsFit();
    assert n < 3 ==> n == 0 || n == 1 || n == 2;
    LatestStartGrows(n);
  }

  lemma DelayBounds(n: nat, jitter: Nanos -> Nanos)
    ensures Delay(AttemptAfter(n), jitter) <= Cap(n) <= MAX_RECONNECT_DELAY
    ensures jitter(Cap(n)) >= Cap(n) ==> Delay(AttemptAfter(n), jitter) == Cap(n)
  {
    SaturationIsHarmless(n);
    CapTable(n);
  }

  ghost predicate Calm(env: nat -> Attempt) {
    ExactTimers(env) && AlwaysTransient(env)
  }

  /** Where the clock can be when attempt `n` starts. */
  ghost predicate OnBudget(env: nat -> Attempt, n: nat, clock: Nanos) {
    && (Calm(env) ==> clock <= LatestStart(n))
    && (Calm(env) && Slowest(env) ==> clock == LatestStart(n))
  }

  function AfterPause(a: Attempt, n: nat, clock: Nanos): Nanos {
    clock + Establish(a).takes + Delay(AttemptAfter(n), a.jitter)
  }

  lemma BudgetStep(env: nat -> Attempt, n: nat, clock: Nanos)
    requires OnBudget(env, n, clock) && clock < PRE_RELAY_RECONNECT_WINDOW
    ensures var paused := AfterPause(env(n), n, clock);
            && OnBudget(env, n + 1, paused)
            && (Calm(env) && paused >= PRE_RELAY_RECONNECT_WINDOW ==> n + 1 >= 4)
            && (Calm(env) && Slowest(env) ==> n + 1 <= 4)
  {
    EstablishTakes(env(n));
    EstablishExactly(env(n));
    DelayBounds(n, env(n).jitter);
    if Calm(env) {
      Budget(n, clock, Establish(env(n)).takes, Delay(AttemptAfter(n), env(n).jitter));
    }
  }

  lemma EstablishTakes(a: Attempt)
    ensures Establish(a).takes <= TCP_CONNECT_TIMEOUT + TLS_HANDSHAKE_TIMEOUT
    ensures Establish(a).result == Established <==>
              && a.tcp == Timed(a.tcp.takes, TcpConnected) && a.tcp.takes <= TCP_CONNECT_TIMEOUT
              && a.tls == Timed(a.tls.takes, Handshaken(Some(ALPN_PROTOCOL))) && a.tls.takes <= TLS_HANDSHAKE_TIMEOUT
  {
  }

  // ----- shutdown

  /**
   How a sleep of `delay` from `clock` ends when the shutdown signal becomes ready, for good, at
   `signal`: the moment of the shutdown, or nothing if the sleep completes.  Only when both are
   complete at the same poll has the select a choice.
   */
  function Sleep(clock: Nanos, delay: Nanos, signal: Option<Nanos>, prefersSleep: bool): (woken: Option<Nanos>)
    ensures woken.Some? ==> signal.Some? && signal.value <= clock + delay && woken.value == Max(signal.value, clock)
    ensures woken.None? && delay > 0 && signal.Some? ==> clock + delay <= signal.value
    ensures signal.Some? && signal.value <= clock + delay && (delay == 0 || signal.value == clock + delay) ==>
              (woken.None? <==> prefersSleep)
  {
    if signal.None? || signal.value > clock + delay then None
    else if (delay == 0 || signal.value == clock + delay) && prefersSleep then None
    else Some(if signal.value < clock then clock else signal.value)
  }

  // ----- the session, step by step

  predicate HasRelayed(ended: Option<End>) {
    ended.Some? && ended.value.RelayEnded?
  }

  /** What one turn of the loop adds to the trace, how the session ends there, if it does, and when. */
  datatype Turned = Turned(ended: Option<End>, added: seq<Event>, later: Nanos)

  function Turn(a: Attempt, n: nat, clock: Nanos, signal: Option<Nanos>): (r: Turned)
    ensures r.later >= clock + Establish(a).takes
    ensures r.added != [] && r.added[0] == Attempted(clock, clock + Establish(a).takes, Establish(a).result)
  {
    var later := clock + Establish(a).takes;
    var attempt := Attempted(clock, later, Establish(a).result);
    match Establish(a).result
    case Established => Turned(Some(RelayEnded(a.outcome)), [attempt, Relayed(later, 0, a.consumes, a.outcome)], later)
    case Rejected => Turned(Some(Refused), [attempt], later)
    case Transient =>
      var delay := Delay(AttemptAfter(n), a.jitter);
      if later + delay >= PRE_RELAY_RECONNECT_WINDOW then Turned(Some(Exhausted), [attempt], later)
      else
        match Sleep(later, delay, signal, a.prefersSleep)
        case Some(woken) => Turned(Some(ShutDown), [attempt], woken)
        case None => Turned(None, [attempt, Slept(later, delay)], later + delay + a.late)
  }

  predicate TakesTime(a: Attempt) {
    a.tcp.takes > 0 || (a.tcp.result == TcpConnected && a.tls.takes > 0)
  }

  lemma AttemptTakesTime(a: Attempt)
    requires TakesTime(a)
    ensures Establish(a).takes > 0
  {
  }

  /** Every attempt takes some time. */
  ghost predicate Ticks(env: nat -> Attempt) {
    forall k :: TakesTime(env(k))
  }

  datatype History = History(trace: seq<Event>, end: End, clock: Nanos)

  /** The session from attempt `n` on, if it gets there at `clock`. */
  ghost function Whole(env: nat -> Attempt, signal: Option<Nanos>, n: nat, clock: Nanos): History
    requires Ticks(env)
    decreases PRE_RELAY_RECONNECT_WINDOW - clock
  {
    if clock >= PRE_RELAY_RECONNECT_WINDOW then History([], Exhausted, clock)
    else
      AttemptTakesTime(env(n));
      var turned := Turn(env(n), n, clock, signal);
      if turned.ended.Some? then History(turned.added, turned.ended.value, turned.later)
      else
        var rest := Whole(env, signal, n + 1, turned.later);
        rest.(trace := turned.added + rest.trace)
  }

  ghost function Ahead(env: nat -> Attempt, signal: Option<Nanos>, n: nat, clock: Nanos, trace: seq<Event>, ended: Option<End>): History
    requires Ticks(env)
  {
    if ended.Some? then History(trace, ended.value, clock) else After(trace, Whole(env, signal, n, clock))
  }

  ghost function After(trace: seq<Event>, rest: History): History {
    rest.(trace := trace + rest.trace)
  }

  lemma WholeStep(env: nat -> Attempt, signal: Option<Nanos>, n: nat, clock: Nanos, trace: seq<Event>)
    requires clock < PRE_RELAY_RECONNECT_WINDOW && Ticks(env)
    ensures var turned := Turn(env(n), n, clock, signal);
            Ahead(env, signal, n, clock, trace, None)
            == Ahead(env, signal, n + 1, turned.later, trace + turned.added, turned.ended)
  {
    var turned := Turn(env(n), n, clock, signal);
    if turned.ended.None? {
      var rest := Whole(env, signal, n + 1, turned.later);
      assert trace + (turned.added + rest.trace) == (trace + turned.added) + rest.trace;
    }
  }

  ghost predicate Continues(trace: seq<Event>) {
    trace == [] || trace[|trace| - 1].Slept?
  }

  lemma TurnFits(a: Attempt, n: nat, clock: Nanos, signal: Option<Nanos>)
    requires clock < PRE_RELAY_RECONNECT_WINDOW
    ensures var added := Turn(a, n, clock, signal).added;
            && EventInWindow(added[0])
            && (|added| != 1 ==> |added| == 2 && !added[1].Attempted? && EventInWindow(added[1]) && Heeds(added[1], signal)
                                 && Follows(Some(added[0]), added[1]))
  {
    EstablishTakes(a);
    DelayBounds(n, a.jitter);
  }

  lemma TurnConsumesAtRelay(a: Attempt, n: nat, clock: Nanos, signal: Option<Nanos>)
    ensures var turned := Turn(a, n, clock, signal);
            (if HasRelayed(turned.ended) then a.consumes else 0)
            == if |turned.added| == 2 && turned.added[1].Relayed? then turned.added[1].consumed else 0
  {
  }

  /** A turn adds only what may come next. */
  lemma TurnIsGood(a: Attempt, n: nat, clock: Nanos, signal: Option<Nanos>, trace: seq<Event>)
    requires Good(trace, signal, n, 0) && clock < PRE_RELAY_RECONNECT_WINDOW && Continues(trace)
    ensures var turned := Turn(a, n, clock, signal);
            Good(trace + turned.added, signal, n + 1, if HasRelayed(turned.ended) then a.consumes else 0)
  {
    TurnFits(a, n, clock, signal);
    TurnConsumesAtRelay(a, n, clock, signal);
    GoodExtended(trace, Turn(a, n, clock, signal).added, signal, n);
  }

  lemma AppendTwo(trace: seq<Event>, once: seq<Event>, first: Event, second: Event, signal: Option<Nanos>, n: nat)
    requires Good(trace, signal, n, 0) && Continues(trace) && once == trace + [first]
    requires first.Attempted? && EventInWindow(first)
    requires !second.Attempted? && EventInWindow(second) && Heeds(second, signal) && Follows(Some(first), second)
    ensures Good(once + [second], signal, n + 1, if second.Relayed? then second.consumed else 0)
  {
    Append(trace, first, signal, n, 0);
    assert Before(once, |once|) == Some(first);
    Append(once, second, signal, n + 1, 0);
  }

  lemma GoodExtended(trace: seq<Event>, added: seq<Event>, signal: Option<Nanos>, n: nat)
    requires Good(trace, signal, n, 0) && Continues(trace)
    requires added != [] && added[0].Attempted? && EventInWindow(added[0])
    requires |added| != 1 ==> |added| == 2 && !added[1].Attempted? && EventInWindow(added[1]) && Heeds(added[1], signal)
                              && Follows(Some(added[0]), added[1])
    ensures Good(trace + added, signal, n + 1, if |added| == 2 && added[1].Relayed? then added[1].consumed else 0)
  {
    if |added| == 1 {
      Append(trace, added[0], signal, n, 0);
      assert added == [added[0]];
    } else {
      AppendTwo(trace, trace + [added[0]], added[0], added[1], signal, n);
      assert trace + added == trace + [added[0]] + [added[1]];
    }
  }

  lemma TurnEnds(a: Attempt, n: nat, clock: Nanos, signal: Option<Nanos>, trace: seq<Event>)
    requires clock < PRE_RELAY_RECONNECT_WINDOW
    ensures var turned := Turn(a, n, clock, signal); var longer := trace + turned.added;
            && (turned.ended.None? <==> longer[|longer| - 1].Slept?)
            && (HasRelayed(turned.ended) <==> longer[|longer| - 1].Relayed?)
            && (HasRelayed(turned.ended) ==> longer[|longer| - 1].outcome == turned.ended.value.outcome)
            && (turned.ended == Some(ShutDown) ==> signal.Some?)
  {
    var added := Turn(a, n, clock, signal).added;
    assert (trace + added)[|trace + added| - 1] == added[|added| - 1];
  }

  /** Everything in its window, in order and heeding the signal, and the end is what the last event says. */
  ghost predicate IsOrderly(w: History, signal: Option<Nanos>) {
    && InWindow(w.trace) && WellOrdered(w.trace) && MissesNoSignal(w.trace, signal)
    && (w.end.RelayEnded? <==> w.trace != [] && w.trace[|w.trace| - 1].Relayed?)
    && (w.end.RelayEnded? ==> w.trace[|w.trace| - 1].outcome == w.end.outcome)
    && (w.end == ShutDown ==> signal.Some?)
  }

  lemma AfterNothing(w: History)
    ensures After([], w) == w
  {
    assert [] + w.trace == w.trace;
  }

  lemma ConsumedOne(trace: seq<Event>, e: Event)
    ensures Consumed(trace + [e]) == Consumed(trace) + (if e.Relayed? then e.consumed else 0)
  {
    assert (trace + [e])[..|trace|] == trace;
  }

  lemma SplitsInTwo(trace: seq<Event>, added: seq<Event>)
    requires |added| == 2
    ensures trace + added == (trace + [added[0]]) + [added[1]]
  {
  }

  lemma ConsumedTwo(trace: seq<Event>, added: seq<Event>)
    requires |added| == 2 && added[0].Attempted?
    ensures Consumed(trace + added) == Consumed(trace) + (if added[1].Relayed? then added[1].consumed else 0)
  {
    var once := trace + [added[0]];
    ConsumedOne(trace, added[0]);
    ConsumedOne(once, added[1]);
    assert trace + added == once + [added[1]];
  }

  lemma TurnConsumes(a: Attempt, n: nat, clock: Nanos, signal: Option<Nanos>, trace: seq<Event>)
    ensures var turned := Turn(a, n, clock, signal);
            Consumed(trace + turned.added) == Consumed(trace) + (if HasRelayed(turned.ended) then a.consumes else 0)
  {
    var added := Turn(a, n, clock, signal).added;
    TurnConsumesAtRelay(a, n, clock, signal);
    if |added| == 1 {
      ConsumedOne(trace, added[0]);
      assert added == [added[0]];
    } else {
      ConsumedTwo(trace, added);
    }
  }

  lemma {:induction false} WholeKeeps(env: nat -> Attempt, signal: Option<Nanos>, n: nat, clock: Nanos, trace: seq<Event>)
    requires Ticks(env) && Good(trace, signal, n, 0) && Continues(trace)
    ensures IsOrderly(After(trace, Whole(env, signal, n, clock)), signal)
    decreases PRE_RELAY_RECONNECT_WINDOW - clock
  {
    if clock >= PRE_RELAY_RECONNECT_WINDOW {
      assert trace + [] == trace;
    } else {
      WholeStep(env, signal, n, clock, trace);
      TurnIsGood(env(n), n, clock, signal, trace);
      TurnEnds(env(n), n, clock, signal, trace);
      var turned := Turn(env(n), n, clock, signal);
      if turned.ended.None? {
        WholeKeeps(env, signal, n + 1, turned.later, trace + turned.added);
      }
    }
  }

  /**
   Whatever the network, the jitter and the signal do: every attempt starts and every sleep ends
   inside the window, no sleep outlasts the signal, and nothing follows a relay or a rejection.
   */
  lemma EverySessionIsOrderly(env: nat -> Attempt, signal: Option<Nanos>)
    requires Ticks(env)
    ensures IsOrderly(Whole(env, signal, 0, 0), signal)
  {
    WholeKeeps(env, signal, 0, 0, []);
    AfterNothing(Whole(env, signal, 0, 0));
  }

  // ----- a session and its environment

  /** Number `k` of the events is what the environment makes of it; so many attempts come before it. */
  ghost predicate Matches(env: nat -> Attempt, trace: seq<Event>, k: nat)
    requires k < |trace|
  {
    var n := Attempts(trace[..k]);
    match trace[k]
    case Attempted(start, end, verdict) =>
      && start == (if n == 0 then 0 else NextStart(env, trace, k, n))
      && end == start + Establish(env(n)).takes
      && (verdict == Transient <==> FailsTransiently(env(n)))
      && (verdict == Rejected <==> IsRefused(env(n)))
    case Slept(_, delay) => n > 0 && delay == Delay(AttemptAfter(n - 1), env(n - 1).jitter)
    case Relayed(_, _, consumed, outcome) => n > 0 && consumed == env(n - 1).consumes && outcome == env(n - 1).outcome
  }

  /** When the sleep before event `k` is over. */
  ghost function NextStart(env: nat -> Attempt, trace: seq<Event>, k: nat, n: nat): Nanos
    requires 0 < n && k <= |trace|
  {
    if k > 0 && trace[k - 1].Slept? then trace[k - 1].from + trace[k - 1].delay + env(n - 1).late else 0
  }

  ghost predicate Follow(env: nat -> Attempt, trace: seq<Event>, n: nat) {
    && Attempts(trace) == n
    && (forall k {:trigger Matches(env, trace, k)} :: 0 <= k < |trace| ==> Matches(env, trace, k))
  }

  lemma FollowOne(env: nat -> Attempt, trace: seq<Event>, e: Event, n: nat)
    requires Follow(env, trace, n) && Matches(env, trace + [e], |trace|)
    ensures Follow(env, trace + [e], if e.Attempted? then n + 1 else n)
  {
    var longer := trace + [e];
    assert longer[..|trace|] == trace;
    forall k | 0 <= k < |trace|
      ensures Matches(env, longer, k)
    {
      assert Matches(env, trace, k);
      assert longer[..k] == trace[..k];
    }
  }

  /** The next attempt starts when the last sleep is over. */
  ghost predicate IsNow(env: nat -> Attempt, trace: seq<Event>, n: nat, clock: Nanos) {
    && Continues(trace)
    && clock == (if n == 0 then 0 else NextStart(env, trace, |trace|, n))
    && (n > 0 ==> trace != [] && FailsTransiently(env(n - 1)))
  }

  lemma FollowAttempt(env: nat -> Attempt, trace: seq<Event>, n: nat, clock: Nanos) returns (once: seq<Event>)
    requires Follow(env, trace, n) && IsNow(env, trace, n, clock)
    ensures once == trace + [Attempted(clock, clock + Establish(env(n)).takes, Establish(env(n)).result)]
    ensures Follow(env, once, n + 1)
  {
    EstablishExactly(env(n));
    var e := Attempted(clock, clock + Establish(env(n)).takes, Establish(env(n)).result);
    once := trace + [e];
    assert once[..|trace|] == trace;
    FollowOne(env, trace, e, n);
  }

  lemma FollowTurn(env: nat -> Attempt, trace: seq<Event>, n: nat, clock: Nanos, signal: Option<Nanos>)
    requires Follow(env, trace, n) && IsNow(env, trace, n, clock)
    ensures var turned := Turn(env(n), n, clock, signal);
            && Follow(env, trace + turned.added, n + 1)
            && (turned.ended.None? ==> IsNow(env, trace + turned.added, n + 1, turned.later))
  {
    var turned := Turn(env(n), n, clock, signal);
    var once := FollowAttempt(env, trace, n, clock);
    EstablishExactly(env(n));
    if |turned.added| == 1 {
      assert trace + turned.added == once;
    } else {
      SplitsInTwo(trace, turned.added);
      assert (once + [turned.added[1]])[..|once|] == once;
      FollowOne(env, once, turned.added[1], n + 1);
    }
  }

  /** How a session ends, in terms of what the network, the peer, the jitter and the signal did at its last attempt. */
  predicate EndsByLast(a: Attempt, n: nat, signal: Option<Nanos>, last: Event, end: End, clock: Nanos) {
    && (end == Refused <==> IsRefused(a))
    && (end.RelayEnded? <==> Succeeds(a))
    && (end == Refused || end == ShutDown ==> last.Attempted?)
    && (last.Attempted? && FailsTransiently(a) ==>
          var wakes := last.end + Delay(AttemptAfter(n), a.jitter);
          && (end == Exhausted <==> wakes >= PRE_RELAY_RECONNECT_WINDOW)
          && (end == ShutDown ==> signal.Some? && signal.value <= wakes && clock == Max(signal.value, last.end)))
  }

  ghost predicate EndsBy(env: nat -> Attempt, signal: Option<Nanos>, w: History) {
    var n := Attempts(w.trace);
    n > 0 && w.trace != [] && EndsByLast(env(n - 1), n - 1, signal, w.trace[|w.trace| - 1], w.end, w.clock)
  }

  lemma TurnEndsByLast(a: Attempt, n: nat, clock: Nanos, signal: Option<Nanos>)
    requires Turn(a, n, clock, signal).ended.Some?
    ensures var turned := Turn(a, n, clock, signal);
            EndsByLast(a, n, signal, turned.added[|turned.added| - 1], turned.ended.value, turned.later)
  {
    EstablishExactly(a);
  }

  lemma TurnEndsBy(env: nat -> Attempt, signal: Option<Nanos>, n: nat, clock: Nanos, trace: seq<Event>)
    requires Turn(env(n), n, clock, signal).ended.Some?
    requires Attempts(trace + Turn(env(n), n, clock, signal).added) == n + 1
    ensures var turned := Turn(env(n), n, clock, signal);
            EndsBy(env, signal, History(trace + turned.added, turned.ended.value, turned.later))
  {
    TurnEndsByLast(env(n), n, clock, signal);
    LastOfBoth(trace, Turn(env(n), n, clock, signal).added);
  }

  lemma LastOfBoth(trace: seq<Event>, added: seq<Event>)
    requires added != []
    ensures (trace + added)[|trace + added| - 1] == added[|added| - 1]
  {
  }

  lemma {:induction false} WholeFollows(env: nat -> Attempt, signal: Option<Nanos>, n: nat, clock: Nanos, trace: seq<Event>)
    requires Ticks(env) && Follow(env, trace, n) && IsNow(env, trace, n, clock)
    ensures var w := After(trace, Whole(env, signal, n, clock));
            Follow(env, w.trace, Attempts(w.trace)) && EndsBy(env, signal, w)
    decreases PRE_RELAY_RECONNECT_WINDOW - clock
  {
    EstablishExactly(env(n));
    if clock >= PRE_RELAY_RECONNECT_WINDOW {
      assert trace + [] == trace;
      EstablishExactly(env(n - 1));
    } else {
      WholeStep(env, signal, n, clock, trace);
      FollowTurn(env, trace, n, clock, signal);
      var turned := Turn(env(n), n, clock, signal);
      if turned.ended.None? {
        WholeFollows(env, signal, n + 1, turned.later, trace + turned.added);
      } else {
        TurnEndsBy(env, signal, n, clock, trace);
      }
    }
  }

  /**
   Every event of a session is what the environment makes of it: verdict and duration of each attempt, the
   start of the next, each delay, what the relay reads and how it ends; and the session is refused, relayed,
   exhausted or shut down exactly by what happened at its last attempt.
   */
  lemma SessionFollowsEnvironment(env: nat -> Attempt, signal: Option<Nanos>)
    requires Ticks(env)
    ensures var w := Whole(env, signal, 0, 0);
            Follow(env, w.trace, Attempts(w.trace)) && EndsBy(env, signal, w)
  {
    WholeFollows(env, signal, 0, 0, []);
    AfterNothing(Whole(env, signal, 0, 0));
  }

  lemma CalmTurn(env: nat -> Attempt, n: nat, clock: Nanos)
    requires clock < PRE_RELAY_RECONNECT_WINDOW && Calm(env)
    ensures var turned := Turn(env(n), n, clock, None); var paused := AfterPause(env(n), n, clock);
            if paused >= PRE_RELAY_RECONNECT_WINDOW then turned.ended == Some(Exhausted)
            else turned.ended.None? && turned.later == paused
  {
    EstablishExactly(env(n));
  }

  lemma {:induction false} WholeInTime(env: nat -> Attempt, signal: Option<Nanos>, n: nat, clock: Nanos)
    requires Ticks(env) && ExactTimers(env) && clock < PRE_RELAY_RECONNECT_WINDOW
    ensures Whole(env, signal, n, clock).clock < PRE_RELAY_RECONNECT_WINDOW + TCP_CONNECT_TIMEOUT + TLS_HANDSHAKE_TIMEOUT
    decreases PRE_RELAY_RECONNECT_WINDOW - clock
  {
    var turned := Turn(env(n), n, clock, signal);
    EstablishTakes(env(n));
    if turned.ended.None? {
      WholeInTime(env, signal, n + 1, turned.later);
    }
  }

  lemma {:induction false} WholeTriesEnough(env: nat -> Attempt, n: nat, clock: Nanos, trace: seq<Event>)
    requires Ticks(env) && Calm(env) && clock < PRE_RELAY_RECONNECT_WINDOW && OnBudget(env, n, clock)
    requires Good(trace, None, n, 0) && Continues(trace)
    ensures var w := After(trace, Whole(env, None, n, clock));
            w.end == Exhausted && Attempts(w.trace) >= 4 && (Slowest(env) ==> Attempts(w.trace) == 4)
    decreases PRE_RELAY_RECONNECT_WINDOW - clock
  {
    WholeStep(env, None, n, clock, trace);
    TurnIsGood(env(n), n, clock, None, trace);
    TurnEnds(env(n), n, clock, None, trace);
    CalmTurn(env, n, clock);
    BudgetStep(env, n, clock);
    var turned := Turn(env(n), n, clock, None);
    if turned.ended.None? {
      WholeTriesEnough(env, n + 1, turned.later, trace + turned.added);
    }
  }

  /**
   Without a success, a rejection or a signal a session gives up only after at least four attempts,
   for every jitter and every duration of the attempts; when all take longest, after exactly four.
   */
  lemma FourAttemptsAtLeast(env: nat -> Attempt)
    requires Ticks(env) && Calm(env)
    ensures var w := Whole(env, None, 0, 0);
            w.end == Exhausted && Attempts(w.trace) >= 4 && (Slowest(env) ==> Attempts(w.trace) == 4)
  {
    FourAttemptsFit();
    WholeTriesEnough(env, 0, 0, []);
    AfterNothing(Whole(env, None, 0, 0));
  }

  // ----- the session as the program runs it

  /** The backoff after transient failure number `n`: how the session ends there, or that it goes on. */
  method Pause(backoff: ReconnectBackoff, a: Attempt, clock: Nanos, signal: Option<Nanos>, ghost n: nat)
    returns (end: Option<End>, slept: seq<Event>, later: Nanos)
    requires backoff.attempt == AttemptAfter(n) && clock < MAX_DURATION - MAX_RECONNECT_DELAY
    modifies backoff
    ensures backoff.attempt == AttemptAfter(n + 1)
    ensures var delay := Delay(AttemptAfter(n), a.jitter);
            if clock + delay >= PRE_RELAY_RECONNECT_WINDOW then end == Some(Exhausted) && slept == [] && later == clock
            else if Sleep(clock, delay, signal, a.prefersSleep).Some? then
              end == Some(ShutDown) && slept == [] && Some(later) == Sleep(clock, delay, signal, a.prefersSleep)
            else end.None? && slept == [Slept(clock, delay)] && later == clock + delay + a.late
  {
    var delay := backoff.NextDelayWith(a.jitter);
    DelayBounds(n, a.jitter);
    if SaturatingAdd(clock, delay) >= PRE_RELAY_RECONNECT_WINDOW {
      return Some(Exhausted), [], clock;
    }
    var woken := Sleep(clock, delay, signal, a.prefersSleep);
    if woken.Some? {
      return Some(ShutDown), [], woken.value;
    }
    return None, [Slept(clock, delay)], clock + delay + a.late;
  }

  /** One turn of the loop: an attempt, and the relay or the pause after it. */
  method Round(local: LocalStream, backoff: ReconnectBackoff, a: Attempt, clock: Nanos, signal: Option<Nanos>, ghost n: nat)
    returns (ended: Option<End>, added: seq<Event>, later: Nanos)
    requires clock < PRE_RELAY_RECONNECT_WINDOW && local.consumed == 0
    requires backoff.attempt == AttemptAfter(n)
    modifies local, backoff
    ensures Turned(ended, added, later) == Turn(a, n, clock, signal)
    ensures ended.None? ==> backoff.attempt == AttemptAfter(n + 1)
    ensures local.consumed == if HasRelayed(ended) then a.consumes else 0
  {
    var established := Establish(a);
    EstablishTakes(a);
    later := clock + established.takes;
    added := [Attempted(clock, later, established.result)];
    match established.result {
      case Established =>
        added := added + [Relayed(later, local.consumed, a.consumes, a.outcome)];
        local.Consume(a.consumes);
        // Ok, Interrupted and any other error are only logged; all three return
        ended := Some(RelayEnded(a.outcome));
      case Rejected =>
        ended := Some(Refused);
      case Transient =>
        var slept;
        ended, slept, later := Pause(backoff, a, later, signal, n);
        added := added + slept;
    }
  }

  /** The same, with what it adds to the trace: what is still ahead of the session stays what it was. */
  method Extend(local: LocalStream, backoff: ReconnectBackoff, env: nat -> Attempt, n: nat, clock: Nanos,
                signal: Option<Nanos>, trace: seq<Event>)
    returns (ended: Option<End>, longer: seq<Event>, later: Nanos)
    requires Ticks(env) && clock < PRE_RELAY_RECONNECT_WINDOW && local.consumed == 0 == Consumed(trace)
    requires backoff.attempt == AttemptAfter(n)
    modifies local, backoff
    ensures Ahead(env, signal, n, clock, trace, None) == Ahead(env, signal, n + 1, later, longer, ended)
    ensures later > clock
    ensures ended.None? ==> backoff.attempt == AttemptAfter(n + 1) && local.consumed == 0
    ensures local.consumed == Consumed(longer)
  {
    WholeStep(env, signal, n, clock, trace);
    TurnConsumes(env(n), n, clock, signal, trace);
    AttemptTakesTime(env(n));
    ended, longer, later := Round(local, backoff, env(n), clock, signal, n);
    longer := trace + longer;
  }

  /**
   `relay_session`.  `clock` is the time since `started`.  Every attempt takes at least one tick,
   which is what makes the loop end however short the jitter makes the sleeps.
   */
  method RelaySession(local: LocalStream, env: nat -> Attempt, signal: Option<Nanos>)
    returns (trace: seq<Event>, end: End, clock: Nanos)
    requires local.consumed == 0 && Ticks(env)
    modifies local
    ensures History(trace, end, clock) == Whole(env, signal, 0, 0)
    ensures local.consumed == Consumed(trace)
  {
    clock, trace := 0, [];
    var backoff := new ReconnectBackoff();
    var n := 0;
    var ended: Option<End> := None;
    ghost var whole := Whole(env, signal, 0, 0);
    AfterNothing(whole);
    while ended.None? && clock < PRE_RELAY_RECONNECT_WINDOW
      invariant fresh(backoff)
      invariant whole == Ahead(env, signal, n, clock, trace, ended)
      invariant ended.None? ==> backoff.attempt == AttemptAfter(n) && local.consumed == 0
      invariant local.consumed == Consumed(trace)
      decreases PRE_RELAY_RECONNECT_WINDOW - clock
    {
      ended, trace, clock := Extend(local, backoff, env, n, clock, signal, trace);
      n := n + 1;
    }
    assert trace + [] == trace;
    end := if ended.Some? then ended.value else Exhausted;
  }
}
