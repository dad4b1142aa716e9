/**
 The accept loops of src/client.rs and src/server.rs: permits, spawned sessions, the shutdown
 signal and the bounded drain.

 A session task is unfinished until it returns, panics or is dropped; its permit is released
 at that moment.  A finished task stays in the join set until it is reaped.
 */
module AcceptLoop {
  import opened Prelude
  import opened Watch

  const TASK_DRAIN_TIMEOUT: Nanos := 10 * SECOND
  const U64_COUNT: nat := 0x1_0000_0000_0000_0000

  // Handshakes, connects and the server's agent connection do not listen to the signal.
  // The sleep between two attempts and the relay do.
  datatype Stage = Connecting | Sleeping | Relaying

  datatype Fate = Returned | Panicked | Aborted

  datatype Task =
    | Active(stage: Stage, seen: nat, aborting: bool)
    | Finished(fate: Fate)

  datatype Phase =
    | Accepting
    | Draining(since: Nanos)
    | Stopped            // returned Ok
    | MonitorFailed      // returned the error of verify_or_rebind (client only)

  datatype Bridge = Bridge(
    maxConnections: nat,
    permits: nat,
    tasks: map<nat, Task>,   // the join set, keyed by the order of spawning
    spawned: nat,
    ids: seq<nat>,           // the session ids given out so far
    phase: Phase,
    seen: nat,               // by the loop's own receiver
    signal: Signal,
    now: Nanos)

  datatype Event =
    | Accept
    | AcceptError
    | SeeShutdown            // shutdown.changed() completes in the loop
    | MonitorError           // verify_or_rebind fails
    | Reap(task: nat)        // join_next
    | DrainOver              // the drain empties the join set or times out; abort_all; return
    | Advance(task: nat, stage: Stage)
    | Finish(task: nat, panics: bool)
    | Observe(task: nat)     // shutdown.changed() completes in a session
    | AbortLands(task: nat)
    | Send | DropSender
    | Tick(dt: nat)

  predicate IsUnfinished(b: Bridge, k: nat) {
    k in b.tasks && b.tasks[k].Active?
  }

  function Unfinished(b: Bridge): set<nat> {
    set k | k in b.tasks && b.tasks[k].Active?
  }

  /** Which stage may follow which: a session that relays never connects again. */
  predicate CanAdvance(from: Stage, to: Stage) {
    match from
    case Connecting => to == Sleeping || to == Relaying
    case Sleeping => to == Connecting
    case Relaying => false
  }

  predicate Enabled(b: Bridge, e: Event) {
    match e
    case Accept => b.phase == Accepting
    case AcceptError => b.phase == Accepting
    case SeeShutdown => b.phase == Accepting && Ready(b.signal, b.seen)
    case MonitorError => b.phase == Accepting
    case Reap(k) => (b.phase == Accepting || b.phase.Draining?) && k in b.tasks && b.tasks[k].Finished?
    case DrainOver => b.phase.Draining? && (b.tasks == map[] || b.now >= b.phase.since + TASK_DRAIN_TIMEOUT)
    case Advance(k, stage) => IsUnfinished(b, k) && CanAdvance(b.tasks[k].stage, stage)
    case Finish(k, _) => IsUnfinished(b, k)
    case Observe(k) => IsUnfinished(b, k) && b.tasks[k].stage != Connecting && Ready(b.signal, b.tasks[k].seen)
    case AbortLands(k) => IsUnfinished(b, k) && b.tasks[k].aborting
    case Send => !b.signal.closed
    case DropSender => true
    // the timer of the drain fires on time
    case Tick(dt) => b.phase.Draining? ==> b.now + dt <= b.phase.since + TASK_DRAIN_TIMEOUT
  }

  function Abort(t: Task): Task {
    if t.Active? then t.(aborting := true) else t
  }

  function AbortAll(tasks: map<nat, Task>): map<nat, Task> {
    map k | k in tasks :: Abort(tasks[k])
  }

  function End(b: Bridge, k: nat, fate: Fate): Bridge {
    b.(tasks := b.tasks[k := Finished(fate)], permits := b.permits + 1)
  }

  /** `AtomicU64::fetch_add(1)` on a counter that starts at one. */
  function SessionId(spawned: nat): nat {
    (1 + spawned) % U64_COUNT
  }

  function Spawn(b: Bridge): Bridge {
    if b.permits == 0 then b
    else b.(permits := b.permits - 1,
            tasks := b.tasks[b.spawned := Active(Connecting, b.seen, false)],
            spawned := b.spawned + 1,
            ids := b.ids + [SessionId(b.spawned)])
  }

  function Apply(b: Bridge, e: Event): Bridge
    requires Enabled(b, e)
  {
    match e
    case Accept => Spawn(b)
    case AcceptError => b
    case SeeShutdown => b.(phase := Draining(b.now), seen := b.signal.version)
    case MonitorError => b.(phase := MonitorFailed, tasks := AbortAll(b.tasks))
    case Reap(k) => b.(tasks := b.tasks - {k})
    case DrainOver => b.(phase := Stopped, tasks := AbortAll(b.tasks))
    case Advance(k, stage) => b.(tasks := b.tasks[k := b.tasks[k].(stage := stage)])
    case Finish(k, panics) => End(b, k, if panics then Panicked else Returned)
    case Observe(k) => End(b, k, Returned)
    case AbortLands(k) => End(b, k, Aborted)
    case Send => b.(signal := b.signal.(version := b.signal.version + 1))
    case DropSender => b.(signal := b.signal.(closed := true))
    case Tick(dt) => b.(now := b.now + dt)
  }

  predicate Initial(b: Bridge) {
    && 0 < b.maxConnections == b.permits
    && b.tasks == map[] && b.spawned == 0 && b.ids == []
    && b.phase == Accepting && b.seen == b.signal.version && !b.signal.closed
  }

  // ----- what every step keeps

  /** `first` is the version at the start, before any send. */
  ghost predicate Inv(b: Bridge, first: nat) {
    && b.permits + |Unfinished(b)| == b.maxConnections
    && first <= b.signal.version
    && (b.phase == Accepting ==> b.seen == first)
    && (forall k :: k in b.tasks && b.tasks[k].Active? ==> b.tasks[k].seen == first)
    && (forall k :: k in b.tasks ==> k < b.spawned)
    && (b.phase.Draining? ==> Ready(b.signal, first) && b.phase.since <= b.now <= b.phase.since + TASK_DRAIN_TIMEOUT)
    && (b.phase == Stopped || b.phase == MonitorFailed ==>
          forall k :: k in b.tasks && b.tasks[k].Active? ==> b.tasks[k].aborting)
    && (forall k :: k in b.tasks && b.tasks[k].Active? && b.tasks[k].aborting ==>
          b.phase == Stopped || b.phase == MonitorFailed)
    && |b.ids| == b.spawned
    && (forall j :: 0 <= j < |b.ids| ==> b.ids[j] == SessionId(j))
  }

  lemma SpawnKeepsPermits(b: Bridge)
    requires forall k :: k in b.tasks ==> k < b.spawned
    ensures Spawn(b).permits + |Unfinished(Spawn(b))| == b.permits + |Unfinished(b)|
  {
    if b.permits > 0 {
      assert Unfinished(Spawn(b)) == Unfinished(b) + {b.spawned};
    }
  }

  lemma EndKeepsPermits(b: Bridge, k: nat, fate: Fate)
    requires IsUnfinished(b, k)
    ensures End(b, k, fate).permits + |Unfinished(End(b, k, fate))| == b.permits + |Unfinished(b)|
  {
    assert Unfinished(b) == Unfinished(End(b, k, fate)) + {k};
  }

  lemma StepKeepsPermits(b: Bridge, e: Event)
    requires Enabled(b, e) && (forall k :: k in b.tasks ==> k < b.spawned)
    ensures Apply(b, e).permits + |Unfinished(Apply(b, e))| == b.permits + |Unfinished(b)|
    ensures Apply(b, e).maxConnections == b.maxConnections
  {
    match e {
      case Accept => SpawnKeepsPermits(b);
      case Finish(k, panics) => EndKeepsPermits(b, k, if panics then Panicked else Returned);
      case Observe(k) => EndKeepsPermits(b, k, Returned);
      case AbortLands(k) => EndKeepsPermits(b, k, Aborted);
      case _ => assert Unfinished(Apply(b, e)) == Unfinished(b);
    }
  }

  lemma StepKeepsInv(b: Bridge, e: Event, first: nat)
    requires Inv(b, first) && Enabled(b, e)
    ensures Inv(Apply(b, e), first)
  {
    StepKeepsPermits(b, e);
  }

  ghost predicate Run(bridges: seq<Bridge>, events: seq<Event>) {
    && |bridges| == |events| + 1
    && Initial(bridges[0])
    && (forall k :: 0 <= k < |events| ==> Enabled(bridges[k], events[k]) && bridges[k + 1] == Apply(bridges[k], events[k]))
  }

  lemma {:induction false} ReachableInv(bridges: seq<Bridge>, events: seq<Event>, k: nat)
    requires Run(bridges, events) && k < |bridges|
    ensures Inv(bridges[k], bridges[0].seen)
  {
    if k > 0 {
      ReachableInv(bridges, events, k - 1);
      StepKeepsInv(bridges[k - 1], events[k - 1], bridges[0].seen);
    }
  }

  // ----- permits and ids

  /** Available permits and unfinished sessions always add up to the limit, whatever panics or is aborted. */
  lemma {:induction false} PermitsConserved(bridges: seq<Bridge>, events: seq<Event>, k: nat)
    requires Run(bridges, events) && k < |bridges|
    ensures bridges[k].permits + |Unfinished(bridges[k])| == bridges[0].maxConnections
  {
    ReachableInv(bridges, events, k);
    if k > 0 {
      PermitsConserved(bridges, events, k - 1);
      ReachableInv(bridges, events, k - 1);
      StepKeepsPermits(bridges[k - 1], events[k - 1]);
    }
  }

  /** An accepted connection is rejected exactly when as many sessions as allowed are unfinished. */
  lemma RejectedOnlyWhenFull(bridges: seq<Bridge>, events: seq<Event>, k: nat)
    requires Run(bridges, events) && k < |events| && events[k] == Accept
    ensures bridges[k + 1].spawned == bridges[k].spawned <==> |Unfinished(bridges[k])| == bridges[0].maxConnections
  {
    PermitsConserved(bridges, events, k);
  }

  /** Session ids never repeat until the 64-bit counter has gone all the way round, and increase until it wraps. */
  lemma IdsDistinctExactly(bridges: seq<Bridge>, events: seq<Event>, k: nat)
    requires Run(bridges, events) && k < |bridges|
    ensures var ids := bridges[k].ids;
            && ((forall i, j :: 0 <= i < j < |ids| ==> ids[i] != ids[j]) <==> bridges[k].spawned <= U64_COUNT)
            && ((forall i, j :: 0 <= i < j < |ids| ==> ids[i] < ids[j]) <==> bridges[k].spawned < U64_COUNT)
  {
    ReachableInv(bridges, events, k);
    var ids := bridges[k].ids;
    forall i | 0 <= i < |ids| && i < U64_COUNT
      ensures ids[i] == if i == U64_COUNT - 1 then 0 else i + 1
    {
      assert ids[i] == SessionId(i);
    }
    if |ids| > U64_COUNT {
      assert ids[U64_COUNT] == SessionId(U64_COUNT) == SessionId(0) == ids[0];
    }
    if |ids| == U64_COUNT {
      assert ids[0] == 1 && ids[U64_COUNT - 1] == 0;
    }
  }

  // ----- shutdown

  /** Once the signal is sent or its sender is gone, `changed()` is ready for every unfinished session, to its end. */
  lemma NoSessionMissesShutdown(bridges: seq<Bridge>, events: seq<Event>, k: nat, task: nat)
    requires Run(bridges, events) && k < |bridges|
    requires IsUnfinished(bridges[k], task)
    requires Ready(bridges[k].signal, bridges[0].seen)
    ensures Ready(bridges[k].signal, bridges[k].tasks[task].seen)
    ensures bridges[k].tasks[task].stage != Connecting ==> Enabled(bridges[k], Observe(task))
  {
    ReachableInv(bridges, events, k);
  }

  /** The signal stays on: it is ready from the send onwards. */
  lemma {:induction false} SignalStays(bridges: seq<Bridge>, events: seq<Event>, j: nat, k: nat)
    requires Run(bridges, events) && j <= k < |bridges|
    requires Ready(bridges[j].signal, bridges[0].seen)
    ensures Ready(bridges[k].signal, bridges[0].seen)
  {
    if j < k {
      SignalStays(bridges, events, j, k - 1);
      ReachableInv(bridges, events, k - 1);
    }
  }

  /** After the loop has stopped accepting, no session is ever spawned again. */
  lemma {:induction false} NothingSpawnedAfterwards(bridges: seq<Bridge>, events: seq<Event>, j: nat, k: nat)
    requires Run(bridges, events) && j <= k < |bridges|
    requires bridges[j].phase != Accepting
    ensures bridges[k].phase != Accepting
    ensures bridges[k].spawned == bridges[j].spawned && bridges[k].ids == bridges[j].ids
    ensures forall task :: IsUnfinished(bridges[k], task) ==> IsUnfinished(bridges[j], task)
  {
    if j < k {
      NothingSpawnedAfterwards(bridges, events, j, k - 1);
    }
  }

  /** The drain is over within its ten seconds, and whatever is then unfinished has been told to abort. */
  lemma DrainBounded(bridges: seq<Bridge>, events: seq<Event>, k: nat)
    requires Run(bridges, events) && k < |bridges|
    ensures bridges[k].phase.Draining? ==> bridges[k].now <= bridges[k].phase.since + TASK_DRAIN_TIMEOUT
    ensures bridges[k].phase == Stopped || bridges[k].phase == MonitorFailed ==>
              forall task :: IsUnfinished(bridges[k], task) ==> Enabled(bridges[k], AbortLands(task))
    ensures bridges[k].phase.Draining? && Enabled(bridges[k], DrainOver) ==>
              bridges[k].tasks == map[] || bridges[k].now == bridges[k].phase.since + TASK_DRAIN_TIMEOUT
    ensures bridges[k].phase.Draining? ==> Enabled(bridges[k], DrainOver) || Enabled(bridges[k], Tick(1))
  {
    ReachableInv(bridges, events, k);
  }

  // ----- what each event does, and that nothing else does it

  /** The signal is ready exactly from the first send, or the loss of the sender, on. */
  lemma {:induction false} SignalExactly(bridges: seq<Bridge>, events: seq<Event>, k: nat)
    requires Run(bridges, events) && k < |bridges|
    ensures Ready(bridges[k].signal, bridges[0].seen) <==> exists j :: 0 <= j < k && (events[j] == Send || events[j] == DropSender)
    ensures bridges[k].signal.version >= bridges[0].seen
  {
    if k > 0 {
      SignalExactly(bridges, events, k - 1);
      if events[k - 1] == Send || events[k - 1] == DropSender {
        assert bridges[k].signal.closed || bridges[k].signal.version > bridges[k - 1].signal.version;
      } else {
        assert bridges[k].signal == bridges[k - 1].signal;
      }
    }
  }

  /** The loop stops accepting exactly when it sees the signal or its monitor fails: a failed accept does not end it. */
  lemma LeavesAcceptingExactly(bridges: seq<Bridge>, events: seq<Event>, k: nat)
    requires Run(bridges, events) && k < |events| && bridges[k].phase == Accepting
    ensures bridges[k + 1].phase.Draining? <==> events[k] == SeeShutdown
    ensures bridges[k + 1].phase == MonitorFailed <==> events[k] == MonitorError
    ensures bridges[k + 1].phase == Accepting <==> events[k] != SeeShutdown && events[k] != MonitorError
    ensures events[k] == AcceptError ==> bridges[k + 1] == bridges[k]
    ensures events[k] == SeeShutdown ==> bridges[k + 1].seen == bridges[k].signal.version == bridges[k + 1].signal.version
  {
  }

  /** It can see the signal exactly from the first send, or the loss of the sender, on. */
  lemma SeesShutdownExactly(bridges: seq<Bridge>, events: seq<Event>, k: nat)
    requires Run(bridges, events) && k < |bridges| && bridges[k].phase == Accepting
    ensures Enabled(bridges[k], SeeShutdown) <==> exists j :: 0 <= j < k && (events[j] == Send || events[j] == DropSender)
  {
    ReachableInv(bridges, events, k);
    SignalExactly(bridges, events, k);
  }

  /** A session joins exactly by an accept with a permit left, and then is about to connect. */
  lemma JoinsExactly(bridges: seq<Bridge>, events: seq<Event>, k: nat, task: nat)
    requires Run(bridges, events) && k < |events| && task !in bridges[k].tasks
    ensures task in bridges[k + 1].tasks <==> events[k] == Accept && bridges[k].permits > 0 && task == bridges[k].spawned
    ensures task in bridges[k + 1].tasks ==> bridges[k + 1].tasks[task] == Active(Connecting, bridges[0].seen, false)
  {
    ReachableInv(bridges, events, k);
  }

  /** It leaves exactly by being reaped, after it has finished. */
  lemma LeavesExactly(bridges: seq<Bridge>, events: seq<Event>, k: nat, task: nat)
    requires Run(bridges, events) && k < |events| && task in bridges[k].tasks
    ensures task !in bridges[k + 1].tasks <==> events[k] == Reap(task)
    ensures events[k] == Reap(task) ==> bridges[k].tasks[task].Finished?
  {
    ReachableInv(bridges, events, k);
  }

  /** How an unfinished session goes on, and by what event exactly. */
  lemma SessionsFollow(bridges: seq<Bridge>, events: seq<Event>, k: nat, task: nat)
    requires Run(bridges, events) && k < |events| && IsUnfinished(bridges[k], task)
    ensures task in bridges[k + 1].tasks
    ensures var (t, after, e) := (bridges[k].tasks[task], bridges[k + 1].tasks[task], events[k]);
            && (after == Finished(Panicked) <==> e == Finish(task, true))
            && (after == Finished(Returned) <==> e == Finish(task, false) || e == Observe(task))
            && (after == Finished(Aborted) <==> e == AbortLands(task))
            && (after.Active? ==>
                  && after.seen == t.seen
                  && after.stage == (if e.Advance? && e.task == task then e.stage else t.stage)
                  && (after.aborting <==> t.aborting || e == DrainOver || e == MonitorError))
  {
    ReachableInv(bridges, events, k);
  }

  /** Between its end and its start a session connects, sleeps and connects again, or relays. */
  lemma StagesExactly(b: Bridge, task: nat, stage: Stage)
    requires IsUnfinished(b, task)
    ensures Enabled(b, Advance(task, stage)) <==>
              (b.tasks[task].stage, stage) in {(Connecting, Sleeping), (Connecting, Relaying), (Sleeping, Connecting)}
  {
  }

  /** A finished session stays what it is until it is reaped. */
  lemma FinishedStays(bridges: seq<Bridge>, events: seq<Event>, k: nat, task: nat)
    requires Run(bridges, events) && k < |events| && task in bridges[k].tasks && bridges[k].tasks[task].Finished?
    ensures task in bridges[k + 1].tasks ==> bridges[k + 1].tasks[task] == bridges[k].tasks[task]
  {
    ReachableInv(bridges, events, k);
  }

  /** A session that relays never connects again: it relays until it ends. */
  lemma {:induction false} RelaysToTheEnd(bridges: seq<Bridge>, events: seq<Event>, j: nat, k: nat, task: nat)
    requires Run(bridges, events) && j <= k < |bridges|
    requires IsUnfinished(bridges[j], task) && bridges[j].tasks[task].stage == Relaying
    ensures task < bridges[j].spawned <= bridges[k].spawned
    ensures IsUnfinished(bridges[k], task) ==> bridges[k].tasks[task].stage == Relaying
  {
    ReachableInv(bridges, events, j);
    if j < k {
      RelaysToTheEnd(bridges, events, j, k - 1, task);
      if IsUnfinished(bridges[k - 1], task) {
        SessionsFollow(bridges, events, k - 1, task);
      } else if task in bridges[k - 1].tasks {
        FinishedStays(bridges, events, k - 1, task);
      } else {
        JoinsExactly(bridges, events, k - 1, task);
      }
    }
  }

  // ----- how the drain ends

  predicate IsOver(b: Bridge) {
    b.phase == Stopped || b.phase == MonitorFailed
  }

  /** The session had finished when the loop took it out of the join set. */
  ghost predicate WasReaped(bridges: seq<Bridge>, events: seq<Event>, task: nat, k: nat)
    requires |bridges| == |events| + 1 && k <= |events|
  {
    exists j :: 0 <= j < k && events[j] == Reap(task) && task in bridges[j].tasks && bridges[j].tasks[task].Finished?
  }

  lemma {:induction false} GoneWasReaped(bridges: seq<Bridge>, events: seq<Event>, task: nat, k: nat)
    requires Run(bridges, events) && k < |bridges|
    requires task < bridges[k].spawned && task !in bridges[k].tasks
    ensures WasReaped(bridges, events, task, k)
  {
    assert k > 0;
    if task in bridges[k - 1].tasks {
      assert events[k - 1] == Reap(task);
    } else {
      GoneWasReaped(bridges, events, task, k - 1);
    }
  }

  lemma {:induction false} DrainingSince(bridges: seq<Bridge>, events: seq<Event>, j: nat, k: nat)
    requires Run(bridges, events) && j < k < |bridges| && events[j] == SeeShutdown
    ensures bridges[k].phase == Draining(bridges[j].now) || bridges[k].phase == Stopped
  {
    if j + 1 < k {
      DrainingSince(bridges, events, j, k - 1);
    }
  }

  /**
   The loop returns when every session that was ever spawned has finished, with all permits back,
   or ten seconds after it saw the signal, not earlier and not later.
   */
  lemma DrainEndsOnTime(bridges: seq<Bridge>, events: seq<Event>, j: nat, k: nat)
    requires Run(bridges, events) && j < k < |events| && events[j] == SeeShutdown && events[k] == DrainOver
    ensures (&& bridges[k].permits == bridges[0].maxConnections
             && forall task :: 0 <= task < bridges[k].spawned ==> WasReaped(bridges, events, task, k))
            || bridges[k].now == bridges[j].now + TASK_DRAIN_TIMEOUT
  {
    DrainingSince(bridges, events, j, k);
    ReachableInv(bridges, events, k);
    if bridges[k].tasks == map[] {
      PermitsConserved(bridges, events, k);
      assert Unfinished(bridges[k]) == {};
      forall task | 0 <= task < bridges[k].spawned
        ensures WasReaped(bridges, events, task, k)
      {
        GoneWasReaped(bridges, events, task, k);
      }
    }
  }

  /** A step towards the end of the drain: a session ends or is reaped, time passes, or the drain is over. */
  predicate IsDrainStep(e: Event) {
    e.Reap? || e.Finish? || e.Observe? || e.AbortLands? || e.DrainOver? || (e.Tick? && e.dt > 0)
  }

  function DrainSteps(events: seq<Event>): nat {
    if events == [] then 0
    else DrainSteps(events[..|events| - 1]) + (if IsDrainStep(events[|events| - 1]) then 1 else 0)
  }

  lemma DrainStepsAppend(events: seq<Event>, j: nat, k: nat)
    requires j < k <= |events|
    ensures DrainSteps(events[j..k]) == DrainSteps(events[j..k - 1]) + (if IsDrainStep(events[k - 1]) then 1 else 0)
  {
    assert events[j..k][..k - 1 - j] == events[j..k - 1];
  }

  /** What the drain has left: tasks to reap, sessions to end, time, and the return. */
  function DrainLeft(b: Bridge): int
    requires b.phase.Draining?
  {
    |b.tasks.Keys| + |Unfinished(b)| + (b.phase.since + TASK_DRAIN_TIMEOUT - b.now) + 1
  }

  lemma StepKeys(b: Bridge, e: Event)
    requires b.phase.Draining? && Enabled(b, e)
    ensures |Apply(b, e).tasks.Keys| == |b.tasks.Keys| - (if e.Reap? then 1 else 0)
  {
    if e.Reap? {
      assert b.tasks.Keys == Apply(b, e).tasks.Keys + {e.task};
    } else {
      assert Apply(b, e).tasks.Keys == b.tasks.Keys;
    }
  }

  lemma StepDrains(b: Bridge, e: Event, first: nat)
    requires Inv(b, first) && b.phase.Draining? && Enabled(b, e) && Apply(b, e).phase.Draining?
    ensures DrainLeft(Apply(b, e)) + (if IsDrainStep(e) then 1 else 0) <= DrainLeft(b)
  {
    StepKeepsPermits(b, e);
    StepKeys(b, e);
  }

  lemma {:induction false} DrainCounts(bridges: seq<Bridge>, events: seq<Event>, j: nat, k: nat)
    requires Run(bridges, events) && j <= k < |bridges| && bridges[j].phase.Draining? && bridges[k].phase.Draining?
    ensures DrainSteps(events[j..k]) + DrainLeft(bridges[k]) <= DrainLeft(bridges[j])
  {
    if j < k {
      NothingSpawnedAfterwards(bridges, events, j, k - 1);
      DrainCounts(bridges, events, j, k - 1);
      ReachableInv(bridges, events, k - 1);
      StepDrains(bridges[k - 1], events[k - 1], bridges[0].seen);
      DrainStepsAppend(events, j, k);
    }
  }

  lemma {:induction false} DrainingOrStopped(bridges: seq<Bridge>, events: seq<Event>, j: nat, k: nat)
    requires Run(bridges, events) && j <= k < |bridges| && bridges[j].phase.Draining?
    ensures bridges[k].phase.Draining? || bridges[k].phase == Stopped
  {
    if j < k {
      DrainingOrStopped(bridges, events, j, k - 1);
    }
  }

  /**
   Every schedule ends the drain: after as many drain steps as there are tasks, sessions and
   nanoseconds left the loop has returned, and before that one more is always possible.
   */
  lemma DrainTerminates(bridges: seq<Bridge>, events: seq<Event>, j: nat, k: nat)
    requires Run(bridges, events) && j <= k < |bridges| && bridges[j].phase.Draining?
    ensures DrainSteps(events[j..k]) >= DrainLeft(bridges[j]) ==> bridges[k].phase == Stopped
    ensures bridges[k].phase == Stopped || exists e :: IsDrainStep(e) && Enabled(bridges[k], e)
  {
    DrainingOrStopped(bridges, events, j, k);
    ReachableInv(bridges, events, k);
    if bridges[k].phase.Draining? {
      DrainCounts(bridges, events, j, k);
      var e := if bridges[k].now < bridges[k].phase.since + TASK_DRAIN_TIMEOUT then Tick(1) else DrainOver;
      assert IsDrainStep(e) && Enabled(bridges[k], e);
    }
  }

  /** The drain need not wait: once every session has finished, reaping them all lets the loop return at that very moment. */
  lemma {:induction false} EndsOnceAllFinished(b: Bridge) returns (schedule: seq<Event>)
    requires b.phase.Draining? && Unfinished(b) == {}
    ensures Played(b, schedule).phase == Stopped && Played(b, schedule).now == b.now
    ensures forall k :: 0 <= k < |schedule| ==> schedule[k].Reap? || schedule[k] == DrainOver
    decreases |b.tasks.Keys|
  {
    if b.tasks == map[] {
      schedule := [DrainOver];
      PlayedFirst(b, DrainOver, []);
    } else {
      var task :| task in b.tasks;
      assert task !in Unfinished(b);
      var after := Apply(b, Reap(task));
      assert Unfinished(after) == {};
      StepKeys(b, Reap(task));
      var rest := EndsOnceAllFinished(after);
      schedule := [Reap(task)] + rest;
      PlayedFirst(b, Reap(task), rest);
    }
  }

  lemma {:induction false} PlayedFirst(b: Bridge, e: Event, rest: seq<Event>)
    requires Enabled(b, e)
    ensures Played(b, [e] + rest) == Played(Apply(b, e), rest)
  {
    if rest == [] {
      assert [e] + rest == [e] && [e][..0] == [];
    } else {
      var last := |rest| - 1;
      PlayedFirst(b, e, rest[..last]);
      assert ([e] + rest)[..last + 1] == [e] + rest[..last];
    }
  }

  predicate IsEnding(e: Event) {
    e.Finish? || e.Observe? || e.AbortLands?
  }

  function Endings(events: seq<Event>): nat {
    if events == [] then 0
    else Endings(events[..|events| - 1]) + (if IsEnding(events[|events| - 1]) then 1 else 0)
  }

  lemma EndingsAppend(events: seq<Event>, j: nat, k: nat)
    requires j < k <= |events|
    ensures Endings(events[j..k]) == Endings(events[j..k - 1]) + (if IsEnding(events[k - 1]) then 1 else 0)
  {
    assert events[j..k][..k - 1 - j] == events[j..k - 1];
  }

  lemma StepAfterwards(b: Bridge, e: Event, first: nat)
    requires Inv(b, first) && IsOver(b) && Enabled(b, e)
    ensures IsOver(Apply(b, e))
    ensures |Unfinished(Apply(b, e))| + (if IsEnding(e) then 1 else 0) == |Unfinished(b)|
  {
    StepKeepsPermits(b, e);
  }

  lemma {:induction false} EndingsCount(bridges: seq<Bridge>, events: seq<Event>, j: nat, k: nat)
    requires Run(bridges, events) && j <= k < |bridges| && IsOver(bridges[j])
    ensures IsOver(bridges[k]) && Endings(events[j..k]) + |Unfinished(bridges[k])| == |Unfinished(bridges[j])|
  {
    if j < k {
      EndingsCount(bridges, events, j, k - 1);
      ReachableInv(bridges, events, k - 1);
      StepAfterwards(bridges[k - 1], events[k - 1], bridges[0].seen);
      EndingsAppend(events, j, k);
    }
  }

  /**
   After the loop has returned, with Ok or with the monitor's error, each session that ends gives back
   one permit, no more end than were left, each one left can be aborted, and when none can all
   permits are back.
   */
  lemma PermitsReturn(bridges: seq<Bridge>, events: seq<Event>, j: nat, k: nat)
    requires Run(bridges, events) && j <= k < |bridges| && IsOver(bridges[j])
    ensures bridges[k].permits == bridges[j].permits + Endings(events[j..k])
    ensures Endings(events[j..k]) <= |Unfinished(bridges[j])|
    ensures forall task :: IsUnfinished(bridges[k], task) ==> Enabled(bridges[k], AbortLands(task))
    ensures (forall task :: !Enabled(bridges[k], AbortLands(task))) ==> bridges[k].permits == bridges[0].maxConnections
  {
    EndingsCount(bridges, events, j, k);
    PermitsConserved(bridges, events, j);
    PermitsConserved(bridges, events, k);
    DrainBounded(bridges, events, k);
    NoneLeft(bridges[k]);
  }

  lemma NoneLeft(b: Bridge)
    requires forall task :: IsUnfinished(b, task) ==> Enabled(b, AbortLands(task))
    ensures (forall task :: !Enabled(b, AbortLands(task))) <==> Unfinished(b) == {}
  {
    assert forall task :: task in Unfinished(b) <==> IsUnfinished(b, task);
  }

  /** The loop after a schedule; what is not possible when its turn comes is passed over. */
  function Played(b: Bridge, schedule: seq<Event>): Bridge {
    if schedule == [] then b
    else
      var before := Played(b, schedule[..|schedule| - 1]);
      var e := schedule[|schedule| - 1];
      if Enabled(before, e) then Apply(before, e) else before
  }

  /** Under any schedule the permits add up and ids are in order, and the loop has stopped only after a signal. */
  lemma {:induction false} PlayedKeepsInv(b: Bridge, schedule: seq<Event>)
    requires Initial(b)
    ensures var r := Played(b, schedule);
            && Inv(r, b.seen) && r.maxConnections == b.maxConnections
            && (r.phase == Stopped ==> Ready(r.signal, b.seen))
  {
    if schedule != [] {
      var earlier := schedule[..|schedule| - 1];
      PlayedKeepsInv(b, earlier);
      var before := Played(b, earlier);
      if Enabled(before, schedule[|schedule| - 1]) {
        StepKeepsInv(before, schedule[|schedule| - 1], b.seen);
      }
    }
  }

  // ----- the loop as the program runs it

  class Listener {
    const maxConnections: nat
    var permits: nat
    var tasks: map<nat, Task>
    var sessionIds: nat        // the 64-bit counter
    var spawned: nat
    var ids: seq<nat>
    var phase: Phase
    var seen: nat
    var signal: Signal
    var now: Nanos

    ghost function State(): Bridge
      reads this
    {
      Bridge(maxConnections, permits, tasks, spawned, ids, phase, seen, signal, now)
    }

    ghost predicate Valid()
      reads this
    {
      sessionIds == SessionId(spawned)
    }

    constructor (maxConnections: nat, version: nat, now: Nanos)
      requires maxConnections > 0
      ensures Valid() && Initial(State()) && seen == version && this.maxConnections == maxConnections && this.now == now
    {
      this.maxConnections, permits := maxConnections, maxConnections;
      tasks, spawned, ids, sessionIds := map[], 0, [], 1;
      phase, seen, signal := Accepting, version, Signal(version, false);
      this.now := now;
    }

    method OnAccept() returns (rejected: bool)
      requires Valid() && phase == Accepting
      modifies this
      ensures Valid() && State() == Apply(old(State()), Accept)
      ensures rejected == (old(permits) == 0)
    {
      if permits == 0 {
        return true;
      }
      permits := permits - 1;
      ids := ids + [sessionIds];
      sessionIds := (sessionIds + 1) % U64_COUNT;
      tasks := tasks[spawned := Active(Connecting, seen, false)];
      spawned := spawned + 1;
      return false;
    }

    method AbortEverything()
      requires Valid()
      modifies this`tasks
      ensures Valid() && tasks == AbortAll(old(tasks))
    {
      tasks := map k | k in tasks :: if tasks[k].Active? then tasks[k].(aborting := true) else tasks[k];
    }

    method EndTask(k: nat, fate: Fate)
      requires Valid() && k in tasks && tasks[k].Active?
      modifies this`tasks, this`permits
      ensures Valid() && State() == End(old(State()), k, fate)
    {
      tasks := tasks[k := Finished(fate)];
      permits := permits + 1;
    }

    /** One turn: a branch of the select, a step of the drain, or an event outside the loop. */
    method Turn(e: Event)
      requires Valid() && Enabled(State(), e)
      modifies this
      ensures Valid() && State() == Apply(old(State()), e)
    {
      match e {
        case Accept => var _ := OnAccept();
        case AcceptError =>
        case SeeShutdown => seen, phase := signal.version, Draining(now);
        case MonitorError =>
          phase := MonitorFailed;
          AbortEverything();
        case Reap(k) => tasks := tasks - {k};
        case DrainOver =>
          AbortEverything();
          phase := Stopped;
        case Advance(k, stage) => tasks := tasks[k := tasks[k].(stage := stage)];
        case Finish(k, panics) => EndTask(k, if panics then Panicked else Returned);
        case Observe(k) => EndTask(k, Returned);
        case AbortLands(k) => EndTask(k, Aborted);
        case Send => signal := signal.(version := signal.version + 1);
        case DropSender => signal := signal.(closed := true);
        case Tick(dt) => now := now + dt;
      }
    }

    /** Runs against any schedule. */
    method RunUntil(schedule: seq<Event>)
      requires Valid() && Initial(State())
      modifies this
      ensures Valid() && State() == Played(old(State()), schedule)
      ensures permits + |Unfinished(State())| == maxConnections
      ensures Ready(signal, old(seen)) ==> forall k :: IsUnfinished(State(), k) ==> Ready(signal, tasks[k].seen)
      ensures phase == Stopped ==> Ready(signal, old(seen))
    {
      var i := 0;
      while i < |schedule|
        invariant i <= |schedule|
        invariant Valid() && State() == Played(old(State()), schedule[..i])
      {
        if CanTurn(schedule[i]) {
          Turn(schedule[i]);
        }
        i := i + 1;
        assert schedule[..i][..i - 1] == schedule[..i - 1];
      }
      assert schedule[..i] == schedule;
      PlayedKeepsInv(old(State()), schedule);
    }

    predicate CanTurn(e: Event)
      reads this
    {
      Enabled(Bridge(maxConnections, permits, tasks, spawned, ids, phase, seen, signal, now), e)
    }
  }
}
