/**
 The certificate-renewal service of src/windows_renewal_service.rs: a stop channel that races
 the renewal script's process.

 Stops may be queued, and the child may exit, between any two of the service's own calls.
 `try_wait` and `kill` may fail; what that breaks, and that nothing else breaks it, is proved.
 */
module RenewalService {
  import opened Prelude

  datatype Point =
    | Starting   // about to run a renewal
    | Checking   // about to call try_wait
    | Polling    // in the 250 ms recv_timeout
    | Resting    // in the recv_timeout between two renewals
    | Leaving    // out of the loop
    | Stopped    // has reported Stopped

  datatype Service = Service(
    at: Point,
    queue: nat,              // stops in the channel
    disconnected: bool,
    sent: nat,               // stops ever queued
    alive: set<nat>,         // live children, by the order of spawning
    spawned: nat,
    handle: Option<nat>)     // the child that is being waited for

  datatype Step =
    | Spawn(ok: bool)
    | TryWait(fails: bool)
    | PollTimeout
    | TakeStop(killFails: bool)   // during a renewal: kill the child and leave
    | RestTimeout
    | TakeStopAtRest
    | Report
    | Stop                        // SCM queues a stop
    | Disconnect
    | Exit(child: nat)            // a child ends by itself

  predicate StopPending(s: Service) {
    s.queue > 0 || s.disconnected
  }

  predicate Enabled(s: Service, step: Step) {
    match step
    case Spawn(_) => s.at == Starting
    case TryWait(_) => s.at == Checking && s.handle.Some?
    case PollTimeout => s.at == Polling && !StopPending(s)
    case TakeStop(_) => s.at == Polling && StopPending(s) && s.handle.Some?
    case RestTimeout => s.at == Resting && !StopPending(s)
    case TakeStopAtRest => s.at == Resting && StopPending(s)
    case Report => s.at == Leaving
    case Stop => !s.disconnected
    case Disconnect => true
    case Exit(child) => child in s.alive
  }

  function Take(s: Service): Service {
    s.(queue := if s.queue > 0 then s.queue - 1 else 0)
  }

  function Apply(s: Service, step: Step): Service
    requires Enabled(s, step)
  {
    match step
    case Spawn(ok) =>
      if ok then s.(at := Checking, alive := s.alive + {s.spawned}, handle := Some(s.spawned), spawned := s.spawned + 1)
      else s.(at := Resting)
    case TryWait(fails) =>
      // an error is returned at once and the handle dropped, which does not end the child
      if fails || s.handle.value !in s.alive then s.(at := Resting, handle := None) else s.(at := Polling)
    case PollTimeout => s.(at := Checking)
    case TakeStop(killFails) =>
      if killFails then Take(s).(at := Resting, handle := None)
      else Take(s).(at := Leaving, alive := s.alive - {s.handle.value}, handle := None)
    case RestTimeout => s.(at := Starting)
    case TakeStopAtRest => Take(s).(at := Leaving)
    case Report => s.(at := Stopped)
    case Stop => s.(queue := s.queue + 1, sent := s.sent + 1)
    case Disconnect => s.(disconnected := true)
    case Exit(child) => s.(alive := s.alive - {child})
  }

  const INITIAL: Service := Service(Starting, 0, false, 0, {}, 0, None)

  predicate IsFault(step: Step) {
    step == TryWait(true) || step == TakeStop(true)
  }

  /** A step of the service itself, not of SCM or of the child. */
  predicate IsOwn(step: Step) {
    !step.Stop? && !step.Disconnect? && !step.Exit?
  }

  predicate StopAsked(s: Service) {
    s.sent > 0 || s.disconnected
  }

  ghost predicate Run(states: seq<Service>, steps: seq<Step>) {
    && |states| == |steps| + 1
    && states[0] == INITIAL
    && (forall k :: 0 <= k < |steps| ==> Enabled(states[k], steps[k]) && states[k + 1] == Apply(states[k], steps[k]))
  }

  ghost predicate FaultFree(steps: seq<Step>) {
    forall k :: 0 <= k < |steps| ==> !IsFault(steps[k])
  }

  // ----- what every step without a fault keeps

  ghost predicate Inv(s: Service) {
    && (s.handle.Some? <==> s.at == Checking || s.at == Polling)
    && s.alive <= (if s.handle.Some? then {s.handle.value} else {})
    && (s.handle.Some? ==> s.handle.value < s.spawned)
    && (StopAsked(s) ==> StopPending(s) || s.at == Leaving || s.at == Stopped)
    && (s.at == Leaving || s.at == Stopped ==> StopAsked(s))
    && (StopPending(s) ==> StopAsked(s))
  }

  lemma StepKeepsInv(s: Service, step: Step)
    requires Inv(s) && Enabled(s, step) && !IsFault(step)
    ensures Inv(Apply(s, step))
  {
  }

  lemma {:induction false} ReachableInv(states: seq<Service>, steps: seq<Step>, k: nat)
    requires Run(states, steps) && FaultFree(steps) && k < |states|
    ensures Inv(states[k])
  {
    if k > 0 {
      ReachableInv(states, steps, k - 1);
      StepKeepsInv(states[k - 1], steps[k - 1]);
    }
  }

  /** In every run at most one child is alive, it is the one being waited for, and Stopped is reported over no live child. */
  lemma AtMostOneChild(states: seq<Service>, steps: seq<Step>, k: nat)
    requires Run(states, steps) && FaultFree(steps) && k < |states|
    ensures |states[k].alive| <= 1
    ensures forall child :: child in states[k].alive ==> states[k].handle == Some(child)
    ensures states[k].at == Stopped || states[k].at == Leaving ==> states[k].alive == {}
  {
    ReachableInv(states, steps, k);
    var s := states[k];
    if s.handle.Some? {
      assert s.alive == {} || s.alive == {s.handle.value};
    }
  }

  /** A stop that was ever queued is still in the channel until the service leaves its loop. */
  lemma StopNeverLost(states: seq<Service>, steps: seq<Step>, j: nat, k: nat)
    requires Run(states, steps) && FaultFree(steps) && j <= k < |states|
    requires StopAsked(states[j])
    ensures StopPending(states[k]) || states[k].at == Leaving || states[k].at == Stopped
  {
    StaysAsked(states, steps, j, k);
    ReachableInv(states, steps, k);
  }

  lemma {:induction false} StaysAsked(states: seq<Service>, steps: seq<Step>, j: nat, k: nat)
    requires Run(states, steps) && j <= k < |states| && StopAsked(states[j])
    ensures StopAsked(states[k])
  {
    if j < k {
      StaysAsked(states, steps, j, k - 1);
    }
  }

  // ----- what a queued stop leads to

  /** How many of its own steps the service can still take once a stop is queued. */
  function Rank(s: Service): nat {
    match s.at
    case Starting => 4
    case Checking => 3
    case Polling => 2
    case Resting => 2
    case Leaving => 1
    case Stopped => 0
  }

  function SpawnsLeft(s: Service): nat {
    if s.at == Starting then 1 else 0
  }

  lemma AskedStep(s: Service, step: Step)
    requires Inv(s) && StopAsked(s) && Enabled(s, step) && !IsFault(step)
    ensures var after := Apply(s, step);
            && StopAsked(after)
            && after.spawned + SpawnsLeft(after) <= s.spawned + SpawnsLeft(s)
            && (if IsOwn(step) then Rank(after) < Rank(s) else Rank(after) == Rank(s))
  {
  }

  /** After a stop is queued at most one further child is spawned, and only if a renewal was just about to start. */
  lemma {:induction false} OneMoreChildAtMost(states: seq<Service>, steps: seq<Step>, j: nat, k: nat)
    requires Run(states, steps) && FaultFree(steps) && j <= k < |states| && StopAsked(states[j])
    ensures states[k].spawned + SpawnsLeft(states[k]) <= states[j].spawned + SpawnsLeft(states[j])
    ensures states[k].spawned <= states[j].spawned + 1
    ensures states[k].spawned > states[j].spawned ==> states[j].at == Starting
  {
    if j < k {
      OneMoreChildAtMost(states, steps, j, k - 1);
      StaysAsked(states, steps, j, k - 1);
      ReachableInv(states, steps, k - 1);
      AskedStep(states[k - 1], steps[k - 1]);
    }
  }

  function OwnSteps(steps: seq<Step>): nat {
    if steps == [] then 0
    else OwnSteps(steps[..|steps| - 1]) + (if IsOwn(steps[|steps| - 1]) then 1 else 0)
  }

  /** After a stop is queued the service takes at most four more steps of its own before it has reported Stopped. */
  lemma {:induction false} StopsInFourSteps(states: seq<Service>, steps: seq<Step>, j: nat, k: nat)
    requires Run(states, steps) && FaultFree(steps) && j <= k < |states| && StopAsked(states[j])
    ensures OwnSteps(steps[j..k]) + Rank(states[k]) <= 4
  {
    if j < k {
      StopsInFourSteps(states, steps, j, k - 1);
      StaysAsked(states, steps, j, k - 1);
      ReachableInv(states, steps, k - 1);
      AskedStep(states[k - 1], steps[k - 1]);
      assert steps[j..k][..k - 1 - j] == steps[j..k - 1];
    }
  }

  /** Until then it can always take one. */
  lemma NeverStuck(states: seq<Service>, steps: seq<Step>, k: nat)
    requires Run(states, steps) && FaultFree(steps) && k < |states|
    ensures states[k].at == Stopped || exists step :: IsOwn(step) && !IsFault(step) && Enabled(states[k], step)
  {
    ReachableInv(states, steps, k);
    NextStep(states[k]);
  }

  lemma NextStep(s: Service)
    requires Inv(s)
    ensures s.at == Stopped || exists step :: IsOwn(step) && !IsFault(step) && Enabled(s, step)
  {
    var step := match s.at
      case Starting => Spawn(true)
      case Checking => TryWait(false)
      case Polling => if StopPending(s) then TakeStop(false) else PollTimeout
      case Resting => if StopPending(s) then TakeStopAtRest else RestTimeout
      case Leaving => Report
      case Stopped => Stop;
    assert s.at != Stopped ==> IsOwn(step) && !IsFault(step) && Enabled(s, step);
  }

  // ----- what the faults break, and that only they do

  /** A live child that nobody waits for. */
  predicate IsOrphan(s: Service, child: nat) {
    child in s.alive && s.handle != Some(child)
  }

  /** A child is abandoned exactly by a fault while it is alive. */
  lemma AbandonedExactly(s: Service, step: Step, child: nat)
    requires Inv(s) && Enabled(s, step)
    ensures IsOrphan(Apply(s, step), child) <==> IsFault(step) && child in s.alive
  {
  }

  /** A stop is taken without the service leaving exactly when the kill fails. */
  lemma StopLostExactly(s: Service, step: Step)
    requires Inv(s) && Enabled(s, step)
    ensures Apply(s, step).queue < s.queue && Apply(s, step).at != Leaving
       <==> step == TakeStop(true) && s.queue > 0
  {
  }

  /** A stop leaves the channel one at a time, and exactly when the service takes it. */
  lemma TakesOneStop(s: Service, step: Step)
    requires Enabled(s, step)
    ensures Apply(s, step).queue < s.queue <==> (step.TakeStop? || step.TakeStopAtRest?) && s.queue > 0
    ensures Apply(s, step).queue == s.queue + (if step == Stop then 1 else 0)
                                   - (if (step.TakeStop? || step.TakeStopAtRest?) && s.queue > 0 then 1 else 0)
  {
  }

  /** One failing `try_wait` is enough for two live children. */
  lemma FaultDoublesChildren(s: Service)
    requires Inv(s) && s.at == Checking && !StopPending(s) && s.alive != {}
    ensures Enabled(s, TryWait(true))
    ensures var rested := Apply(s, TryWait(true));
            && Enabled(rested, RestTimeout)
            && Enabled(Apply(rested, RestTimeout), Spawn(true))
            && |Apply(Apply(rested, RestTimeout), Spawn(true)).alive| == 2
  {
    assert s.alive == {s.handle.value};
    assert s.alive + {s.spawned} == {s.handle.value, s.spawned};
  }

  /** The shortest such run: a renewal starts, `try_wait` fails, and the next renewal starts beside the first. */
  lemma TwoChildrenAfterFault() returns (states: seq<Service>, steps: seq<Step>)
    ensures steps == [Spawn(true), TryWait(true), RestTimeout, Spawn(true)] && Run(states, steps)
    ensures states[4].alive == {0, 1} && |states[4].alive| == 2 && states[4].handle == Some(1)
  {
    var spawned := Service(Checking, 0, false, 0, {0}, 1, Some(0));
    var resting := Service(Resting, 0, false, 0, {0}, 1, None);
    var starting := Service(Starting, 0, false, 0, {0}, 1, None);
    steps := [Spawn(true), TryWait(true), RestTimeout, Spawn(true)];
    states := [INITIAL, spawned, resting, starting, Service(Checking, 0, false, 0, {0, 1}, 2, Some(1))];
    assert {} + {0} == {0} && {0} + {1} == {0, 1};
  }

  // ----- the service as the program runs it

  /**
   What happens just before one of the service's calls - stops arrive, the sender goes away, the
   child exits - and how that call goes.
   */
  datatype Tick = Tick(stops: nat, drops: bool, exits: bool, fails: bool, succeeds: bool)

  function Arrived(s: Service, tick: Tick): Service {
    s.(queue := s.queue + tick.stops,
       sent := s.sent + tick.stops,
       disconnected := s.disconnected || tick.drops,
       alive := if tick.exits && s.handle.Some? then s.alive - {s.handle.value} else s.alive)
  }

  predicate Waits(s: Service) {
    s.handle.Some? <==> s.at == Checking || s.at == Polling
  }

  predicate IsOver(s: Service) {
    s.at == Leaving || s.at == Stopped
  }

  function OwnStep(s: Service, fails: bool): (step: Step)
    requires Waits(s) && !IsOver(s)
    ensures Enabled(s, step) && IsOwn(step)
  {
    match s.at
    case Starting => Spawn(!fails)
    case Checking => TryWait(fails)
    case Polling => if StopPending(s) then TakeStop(fails) else PollTimeout
    case Resting => if StopPending(s) then TakeStopAtRest else RestTimeout
  }

  /** One call of the service, until it is out of its loop. */
  function AfterTick(s: Service, tick: Tick): (r: Service)
    requires Waits(s)
    ensures Waits(r)
  {
    if IsOver(s) then s else Apply(Arrived(s, tick), OwnStep(Arrived(s, tick), tick.fails))
  }

  function Simulated(script: seq<Tick>): (r: Service)
    ensures Waits(r)
  {
    if script == [] then INITIAL else AfterTick(Simulated(script[..|script| - 1]), script[|script| - 1])
  }

  function Reported(s: Service): Service {
    if s.at == Leaving then Apply(s, Report) else s
  }

  /** A stop has arrived, or the channel has come to its end, by the next call. */
  predicate StopBy(s: Service, tick: Tick) {
    s.queue > 0 || tick.stops > 0 || s.disconnected || tick.drops
  }

  /** What each of the service's calls leads to, in terms of how it goes and of what has happened before it. */
  lemma NextPointExactly(s: Service, tick: Tick)
    requires Waits(s) && !IsOver(s)
    ensures var after := AfterTick(s, tick); var stop := StopBy(s, tick);
            match s.at
            case Starting =>
              && (after.at == Checking <==> !tick.fails) && (after.at == Resting <==> tick.fails)
              && after.spawned == s.spawned + (if tick.fails then 0 else 1)
              && (!tick.fails ==> after.handle == Some(s.spawned) && s.spawned in after.alive)
            case Checking =>
              && (after.at == Polling <==> !tick.fails && s.handle.value in s.alive && !tick.exits)
              && (after.at == Polling || after.at == Resting)
            case Polling =>
              && (after.at == Checking <==> !stop)
              && (after.at == Leaving <==> stop && !tick.fails)
              && (after.at == Resting <==> stop && tick.fails)
              && (after.at == Leaving ==> s.handle.value !in after.alive)
            case Resting =>
              && (after.at == Leaving <==> stop) && (after.at == Starting <==> !stop)
            case _ => true
  {
  }

  /** The service reports Stopped exactly when it is out of its loop. */
  lemma ReportsExactly(script: seq<Tick>)
    ensures Reported(Simulated(script)).at == Stopped <==> IsOver(Simulated(script))
  {
  }

  /** Neither `try_wait` nor `kill` ever fails. */
  predicate Faultless(script: seq<Tick>) {
    forall k :: 0 <= k < |script| ==> !FaultsAt(Simulated(script[..k]), script[k])
  }

  predicate FaultsAt(s: Service, tick: Tick)
    requires Waits(s)
  {
    !IsOver(s) && IsFault(OwnStep(Arrived(s, tick), tick.fails))
  }

  /** Some run leads to this state, and it is free of faults if that is asked for. */
  ghost predicate Reachable(s: Service, faultless: bool) {
    exists states, steps :: Run(states, steps) && states[|steps|] == s && (faultless ==> FaultFree(steps))
  }

  lemma StepReaches(s: Service, step: Step, faultless: bool)
    requires Reachable(s, faultless) && Enabled(s, step) && (faultless ==> !IsFault(step))
    ensures Reachable(Apply(s, step), faultless)
  {
    var states, steps :| Run(states, steps) && states[|steps|] == s && (faultless ==> FaultFree(steps));
    var after := Apply(s, step);
    assert Run(states + [after], steps + [step]);
    assert (states + [after])[|steps + [step]|] == after;
  }

  /** The channel still takes stops. */
  lemma {:induction false} StopsReach(s: Service, stops: nat, faultless: bool)
    requires Reachable(s, faultless) && !s.disconnected
    ensures Reachable(s.(queue := s.queue + stops, sent := s.sent + stops), faultless)
  {
    if stops > 0 {
      StopsReach(s, stops - 1, faultless);
      StepReaches(s.(queue := s.queue + stops - 1, sent := s.sent + stops - 1), Stop, faultless);
    } else {
      assert s.(queue := s.queue + 0, sent := s.sent + 0) == s;
    }
  }

  /** A sender that is gone sends nothing. */
  predicate IsPossible(script: seq<Tick>) {
    forall j, k :: 0 <= j < k < |script| && script[j].drops ==> script[k].stops == 0
  }

  lemma {:induction false} DroppedBefore(script: seq<Tick>)
    ensures Simulated(script).disconnected ==> exists j :: 0 <= j < |script| && script[j].drops
  {
    if script != [] && Simulated(script).disconnected {
      var earlier := script[..|script| - 1];
      DroppedBefore(earlier);
      if Simulated(earlier).disconnected {
        var j :| 0 <= j < |earlier| && earlier[j].drops;
        assert script[j].drops;
      }
    }
  }

  lemma ArrivalsReach(s: Service, tick: Tick, faultless: bool)
    requires Reachable(s, faultless) && (s.disconnected ==> tick.stops == 0)
    ensures Reachable(Arrived(s, tick), faultless)
  {
    var queued := s.(queue := s.queue + tick.stops, sent := s.sent + tick.stops);
    if s.disconnected {
      assert queued == s;
    } else {
      StopsReach(s, tick.stops, faultless);
    }
    var dropped := queued.(disconnected := s.disconnected || tick.drops);
    if tick.drops {
      StepReaches(queued, Disconnect, faultless);
    } else {
      assert dropped == queued;
    }
    if tick.exits && s.handle.Some? && s.handle.value in s.alive {
      StepReaches(dropped, Exit(s.handle.value), faultless);
    } else {
      assert Arrived(s, tick) == dropped;
    }
  }

  lemma InitiallyReachable()
    ensures Reachable(INITIAL, true)
  {
    assert Run([INITIAL], []);
    assert [INITIAL][0] == INITIAL;
  }

  /**
   Whatever the script, the service is somewhere on a run of the state machine, and on a run without
   a fault if neither `try_wait` nor `kill` fails.
   */
  lemma {:induction false} SimulatedIsReachable(script: seq<Tick>, faultless: bool)
    requires IsPossible(script) && (faultless ==> Faultless(script))
    ensures Reachable(Simulated(script), faultless)
  {
    if script == [] {
      InitiallyReachable();
    } else {
      var last := |script| - 1;
      var earlier := script[..last];
      assert forall k :: 0 <= k < last ==> earlier[..k] == script[..k];
      SimulatedIsReachable(earlier, faultless);
      DroppedBefore(earlier);
      var s := Simulated(earlier);
      assert faultless ==> !FaultsAt(s, script[last]);
      if !IsOver(s) {
        ArrivalsReach(s, script[last], faultless);
        StepReaches(Arrived(s, script[last]), OwnStep(Arrived(s, script[last]), script[last].fails), faultless);
      }
    }
  }

  lemma HasInv(s: Service)
    requires Reachable(s, true)
    ensures Inv(s)
  {
    var states, steps :| Run(states, steps) && states[|steps|] == s && FaultFree(steps);
    ReachableInv(states, steps, |steps|);
  }

  predicate IsSafe(s: Service) {
    && |s.alive| <= 1
    && (s.at == Stopped ==> s.alive == {} && StopAsked(s))
    && (StopAsked(s) ==> StopPending(s) || s.at == Stopped)
  }

  lemma ReportIsSafe(s: Service)
    requires Inv(s)
    ensures IsSafe(Reported(s))
  {
    if s.handle.Some? {
      assert s.alive == {} || s.alive == {s.handle.value};
    } else {
      assert s.alive == {};
    }
  }

  /** So without a fault no script leads to two children, to a lost stop, or out of the loop with a child alive or unasked. */
  lemma SimulatedIsSafe(script: seq<Tick>)
    requires IsPossible(script) && Faultless(script)
    ensures IsSafe(Reported(Simulated(script)))
  {
    SimulatedIsReachable(script, true);
    HasInv(Simulated(script));
    ReportIsSafe(Simulated(script));
  }

  lemma {:induction false} OverForGood(script: seq<Tick>, k: nat)
    requires k <= |script| && (IsOver(Simulated(script[..k])) || k == |script|)
    ensures Simulated(script) == Simulated(script[..k])
    decreases |script| - k
  {
    if k == |script| {
      assert script[..k] == script;
    } else {
      assert script[..k + 1][..k] == script[..k];
      OverForGood(script, k + 1);
    }
  }

  datatype Outcome = Renewed | RenewalFailed | StopRequested | Unfinished

  class Host {
    const script: seq<Tick>
    var next: nat
    var queue: nat
    var disconnected: bool
    var alive: set<nat>
    var spawned: nat
    var stopped: bool
    ghost var at: Point
    ghost var sent: nat
    ghost var handle: Option<nat>

    ghost function State(): Service
      reads this
    {
      Service(at, queue, disconnected, sent, alive, spawned, handle)
    }

    /** The program is where the script leads. */
    ghost predicate Valid()
      reads this
    {
      && next <= |script|
      && State() == (if stopped then Reported(Simulated(script[..next])) else Simulated(script[..next]))
      && (stopped <==> at == Stopped)
    }

    constructor (script: seq<Tick>)
      ensures Valid() && State() == INITIAL && next == 0 && this.script == script
    {
      this.script, next := script, 0;
      queue, disconnected, alive, spawned, stopped := 0, false, {}, 0, false;
      at, sent, handle := Starting, 0, None;
    }

    /** Lets time pass until the next call. */
    method Await(child: Option<nat>) returns (tick: Tick)
      requires next < |script| && child == handle
      modifies this`queue, this`disconnected, this`sent, this`alive, this`next
      ensures next == old(next) + 1 && tick == script[old(next)]
      ensures State() == Arrived(old(State()), tick)
    {
      tick := script[next];
      next := next + 1;
      queue, sent := queue + tick.stops, sent + tick.stops;
      disconnected := disconnected || tick.drops;
      if tick.exits && child.Some? {
        alive := alive - {child.value};
      }
    }

    /** `recv_timeout`: whether a stop, or the end of the channel, comes before the timeout. */
    method Receive() returns (stop: bool)
      modifies this`queue
      ensures stop == StopPending(old(State())) && queue == (if stop then Take(old(State())).queue else old(queue))
    {
      stop := queue > 0 || disconnected;
      if queue > 0 {
        queue := queue - 1;
      }
    }

    lemma Advances(before: Service, k: nat)
      requires k < |script| && next == k + 1 && !stopped && at != Stopped
      requires before == Simulated(script[..k]) && State() == AfterTick(before, script[k])
      ensures Valid()
    {
      assert script[..k + 1][..k] == script[..k];
    }

    /** `try_wait`, and the return from `wait_for_child` that it may lead to. */
    method Check(child: nat) returns (outcome: Option<Outcome>)
      requires Valid() && at == Checking && handle == Some(child) && next < |script|
      modifies this
      ensures Valid() && next == old(next) + 1 && !stopped
      ensures outcome.None? ==> at == Polling && handle == Some(child)
      ensures outcome.Some? ==> at == Resting
      ensures var tick := script[old(next)];
              outcome == if tick.fails then Some(RenewalFailed)
                         else if child in Arrived(old(State()), tick).alive then None
                         else Some(if tick.succeeds then Renewed else RenewalFailed)
    {
      ghost var before := State();
      var tick := Await(Some(child));
      if tick.fails || child !in alive {
        at, handle := Resting, None;
        outcome := Some(if !tick.fails && tick.succeeds then Renewed else RenewalFailed);
      } else {
        at := Polling;
        outcome := None;
      }
      Advances(before, next - 1);
    }

    /** `recv_timeout`, and the kill that a stop leads to. */
    method Poll(child: nat) returns (outcome: Option<Outcome>)
      requires Valid() && at == Polling && handle == Some(child) && next < |script|
      modifies this
      ensures Valid() && next == old(next) + 1 && !stopped
      ensures outcome.None? ==> at == Checking && handle == Some(child)
      ensures outcome.Some? ==> if at == Leaving then outcome.value == StopRequested else at == Resting && outcome.value == RenewalFailed
    {
      ghost var before := State();
      var tick := Await(Some(child));
      var stop := Receive();
      if !stop {
        at := Checking;
        outcome := None;
      } else if tick.fails {
        at, handle := Resting, None;
        outcome := Some(RenewalFailed);
      } else {
        alive := alive - {child};
        at, handle := Leaving, None;
        outcome := Some(StopRequested);
      }
      Advances(before, next - 1);
    }

    method WaitForChild(child: nat) returns (outcome: Outcome)
      requires Valid() && at == Checking && handle == Some(child)
      modifies this
      ensures Valid() && next >= old(next) && !stopped
      ensures outcome == StopRequested <==> at == Leaving
      ensures outcome == Renewed || outcome == RenewalFailed <==> at == Resting
      ensures outcome == Unfinished ==> next == |script|
    {
      while next < |script|
        invariant Valid() && at == Checking && handle == Some(child) && next >= old(next) && !stopped
        decreases |script| - next
      {
        var checked := Check(child);
        if checked.Some? {
          return checked.value;
        }
        if next == |script| {
          return Unfinished;
        }
        var polled := Poll(child);
        if polled.Some? {
          return polled.value;
        }
      }
      return Unfinished;
    }

    method RunRenewal() returns (outcome: Outcome)
      requires Valid() && at == Starting && next < |script|
      modifies this
      ensures Valid() && next > old(next) && !stopped
      ensures outcome == StopRequested <==> at == Leaving
      ensures outcome == Renewed || outcome == RenewalFailed <==> at == Resting
      ensures outcome == Unfinished ==> next == |script|
    {
      ghost var before := State();
      var tick := Await(None);
      if tick.fails {
        at := Resting;
        Advances(before, next - 1);
        return RenewalFailed;
      }
      var child := spawned;
      alive, spawned := alive + {child}, spawned + 1;
      at, handle := Checking, Some(child);
      Advances(before, next - 1);
      outcome := WaitForChild(child);
    }

    /** The wait between two renewals. */
    method Rest() returns (leaves: bool)
      requires Valid() && at == Resting && next < |script|
      modifies this
      ensures Valid() && next > old(next) && !stopped
      ensures at == if leaves then Leaving else Starting
    {
      ghost var before := State();
      var _ := Await(None);
      leaves := Receive();
      at := if leaves then Leaving else Starting;
      Advances(before, next - 1);
    }

    /** `run_service`: it ends up exactly where the script leads, and reports Stopped when it is out of its loop. */
    method RunService()
      requires Valid() && at == Starting && next == 0
      modifies this
      ensures Valid() && State() == Reported(Simulated(script))
      ensures stopped || next == |script|
    {
      var leaves := false;
      while next < |script| && !leaves
        invariant Valid() && !stopped
        invariant leaves <==> at == Leaving
        invariant !leaves && next < |script| ==> at == Starting
        decreases |script| - next
      {
        var outcome := RunRenewal();
        leaves := outcome == StopRequested;
        if outcome == Unfinished {
          break;
        }
        if !leaves && next < |script| {
          leaves := Rest();
        }
      }
      OverForGood(script, next);
      if leaves {
        stopped := true;
        at := Stopped;
      }
    }
  }
}
