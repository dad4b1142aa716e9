/**
 Any number of bridge processes, and any other process, contending for one socket path.

 A step is one atomic block of a bridge process (the code from one await to the next) or one
 action of a peer.  Peers may create, listen, close, unlink, rename and link at will; the
 kernel may reclaim an inode that nothing refers to and give its id to a later one.
 */
module SocketProtocol {
  import opened Prelude
  import opened UnixSocket

  datatype Process =
    | Idle                                  // has not called `bind` yet
    | Connecting(probed: FileId)            // `connect` has not been answered
    | Answered(probed: FileId, answer: Answer)
    | Owning(owned: Owned)
    | Gone

  datatype World = World(fs: Fs, processes: seq<Process>)

  datatype Step =
    | Begin(i: nat, parent: Parent, env: Env)
    | Connect(i: nat, answer: Answer)
    | Resume(i: nat, env: Env)
    | Monitor(i: nat, env: Env)             // verify_or_rebind; on an error the client returns and drops
    | Drop(i: nat, denied: bool, removeFails: bool)
    | PeerCreate(alloc: Alloc, kind: Kind, phase: Phase, atPath: bool)
    | PeerListen(node: Node)
    | PeerClose(node: Node)
    | PeerUnlink
    | PeerLink(node: Node)                  // link or rename an existing inode to the path
    | Reclaim(node: Node)

  predicate IsOwner(w: World, i: nat, n: Node) {
    i < |w.processes| && w.processes[i].Owning? && w.processes[i].owned.node == n
  }

  ghost predicate HeldByProcess(w: World, n: Node) {
    exists i :: 0 <= i < |w.processes| && IsOwner(w, i, n)
  }

  /** What `connect` may answer, given what the path names at that moment. */
  predicate CanAnswer(fs: Fs, answer: Answer)
    requires fs.entry.Some? ==> fs.entry.value in fs.inodes
  {
    match answer
    case Connected => fs.entry.Some? && (fs.inodes[fs.entry.value].kind == Other || Live(fs, fs.entry.value))
    case Refused => fs.entry.Some? && !Live(fs, fs.entry.value)
    case Vanished => fs.entry.Some? ==> fs.inodes[fs.entry.value].kind == Other
    case OtherError => true
  }

  ghost predicate Enabled(w: World, step: Step)
    requires ValidFs(w.fs)
  {
    match step
    case Begin(i, _, env) => i < |w.processes| && w.processes[i].Idle? && Fresh(w.fs, env.alloc)
    case Connect(i, answer) => i < |w.processes| && w.processes[i].Connecting? && CanAnswer(w.fs, answer)
    case Resume(i, env) => i < |w.processes| && w.processes[i].Answered?
                             && FreshForResume(w.fs, w.processes[i].probed, w.processes[i].answer, env)
    case Monitor(i, env) => i < |w.processes| && w.processes[i].Owning? && Fresh(w.fs, env.alloc)
    case Drop(i, _, _) => i < |w.processes| && w.processes[i].Owning?
    case PeerCreate(alloc, kind, phase, atPath) =>
      Fresh(w.fs, alloc) && (atPath ==> w.fs.entry.None?) && (kind == Other ==> phase == Closed)
    case PeerListen(n) => n in w.fs.inodes && w.fs.inodes[n].kind == Socket && w.fs.inodes[n].phase == Bound
    case PeerClose(n) => n in w.fs.inodes && !HeldByProcess(w, n)
    case PeerUnlink => w.fs.entry.Some?
    case PeerLink(n) => n in w.fs.inodes
    case Reclaim(n) => n in w.fs.inodes && w.fs.inodes[n].phase == Closed && w.fs.entry != Some(n)
  }

  function SetProcess(w: World, fs: Fs, i: nat, p: Process): World
    requires i < |w.processes|
  {
    World(fs, w.processes[i := p])
  }

  function ClientMonitor(fs: Fs, o: Owned, env: Env): (Fs, Process)
    requires ValidFs(fs) && Fresh(fs, env.alloc)
  {
    match VerifyOrRebind(fs, o, env)
    case (after, owned, Success(_)) => (after, Owning(owned))
    case (after, owned, Failure(_)) => (DropListener(after, owned, env.dropDenied, env.removeFails), Gone)
  }

  ghost function Apply(w: World, step: Step): World
    requires ValidFs(w.fs) && Enabled(w, step)
  {
    match step
    case Begin(i, parent, env) =>
      (match BeginBind(w.fs, parent, env)
       case (fs, Probe(id)) => SetProcess(w, fs, i, Connecting(id))
       case (fs, Acquired(owned)) => SetProcess(w, fs, i, Owning(owned))
       case (fs, Failed(_)) => SetProcess(w, fs, i, Gone))
    case Connect(i, answer) => SetProcess(w, w.fs, i, Answered(w.processes[i].probed, answer))
    case Resume(i, env) =>
      (match ResumeBind(w.fs, w.processes[i].probed, w.processes[i].answer, env)
       case (fs, Success(owned)) => SetProcess(w, fs, i, Owning(owned))
       case (fs, Failure(_)) => SetProcess(w, fs, i, Gone))
    case Monitor(i, env) =>
      var (fs, process) := ClientMonitor(w.fs, w.processes[i].owned, env);
      SetProcess(w, fs, i, process)
    case Drop(i, denied, removeFails) =>
      SetProcess(w, DropListener(w.fs, w.processes[i].owned, denied, removeFails), i, Gone)
    case PeerCreate(alloc, kind, phase, atPath) =>
      var created := Create(w.fs, alloc, kind, phase);
      w.(fs := if atPath then created else created.(entry := w.fs.entry))
    case PeerListen(n) => w.(fs := SetPhase(w.fs, n, Listening))
    case PeerClose(n) => w.(fs := SetPhase(w.fs, n, Closed))
    case PeerUnlink => w.(fs := Unlinked(w.fs))
    case PeerLink(n) => w.(fs := w.fs.(entry := Some(n)))
    case Reclaim(n) => w.(fs := w.fs.(inodes := w.fs.inodes - {n}))
  }

  // ----- what every step keeps

  ghost predicate Inv(w: World) {
    && ValidFs(w.fs)
    && (forall i :: 0 <= i < |w.processes| && w.processes[i].Owning? ==> Holds(w.fs, w.processes[i].owned))
    && (forall i, j :: 0 <= i < j < |w.processes| && w.processes[i].Owning? && w.processes[j].Owning?
                       ==> w.processes[i].owned.node != w.processes[j].owned.node)
  }

  ghost predicate Initial(w: World) {
    && ValidFs(w.fs)
    && (forall i :: 0 <= i < |w.processes| ==> w.processes[i] == Idle)
  }

  /** The process that takes a step, if it is a bridge process. */
  function Actor(step: Step): Option<nat> {
    match step
    case Begin(i, _, _) => Some(i)
    case Connect(i, _) => Some(i)
    case Resume(i, _) => Some(i)
    case Monitor(i, _) => Some(i)
    case Drop(i, _, _) => Some(i)
    case _ => None
  }

  /** A bridge process takes a live socket it does not own away from the path. */
  ghost predicate Wrongful(w: World, step: Step)
    requires ValidFs(w.fs) && Enabled(w, step)
  {
    && Actor(step).Some?
    && w.fs.entry.Some?
    && Live(w.fs, w.fs.entry.value)
    && !IsOwner(w, Actor(step).value, w.fs.entry.value)
    && Apply(w, step).fs.entry != w.fs.entry
  }

  /** Process `i` has been told that the socket it probed is stale, and a live one now answers to its id. */
  ghost predicate Exposed(w: World, i: nat) {
    && i < |w.processes|
    && w.processes[i].Answered?
    && IsStaleAnswer(w.processes[i].answer)
    && w.fs.entry.Some?
    && Live(w.fs, w.fs.entry.value)
    && w.fs.inodes[w.fs.entry.value].id == w.processes[i].probed
  }

  // ----- facts about single blocks

  /** Two existing inodes never share an id, so a path entry with a held inode's id is that inode. */
  lemma EntryIsHeldInode(fs: Fs, o: Owned)
    requires ValidFs(fs) && Holds(fs, o)
    ensures IsOwnSocket(SymlinkMetadata(fs, false), o.id) <==> fs.entry == Some(o.node)
  {
  }

  lemma BindNewEffect(fs: Fs, env: Env)
    requires ValidFs(fs) && Fresh(fs, env.alloc)
    ensures var (after, r) := BindNew(fs, env);
            && ValidFs(after)
            && (forall n :: n in fs.inodes ==> n in after.inodes && after.inodes[n] == fs.inodes[n])
            && (r.Success? ==> Holds(after, r.value) && r.value.node !in fs.inodes && after.entry == Some(r.value.node))
            && (r.Failure? && after.entry != fs.entry ==> fs.entry.None? && after.entry == Some(env.alloc.node) && !Live(after, env.alloc.node))
  {
  }

  /**
   Dropping a listener closes it, leaves every other inode as it was, and unlinks the path exactly
   if it names the listener's own inode and neither the stat nor the removal fails.
   */
  lemma DropEffect(fs: Fs, o: Owned, denied: bool, removeFails: bool)
    requires ValidFs(fs) && Holds(fs, o)
    ensures var after := DropListener(fs, o, denied, removeFails);
            && ValidFs(after)
            && after.inodes.Keys == fs.inodes.Keys
            && (forall n :: n in fs.inodes && n != o.node ==> after.inodes[n] == fs.inodes[n])
            && after.inodes[o.node].phase == Closed
            && after.entry == (if fs.entry == Some(o.node) && !denied && !removeFails then None else fs.entry)
  {
  }

  /** `bind_new` succeeds exactly on a free path without a fault; what each failure leaves and how it is named. */
  lemma BindNewExactly(fs: Fs, env: Env)
    requires ValidFs(fs) && Fresh(fs, env.alloc)
    ensures var (after, r) := BindNew(fs, env); var node := env.alloc.node;
            && (r.Success? <==> fs.entry.None? && env.fault == NoFault)
            && (r.Success? ==> r.value == Owned(node, env.alloc.id) && Live(after, node))
            && (r == Failure(AddrInUse) <==> fs.entry.Some?)
            && (r == Failure(PermissionDenied) <==> fs.entry.None? && env.fault == WrongMode)
            && (node in after.inodes <==> fs.entry.None? && env.fault != BindFails)
            && (node in after.inodes ==> after.entry == Some(node) && after.inodes[node].kind == Socket
                                         && after.inodes[node].id == env.alloc.id)
            && (node in after.inodes && r.Failure? ==> after.inodes[node].phase == Closed)
            && (node !in after.inodes ==> after == fs)
  {
  }

  /** The path names a socket with this id. */
  predicate IsSocketAt(fs: Fs, id: FileId)
    requires fs.entry.Some? ==> fs.entry.value in fs.inodes
  {
    fs.entry.Some? && fs.inodes[fs.entry.value].kind == Socket && fs.inodes[fs.entry.value].id == id
  }

  /**
   `verify_or_rebind` returns Ok exactly if the path names the listener's own socket, which then stays
   as it is, or if the path is free and a new socket can be bound, over which the old one is closed.
   */
  lemma VerifyExactly(fs: Fs, o: Owned, env: Env)
    requires ValidFs(fs) && Fresh(fs, env.alloc) && Holds(fs, o)
    ensures var (after, owned, r) := VerifyOrRebind(fs, o, env);
            && (r.Success? <==> !env.denied && (fs.entry == Some(o.node) || (fs.entry.None? && env.fault == NoFault)))
            && (r == Failure(AddrInUse) <==> !env.denied && fs.entry.Some? && fs.entry != Some(o.node))
            && (fs.entry == Some(o.node) ==> after == fs && owned == o)
            && (r.Success? && fs.entry.None? ==>
                  && owned == Owned(env.alloc.node, env.alloc.id) && Live(after, env.alloc.node)
                  && after.entry == Some(env.alloc.node) && after.inodes[o.node].phase == Closed)
            && (r.Failure? ==> owned == o && Holds(after, o))
  {
    BindNewExactly(fs, env);
    if fs.entry.None? && env.fault == NoFault {
      BindNewEffect(fs, env);
      DropEffect(BindNew(fs, env).0, o, env.dropDenied, env.removeFails);
    }
  }

  /** What `bind` does first, by what its parent and its path are. */
  lemma BeginExactly(fs: Fs, parent: Parent, env: Env, id: FileId)
    requires ValidFs(fs) && Fresh(fs, env.alloc)
    ensures var (after, r) := BeginBind(fs, parent, env);
            && (r == Probe(id) <==> parent == Directory && !env.denied && IsSocketAt(fs, id))
            && (r.Acquired? <==> parent == Directory && !env.denied && fs.entry.None? && env.fault == NoFault)
            && (r == Failed(InvalidInput) <==> parent == NoParent)
            && (r == Failed(NotFound) <==> parent == NotADirectory)
            && (r == Failed(AlreadyExists) <==>
                  parent == Directory && !env.denied && fs.entry.Some? && fs.inodes[fs.entry.value].kind == Other)
            && (parent != Directory || env.denied ==> after == fs)
  {
    BindNewExactly(fs, env);
  }

  /** What `bind` does with the answer: it succeeds exactly over a socket that is still the probed one and stale. */
  lemma ResumeExactly(fs: Fs, probed: FileId, answer: Answer, env: Env)
    requires ValidFs(fs) && FreshForResume(fs, probed, answer, env)
    ensures var (after, r) := ResumeBind(fs, probed, answer, env);
            && (r.Success? <==> (answer == Refused || answer == Vanished) && !env.denied && IsSocketAt(fs, probed)
                                && !env.removeFails && env.fault == NoFault)
            && (r == Failure(AddrInUse) <==> answer == Connected)
            && (r == Failure(Unverified) <==> answer == OtherError)
            && (r == Failure(NotFound) <==> (answer == Refused || answer == Vanished) && !env.denied && fs.entry.None?)
            && (r == Failure(Changed) <==>
                  (answer == Refused || answer == Vanished) && !env.denied && fs.entry.Some? && !IsSocketAt(fs, probed))
  {
    var (removed, ok) := RemoveStale(fs, probed, answer, env);
    if ok.Success? {
      BindNewExactly(removed, env);
    }
  }

  /** Whatever happens in it, `verify_or_rebind` never disturbs an entry that is already at the path. */
  lemma VerifyEffect(fs: Fs, o: Owned, env: Env)
    requires ValidFs(fs) && Fresh(fs, env.alloc) && Holds(fs, o)
    ensures var (after, owned, r) := VerifyOrRebind(fs, o, env);
            && ValidFs(after)
            && Holds(after, owned)
            && (forall n :: n in fs.inodes && n != o.node ==> n in after.inodes && after.inodes[n] == fs.inodes[n])
            && (owned == o || owned.node !in fs.inodes)
            && (r.Success? ==> after.entry == Some(owned.node))
            && (fs.entry.Some? ==> after == fs)
  {
    BindNewEffect(fs, env);
    var (bound, r) := BindNew(fs, env);
    if r.Success? {
      DropEffect(bound, o, env.dropDenied, env.removeFails);
    }
  }

  /** `bind` removes the path's entry only if it is a socket with the probed id and the probe was refused. */
  lemma ResumeEffect(fs: Fs, probed: FileId, answer: Answer, env: Env)
    requires ValidFs(fs) && FreshForResume(fs, probed, answer, env)
    ensures var (after, r) := ResumeBind(fs, probed, answer, env);
            && ValidFs(after)
            && (forall n :: n in fs.inodes && fs.inodes[n].phase != Closed ==> n in after.inodes && after.inodes[n] == fs.inodes[n])
            && (r.Success? ==> Holds(after, r.value) && r.value.node !in fs.inodes && after.entry == Some(r.value.node))
            && (after.entry != fs.entry <==>
                  && IsStaleAnswer(answer)
                  && IsOwnSocket(SymlinkMetadata(fs, env.denied), probed)
                  && !env.removeFails)
            && (r.Failure? && after.entry.Some? ==> after.entry == fs.entry || !Live(after, after.entry.value))
  {
    var (removed, ok) := RemoveStale(fs, probed, answer, env);
    if ok.Success? {
      BindNewEffect(removed, env);
    }
  }

  lemma BeginEffect(fs: Fs, parent: Parent, env: Env)
    requires ValidFs(fs) && Fresh(fs, env.alloc)
    ensures var (after, r) := BeginBind(fs, parent, env);
            && ValidFs(after)
            && (forall n :: n in fs.inodes ==> n in after.inodes && after.inodes[n] == fs.inodes[n])
            && (fs.entry.Some? ==> after == fs)
            && (r.Acquired? ==> Holds(after, r.owned) && r.owned.node !in fs.inodes && after.entry == Some(r.owned.node))
            && (!r.Acquired? && after.entry != fs.entry ==> !Live(after, after.entry.value))
  {
    BindNewEffect(fs, env);
  }

  lemma MonitorEffect(fs: Fs, o: Owned, env: Env)
    requires ValidFs(fs) && Fresh(fs, env.alloc) && Holds(fs, o)
    ensures var (after, p) := ClientMonitor(fs, o, env);
            && ValidFs(after)
            && (p.Owning? || p.Gone?)
            && (forall n :: n in fs.inodes && n != o.node ==> n in after.inodes && after.inodes[n] == fs.inodes[n])
            && (p.Owning? ==> Holds(after, p.owned) && after.entry == Some(p.owned.node) && (p.owned == o || p.owned.node !in fs.inodes))
            && (fs.entry.Some? && fs.entry != Some(o.node) ==> after.entry == fs.entry)
            && (p.Gone? && after.entry != fs.entry && after.entry.Some? ==> !Live(after, after.entry.value))
  {
    VerifyEffect(fs, o, env);
    BindNewEffect(fs, env);
    var (after, owned, r) := VerifyOrRebind(fs, o, env);
    if r.Failure? {
      DropEffect(after, owned, env.dropDenied, env.removeFails);
    }
  }

  // ----- every step keeps the invariant

  lemma SetProcessKeepsInv(w: World, fs: Fs, i: nat, p: Process)
    requires Inv(w) && i < |w.processes| && ValidFs(fs)
    requires forall j :: 0 <= j < |w.processes| && j != i && w.processes[j].Owning? ==> Holds(fs, w.processes[j].owned)
    requires p.Owning? ==> Holds(fs, p.owned)
    requires p.Owning? ==> forall j :: 0 <= j < |w.processes| && j != i && w.processes[j].Owning?
                                       ==> p.owned.node != w.processes[j].owned.node
    ensures Inv(SetProcess(w, fs, i, p))
  {
  }

  lemma ProcessStepKeepsInv(w: World, step: Step)
    requires Inv(w) && Enabled(w, step) && Actor(step).Some?
    ensures Inv(Apply(w, step))
  {
    var i := Actor(step).value;
    var after := Apply(w, step);
    match step {
      case Begin(_, parent, env) => BeginEffect(w.fs, parent, env);
      case Connect(_, _) =>
      case Resume(_, env) => ResumeEffect(w.fs, w.processes[i].probed, w.processes[i].answer, env);
      case Monitor(_, env) => MonitorEffect(w.fs, w.processes[i].owned, env);
      case Drop(_, denied, removeFails) => DropEffect(w.fs, w.processes[i].owned, denied, removeFails);
    }
    SetProcessKeepsInv(w, after.fs, i, after.processes[i]);
  }

  lemma StepKeepsInv(w: World, step: Step)
    requires Inv(w) && Enabled(w, step)
    ensures Inv(Apply(w, step))
  {
    if Actor(step).Some? {
      ProcessStepKeepsInv(w, step);
    } else if step.PeerClose? {
      forall i | 0 <= i < |w.processes| && w.processes[i].Owning?
        ensures Holds(Apply(w, step).fs, w.processes[i].owned)
      {
        assert IsOwner(w, i, w.processes[i].owned.node);
      }
    }
  }

  // ----- runs

  ghost predicate Next(w: World, step: Step, after: World) {
    ValidFs(w.fs) && Enabled(w, step) && after == Apply(w, step)
  }

  ghost predicate Run(worlds: seq<World>, steps: seq<Step>) {
    && |worlds| == |steps| + 1
    && Initial(worlds[0])
    && (forall k :: 0 <= k < |steps| ==> Next(worlds[k], steps[k], worlds[k + 1]))
  }

  lemma {:induction false} ReachableInv(worlds: seq<World>, steps: seq<Step>, k: nat)
    requires Run(worlds, steps) && k < |worlds|
    ensures Inv(worlds[k])
  {
    if k > 0 {
      ReachableInv(worlds, steps, k - 1);
      assert Next(worlds[k - 1], steps[k - 1], worlds[k]);
      StepKeepsInv(worlds[k - 1], steps[k - 1]);
    }
  }

  // ----- what a run can and cannot do to a live socket

  /**
   Rebinding, error exits and drops never take away a live socket of another owner, and the
   removal of a stale socket does so exactly when its process is exposed.
   */
  lemma WrongfulExactly(w: World, step: Step)
    requires Inv(w) && Enabled(w, step)
    ensures Wrongful(w, step)
       <==> step.Resume? && Exposed(w, step.i) && !step.env.denied && !step.env.removeFails
  {
    match step {
      case Begin(_, parent, env) => BeginEffect(w.fs, parent, env);
      case Resume(i, env) => ResumeEffect(w.fs, w.processes[i].probed, w.processes[i].answer, env);
      case Monitor(i, env) => MonitorEffect(w.fs, w.processes[i].owned, env);
      case Drop(i, denied, removeFails) => DropEffect(w.fs, w.processes[i].owned, denied, removeFails);
      case _ =>
    }
  }

  /** The id under which a step makes a live socket appear at the path, if it does. */
  ghost function Revived(w: World, step: Step): Option<FileId>
    requires ValidFs(w.fs) && Enabled(w, step)
  {
    match step
    case Begin(_, parent, env) =>
      if parent == Directory && !env.denied && w.fs.entry.None? && env.fault == NoFault then Some(env.alloc.id) else None
    case Resume(i, env) =>
      if RemoveStale(w.fs, w.processes[i].probed, w.processes[i].answer, env).1.Success? && env.fault == NoFault
      then Some(env.alloc.id) else None
    case Monitor(_, env) =>
      if !env.denied && w.fs.entry.None? && env.fault == NoFault then Some(env.alloc.id) else None
    case PeerCreate(alloc, kind, phase, atPath) =>
      if kind == Socket && phase == Listening && atPath then Some(alloc.id) else None
    case PeerListen(n) => if w.fs.entry == Some(n) then Some(w.fs.inodes[n].id) else None
    case PeerLink(n) => if Live(w.fs, n) then Some(w.fs.inodes[n].id) else None
    case _ => None
  }

  /** While process `i` holds a stale answer, another step brings a live socket with the probed id to the path. */
  ghost predicate Hazard(w: World, step: Step, i: nat)
    requires ValidFs(w.fs) && Enabled(w, step)
  {
    && i < |w.processes|
    && Actor(step) != Some(i)
    && w.processes[i].Answered?
    && IsStaleAnswer(w.processes[i].answer)
    && Revived(w, step) == Some(w.processes[i].probed)
  }

  /** The path names a live socket with this id. */
  ghost predicate LiveAtPath(fs: Fs, id: FileId) {
    fs.entry.Some? && Live(fs, fs.entry.value) && fs.inodes[fs.entry.value].id == id
  }

  /** A live socket at the path after a step was brought there by it, or was there before. */
  ghost predicate RevivalShows(w: World, step: Step)
    requires ValidFs(w.fs) && Enabled(w, step)
  {
    var fs := Apply(w, step).fs;
    match Revived(w, step)
    case Some(id) => LiveAtPath(fs, id)
    case None => forall id :: LiveAtPath(fs, id) ==> LiveAtPath(w.fs, id)
  }

  lemma BeginRevivalShows(w: World, step: Step)
    requires Inv(w) && Enabled(w, step) && step.Begin?
    ensures RevivalShows(w, step)
  {
    BeginEffect(w.fs, step.parent, step.env);
  }

  lemma ResumeRevivalShows(w: World, step: Step)
    requires Inv(w) && Enabled(w, step) && step.Resume?
    ensures RevivalShows(w, step)
  {
    ResumeEffect(w.fs, w.processes[step.i].probed, w.processes[step.i].answer, step.env);
  }

  lemma MonitorRevivalShows(w: World, step: Step)
    requires Inv(w) && Enabled(w, step) && step.Monitor?
    ensures RevivalShows(w, step)
  {
    MonitorEffect(w.fs, w.processes[step.i].owned, step.env);
  }

  lemma DropRevivalShows(w: World, step: Step)
    requires Inv(w) && Enabled(w, step) && step.Drop?
    ensures RevivalShows(w, step)
  {
    DropEffect(w.fs, w.processes[step.i].owned, step.denied, step.removeFails);
  }

  lemma RevivedIsAtPath(w: World, step: Step)
    requires Inv(w) && Enabled(w, step)
    ensures RevivalShows(w, step)
  {
    match step {
      case Begin(_, _, _) => BeginRevivalShows(w, step);
      case Resume(_, _) => ResumeRevivalShows(w, step);
      case Monitor(_, _) => MonitorRevivalShows(w, step);
      case Drop(_, _, _) => DropRevivalShows(w, step);
      case _ =>
    }
  }

  /** Only the step of its own process changes what a process waits for. */
  lemma WaitsUnchanged(w: World, step: Step, i: nat)
    requires ValidFs(w.fs) && Enabled(w, step) && i < |w.processes|
    ensures |Apply(w, step).processes| == |w.processes|
    ensures Actor(step) != Some(i) ==> Apply(w, step).processes[i] == w.processes[i]
  {
  }

  /** By its own step a process waits for an answer only after `connect`, which answers stale only for what is not live. */
  lemma OwnStepDoesNotExpose(w: World, step: Step, i: nat)
    requires Inv(w) && Enabled(w, step) && Actor(step) == Some(i)
    ensures !Exposed(Apply(w, step), i)
  {
  }

  lemma ExposedIs(w: World, i: nat)
    requires ValidFs(w.fs)
    ensures Exposed(w, i) <==> && i < |w.processes| && w.processes[i].Answered? && IsStaleAnswer(w.processes[i].answer)
                               && LiveAtPath(w.fs, w.processes[i].probed)
  {
  }

  /** A process becomes exposed by a hazard and by nothing else. */
  lemma ExposedExactly(w: World, step: Step, i: nat)
    requires Inv(w) && Enabled(w, step) && !Exposed(w, i)
    ensures Exposed(Apply(w, step), i) <==> Hazard(w, step, i)
  {
    if Actor(step) == Some(i) {
      OwnStepDoesNotExpose(w, step, i);
    } else if i < |w.processes| {
      WaitsUnchanged(w, step, i);
      StepKeepsInv(w, step);
      RevivedIsAtPath(w, step);
      ExposedIs(w, i);
      ExposedIs(Apply(w, step), i);
    }
  }

  ghost predicate HazardFree(worlds: seq<World>, steps: seq<Step>)
    requires Run(worlds, steps)
  {
    forall k, i :: 0 <= k < |steps| && 0 <= i < |worlds[k].processes| ==>
                     Next(worlds[k], steps[k], worlds[k + 1]) && !Hazard(worlds[k], steps[k], i)
  }

  lemma {:induction false} NeverExposed(worlds: seq<World>, steps: seq<Step>, k: nat, i: nat)
    requires Run(worlds, steps) && HazardFree(worlds, steps) && k < |worlds|
    ensures !Exposed(worlds[k], i)
  {
    if k > 0 {
      NeverExposed(worlds, steps, k - 1, i);
      ReachableInv(worlds, steps, k - 1);
      assert Next(worlds[k - 1], steps[k - 1], worlds[k]);
      ExposedExactly(worlds[k - 1], steps[k - 1], i);
    }
  }

  /** In every run without a hazard, no process ever takes away a live socket it does not own. */
  lemma HazardFreeRunsAreSafe(worlds: seq<World>, steps: seq<Step>, k: nat)
    requires Run(worlds, steps) && HazardFree(worlds, steps) && k < |steps|
    ensures Next(worlds[k], steps[k], worlds[k + 1]) && !Wrongful(worlds[k], steps[k])
  {
    assert Next(worlds[k], steps[k], worlds[k + 1]);
    ReachableInv(worlds, steps, k);
    WrongfulExactly(worlds[k], steps[k]);
    if steps[k].Resume? {
      NeverExposed(worlds, steps, k, steps[k].i);
    }
  }

  /** Every hazard is fatal: if the exposed process resumes next, it takes the live socket away. */
  lemma HazardsAreFatal(w: World, hazard: Step, i: nat, env: Env)
    requires Inv(w) && Enabled(w, hazard) && Hazard(w, hazard, i)
    requires var after := Apply(w, hazard);
             && ValidFs(after.fs) && i < |after.processes| && after.processes[i].Answered?
             && FreshForResume(after.fs, after.processes[i].probed, after.processes[i].answer, env)
    requires !env.denied && !env.removeFails
    ensures var after := Apply(w, hazard);
            Enabled(after, Resume(i, env)) && Wrongful(after, Resume(i, env))
  {
    RevivedIsAtPath(w, hazard);
    StepKeepsInv(w, hazard);
    WrongfulExactly(Apply(w, hazard), Resume(i, env));
  }

  /** What becomes of a process at each of its steps. */
  lemma ProcessesFollow(worlds: seq<World>, steps: seq<Step>, k: nat)
    requires Run(worlds, steps) && k < |steps| && Actor(steps[k]).Some?
    ensures var (w, step, i) := (worlds[k], steps[k], Actor(steps[k]).value);
            && ValidFs(w.fs) && |worlds[k + 1].processes| == |w.processes| && i < |w.processes|
            && (forall j :: 0 <= j < |w.processes| && j != i ==> worlds[k + 1].processes[j] == w.processes[j])
            && var after := worlds[k + 1].processes[i];
            match step
            case Begin(_, parent, env) =>
              && (after.Connecting? <==> parent == Directory && !env.denied && IsSocketAtAll(w.fs))
              && (after.Connecting? ==> IsSocketAt(w.fs, after.probed))
              && (after.Owning? <==> parent == Directory && !env.denied && w.fs.entry.None? && env.fault == NoFault)
              && (after.Connecting? || after.Owning? || after.Gone?)
            case Connect(_, answer) => w.processes[i].Connecting? && after == Answered(w.processes[i].probed, answer)
            case Resume(_, env) =>
              && w.processes[i].Answered?
              && (after.Owning? <==> IsStaleAnswer(w.processes[i].answer) && !env.denied && !env.removeFails
                                     && IsSocketAt(w.fs, w.processes[i].probed) && env.fault == NoFault)
              && (after.Owning? || after.Gone?)
            case Monitor(_, env) =>
              && w.processes[i].Owning?
              && (after.Owning? <==> !env.denied && (w.fs.entry == Some(w.processes[i].owned.node)
                                                     || (w.fs.entry.None? && env.fault == NoFault)))
              && (after.Owning? || after.Gone?)
            case Drop(_, _, _) => after == Gone
            case _ => true
  {
    assert Next(worlds[k], steps[k], worlds[k + 1]);
    ReachableInv(worlds, steps, k);
    var (w, i) := (worlds[k], Actor(steps[k]).value);
    match steps[k] {
      case Begin(_, parent, env) =>
        BeginExactly(w.fs, parent, env, if IsSocketAtAll(w.fs) then w.fs.inodes[w.fs.entry.value].id else FileId(0, 0));
      case Resume(_, env) => ResumeExactly(w.fs, w.processes[i].probed, w.processes[i].answer, env);
      case Monitor(_, env) => VerifyExactly(w.fs, w.processes[i].owned, env);
      case _ =>
    }
  }

  predicate IsSocketAtAll(fs: Fs)
    requires fs.entry.Some? ==> fs.entry.value in fs.inodes
  {
    fs.entry.Some? && fs.inodes[fs.entry.value].kind == Socket
  }

  /** The outcomes of the calls with which a process leaves: the stat and the removal in its `Drop`. */
  predicate DropFails(step: Step) {
    match step
    case Monitor(_, env) => env.dropDenied || env.removeFails
    case Drop(_, denied, removeFails) => denied || removeFails
    case _ => true
  }

  /**
   A process that leaves cleans up: after its drop, at the end or on an error of the monitor, its inode
   is closed, and the path does not name it unless the stat or the removal failed.
   */
  lemma LeavingCleansUp(worlds: seq<World>, steps: seq<Step>, k: nat)
    requires Run(worlds, steps) && k < |steps| && (steps[k].Drop? || steps[k].Monitor?)
    ensures var (i, w, after) := (steps[k].i, worlds[k], worlds[k + 1]);
            && i < |w.processes| && w.processes[i].Owning? && i < |after.processes|
            && (after.processes[i].Gone? ==>
                  && !Live(after.fs, w.processes[i].owned.node)
                  && (after.fs.entry == Some(w.processes[i].owned.node) ==> DropFails(steps[k])))
  {
    assert Next(worlds[k], steps[k], worlds[k + 1]);
    ReachableInv(worlds, steps, k);
    var (w, o) := (worlds[k], worlds[k].processes[steps[k].i].owned);
    match steps[k] {
      case Drop(_, denied, removeFails) => DropEffect(w.fs, o, denied, removeFails);
      case Monitor(_, env) =>
        VerifyEffect(w.fs, o, env);
        VerifyExactly(w.fs, o, env);
        var (after, owned, r) := VerifyOrRebind(w.fs, o, env);
        if r.Failure? {
          DropEffect(after, owned, env.dropDenied, env.removeFails);
        }
    }
  }

  /** After Ok from `verify_or_rebind`, whatever was overwritten, the path names the listener's own socket. */
  lemma MonitorLeavesOwnSocket(worlds: seq<World>, steps: seq<Step>, k: nat)
    requires Run(worlds, steps) && k < |steps| && steps[k].Monitor?
    ensures var (i, after) := (steps[k].i, worlds[k + 1]);
            && i < |after.processes|
            && (after.processes[i].Owning? ==>
                  && after.fs.entry == Some(after.processes[i].owned.node)
                  && Holds(after.fs, after.processes[i].owned))
            && (after.processes[i].Gone? && worlds[k].fs.entry.Some? && !IsOwner(worlds[k], i, worlds[k].fs.entry.value) ==>
                  after.fs.entry == worlds[k].fs.entry)
  {
    assert Next(worlds[k], steps[k], worlds[k + 1]);
    ReachableInv(worlds, steps, k);
    MonitorEffect(worlds[k].fs, worlds[k].processes[steps[k].i].owned, steps[k].env);
  }

  /** In every reachable state, an entry that matches what a process recorded is the very inode it holds open. */
  lemma MatchingEntryIsOwn(worlds: seq<World>, steps: seq<Step>, k: nat, i: nat)
    requires Run(worlds, steps) && k < |worlds| && i < |worlds[k].processes| && worlds[k].processes[i].Owning?
    ensures var w := worlds[k];
            var o := w.processes[i].owned;
            ValidFs(w.fs) && (IsOwnSocket(SymlinkMetadata(w.fs, false), o.id) <==> w.fs.entry == Some(o.node))
  {
    ReachableInv(worlds, steps, k);
    EntryIsHeldInode(worlds[k].fs, worlds[k].processes[i].owned);
  }

  /** A regular file, directory or symbolic link at the path is never taken away by a bridge process. */
  lemma OtherKindsAreRefused(w: World, step: Step)
    requires Inv(w) && Enabled(w, step) && Actor(step).Some?
    requires w.fs.entry.Some? && w.fs.inodes[w.fs.entry.value].kind == Other
    ensures Apply(w, step).fs.entry == w.fs.entry
    ensures step.Begin? || step.Resume? ==> Apply(w, step).processes[step.i] == Gone
  {
    match step {
      case Begin(_, parent, env) => BeginEffect(w.fs, parent, env);
      case Resume(i, env) => ResumeEffect(w.fs, w.processes[i].probed, w.processes[i].answer, env);
      case Monitor(i, env) => MonitorEffect(w.fs, w.processes[i].owned, env);
      case Drop(i, denied, removeFails) => DropEffect(w.fs, w.processes[i].owned, denied, removeFails);
      case _ =>
    }
  }

  // ----- the assumptions the code relies on, in the system's own terms

  /** No step gives a new inode an id that another process is probing. */
  ghost predicate NoReuse(w: World, step: Step) {
    forall i :: 0 <= i < |w.processes| && w.processes[i].Answered? ==>
                  match step
                  case Begin(_, _, env) => env.alloc.id != w.processes[i].probed
                  case Resume(j, env) => j != i ==> env.alloc.id != w.processes[i].probed
                  case Monitor(_, env) => env.alloc.id != w.processes[i].probed
                  case PeerCreate(alloc, _, _, _) => alloc.id != w.processes[i].probed
                  case _ => true
  }

  /** Nobody listens late on a socket that has been refusing connections, or moves a socket to the path. */
  predicate NoLateListener(step: Step) {
    !step.PeerListen? && !step.PeerLink?
  }

  lemma PlainAssumptionsExcludeHazards(w: World, step: Step, i: nat)
    requires ValidFs(w.fs) && Enabled(w, step) && NoReuse(w, step) && NoLateListener(step)
    ensures !Hazard(w, step, i)
  {
  }

  ghost predicate PlainRun(worlds: seq<World>, steps: seq<Step>) {
    && Run(worlds, steps)
    && (forall k :: 0 <= k < |steps| ==>
          Next(worlds[k], steps[k], worlds[k + 1]) && NoReuse(worlds[k], steps[k]) && NoLateListener(steps[k]))
  }

  /**
   In every run in which no id under probe is given to a new inode, and nobody listens late or
   moves a socket to the path, no process ever takes away a live socket it does not own.
   */
  lemma PlainRunsAreSafe(worlds: seq<World>, steps: seq<Step>, k: nat)
    requires PlainRun(worlds, steps) && k < |steps|
    ensures Next(worlds[k], steps[k], worlds[k + 1]) && !Wrongful(worlds[k], steps[k])
  {
    forall m, i | 0 <= m < |steps| && 0 <= i < |worlds[m].processes|
      ensures Next(worlds[m], steps[m], worlds[m + 1]) && !Hazard(worlds[m], steps[m], i)
    {
      assert Next(worlds[m], steps[m], worlds[m + 1]);
      PlainAssumptionsExcludeHazards(worlds[m], steps[m], i);
    }
    HazardFreeRunsAreSafe(worlds, steps, k);
  }

  // ----- both assumptions are needed

  const STALE: FileId := FileId(1, 7)
  const ABANDONED: Fs := Fs(map[0 := Inode(Socket, STALE, Closed)], Some(0))

  function Calm(node: Node, id: FileId): Env {
    Env(Alloc(node, id), NoFault, false, false, false, true)
  }

  const OTHER: FileId := FileId(1, 8)

  const BOTH_REFUSED: World := World(ABANDONED, [Answered(STALE, Refused), Answered(STALE, Refused)])
  const FIRST_BOUND: World :=
    World(Fs(map[1 := Inode(Socket, STALE, Listening)], Some(1)), [Owning(Owned(1, STALE)), Answered(STALE, Refused)])

  const FIRST_REFUSED: World := World(ABANDONED, [Answered(STALE, Refused), Idle])
  const FIRST_PROBING: World := World(ABANDONED, [Connecting(STALE), Idle])
  const SECOND_PROBING: World := World(ABANDONED, [Answered(STALE, Refused), Connecting(STALE)])

  lemma FirstProbes()
    ensures Next(World(ABANDONED, [Idle, Idle]), Begin(0, Directory, Calm(1, OTHER)), FIRST_PROBING)
    ensures Next(FIRST_PROBING, Connect(0, Refused), FIRST_REFUSED)
  {
    assert [Idle, Idle][0 := Connecting(STALE)] == [Connecting(STALE), Idle];
  }

  lemma SecondProbes()
    ensures Next(FIRST_REFUSED, Begin(1, Directory, Calm(1, OTHER)), SECOND_PROBING)
    ensures Next(SECOND_PROBING, Connect(1, Refused), BOTH_REFUSED)
  {
  }

  lemma FirstProcessBinds()
    ensures Next(BOTH_REFUSED, Resume(0, Calm(1, STALE)), FIRST_BOUND)
  {
    assert Removed(ABANDONED, true) == Fs(map[], None);
    assert RemoveStale(ABANDONED, STALE, Refused, Calm(1, STALE)) == (Fs(map[], None), Success(Unit));
  }

  lemma SecondProcessRemoves()
    ensures var w := FIRST_BOUND;
            var step := Resume(1, Calm(2, OTHER));
            && Next(w, step, Apply(w, step)) && Wrongful(w, step)
            && IsOwner(w, 0, w.fs.entry.value)
  {
    WrongfulExactly(FIRST_BOUND, Resume(1, Calm(2, OTHER)));
  }

  /**
   Two bridge processes find one abandoned socket and both are refused.  The first removes it and
   binds; the kernel gives the freed inode number to the new socket; the second then sees the id it
   probed and removes the first one's live socket.
   */
  lemma ReusedIdDefeatsProbe() returns (worlds: seq<World>, steps: seq<Step>)
    ensures Run(worlds, steps) && |steps| == 6
    ensures steps[5].Resume? && Next(worlds[5], steps[5], worlds[6]) && Wrongful(worlds[5], steps[5])
    ensures worlds[5].fs.entry.Some? && IsOwner(worlds[5], 0, worlds[5].fs.entry.value)
    ensures forall k :: 0 <= k < |steps| ==> NoLateListener(steps[k])
  {
    FirstProbes();
    SecondProbes();
    FirstProcessBinds();
    SecondProcessRemoves();
    var resume0, resume1 := Resume(0, Calm(1, STALE)), Resume(1, Calm(2, OTHER));
    steps := [Begin(0, Directory, Calm(1, OTHER)), Connect(0, Refused), Begin(1, Directory, Calm(1, OTHER)),
              Connect(1, Refused), resume0, resume1];
    worlds := [World(ABANDONED, [Idle, Idle]), FIRST_PROBING, FIRST_REFUSED, SECOND_PROBING, BOTH_REFUSED, FIRST_BOUND,
               Apply(FIRST_BOUND, resume1)];
  }

  const BOUND: Fs := Fs(map[0 := Inode(Socket, STALE, Phase.Bound)], Some(0))
  const LISTENING: World := World(Fs(map[0 := Inode(Socket, STALE, Listening)], Some(0)), [Answered(STALE, Refused)])

  lemma ListensLate()
    ensures Next(World(BOUND, [Answered(STALE, Refused)]), PeerListen(0), LISTENING)
  {
  }

  lemma ProbeRemovesListener()
    ensures var step := Resume(0, Calm(1, OTHER));
            Next(LISTENING, step, Apply(LISTENING, step)) && Wrongful(LISTENING, step) && NoReuse(LISTENING, step)
  {
    WrongfulExactly(LISTENING, Resume(0, Calm(1, OTHER)));
  }

  /** A peer that binds first and listens later loses its socket to a process that probed in between. */
  lemma LateListenerDefeatsProbe() returns (worlds: seq<World>, steps: seq<Step>)
    ensures Run(worlds, steps) && |steps| == 5
    ensures steps[4].Resume? && Next(worlds[4], steps[4], worlds[5]) && Wrongful(worlds[4], steps[4])
    ensures forall k :: 0 <= k < |steps| ==> Next(worlds[k], steps[k], worlds[k + 1]) && NoReuse(worlds[k], steps[k])
  {
    var w0 := World(Fs(map[], None), [Idle]);
    var w1 := World(BOUND, [Idle]);
    var w2 := World(BOUND, [Connecting(STALE)]);
    var w3 := World(BOUND, [Answered(STALE, Refused)]);
    var create := PeerCreate(Alloc(0, STALE), Socket, Phase.Bound, true);
    var begin := Begin(0, Directory, Calm(1, OTHER));
    assert Next(w0, create, w1);
    assert Next(w1, begin, w2);
    assert Next(w2, Connect(0, Refused), w3);
    ListensLate();
    ProbeRemovesListener();
    var resume := Resume(0, Calm(1, OTHER));
    steps := [create, begin, Connect(0, Refused), PeerListen(0), resume];
    worlds := [w0, w1, w2, w3, LISTENING, Apply(LISTENING, resume)];
  }
}
