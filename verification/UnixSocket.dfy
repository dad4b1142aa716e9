/**
 The owned Unix listener of src/unix_socket.rs.

 The file system is seen from the one contended path: which inode the path names, and
 which inodes exist. An inode exists while it is linked somewhere or held open. `Node` is a
 name of the model for one existing inode; the program itself only ever sees its `FileId`,
 the (device, inode number) pair, which the kernel may hand out again once the inode is gone.
 */
module UnixSocket {
  import opened Prelude

  type Node = nat

  datatype FileId = FileId(device: nat, inode: nat)

  // `Other` stands for a regular file, a directory, a symbolic link, ...
  datatype Kind = Socket | Other

  // Bound: held open, connections refused.  Listening: held open, live.  Closed: not held open.
  datatype Phase = Bound | Listening | Closed

  datatype Inode = Inode(kind: Kind, id: FileId, phase: Phase)

  datatype Fs = Fs(inodes: map<Node, Inode>, entry: Option<Node>)

  datatype IoError =
    | InvalidInput | NotFound | AddrInUse | AlreadyExists | PermissionDenied
    | Changed      // "socket changed while checking ownership"
    | Unverified   // connect failed for another reason
    | OsError

  // What `symlink_metadata` reports.
  datatype Stat = Missing | Denied | Found(kind: Kind, id: FileId)

  // What `connect` reports.
  datatype Answer = Connected | Refused | Vanished | OtherError

  datatype Parent = NoParent | NotADirectory | Directory

  // Where `bind_new` goes wrong, if it does.
  datatype Fault = NoFault | BindFails | ChmodFails | StatFails | WrongMode

  /** The node and the id the kernel gives to the next inode it creates. */
  datatype Alloc = Alloc(node: Node, id: FileId)

  /** The outcomes, within one atomic block, of the calls the program does not control. */
  datatype Env = Env(alloc: Alloc, fault: Fault, denied: bool, dropDenied: bool, removeFails: bool, reclaims: bool)

  /** The fields of an `OwnedUnixListener`: the inode its listener holds open, and the recorded id. */
  datatype Owned = Owned(node: Node, id: FileId)

  ghost predicate ValidFs(fs: Fs) {
    && (fs.entry.Some? ==> fs.entry.value in fs.inodes)
    && (forall m, n :: m in fs.inodes && n in fs.inodes && fs.inodes[m].id == fs.inodes[n].id ==> m == n)
  }

  /** The kernel never gives a new inode the identity of an existing one, linked or held open. */
  ghost predicate Fresh(fs: Fs, a: Alloc) {
    && a.node !in fs.inodes
    && (forall n :: n in fs.inodes ==> fs.inodes[n].id != a.id)
  }

  predicate Live(fs: Fs, n: Node) {
    n in fs.inodes && fs.inodes[n].kind == Socket && fs.inodes[n].phase == Listening
  }

  /** A listener holds its inode open, and recorded that inode's id. */
  ghost predicate Holds(fs: Fs, o: Owned) {
    Live(fs, o.node) && fs.inodes[o.node].id == o.id
  }

  /** As `Fresh`, for the bind that follows the removal of a stale socket in one block. */
  ghost predicate FreshForResume(fs: Fs, probed: FileId, answer: Answer, env: Env)
    requires ValidFs(fs)
  {
    env.alloc.node !in fs.inodes && Fresh(RemoveStale(fs, probed, answer, env).0, env.alloc)
  }

  // ----- system calls

  function SymlinkMetadata(fs: Fs, denied: bool): Stat
    requires fs.entry.Some? ==> fs.entry.value in fs.inodes
  {
    if denied then Denied
    else if fs.entry.None? then Missing
    else Found(fs.inodes[fs.entry.value].kind, fs.inodes[fs.entry.value].id)
  }

  function Unlinked(fs: Fs): Fs {
    fs.(entry := None)
  }

  /** `unlink` of a socket nobody holds open; the kernel may free its inode, and its id, at once. */
  function Removed(fs: Fs, reclaims: bool): Fs {
    if reclaims && fs.entry.Some? && fs.entry.value in fs.inodes && fs.inodes[fs.entry.value].phase == Closed
    then Fs(fs.inodes - {fs.entry.value}, None)
    else Unlinked(fs)
  }

  function SetPhase(fs: Fs, n: Node, phase: Phase): Fs {
    if n in fs.inodes then fs.(inodes := fs.inodes[n := fs.inodes[n].(phase := phase)]) else fs
  }

  /** Creates an inode and makes the path name it. */
  function Create(fs: Fs, a: Alloc, kind: Kind, phase: Phase): Fs {
    Fs(fs.inodes[a.node := Inode(kind, a.id, phase)], Some(a.node))
  }

  // ----- the listener's operations

  predicate IsOwnSocket(stat: Stat, id: FileId) {
    stat.Found? && stat.kind == Socket && stat.id == id
  }

  function BindNew(fs: Fs, env: Env): (Fs, Result<Owned, IoError>) {
    if fs.entry.Some? then (fs, Failure(AddrInUse))
    else if env.fault == BindFails then (fs, Failure(OsError))
    else
      var bound := Create(fs, env.alloc, Socket, Listening);
      match env.fault
      case NoFault => (bound, Success(Owned(env.alloc.node, env.alloc.id)))
      case WrongMode => (SetPhase(bound, env.alloc.node, Closed), Failure(PermissionDenied))
      case _ => (SetPhase(bound, env.alloc.node, Closed), Failure(OsError))
  }

  /** `Drop::drop` followed by the drop of the fields, which closes the listener. */
  function DropListener(fs: Fs, o: Owned, denied: bool, removeFails: bool): Fs
    requires fs.entry.Some? ==> fs.entry.value in fs.inodes
  {
    var removed := if IsOwnSocket(SymlinkMetadata(fs, denied), o.id) && !removeFails then Unlinked(fs) else fs;
    SetPhase(removed, o.node, Closed)
  }

  function VerifyOrRebind(fs: Fs, o: Owned, env: Env): (Fs, Owned, Result<Unit, IoError>)
    requires fs.entry.Some? ==> fs.entry.value in fs.inodes
  {
    match SymlinkMetadata(fs, env.denied)
    case Found(_, _) =>
      if IsOwnSocket(SymlinkMetadata(fs, env.denied), o.id) then (fs, o, Success(Unit))
      else (fs, o, Failure(AddrInUse))
    case Missing =>
      (match BindNew(fs, env)
       case (bound, Success(replacement)) =>
         // *self = replacement: the old value is dropped while the replacement is at the path
         (DropListener(bound, o, env.dropDenied, env.removeFails), replacement, Success(Unit))
       case (after, Failure(error)) => (after, o, Failure(error)))
    case Denied => (fs, o, Failure(OsError))
  }

  /** What `bind` does before it may suspend at `connect`. */
  datatype Begun = Probe(id: FileId) | Acquired(owned: Owned) | Failed(error: IoError)

  function BeginBind(fs: Fs, parent: Parent, env: Env): (Fs, Begun)
    requires fs.entry.Some? ==> fs.entry.value in fs.inodes
  {
    match parent
    case NoParent => (fs, Failed(InvalidInput))
    case NotADirectory => (fs, Failed(NotFound))
    case Directory =>
      match SymlinkMetadata(fs, env.denied)
      case Found(Socket, id) => (fs, Probe(id))
      case Found(Other, _) => (fs, Failed(AlreadyExists))
      case Denied => (fs, Failed(OsError))
      case Missing =>
        match BindNew(fs, env)
        case (after, Success(owned)) => (after, Acquired(owned))
        case (after, Failure(error)) => (after, Failed(error))
  }

  predicate IsStaleAnswer(answer: Answer) {
    answer == Refused || answer == Vanished
  }

  /** The rest of `remove_stale_socket`, after `connect` has answered. */
  function RemoveStale(fs: Fs, probed: FileId, answer: Answer, env: Env): (Fs, Result<Unit, IoError>)
    requires fs.entry.Some? ==> fs.entry.value in fs.inodes
  {
    match answer
    case Connected => (fs, Failure(AddrInUse))
    case OtherError => (fs, Failure(Unverified))
    case _ =>
      match SymlinkMetadata(fs, env.denied)
      case Missing => (fs, Failure(NotFound))
      case Denied => (fs, Failure(OsError))
      case Found(kind, id) =>
        if kind != Socket || id != probed then (fs, Failure(Changed))
        else if env.removeFails then (fs, Failure(OsError))
        else (Removed(fs, env.reclaims), Success(Unit))
  }

  /** The rest of `bind`, after `connect` has answered. */
  function ResumeBind(fs: Fs, probed: FileId, answer: Answer, env: Env): (Fs, Result<Owned, IoError>)
    requires fs.entry.Some? ==> fs.entry.value in fs.inodes
  {
    match RemoveStale(fs, probed, answer, env)
    case (after, Failure(error)) => (after, Failure(error))
    case (after, Success(_)) => BindNew(after, env)
  }

  // ----- the same operations as the program performs them, on a mutable file system

  class FileSystem {
    var inodes: map<Node, Inode>
    var entry: Option<Node>

    function State(): Fs
      reads this
    {
      Fs(inodes, entry)
    }

    method Metadata(denied: bool) returns (stat: Stat)
      requires ValidFs(State())
      ensures stat == SymlinkMetadata(State(), denied)
    {
      if denied {
        return Denied;
      }
      if entry.None? {
        return Missing;
      }
      return Found(inodes[entry.value].kind, inodes[entry.value].id);
    }

    /** `UnixListener::bind`: creates the socket exclusively and listens at once. */
    method Bind(a: Alloc, fails: bool) returns (r: Result<Node, IoError>)
      requires ValidFs(State()) && Fresh(State(), a)
      modifies this
      ensures ValidFs(State())
      ensures old(entry).Some? ==> r == Failure(AddrInUse) && State() == old(State())
      ensures old(entry).None? && fails ==> r == Failure(OsError) && State() == old(State())
      ensures old(entry).None? && !fails ==> r == Success(a.node) && State() == Create(old(State()), a, Socket, Listening)
    {
      if entry.Some? {
        return Failure(AddrInUse);
      }
      if fails {
        return Failure(OsError);
      }
      inodes := inodes[a.node := Inode(Socket, a.id, Listening)];
      entry := Some(a.node);
      return Success(a.node);
    }

    method RemoveFile(reclaims: bool)
      requires ValidFs(State())
      modifies this
      ensures State() == Removed(old(State()), reclaims) && ValidFs(State())
    {
      if reclaims && entry.Some? && inodes[entry.value].phase == Closed {
        inodes := inodes - {entry.value};
      }
      entry := None;
    }

    method CloseListener(n: Node)
      requires ValidFs(State()) && n in inodes
      modifies this
      ensures State() == SetPhase(old(State()), n, Closed) && ValidFs(State())
    {
      inodes := inodes[n := inodes[n].(phase := Closed)];
    }
  }

  class OwnedUnixListener {
    const fs: FileSystem
    var listener: Node
    var device: nat
    var inode: nat

    function Value(): Owned
      reads this
    {
      Owned(listener, FileId(device, inode))
    }

    ghost predicate Valid()
      reads this, fs
    {
      ValidFs(fs.State()) && Holds(fs.State(), Value())
    }

    constructor (fs: FileSystem, owned: Owned)
      ensures this.fs == fs && Value() == owned
    {
      this.fs := fs;
      listener, device, inode := owned.node, owned.id.device, owned.id.inode;
    }

    /** `bind_new`. */
    static method New(fs: FileSystem, env: Env) returns (r: Result<OwnedUnixListener, IoError>)
      requires ValidFs(fs.State()) && Fresh(fs.State(), env.alloc)
      modifies fs
      ensures ValidFs(fs.State())
      ensures fs.State() == BindNew(old(fs.State()), env).0
      ensures r.Success? ==> fresh(r.value) && r.value.fs == fs && r.value.Valid()
      ensures (if r.Success? then Success(r.value.Value()) else Failure(r.error)) == BindNew(old(fs.State()), env).1
    {
      var bound := fs.Bind(env.alloc, env.fault == BindFails);
      if bound.Failure? {
        return Failure(bound.error);
      }
      var listener := bound.value;
      if env.fault == ChmodFails || env.fault == StatFails {
        fs.CloseListener(listener);
        return Failure(OsError);
      }
      var stat := fs.Metadata(false);
      if env.fault == WrongMode {
        fs.CloseListener(listener);
        return Failure(PermissionDenied);
      }
      var owned := new OwnedUnixListener(fs, Owned(listener, stat.id));
      return Success(owned);
    }

    /** `Drop::drop`. */
    method Unlink(denied: bool, removeFails: bool)
      requires Valid()
      modifies fs
      ensures fs.State() == if IsOwnSocket(SymlinkMetadata(old(fs.State()), denied), old(Value()).id) && !removeFails
                            then Unlinked(old(fs.State())) else old(fs.State())
      ensures Valid()
    {
      var stat := fs.Metadata(denied);
      if stat.Found? && stat.kind == Socket && stat.id.device == device && stat.id.inode == inode {
        if !removeFails {
          fs.RemoveFile(false);
        }
      }
    }

    /** The whole drop of a listener: `Drop::drop`, then its fields. */
    method Drop(denied: bool, removeFails: bool)
      requires Valid()
      modifies fs
      ensures fs.State() == DropListener(old(fs.State()), old(Value()), denied, removeFails)
      ensures ValidFs(fs.State())
    {
      Unlink(denied, removeFails);
      fs.CloseListener(listener);
    }

    method Verify(env: Env) returns (r: Result<Unit, IoError>)
      requires Valid() && Fresh(fs.State(), env.alloc)
      modifies this, fs
      ensures (fs.State(), Value(), r) == VerifyOrRebind(old(fs.State()), old(Value()), env)
      ensures Valid()
      ensures r.Success? ==> fs.entry == Some(listener)
    {
      var stat := fs.Metadata(env.denied);
      if stat.Found? && stat.kind == Socket && stat.id.device == device && stat.id.inode == inode {
        return Success(Unit);
      }
      if stat.Missing? {
        var replacement := New(fs, env);
        if replacement.Failure? {
          return Failure(replacement.error);
        }
        // *self = replacement
        Drop(env.dropDenied, env.removeFails);
        listener, device, inode := replacement.value.listener, replacement.value.device, replacement.value.inode;
        return Success(Unit);
      }
      return Failure(if stat.Found? then AddrInUse else OsError);
    }
  }

  datatype Start = Suspended(probed: FileId) | Ready(listener: OwnedUnixListener) | Error(error: IoError)

  /** The atomic block of `bind` that ends at `connect`, or at its return if the path is free. */
  method Begin(fs: FileSystem, parent: Parent, env: Env) returns (r: Start)
    requires ValidFs(fs.State()) && Fresh(fs.State(), env.alloc)
    modifies fs
    ensures ValidFs(fs.State())
    ensures fs.State() == BeginBind(old(fs.State()), parent, env).0
    ensures match BeginBind(old(fs.State()), parent, env).1
            case Probe(id) => r == Suspended(id)
            case Acquired(owned) => r.Ready? && fresh(r.listener) && r.listener.fs == fs && r.listener.Valid() && r.listener.Value() == owned
            case Failed(error) => r == Error(error)
  {
    if parent.NoParent? {
      return Error(InvalidInput);
    }
    if parent.NotADirectory? {
      return Error(NotFound);
    }
    var metadata := fs.Metadata(env.denied);
    match metadata {
      case Found(Socket, id) => return Suspended(id);
      case Found(Other, _) => return Error(AlreadyExists);
      case Denied => return Error(OsError);
      case Missing =>
        var bound := OwnedUnixListener.New(fs, env);
        return if bound.Success? then Ready(bound.value) else Error(bound.error);
    }
  }

  /** The atomic block of `bind` after its `connect` has answered. */
  method Resume(fs: FileSystem, probed: FileId, answer: Answer, env: Env)
    returns (r: Result<OwnedUnixListener, IoError>)
    requires ValidFs(fs.State()) && FreshForResume(fs.State(), probed, answer, env)
    modifies fs
    ensures ValidFs(fs.State())
    ensures fs.State() == ResumeBind(old(fs.State()), probed, answer, env).0
    ensures r.Success? ==> fresh(r.value) && r.value.fs == fs && r.value.Valid()
    ensures (if r.Success? then Success(r.value.Value()) else Failure(r.error))
         == ResumeBind(old(fs.State()), probed, answer, env).1
  {
    if answer == Connected {
      return Failure(AddrInUse);
    }
    if !IsStaleAnswer(answer) {
      return Failure(Unverified);
    }
    var current := fs.Metadata(env.denied);
    if !current.Found? {
      return Failure(if current.Missing? then NotFound else OsError);
    }
    if current.kind != Socket || current.id.device != probed.device || current.id.inode != probed.inode {
      return Failure(Changed);
    }
    if env.removeFails {
      return Failure(OsError);
    }
    fs.RemoveFile(env.reclaims);
    r := OwnedUnixListener.New(fs, env);
  }
}
