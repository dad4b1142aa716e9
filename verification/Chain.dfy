/**
 The whole bridge: application -> client -> (TLS) -> server -> agent, and back.

 Two relays, each with two pumps, run side by side over six byte streams under any schedule.
 The server first writes the agent's nonce to the agent; an agent without a nonce has the
 empty one.  Failure and cancellation may end either relay at any time; the session then drops
 its streams, which the local endpoint sees as an end of stream.  Every stream holds a bounded
 number of bytes that have been written and not yet read.
 */
module Chain {
  import opened Prelude
  import opened Relay

  datatype Side = Side(up: Pump, down: Pump, end: End)

  datatype Chain = Chain(
    appOut: Pipe,            // application to client
    toServer: Pipe,          // client to server
    agentIn: Pipe,           // server to agent
    agentOut: Pipe,          // agent to server
    toClient: Pipe,          // server to client
    appIn: Pipe,             // client to application
    client: Side,
    server: Side,
    unsent: seq<byte>,       // what the server has not yet written of the nonce
    capacity: nat)           // how many unread bytes a stream holds

  datatype Leg = ClientUp | ServerUp | ServerDown | ClientDown

  datatype Step =
    | Poll(leg: Leg, move: Move)
    | WriteNonce(n: nat)
    | ClientOk | ServerOk
    | ClientStops(end: End) | ServerStops(end: End)
    | AppWrites(bytes: seq<byte>) | AppEnds | AppReads(n: nat)
    | AgentWrites(bytes: seq<byte>) | AgentEnds | AgentReads(n: nat)

  function HopOf(c: Chain, leg: Leg): Hop {
    match leg
    case ClientUp => Hop(c.appOut, c.client.up, c.toServer)
    case ServerUp => Hop(c.toServer, c.server.up, c.agentIn)
    case ServerDown => Hop(c.agentOut, c.server.down, c.toClient)
    case ClientDown => Hop(c.toClient, c.client.down, c.appIn)
  }

  function SetHop(c: Chain, leg: Leg, h: Hop): Chain {
    match leg
    case ClientUp => c.(appOut := h.src, client := c.client.(up := h.pump), toServer := h.dst)
    case ServerUp => c.(toServer := h.src, server := c.server.(up := h.pump), agentIn := h.dst)
    case ServerDown => c.(agentOut := h.src, server := c.server.(down := h.pump), toClient := h.dst)
    case ClientDown => c.(toClient := h.src, client := c.client.(down := h.pump), appIn := h.dst)
  }

  predicate Runs(c: Chain, leg: Leg) {
    match leg
    case ClientUp => c.client.end == Pending
    case ClientDown => c.client.end == Pending
    case _ => c.server.end == Pending && c.unsent == []
  }

  predicate BothDone(s: Side) {
    s.up.stage == Done && s.down.stage == Done
  }

  predicate Sane(c: Chain) {
    && c.appOut.read <= |c.appOut.sent| && c.toServer.read <= |c.toServer.sent|
    && c.agentIn.read <= |c.agentIn.sent| && c.agentOut.read <= |c.agentOut.sent|
    && c.toClient.read <= |c.toClient.sent| && c.appIn.read <= |c.appIn.sent|
  }

  function Unread(p: Pipe): nat
    requires p.read <= |p.sent|
  {
    |p.sent| - p.read
  }

  /** The stream takes so many bytes more. */
  predicate HasRoom(c: Chain, p: Pipe, n: nat)
    requires p.read <= |p.sent|
  {
    Unread(p) + n <= c.capacity
  }

  predicate CanPoll(c: Chain, leg: Leg, move: Move)
    requires Sane(c)
  {
    Runs(c, leg) && CanMove(HopOf(c, leg), move) && (move.Drain? ==> HasRoom(c, HopOf(c, leg).dst, move.n))
  }

  predicate IsStopped(end: End) {
    end == Failed || end == Interrupted
  }

  predicate Enabled(c: Chain, step: Step)
    requires Sane(c)
  {
    match step
    case Poll(leg, move) => CanPoll(c, leg, move)
    case WriteNonce(n) => c.server.end == Pending && 0 < n <= |c.unsent| && HasRoom(c, c.agentIn, n)
    case ClientOk => c.client.end == Pending && BothDone(c.client)
    case ServerOk => c.server.end == Pending && BothDone(c.server)
    case ClientStops(end) => c.client.end == Pending && IsStopped(end)
    case ServerStops(end) => c.server.end == Pending && IsStopped(end)
    case AppWrites(bytes) => !c.appOut.fin && HasRoom(c, c.appOut, |bytes|)
    case AppEnds => !c.appOut.fin
    case AppReads(n) => 0 < n <= Unread(c.appIn)
    case AgentWrites(bytes) => !c.agentOut.fin && HasRoom(c, c.agentOut, |bytes|)
    case AgentEnds => !c.agentOut.fin
    case AgentReads(n) => 0 < n <= Unread(c.agentIn)
  }

  function Counts(s: Side): End {
    Completed(Stats(s.up.copied, s.down.copied))
  }

  function Apply(c: Chain, step: Step): Chain
    requires Sane(c) && Enabled(c, step)
  {
    match step
    case Poll(leg, move) => SetHop(c, leg, Moved(HopOf(c, leg), move))
    case WriteNonce(n) =>
      c.(agentIn := c.agentIn.(sent := c.agentIn.sent + c.unsent[..n]), unsent := c.unsent[n..])
    case ClientOk => c.(client := c.client.(end := Counts(c.client)))
    case ServerOk => c.(server := c.server.(end := Counts(c.server)))
    case ClientStops(end) => c.(client := c.client.(end := end), appIn := c.appIn.(fin := true))
    case ServerStops(end) => c.(server := c.server.(end := end), agentIn := c.agentIn.(fin := true))
    case AppWrites(bytes) => c.(appOut := c.appOut.(sent := c.appOut.sent + bytes))
    case AppEnds => c.(appOut := c.appOut.(fin := true))
    case AppReads(n) => c.(appIn := c.appIn.(read := c.appIn.read + n))
    case AgentWrites(bytes) => c.(agentOut := c.agentOut.(sent := c.agentOut.sent + bytes))
    case AgentEnds => c.(agentOut := c.agentOut.(fin := true))
    case AgentReads(n) => c.(agentIn := c.agentIn.(read := c.agentIn.read + n))
  }

  /** The application may already have written; nothing has been read or relayed. */
  predicate Initial(c: Chain, nonce: seq<byte>) {
    && c.appOut.read == 0
    && c.toServer == EMPTY && c.agentIn == EMPTY && c.toClient == EMPTY && c.appIn == EMPTY
    && c.agentOut.read == 0
    && c.client == Side(NEW, NEW, Pending) && c.server == Side(NEW, NEW, Pending)
    && c.unsent == nonce && c.capacity > 0
  }

  // ----- what every step keeps

  /** A hop that ends at an endpoint, seen without the close that a stopped relay leaves there. */
  function Open(h: Hop): Hop {
    h.(dst := h.dst.(fin := h.pump.stage == Done))
  }

  /** The server's upward hop, seen as if the rest of the nonce had been written already. */
  function Prefaced(c: Chain): Hop {
    Open(HopOf(c, ServerUp).(dst := c.agentIn.(sent := c.agentIn.sent + c.unsent)))
  }

  ghost predicate Inv(c: Chain, nonce: seq<byte>) {
    && Sane(c)
    && Faithful(HopOf(c, ClientUp), [])
    && Faithful(Prefaced(c), nonce)
    && Faithful(HopOf(c, ServerDown), [])
    && Faithful(Open(HopOf(c, ClientDown)), [])
    && (c.agentIn.fin <==> c.server.up.stage == Done || IsStopped(c.server.end))
    && (c.appIn.fin <==> c.client.down.stage == Done || IsStopped(c.client.end))
    && (c.unsent != [] ==> c.server.up == NEW && c.server.down == NEW)
    && (c.client.end.Completed? ==> BothDone(c.client) && c.client.end == Counts(c.client))
    && (c.server.end.Completed? ==> c.unsent == [] && BothDone(c.server) && c.server.end == Counts(c.server))
  }

  lemma InitialInv(c: Chain, nonce: seq<byte>)
    requires Initial(c, nonce)
    ensures Inv(c, nonce)
  {
  }

  /** More of a hop's sink being read, or more on its source being written, does not matter to it. */
  lemma OuterKeepsFaithful(h: Hop, h': Hop, preface: seq<byte>)
    requires Faithful(h, preface) && h'.pump == h.pump
    requires h.src.sent <= h'.src.sent && h'.src.read == h.src.read
    requires h.src.fin ==> h'.src.fin && h'.src.sent == h.src.sent
    requires h'.dst.sent == h.dst.sent && h'.dst.fin == h.dst.fin
    ensures Faithful(h', preface)
  {
    assert h'.src.sent[..h.src.read] == h.src.sent[..h.src.read];
  }

  lemma MoveEffect(h: Hop, move: Move, preface: seq<byte>)
    requires Faithful(h, preface) && CanMove(h, move)
    ensures var after := Moved(h, move);
            && h.dst.sent <= after.dst.sent && after.dst.read == h.dst.read
            && (h.dst.fin ==> after.dst.fin && after.dst.sent == h.dst.sent)
            && after.src.sent == h.src.sent && after.src.fin == h.src.fin
            && after.src.read >= h.src.read
  {
  }

  lemma ClientUpKeepsInv(c: Chain, move: Move, nonce: seq<byte>)
    requires Inv(c, nonce) && Enabled(c, Poll(ClientUp, move))
    ensures Inv(Apply(c, Poll(ClientUp, move)), nonce)
  {
    var after := Apply(c, Poll(ClientUp, move));
    MoveKeepsFaithful(HopOf(c, ClientUp), move, []);
    MoveEffect(HopOf(c, ClientUp), move, []);
    OuterKeepsFaithful(Prefaced(c), Prefaced(after), nonce);
  }

  /** While its relay runs, a hop is seen as it is. */
  lemma OpenPrefaced(c: Chain, nonce: seq<byte>)
    requires Inv(c, nonce) && c.server.end == Pending && c.unsent == []
    ensures Prefaced(c) == HopOf(c, ServerUp)
  {
    assert c.agentIn.sent + [] == c.agentIn.sent;
  }

  lemma ServerUpKeepsInv(c: Chain, move: Move, nonce: seq<byte>)
    requires Inv(c, nonce) && Enabled(c, Poll(ServerUp, move))
    ensures Inv(Apply(c, Poll(ServerUp, move)), nonce)
  {
    var after := Apply(c, Poll(ServerUp, move));
    OpenPrefaced(c, nonce);
    MoveKeepsFaithful(HopOf(c, ServerUp), move, nonce);
    MoveEffect(HopOf(c, ServerUp), move, nonce);
    assert after.agentIn.sent + [] == after.agentIn.sent;
    OuterKeepsFaithful(HopOf(c, ClientUp), HopOf(after, ClientUp), []);
  }

  lemma ServerDownKeepsInv(c: Chain, move: Move, nonce: seq<byte>)
    requires Inv(c, nonce) && Enabled(c, Poll(ServerDown, move))
    ensures Inv(Apply(c, Poll(ServerDown, move)), nonce)
  {
    var after := Apply(c, Poll(ServerDown, move));
    MoveKeepsFaithful(HopOf(c, ServerDown), move, []);
    MoveEffect(HopOf(c, ServerDown), move, []);
    OuterKeepsFaithful(Open(HopOf(c, ClientDown)), Open(HopOf(after, ClientDown)), []);
  }

  lemma ClientDownKeepsInv(c: Chain, move: Move, nonce: seq<byte>)
    requires Inv(c, nonce) && Enabled(c, Poll(ClientDown, move))
    ensures Inv(Apply(c, Poll(ClientDown, move)), nonce)
  {
    var after := Apply(c, Poll(ClientDown, move));
    MoveKeepsFaithful(HopOf(c, ClientDown), move, []);
    MoveEffect(HopOf(c, ClientDown), move, []);
    OuterKeepsFaithful(HopOf(c, ServerDown), HopOf(after, ServerDown), []);
  }

  lemma NonceKeepsInv(c: Chain, n: nat, nonce: seq<byte>)
    requires Inv(c, nonce) && Enabled(c, WriteNonce(n))
    ensures Inv(Apply(c, WriteNonce(n)), nonce)
  {
    var after := Apply(c, WriteNonce(n));
    assert c.unsent == c.unsent[..n] + c.unsent[n..];
    assert after.agentIn.sent + after.unsent == c.agentIn.sent + c.unsent;
  }

  lemma PollKeepsInv(c: Chain, leg: Leg, move: Move, nonce: seq<byte>)
    requires Inv(c, nonce) && Enabled(c, Poll(leg, move))
    ensures Inv(Apply(c, Poll(leg, move)), nonce)
  {
    match leg {
      case ClientUp => ClientUpKeepsInv(c, move, nonce);
      case ServerUp => ServerUpKeepsInv(c, move, nonce);
      case ServerDown => ServerDownKeepsInv(c, move, nonce);
      case ClientDown => ClientDownKeepsInv(c, move, nonce);
    }
  }

  lemma WritesKeepInv(c: Chain, bytes: seq<byte>, nonce: seq<byte>)
    requires Inv(c, nonce)
    ensures Enabled(c, AppWrites(bytes)) ==> Inv(Apply(c, AppWrites(bytes)), nonce)
    ensures Enabled(c, AgentWrites(bytes)) ==> Inv(Apply(c, AgentWrites(bytes)), nonce)
  {
    if Enabled(c, AppWrites(bytes)) {
      OuterKeepsFaithful(HopOf(c, ClientUp), HopOf(Apply(c, AppWrites(bytes)), ClientUp), []);
    }
    if Enabled(c, AgentWrites(bytes)) {
      OuterKeepsFaithful(HopOf(c, ServerDown), HopOf(Apply(c, AgentWrites(bytes)), ServerDown), []);
    }
  }

  /** The end of a relay. */
  predicate IsEnd(step: Step) {
    step.ClientOk? || step.ServerOk? || step.ClientStops? || step.ServerStops?
  }

  lemma EndsKeepInv(c: Chain, step: Step, nonce: seq<byte>)
    requires Inv(c, nonce) && Enabled(c, step) && IsEnd(step)
    ensures Inv(Apply(c, step), nonce)
  {
    if step.ServerStops? {
      assert Prefaced(Apply(c, step)) == Prefaced(c);
    }
  }

  lemma OutsideKeepsInv(c: Chain, step: Step, nonce: seq<byte>)
    requires Inv(c, nonce) && Enabled(c, step)
    requires step.AppEnds? || step.AppReads? || step.AgentEnds? || step.AgentReads?
    ensures Inv(Apply(c, step), nonce)
  {
  }

  lemma StepKeepsInv(c: Chain, step: Step, nonce: seq<byte>)
    requires Inv(c, nonce) && Enabled(c, step)
    ensures Inv(Apply(c, step), nonce)
  {
    match step {
      case Poll(leg, move) => PollKeepsInv(c, leg, move, nonce);
      case WriteNonce(n) => NonceKeepsInv(c, n, nonce);
      case AppWrites(bytes) => WritesKeepInv(c, bytes, nonce);
      case AgentWrites(bytes) => WritesKeepInv(c, bytes, nonce);
      case _ =>
        if IsEnd(step) {
          EndsKeepInv(c, step, nonce);
        } else {
          OutsideKeepsInv(c, step, nonce);
        }
    }
  }

  ghost predicate Run(chains: seq<Chain>, steps: seq<Step>) {
    && |chains| == |steps| + 1
    && (forall k :: 0 <= k < |steps| ==>
          Sane(chains[k]) && Enabled(chains[k], steps[k]) && chains[k + 1] == Apply(chains[k], steps[k]))
  }

  lemma {:induction false} ReachableInv(chains: seq<Chain>, steps: seq<Step>, nonce: seq<byte>, k: nat)
    requires Run(chains, steps) && Inv(chains[0], nonce) && k < |chains|
    ensures Inv(chains[k], nonce)
  {
    if k > 0 {
      ReachableInv(chains, steps, nonce, k - 1);
      StepKeepsInv(chains[k - 1], steps[k - 1], nonce);
    }
  }

  // ----- end to end

  function Rest(p: Pipe): seq<byte>
    requires p.read <= |p.sent|
  {
    p.sent[p.read..]
  }

  /** What is on its way to the agent, in order: unwritten nonce, then the contents of every buffer and stream. */
  function InTransitUp(c: Chain): seq<byte>
    requires Sane(c)
  {
    c.unsent + (c.server.up.buffer + (Rest(c.toServer) + (c.client.up.buffer + Rest(c.appOut))))
  }

  /** What is on its way to the application. */
  function InTransitDown(c: Chain): seq<byte>
    requires Sane(c)
  {
    c.client.down.buffer + (Rest(c.toClient) + (c.server.down.buffer + Rest(c.agentOut)))
  }

  lemma Associative(a: seq<byte>, b: seq<byte>, c: seq<byte>)
    ensures a + (b + c) == (a + b) + c
  {
  }

  lemma HopConserves(h: Hop, preface: seq<byte>)
    requires Faithful(h, preface)
    ensures preface + h.src.sent == h.dst.sent + (h.pump.buffer + Rest(h.src))
  {
    var taken := h.src.sent[..h.src.read];
    assert h.src.sent == taken + Rest(h.src);
    Associative(preface, taken, Rest(h.src));
    Associative(h.dst.sent, h.pump.buffer, Rest(h.src));
  }

  lemma Nested(a: seq<byte>, b: seq<byte>, c: seq<byte>, tail: seq<byte>)
    ensures (a + (b + c)) + tail == a + (b + (c + tail))
  {
  }

  /** Two hops in a row: what the second has not taken from the stream between them is still there. */
  lemma HopsCompose(first: Hop, second: Hop, preface: seq<byte>)
    requires Faithful(first, []) && Faithful(second, preface) && second.src == first.dst
    ensures preface + first.src.sent
            == second.dst.sent + (second.pump.buffer + (Rest(second.src) + (first.pump.buffer + Rest(first.src))))
  {
    var tail := first.pump.buffer + Rest(first.src);
    HopConserves(first, []);
    HopConserves(second, preface);
    assert [] + first.src.sent == first.src.sent;
    Associative(preface, first.dst.sent, tail);
    Nested(second.dst.sent, second.pump.buffer, Rest(second.src), tail);
  }

  /**
   Nothing is lost, added or reordered while it is under way, whatever fails: in every state what
   an endpoint has been sent, followed by what is in transit, is what the other one has written.
   */
  lemma BytesConserved(chains: seq<Chain>, steps: seq<Step>, nonce: seq<byte>, k: nat)
    requires Run(chains, steps) && Initial(chains[0], nonce) && k < |chains|
    ensures var c := chains[k];
            && Sane(c)
            && nonce + c.appOut.sent == c.agentIn.sent + InTransitUp(c)
            && c.agentOut.sent == c.appIn.sent + InTransitDown(c)
  {
    InitialInv(chains[0], nonce);
    ReachableInv(chains, steps, nonce, k);
    InvConserves(chains[k], nonce);
  }

  lemma InvConserves(c: Chain, nonce: seq<byte>)
    requires Inv(c, nonce)
    ensures nonce + c.appOut.sent == c.agentIn.sent + InTransitUp(c)
    ensures c.agentOut.sent == c.appIn.sent + InTransitDown(c)
  {
    HopsCompose(HopOf(c, ClientUp), Prefaced(c), nonce);
    var later := c.server.up.buffer + (Rest(c.toServer) + (c.client.up.buffer + Rest(c.appOut)));
    Associative(c.agentIn.sent, c.unsent, later);
    HopsCompose(HopOf(c, ServerDown), Open(HopOf(c, ClientDown)), []);
    assert [] + c.agentOut.sent == c.agentOut.sent;
  }

  /** Whatever happens, the agent receives a prefix of nonce and application output, the application one of agent output. */
  lemma InputsArePrefixes(chains: seq<Chain>, steps: seq<Step>, nonce: seq<byte>, k: nat)
    requires Run(chains, steps) && Initial(chains[0], nonce) && k < |chains|
    ensures chains[k].agentIn.sent <= nonce + chains[k].appOut.sent
    ensures chains[k].appIn.sent <= chains[k].agentOut.sent
  {
    BytesConserved(chains, steps, nonce, k);
  }

  /** The application's end of stream is the end of the agent's output, and all of that has come before it. */
  predicate AppEndIsTrue(c: Chain) {
    c.agentOut.fin && c.appIn.sent == c.agentOut.sent
  }

  predicate AgentEndIsTrue(c: Chain, nonce: seq<byte>) {
    c.appOut.fin && c.agentIn.sent == nonce + c.appOut.sent
  }

  lemma AppEndTrueExactly(c: Chain, nonce: seq<byte>)
    requires Inv(c, nonce)
    ensures c.client.down.stage == Done ==> AppEndIsTrue(c)
    ensures AppEndIsTrue(c) <==> c.agentOut.fin && InTransitDown(c) == []
  {
    InvConserves(c, nonce);
    if c.client.down.stage == Done {
      DoneDelivers(Open(HopOf(c, ClientDown)), []);
      DoneDelivers(HopOf(c, ServerDown), []);
      assert [] + c.toClient.sent == c.toClient.sent && [] + c.agentOut.sent == c.agentOut.sent;
    }
    if c.appIn.sent == c.agentOut.sent {
      assert |InTransitDown(c)| == 0;
    }
  }

  lemma AgentEndTrueExactly(c: Chain, nonce: seq<byte>)
    requires Inv(c, nonce)
    ensures c.server.up.stage == Done ==> AgentEndIsTrue(c, nonce)
    ensures AgentEndIsTrue(c, nonce) <==> c.appOut.fin && InTransitUp(c) == []
  {
    InvConserves(c, nonce);
    if c.server.up.stage == Done {
      assert c.unsent == [];
      DoneDelivers(Prefaced(c), nonce);
      DoneDelivers(HopOf(c, ClientUp), []);
      assert c.agentIn.sent + c.unsent == c.agentIn.sent;
      assert [] + c.appOut.sent == c.appOut.sent;
    }
    if c.agentIn.sent == nonce + c.appOut.sent {
      assert |InTransitUp(c)| == 0;
    }
  }

  function WrittenByApp(steps: seq<Step>): seq<byte> {
    if steps == [] then []
    else WrittenByApp(steps[..|steps| - 1]) + (if steps[|steps| - 1].AppWrites? then steps[|steps| - 1].bytes else [])
  }

  function WrittenByAgent(steps: seq<Step>): seq<byte> {
    if steps == [] then []
    else WrittenByAgent(steps[..|steps| - 1]) + (if steps[|steps| - 1].AgentWrites? then steps[|steps| - 1].bytes else [])
  }

  /** The streams from the endpoints hold what they have written, in order, and nothing else. */
  lemma {:induction false} OutputsAreWritten(chains: seq<Chain>, steps: seq<Step>, k: nat)
    requires Run(chains, steps) && k < |chains|
    ensures chains[k].appOut.sent == chains[0].appOut.sent + WrittenByApp(steps[..k])
    ensures chains[k].agentOut.sent == chains[0].agentOut.sent + WrittenByAgent(steps[..k])
  {
    if k > 0 {
      OutputsAreWritten(chains, steps, k - 1);
      OutputStep(chains[k - 1], steps[k - 1]);
      assert steps[..k][..k - 1] == steps[..k - 1];
      var (c, step) := (chains[0], steps[k - 1]);
      Associative(c.appOut.sent, WrittenByApp(steps[..k - 1]), if step.AppWrites? then step.bytes else []);
      Associative(c.agentOut.sent, WrittenByAgent(steps[..k - 1]), if step.AgentWrites? then step.bytes else []);
    }
  }

  lemma OutputStep(c: Chain, step: Step)
    requires Sane(c) && Enabled(c, step)
    ensures Apply(c, step).appOut.sent == c.appOut.sent + (if step.AppWrites? then step.bytes else [])
    ensures Apply(c, step).agentOut.sent == c.agentOut.sent + (if step.AgentWrites? then step.bytes else [])
  {
    assert c.appOut.sent + [] == c.appOut.sent && c.agentOut.sent + [] == c.agentOut.sent;
  }

  /** A running relay may fail or be cancelled at any moment, and what it leaves is an end of stream at its endpoint. */
  lemma RelaysMayStop(c: Chain, end: End)
    requires Sane(c) && IsStopped(end)
    ensures c.client.end == Pending ==>
              Enabled(c, ClientStops(end)) && Apply(c, ClientStops(end)).client.end == end && Apply(c, ClientStops(end)).appIn.fin
    ensures c.server.end == Pending ==>
              Enabled(c, ServerStops(end)) && Apply(c, ServerStops(end)).server.end == end && Apply(c, ServerStops(end)).agentIn.fin
  {
  }

  /**
   When the ends that endpoints see are true.  In every run an endpoint sees an end of stream when
   the pump towards it is done or its relay has failed or been cancelled.  A pump that is done
   has delivered everything first; otherwise the end is true exactly if the other endpoint has
   ended its output and nothing of it is in transit.
   */
  lemma EndsTrueExactly(chains: seq<Chain>, steps: seq<Step>, nonce: seq<byte>, k: nat)
    requires Run(chains, steps) && Initial(chains[0], nonce) && k < |chains|
    ensures var c := chains[k];
            && Sane(c)
            && (c.appIn.fin <==> c.client.down.stage == Done || IsStopped(c.client.end))
            && (c.agentIn.fin <==> c.server.up.stage == Done || IsStopped(c.server.end))
            && (c.client.down.stage == Done ==> AppEndIsTrue(c))
            && (c.server.up.stage == Done ==> AgentEndIsTrue(c, nonce))
            && (AppEndIsTrue(c) <==> c.agentOut.fin && InTransitDown(c) == [])
            && (AgentEndIsTrue(c, nonce) <==> c.appOut.fin && InTransitUp(c) == [])
  {
    InitialInv(chains[0], nonce);
    ReachableInv(chains, steps, nonce, k);
    AppEndTrueExactly(chains[k], nonce);
    AgentEndTrueExactly(chains[k], nonce);
  }

  /**
   The step that brings the end to the application is the last move of the pump towards it or the
   stop of its relay, and the end is true at that moment if and only if it is the former, or the
   agent had ended and nothing was in transit.
   */
  lemma AppEndArrives(chains: seq<Chain>, steps: seq<Step>, nonce: seq<byte>, k: nat)
    requires Run(chains, steps) && Initial(chains[0], nonce) && k < |steps|
    requires !chains[k].appIn.fin && chains[k + 1].appIn.fin
    ensures Sane(chains[k]) && (steps[k] == Poll(ClientDown, Shutdown) || steps[k].ClientStops?)
    ensures AppEndIsTrue(chains[k + 1])
       <==> steps[k] == Poll(ClientDown, Shutdown) || (chains[k].agentOut.fin && InTransitDown(chains[k]) == [])
  {
    EndsTrueExactly(chains, steps, nonce, k);
    EndsTrueExactly(chains, steps, nonce, k + 1);
    AppCloses(chains[k], steps[k]);
  }

  lemma AppCloses(c: Chain, step: Step)
    requires Sane(c) && Enabled(c, step) && !c.appIn.fin && Apply(c, step).appIn.fin
    ensures step == Poll(ClientDown, Shutdown) || step.ClientStops?
    ensures step == Poll(ClientDown, Shutdown) ==> Apply(c, step).client.down.stage == Done
    ensures step.ClientStops? ==> Sane(Apply(c, step)) && InTransitDown(Apply(c, step)) == InTransitDown(c)
                                  && Apply(c, step).agentOut == c.agentOut
  {
  }

  /** The same at the agent's side. */
  lemma AgentEndArrives(chains: seq<Chain>, steps: seq<Step>, nonce: seq<byte>, k: nat)
    requires Run(chains, steps) && Initial(chains[0], nonce) && k < |steps|
    requires !chains[k].agentIn.fin && chains[k + 1].agentIn.fin
    ensures Sane(chains[k]) && (steps[k] == Poll(ServerUp, Shutdown) || steps[k].ServerStops?)
    ensures AgentEndIsTrue(chains[k + 1], nonce)
       <==> steps[k] == Poll(ServerUp, Shutdown) || (chains[k].appOut.fin && InTransitUp(chains[k]) == [])
  {
    EndsTrueExactly(chains, steps, nonce, k);
    EndsTrueExactly(chains, steps, nonce, k + 1);
    AgentCloses(chains[k], steps[k]);
  }

  lemma AgentCloses(c: Chain, step: Step)
    requires Sane(c) && Enabled(c, step) && !c.agentIn.fin && Apply(c, step).agentIn.fin
    ensures step == Poll(ServerUp, Shutdown) || step.ServerStops?
    ensures step == Poll(ServerUp, Shutdown) ==> Apply(c, step).server.up.stage == Done
    ensures step.ServerStops? ==> Sane(Apply(c, step)) && InTransitUp(Apply(c, step)) == InTransitUp(c)
                                  && Apply(c, step).appOut == c.appOut
  {
  }

  /** A chain in which only the reply is on its way. */
  function Replying(agentOut: Pipe, serverDown: Pump, toClient: Pipe, clientDown: Pump, appIn: Pipe): Chain {
    Chain(EMPTY, EMPTY, EMPTY, agentOut, toClient, appIn, Side(NEW, clientDown, Pending), Side(NEW, serverDown, Pending), [], 2)
  }

  const WRITTEN: Pipe := Pipe([7, 8], 0, false)
  const TAKEN: Pipe := Pipe([7, 8], 2, false)

  lemma ReplyTaken(toClient: Pipe, h: Hop)
    requires h == Hop(WRITTEN, NEW, toClient)
    ensures CanMove(h, Fill(2)) && Moved(h, Fill(2)) == Hop(TAKEN, NEW.(buffer := [7, 8]), toClient)
  {
    assert NEW.buffer + WRITTEN.sent[0..2] == [7, 8];
  }

  lemma ReplyPassedOn(n: nat)
    requires n == 1 || n == 2
    ensures var h := Hop(TAKEN, NEW.(buffer := [7, 8]), EMPTY);
            && CanMove(h, Drain(n))
            && Moved(h, Drain(n)) == Hop(TAKEN, NEW.(buffer := [7, 8][n..], copied := n), Pipe([7, 8][..n], 0, false))
  {
    assert EMPTY.sent + [7, 8][..n] == [7, 8][..n];
  }

  lemma ServerPassesReply(written: Chain) returns (chains: seq<Chain>, steps: seq<Step>)
    requires written == Replying(WRITTEN, NEW, EMPTY, NEW, EMPTY)
    ensures Run(chains, steps) && |steps| == 2 && chains[0] == written
    ensures chains[2] == Replying(TAKEN, NEW.(copied := 2), WRITTEN, NEW, EMPTY)
  {
    var taken := Replying(TAKEN, NEW.(buffer := [7, 8]), EMPTY, NEW, EMPTY);
    ReplyTaken(EMPTY, HopOf(written, ServerDown));
    ReplyPassedOn(2);
    assert [7, 8][2..] == [] && [7, 8][..2] == [7, 8];
    steps := [Poll(ServerDown, Fill(2)), Poll(ServerDown, Drain(2))];
    chains := [written, taken, Replying(TAKEN, NEW.(copied := 2), WRITTEN, NEW, EMPTY)];
  }

  lemma ClientPassesHalf(there: Chain) returns (chains: seq<Chain>, steps: seq<Step>)
    requires there == Replying(TAKEN, NEW.(copied := 2), WRITTEN, NEW, EMPTY)
    ensures Run(chains, steps) && |steps| == 2 && chains[0] == there
    ensures chains[2] == Replying(TAKEN, NEW.(copied := 2), TAKEN, NEW.(buffer := [8], copied := 1), Pipe([7], 0, false))
  {
    var taken := Replying(TAKEN, NEW.(copied := 2), TAKEN, NEW.(buffer := [7, 8]), EMPTY);
    ReplyTaken(EMPTY, HopOf(there, ClientDown));
    ReplyPassedOn(1);
    assert [7, 8][1..] == [8] && [7, 8][..1] == [7];
    steps := [Poll(ClientDown, Fill(2)), Poll(ClientDown, Drain(1))];
    chains := [there, taken,
               Replying(TAKEN, NEW.(copied := 2), TAKEN, NEW.(buffer := [8], copied := 1), Pipe([7], 0, false))];
  }

  lemma RunsJoin(a: seq<Chain>, s: seq<Step>, b: seq<Chain>, t: seq<Step>)
    requires Run(a, s) && Run(b, t) && a[|s|] == b[0]
    ensures Run(a[..|s|] + b, s + t)
  {
    var (chains, steps) := (a[..|s|] + b, s + t);
    forall k | 0 <= k < |steps|
      ensures Sane(chains[k]) && Enabled(chains[k], steps[k]) && chains[k + 1] == Apply(chains[k], steps[k])
    {
      if k < |s| {
        assert chains[k] == a[k] && steps[k] == s[k] && chains[k + 1] == a[k + 1];
      } else {
        assert chains[k] == b[k - |s|] && steps[k] == t[k - |s|] && chains[k + 1] == b[k + 1 - |s|];
      }
    }
  }

  lemma OneStep(c: Chain, step: Step)
    requires Sane(c) && Enabled(c, step)
    ensures Run([c, Apply(c, step)], [step])
  {
  }

  /**
   A cancelled client ends the application's stream early: the agent has written two bytes and has
   not ended, the application gets the first one and then an end of stream.
   */
  lemma CancelledClientCutsReply() returns (chains: seq<Chain>, steps: seq<Step>)
    ensures Run(chains, steps) && Initial(chains[0], []) && |steps| == 6 && steps[5] == ClientStops(Interrupted)
    ensures var last := chains[6];
            last.appIn.fin && last.appIn.sent == [7] && last.agentOut.sent == [7, 8] && !last.agentOut.fin
  {
    var start := Replying(EMPTY, NEW, EMPTY, NEW, EMPTY);
    var written := Replying(WRITTEN, NEW, EMPTY, NEW, EMPTY);
    assert EMPTY.sent + [7, 8] == [7, 8];
    assert Apply(start, AgentWrites([7, 8])) == written;
    OneStep(start, AgentWrites([7, 8]));
    var b, t := ServerPassesReply(written);
    var d, u := ClientPassesHalf(b[2]);
    OneStep(d[2], ClientStops(Interrupted));
    RunsJoin([start, written], [AgentWrites([7, 8])], b, t);
    RunsJoin([start, written][..1] + b, [AgentWrites([7, 8])] + t, d, u);
    var chains', steps' := ([start, written][..1] + b)[..3] + d, [AgentWrites([7, 8])] + t + u;
    RunsJoin(chains', steps', [d[2], Apply(d[2], ClientStops(Interrupted))], [ClientStops(Interrupted)]);
    chains := chains'[..5] + [d[2], Apply(d[2], ClientStops(Interrupted))];
    steps := steps' + [ClientStops(Interrupted)];
  }

  lemma CompletedDelivered(c: Chain, nonce: seq<byte>)
    requires Inv(c, nonce) && c.client.end.Completed? && c.server.end.Completed?
    ensures c.agentIn.sent == nonce + c.appOut.sent && c.appIn.sent == c.agentOut.sent
    ensures c.appOut.fin && c.agentIn.fin && c.agentOut.fin && c.appIn.fin
    ensures c.client.end.stats == c.server.end.stats == Stats(|c.appOut.sent|, |c.agentOut.sent|)
  {
    DoneDelivers(HopOf(c, ClientUp), []);
    DoneDelivers(Prefaced(c), nonce);
    DoneDelivers(HopOf(c, ServerDown), []);
    DoneDelivers(Open(HopOf(c, ClientDown)), []);
    assert c.agentIn.sent + c.unsent == c.agentIn.sent;
    assert [] + c.appOut.sent == c.appOut.sent;
    assert [] + c.toClient.sent == c.toClient.sent && [] + c.agentOut.sent == c.agentOut.sent;
  }

  /** When both relays return Ok, everything was delivered and both report the same counts. */
  lemma BothOkDelivered(chains: seq<Chain>, steps: seq<Step>, nonce: seq<byte>, k: nat)
    requires Run(chains, steps) && Initial(chains[0], nonce) && k < |chains|
    requires chains[k].client.end.Completed? && chains[k].server.end.Completed?
    ensures var c := chains[k];
            && c.agentIn.sent == nonce + c.appOut.sent && c.appIn.sent == c.agentOut.sent
            && c.appOut.fin && c.agentIn.fin && c.agentOut.fin && c.appIn.fin
            && c.client.end.stats == c.server.end.stats == Stats(|c.appOut.sent|, |c.agentOut.sent|)
  {
    InitialInv(chains[0], nonce);
    ReachableInv(chains, steps, nonce, k);
    CompletedDelivered(chains[k], nonce);
  }

  // ----- progress: nothing the bridge does goes on for ever, and it only waits for endpoints that do not read

  function UpWork(c: Chain): nat
    requires Sane(c)
  {
    5 * Unread(c.appOut) + 4 * |c.client.up.buffer| + 3 * Unread(c.toServer) + 2 * |c.server.up.buffer|
    + 2 * |c.unsent| + Unread(c.agentIn) + Rank(c.client.up) + Rank(c.server.up)
  }

  function DownWork(c: Chain): nat
    requires Sane(c)
  {
    5 * Unread(c.agentOut) + 4 * |c.server.down.buffer| + 3 * Unread(c.toClient) + 2 * |c.client.down.buffer|
    + Unread(c.appIn) + Rank(c.server.down) + Rank(c.client.down)
  }

  /** What is still to be done: bytes weighted by the hands they must go through, and stages. */
  function Work(c: Chain): nat
    requires Sane(c)
  {
    UpWork(c) + DownWork(c) + (if c.client.end == Pending then 1 else 0) + (if c.server.end == Pending then 1 else 0)
  }

  /** A step of the bridge itself, without failure or cancellation. */
  predicate Internal(step: Step) {
    step.Poll? || step.WriteNonce? || step.ClientOk? || step.ServerOk?
  }

  /** A step of the bridge, or an endpoint reads. */
  predicate Progress(step: Step) {
    Internal(step) || step.AppReads? || step.AgentReads?
  }

  /** A move shifts bytes towards the sink, where they weigh less, or lowers the pump's rank. */
  lemma MoveWorks(h: Hop, move: Move)
    requires h.src.read <= |h.src.sent| && h.dst.read <= |h.dst.sent| && CanMove(h, move)
    ensures var after := Moved(h, move);
            && after.src.read <= |after.src.sent| && after.dst.read <= |after.dst.sent|
            && 5 * Unread(after.src) + 4 * |after.pump.buffer| + 3 * Unread(after.dst) + Rank(after.pump)
               < 5 * Unread(h.src) + 4 * |h.pump.buffer| + 3 * Unread(h.dst) + Rank(h.pump)
            && 3 * Unread(after.src) + 2 * |after.pump.buffer| + Unread(after.dst) + Rank(after.pump)
               < 3 * Unread(h.src) + 2 * |h.pump.buffer| + Unread(h.dst) + Rank(h.pump)
  {
  }

  lemma PollWorks(c: Chain, leg: Leg, move: Move)
    requires Sane(c) && CanPoll(c, leg, move)
    ensures Sane(Apply(c, Poll(leg, move)))
    ensures UpWork(Apply(c, Poll(leg, move))) + DownWork(Apply(c, Poll(leg, move))) < UpWork(c) + DownWork(c)
  {
    MoveWorks(HopOf(c, leg), move);
    match leg {
      case ClientUp =>
      case ServerUp =>
      case ServerDown =>
      case ClientDown =>
    }
  }

  lemma ProgressWorks(c: Chain, step: Step)
    requires Sane(c) && Enabled(c, step) && Progress(step)
    ensures Sane(Apply(c, step)) && Work(Apply(c, step)) < Work(c)
  {
    if step.Poll? {
      PollWorks(c, step.leg, step.move);
    }
  }

  predicate IsFull(c: Chain, p: Pipe)
    requires p.read <= |p.sent|
  {
    !HasRoom(c, p, 1)
  }

  /** A pump with bytes before it can move, if its sink is not full. */
  lemma BytesMove(h: Hop) returns (move: Move)
    requires h.src.read <= |h.src.sent| && |h.pump.buffer| <= BUFFER_SIZE
    requires h.pump.stage == Running && (h.pump.eof ==> Unread(h.src) == 0)
    requires h.pump.buffer != [] || Unread(h.src) > 0
    ensures CanMove(h, move) && (move.Drain? ==> move.n == 1)
  {
    move := if h.pump.buffer != [] then Drain(1) else Fill(1);
  }

  /** A hop whose source has ended either can move or is done. */
  lemma HopNeverStuck(h: Hop, preface: seq<byte>) returns (move: Move)
    requires Faithful(h, preface) && h.src.fin && |h.pump.buffer| <= BUFFER_SIZE
    ensures h.pump.stage == Done || (CanMove(h, move) && (move.Drain? ==> move.n == 1))
  {
    if h.pump.buffer != [] {
      move := Drain(1);
    } else if h.src.read < |h.src.sent| {
      move := Fill(1);
    } else if !h.pump.eof {
      move := SeeEof;
    } else if h.pump.stage == Running {
      move := Finish;
    } else {
      move := Shutdown;
    }
  }

  predicate Bounded(c: Chain) {
    && |c.client.up.buffer| <= BUFFER_SIZE && |c.client.down.buffer| <= BUFFER_SIZE
    && |c.server.up.buffer| <= BUFFER_SIZE && |c.server.down.buffer| <= BUFFER_SIZE
    && c.capacity > 0
  }

  predicate NoneStopped(c: Chain) {
    !IsStopped(c.client.end) && !IsStopped(c.server.end)
  }

  predicate BothCompleted(c: Chain) {
    c.client.end.Completed? && c.server.end.Completed?
  }

  /** The bridge's next step towards the agent, or the news that this direction is done. */
  lemma UpNext(c: Chain, nonce: seq<byte>) returns (step: Step)
    requires Inv(c, nonce) && Bounded(c) && NoneStopped(c) && c.appOut.fin && !IsFull(c, c.agentIn)
    ensures (c.unsent == [] && c.client.up.stage == Done && c.server.up.stage == Done) || (Internal(step) && Enabled(c, step))
  {
    if c.unsent != [] {
      return WriteNonce(1);
    }
    assert c.agentIn.sent + c.unsent == c.agentIn.sent;
    if c.server.up.buffer != [] || Unread(c.toServer) > 0 {
      var move := BytesMove(HopOf(c, ServerUp));
      return Poll(ServerUp, move);
    }
    if c.client.up.stage != Done {
      var move := HopNeverStuck(HopOf(c, ClientUp), []);
      return Poll(ClientUp, move);
    }
    var move := HopNeverStuck(Prefaced(c), nonce);
    step := Poll(ServerUp, move);
  }

  lemma DownNext(c: Chain, nonce: seq<byte>) returns (step: Step)
    requires Inv(c, nonce) && Bounded(c) && NoneStopped(c) && c.agentOut.fin && c.unsent == [] && !IsFull(c, c.appIn)
    ensures (c.client.down.stage == Done && c.server.down.stage == Done) || (Internal(step) && Enabled(c, step))
  {
    if c.client.down.buffer != [] || Unread(c.toClient) > 0 {
      var move := BytesMove(HopOf(c, ClientDown));
      return Poll(ClientDown, move);
    }
    if c.server.down.stage != Done {
      var move := HopNeverStuck(HopOf(c, ServerDown), []);
      return Poll(ServerDown, move);
    }
    var move := HopNeverStuck(Open(HopOf(c, ClientDown)), []);
    step := Poll(ClientDown, move);
  }

  /**
   Back-pressure: once both endpoints have ended their output, the bridge can go on until both relays
   have returned Ok, unless an endpoint leaves its own stream full; and that endpoint can then read.
   */
  lemma NeverStuck(c: Chain, nonce: seq<byte>) returns (step: Step)
    requires Inv(c, nonce) && Bounded(c) && NoneStopped(c) && c.appOut.fin && c.agentOut.fin
    ensures BothCompleted(c) || (Progress(step) && Enabled(c, step))
    ensures BothCompleted(c) || Internal(step) || IsFull(c, c.agentIn) || IsFull(c, c.appIn)
  {
    if IsFull(c, c.agentIn) {
      return AgentReads(1);
    }
    if IsFull(c, c.appIn) {
      return AppReads(1);
    }
    step := UpNext(c, nonce);
    if c.unsent == [] && c.client.up.stage == Done && c.server.up.stage == Done {
      step := DownNext(c, nonce);
      if c.client.down.stage == Done && c.server.down.stage == Done {
        step := if c.client.end == Pending then ClientOk else ServerOk;
      }
    }
  }

  lemma MoveKeepsBounded(h: Hop, move: Move)
    requires h.src.read <= |h.src.sent| && CanMove(h, move) && |h.pump.buffer| <= BUFFER_SIZE
    ensures |Moved(h, move).pump.buffer| <= BUFFER_SIZE
  {
  }

  lemma StepKeepsBounded(c: Chain, step: Step)
    requires Sane(c) && Enabled(c, step) && Bounded(c)
    ensures Bounded(Apply(c, step))
  {
    if step.Poll? {
      MoveKeepsBounded(HopOf(c, step.leg), step.move);
      match step.leg {
        case ClientUp =>
        case ServerUp =>
        case ServerDown =>
        case ClientDown =>
      }
    }
  }

  lemma {:induction false} BoundedThroughout(chains: seq<Chain>, steps: seq<Step>, k: nat)
    requires Run(chains, steps) && Bounded(chains[0]) && k < |chains|
    ensures Bounded(chains[k])
  {
    if k > 0 {
      BoundedThroughout(chains, steps, k - 1);
      StepKeepsBounded(chains[k - 1], steps[k - 1]);
    }
  }

  ghost predicate ProgressRun(chains: seq<Chain>, steps: seq<Step>) {
    Run(chains, steps) && forall k :: 0 <= k < |steps| ==> Progress(steps[k])
  }

  /** What the endpoints have written stays, and nothing fails. */
  predicate Undisturbed(c: Chain, after: Chain) {
    && after.appOut.fin == c.appOut.fin && after.appOut.sent == c.appOut.sent
    && after.agentOut.fin == c.agentOut.fin && after.agentOut.sent == c.agentOut.sent
    && (NoneStopped(c) ==> NoneStopped(after))
  }

  lemma ProgressUndisturbed(c: Chain, step: Step)
    requires Sane(c) && Enabled(c, step) && Progress(step)
    ensures Undisturbed(c, Apply(c, step))
  {
  }

  lemma {:induction false} ProgressRunsAreShort(chains: seq<Chain>, steps: seq<Step>, k: nat)
    requires ProgressRun(chains, steps) && Sane(chains[0]) && k < |chains|
    ensures Sane(chains[k]) && Work(chains[k]) + k <= Work(chains[0])
  {
    if k > 0 {
      ProgressRunsAreShort(chains, steps, k - 1);
      ProgressWorks(chains[k - 1], steps[k - 1]);
    }
  }

  lemma {:induction false} ProgressRunsUndisturbed(chains: seq<Chain>, steps: seq<Step>, k: nat)
    requires ProgressRun(chains, steps) && k < |chains|
    ensures Undisturbed(chains[0], chains[k])
  {
    if k > 0 {
      ProgressRunsUndisturbed(chains, steps, k - 1);
      ProgressUndisturbed(chains[k - 1], steps[k - 1]);
    }
  }

  /** Nothing of the bridge or of the endpoints' reading is left to do. */
  ghost predicate AtRest(c: Chain)
    requires Sane(c)
  {
    forall step :: Progress(step) ==> !Enabled(c, step)
  }

  /** Everything has been delivered and read, and both relays say so. */
  predicate Delivered(c: Chain, nonce: seq<byte>) {
    && c.client.end == c.server.end == Completed(Stats(|c.appOut.sent|, |c.agentOut.sent|))
    && c.agentIn == Pipe(nonce + c.appOut.sent, |nonce| + |c.appOut.sent|, true)
    && c.appIn == Pipe(c.agentOut.sent, |c.agentOut.sent|, true)
  }

  lemma RestDelivers(c: Chain, nonce: seq<byte>)
    requires Inv(c, nonce) && Bounded(c) && NoneStopped(c) && c.appOut.fin && c.agentOut.fin && AtRest(c)
    ensures Delivered(c, nonce)
  {
    var step := NeverStuck(c, nonce);
    CompletedDelivered(c, nonce);
    assert !Enabled(c, AgentReads(1)) && !Enabled(c, AppReads(1));
  }

  /**
   From any reachable state in which no relay has failed and both endpoints have ended their
   output, every schedule of the bridge's steps and the endpoints' reads is finite, however small
   the streams are, and when nothing is left to do both relays have returned Ok: the agent has
   read the nonce and all of the application's output, and conversely.
   */
  lemma EveryScheduleDelivers(past: seq<Chain>, before: seq<Step>, chains: seq<Chain>, steps: seq<Step>, nonce: seq<byte>)
    requires Run(past, before) && Initial(past[0], nonce)
    requires ProgressRun(chains, steps) && chains[0] == past[|before|] && chains[0].appOut.fin && chains[0].agentOut.fin
    requires NoneStopped(chains[0])
    ensures Sane(chains[0]) && |steps| <= Work(chains[0])
    ensures var last := chains[|steps|];
            && Sane(last)
            && last.appOut.sent == chains[0].appOut.sent && last.agentOut.sent == chains[0].agentOut.sent
            && (AtRest(last) ==> Delivered(last, nonce))
  {
    InitialInv(past[0], nonce);
    ReachableInv(past, before, nonce, |before|);
    BoundedThroughout(past, before, |before|);
    ProgressRunsAreShort(chains, steps, |steps|);
    ProgressRunsUndisturbed(chains, steps, |steps|);
    ReachableInv(chains, steps, nonce, |steps|);
    BoundedThroughout(chains, steps, |steps|);
    if AtRest(chains[|steps|]) {
      RestDelivers(chains[|steps|], nonce);
    }
  }
}
