/** internal/grpc/tunnel_hub.go: matching responses to commands over client tunnels. Every
    locked section, channel operation and send is one atomic step; callers, the stream handler
    of each client and the clean-up goroutines interleave freely. */
module Tunnel {
  import opened Foundations

  /** `fmt.Sprintf("%s-%d", clientID, seqID)` */
  datatype RequestID = RequestID(clientID: string, n: nat)

  datatype Response = Response(id: RequestID, body: bytes)

  datatype Outcome = Got(resp: Response) | Closed | SendFailed | TimedOut | Cancelled

  /** Sending: registered, not yet sent. Waiting: in the select. Grace: the caller has left, a
      goroutine drains. Cleaning: about to delete the pending entry. */
  datatype Phase = Sending | Waiting | Grace | Cleaning | Done

  /** One SendCommand with its response channel, which holds at most one message. */
  datatype Call = Call(tunnel: nat, id: RequestID, phase: Phase, outcome: Option<Outcome>,
                       buffer: Option<Response>, closed: bool)

  /** `clientTunnel` */
  datatype Conn = Conn(clientID: string, pending: map<RequestID, nat>, seqID: nat)

  /** Tunnels are numbered as they are registered; `tunnels` names the current one of each
      client. `looked` is a response for which the handler of a tunnel has found the channel. */
  datatype Hub = Hub(tunnels: map<string, nat>, conns: seq<Conn>, calls: seq<Call>,
                     looked: map<nat, (nat, Response)>)

  datatype Step =
    | Register(clientID: string)
    | Unregister(clientID: string)
    | Begin(tunnel: nat)                         // assign an id and register the channel
    | Sent(call: nat, ok: bool)
    | Take(call: nat)                            // receive from the channel
    | Timeout(call: nat)                         // the timer, or the end of the grace period
    | Cancel(call: nat)                          // ctx.Done
    | CleanUp(call: nat)
    | Lookup(clientID: string, resp: Response)   // DeliverResponse, first half
    | Push(tunnel: nat)                          // DeliverResponse, second half

  const Initial: Hub := Hub(map[], [], [], map[])

  predicate Open(h: Hub, t: nat) {
    t < |h.conns| && h.conns[t].clientID in h.tunnels && h.tunnels[h.conns[t].clientID] == t
  }

  predicate Connected(h: Hub, client: string) {
    client in h.tunnels && h.tunnels[client] < |h.conns|
  }

  predicate InSelect(c: Call) {
    c.phase == Waiting || c.phase == Grace
  }

  /** When a step can be taken. A caller may have looked its tunnel up long before it gets an
      id, so Begin is possible on every tunnel there ever was. One stream handler per client:
      it registers only when the client has no tunnel, delivers one response at a time, and
      unregisters after that. */
  predicate Enabled(h: Hub, s: Step) {
    match s
    case Register(client) => client !in h.tunnels
    case Unregister(client) => Connected(h, client) && h.tunnels[client] !in h.looked
    case Begin(t) => t < |h.conns|
    case Sent(i, _) => i < |h.calls| && h.calls[i].phase == Sending
    case Take(i) => i < |h.calls| && InSelect(h.calls[i]) && (h.calls[i].buffer.Some? || h.calls[i].closed)
    case Timeout(i) => i < |h.calls| && InSelect(h.calls[i])
    case Cancel(i) => i < |h.calls| && h.calls[i].phase == Waiting
    case CleanUp(i) => i < |h.calls| && h.calls[i].phase == Cleaning && h.calls[i].tunnel < |h.conns|
    case Lookup(client, resp) => Connected(h, client) && h.tunnels[client] !in h.looked
    case Push(t) => t in h.looked && h.looked[t].0 < |h.calls|
  }

  function WithCall(h: Hub, i: nat, c: Call): Hub
    requires i < |h.calls|
  {
    h.(calls := h.calls[i := c])
  }

  /** The channel of a call is closed with tunnel t when the pending map of t still names it. */
  predicate Pends(conn: Conn, t: nat, c: Call, i: nat) {
    c.tunnel == t && c.id in conn.pending && conn.pending[c.id] == i
  }

  function ClosePending(conn: Conn, t: nat, calls: seq<Call>): (closed: seq<Call>)
    ensures |closed| == |calls|
  {
    seq(|calls|, i requires 0 <= i < |calls| =>
      if Pends(conn, t, calls[i], i) then calls[i].(closed := true) else calls[i])
  }

  /** A caller still in the select learns how its wait ended; a drained grace period changes
      nothing for the caller, who has left. */
  function EndWait(c: Call, how: Outcome): Call {
    c.(phase := Cleaning, outcome := if c.phase == Waiting then Some(how) else c.outcome)
  }

  /** Receiving takes a buffered message first; an empty closed channel yields none. */
  function Taken(c: Call): Call {
    EndWait(c, if c.buffer.Some? then Got(c.buffer.value) else Closed).(buffer := None)
  }

  /** The non-blocking send: a full buffer drops the message. */
  function Offered(c: Call, resp: Response): Call {
    if c.buffer.None? then c.(buffer := Some(resp)) else c
  }

  function AfterSend(c: Call, ok: bool): Call {
    if ok then c.(phase := Waiting) else c.(phase := Cleaning, outcome := Some(SendFailed))
  }

  function Opened(h: Hub, client: string): Hub {
    h.(tunnels := h.tunnels[client := |h.conns|], conns := h.conns + [Conn(client, map[], 0)])
  }

  function Shut(h: Hub, client: string): Hub
    requires Connected(h, client)
  {
    var t := h.tunnels[client];
    Hub(h.tunnels - {client}, h.conns[t := h.conns[t].(pending := map[])],
        ClosePending(h.conns[t], t, h.calls), h.looked)
  }

  function NextID(conn: Conn): RequestID {
    RequestID(conn.clientID, conn.seqID + 1)
  }

  function Begun(h: Hub, t: nat): Hub
    requires t < |h.conns|
  {
    var conn := h.conns[t];
    h.(conns := h.conns[t := Conn(conn.clientID, conn.pending[NextID(conn) := |h.calls|], conn.seqID + 1)],
       calls := h.calls + [Call(t, NextID(conn), Sending, None, None, false)])
  }

  function Cleaned(h: Hub, i: nat): Hub
    requires i < |h.calls| && h.calls[i].tunnel < |h.conns|
  {
    var c := h.calls[i];
    var conn := h.conns[c.tunnel];
    h.(conns := h.conns[c.tunnel := conn.(pending := conn.pending - {c.id})],
       calls := h.calls[i := c.(phase := Done)])
  }

  function Found(h: Hub, client: string, resp: Response): Hub
    requires Connected(h, client)
  {
    var t := h.tunnels[client];
    if resp.id in h.conns[t].pending then h.(looked := h.looked[t := (h.conns[t].pending[resp.id], resp)]) else h
  }

  function Next(h: Hub, s: Step): Hub
    requires Enabled(h, s)
  {
    match s
    case Register(client) => Opened(h, client)
    case Unregister(client) => Shut(h, client)
    case Begin(t) => Begun(h, t)
    case Sent(i, ok) => WithCall(h, i, AfterSend(h.calls[i], ok))
    case Take(i) => WithCall(h, i, Taken(h.calls[i]))
    case Timeout(i) => WithCall(h, i, EndWait(h.calls[i], TimedOut))
    case Cancel(i) => WithCall(h, i, h.calls[i].(phase := Grace, outcome := Some(Cancelled)))
    case CleanUp(i) => Cleaned(h, i)
    case Lookup(client, resp) => Found(h, client, resp)
    case Push(t) =>
      var (i, resp) := h.looked[t];
      WithCall(h, i, Offered(h.calls[i], resp)).(looked := h.looked - {t})
  }

  // ---------------------------------------------------------------------- the invariant

  ghost predicate TunnelsNamed(h: Hub) {
    forall c | c in h.tunnels :: h.tunnels[c] < |h.conns| && h.conns[h.tunnels[c]].clientID == c
  }

  /** What a call says of itself: it belongs to its tunnel, it only ever holds or returns a
      response with its own id, and it has an outcome exactly when its caller has left. */
  ghost predicate Proper(conns: seq<Conn>, c: Call) {
    && c.tunnel < |conns|
    && c.id.clientID == conns[c.tunnel].clientID && 1 <= c.id.n <= conns[c.tunnel].seqID
    && OwnResponses(c)
  }

  ghost predicate OwnResponses(c: Call) {
    && (c.buffer.Some? ==> c.buffer.value.id == c.id)
    && (c.outcome.Some? && c.outcome.value.Got? ==> c.outcome.value.resp.id == c.id)
    && (c.phase == Sending || c.phase == Waiting <==> c.outcome.None?)
  }

  ghost predicate CallsProper(h: Hub) {
    forall i | 0 <= i < |h.calls| :: Proper(h.conns, h.calls[i])
  }

  /** No two calls of a tunnel have the same request id. */
  ghost predicate IDsDistinct(h: Hub) {
    forall i, j | 0 <= i < j < |h.calls| && h.calls[i].tunnel == h.calls[j].tunnel :: h.calls[i].id != h.calls[j].id
  }

  predicate Live(c: Call) {
    c.phase != Done && !c.closed
  }

  /** `pending` names only calls that have been neither cleaned up nor closed ... */
  ghost predicate PendingLive(h: Hub) {
    forall t, id | 0 <= t < |h.conns| && id in h.conns[t].pending ::
      Awaits(h.calls, t, id, h.conns[t].pending[id])
  }

  ghost predicate Awaits(calls: seq<Call>, t: nat, id: RequestID, i: nat) {
    i < |calls| && calls[i].tunnel == t && calls[i].id == id && Live(calls[i])
  }

  /** ... and it names all of them. */
  ghost predicate LivePending(h: Hub) {
    forall i | 0 <= i < |h.calls| && Live(h.calls[i]) :: Registered(h.conns, h.calls[i], i)
  }

  ghost predicate Registered(conns: seq<Conn>, c: Call, i: nat) {
    c.tunnel < |conns| && Pends(conns[c.tunnel], c.tunnel, c, i)
  }

  ghost predicate ClosedOnlyWithTunnel(h: Hub) {
    forall i | 0 <= i < |h.calls| && h.calls[i].closed :: !Open(h, h.calls[i].tunnel)
  }

  /** A handler holds only a channel of its own open tunnel, for a response with its id. */
  ghost predicate HandlersSafe(h: Hub) {
    forall t | t in h.looked ::
      && Open(h, t) && h.looked[t].0 < |h.calls|
      && h.calls[h.looked[t].0].tunnel == t && h.looked[t].1.id == h.calls[h.looked[t].0].id
  }

  ghost predicate Inv(h: Hub) {
    && TunnelsNamed(h) && CallsProper(h) && IDsDistinct(h)
    && PendingLive(h) && LivePending(h) && ClosedOnlyWithTunnel(h) && HandlersSafe(h)
  }

  // ------------------------------------------------------------- each step keeps it

  /** A step that only moves one call along. */
  ghost predicate Moves(c: Call, d: Call) {
    && d.tunnel == c.tunnel && d.id == c.id && d.closed == c.closed
    && (c.phase == Done <==> d.phase == Done)
    && OwnResponses(d)
  }

  lemma UpdateKeepsCalls(h: Hub, i: nat, c: Call)
    requires Inv(h) && i < |h.calls| && Moves(h.calls[i], c)
    ensures var g := WithCall(h, i, c); CallsProper(g) && IDsDistinct(g) && ClosedOnlyWithTunnel(g)
  {
    assert Proper(h.conns, h.calls[i]);
  }

  lemma UpdateKeepsPending(h: Hub, i: nat, c: Call)
    requires Inv(h) && i < |h.calls| && Moves(h.calls[i], c)
    ensures var g := WithCall(h, i, c); PendingLive(g) && LivePending(g)
  {
    var g := WithCall(h, i, c);
    forall t: nat, id | t < |g.conns| && id in g.conns[t].pending
      ensures Awaits(g.calls, t, id, g.conns[t].pending[id])
    {
      assert Awaits(h.calls, t, id, h.conns[t].pending[id]);
    }
    forall j: nat | j < |g.calls| && Live(g.calls[j]) ensures Registered(g.conns, g.calls[j], j) {
      assert Live(h.calls[j]) && Registered(h.conns, h.calls[j], j);
    }
  }

  lemma UpdateKeeps(h: Hub, i: nat, c: Call)
    requires Inv(h) && i < |h.calls| && Moves(h.calls[i], c)
    ensures Inv(WithCall(h, i, c))
  {
    UpdateKeepsCalls(h, i, c);
    UpdateKeepsPending(h, i, c);
  }

  lemma RegisterKeeps(h: Hub, client: string)
    requires Inv(h) && client !in h.tunnels
    ensures Inv(Opened(h, client))
  {
    var g := Opened(h, client);
    assert forall t: nat | t < |h.conns| :: g.conns[t] == h.conns[t];
  }

  /** The next id of a tunnel is not pending. */
  lemma Unused(h: Hub, t: nat)
    requires Inv(h) && t < |h.conns|
    ensures NextID(h.conns[t]) !in h.conns[t].pending
  {
    forall id | id in h.conns[t].pending ensures id != NextID(h.conns[t]) {
      var i := h.conns[t].pending[id];
      assert Awaits(h.calls, t, id, i) && Proper(h.conns, h.calls[i]);
    }
  }

  lemma BeginKeepsPending(h: Hub, t: nat)
    requires Inv(h) && t < |h.conns|
    ensures PendingLive(Begun(h, t)) && LivePending(Begun(h, t))
  {
    var g := Begun(h, t);
    Unused(h, t);
    forall u: nat, id | u < |g.conns| && id in g.conns[u].pending
      ensures Awaits(g.calls, u, id, g.conns[u].pending[id])
    {
      if !(u == t && id == NextID(h.conns[t])) {
        assert Awaits(h.calls, u, id, h.conns[u].pending[id]);
      }
    }
    forall i: nat | i < |g.calls| && Live(g.calls[i]) ensures Registered(g.conns, g.calls[i], i) {
      if i < |h.calls| {
        assert Live(h.calls[i]) && Registered(h.conns, h.calls[i], i);
      }
    }
  }

  lemma BeginKeepsIDs(h: Hub, t: nat)
    requires Inv(h) && t < |h.conns|
    ensures IDsDistinct(Begun(h, t))
  {
    var g, n := Begun(h, t), |h.calls|;
    forall i: nat | i < n && h.calls[i].tunnel == t ensures h.calls[i].id != g.calls[n].id {
      assert Proper(h.conns, h.calls[i]);
    }
  }

  lemma BeginKeeps(h: Hub, t: nat)
    requires Inv(h) && t < |h.conns|
    ensures Inv(Begun(h, t))
  {
    var g := Begun(h, t);
    forall i: nat | i < |g.calls| ensures Proper(g.conns, g.calls[i]) {
      if i < |h.calls| {
        assert Proper(h.conns, h.calls[i]);
      }
    }
    BeginKeepsIDs(h, t);
    BeginKeepsPending(h, t);
  }

  lemma ShutKeeps(h: Hub, client: string)
    requires Inv(h) && Connected(h, client) && h.tunnels[client] !in h.looked
    ensures Inv(Shut(h, client))
  {
    var t := h.tunnels[client];
    var g := Shut(h, client);
    forall i: nat | i < |h.calls|
      ensures g.calls[i] == h.calls[i].(closed := g.calls[i].closed)
      ensures Proper(h.conns, h.calls[i]) && Proper(g.conns, g.calls[i])
      ensures Live(g.calls[i]) ==> Live(h.calls[i]) && h.calls[i].tunnel != t
      ensures h.calls[i].tunnel != t ==> g.calls[i] == h.calls[i]
    {
      assert Live(h.calls[i]) ==> Registered(h.conns, h.calls[i], i);
    }
  }

  lemma CleanUpKeeps(h: Hub, i: nat)
    requires Inv(h) && i < |h.calls| && h.calls[i].phase == Cleaning && h.calls[i].tunnel < |h.conns|
    ensures Inv(Cleaned(h, i))
  {
    var g := Cleaned(h, i);
    CleanUpKeepsPending(h, i);
    forall j: nat | j < |g.calls| ensures Proper(g.conns, g.calls[j]) {
      assert Proper(h.conns, h.calls[j]);
    }
  }

  lemma CleanUpKeepsPending(h: Hub, i: nat)
    requires Inv(h) && i < |h.calls| && h.calls[i].tunnel < |h.conns|
    ensures PendingLive(Cleaned(h, i)) && LivePending(Cleaned(h, i))
  {
    var g := Cleaned(h, i);
    forall j: nat | j < |g.calls| && Live(g.calls[j]) ensures Registered(g.conns, g.calls[j], j) {
      assert Live(h.calls[j]) && Registered(h.conns, h.calls[j], j);
    }
    forall t: nat, id | t < |g.conns| && id in g.conns[t].pending
      ensures Awaits(g.calls, t, id, g.conns[t].pending[id])
    {
      assert Awaits(h.calls, t, id, h.conns[t].pending[id]);
    }
  }

  lemma LookupKeeps(h: Hub, client: string, resp: Response)
    requires Inv(h) && Connected(h, client)
    ensures Inv(Found(h, client, resp))
  {
    var t := h.tunnels[client];
    if resp.id in h.conns[t].pending {
      assert Awaits(h.calls, t, resp.id, h.conns[t].pending[resp.id]);
    }
  }

  lemma PushKeeps(h: Hub, t: nat)
    requires Inv(h) && t in h.looked
    ensures Inv(Next(h, Push(t)))
  {
    var (i, resp) := h.looked[t];
    var c := h.calls[i];
    assert Proper(h.conns, c);
    UpdateKeeps(h, i, Offered(c, resp));
  }

  lemma StepKeepsInv(h: Hub, s: Step)
    requires Inv(h) && Enabled(h, s)
    ensures Inv(Next(h, s))
  {
    match s
    case Register(client) => RegisterKeeps(h, client);
    case Unregister(client) => ShutKeeps(h, client);
    case Begin(t) => BeginKeeps(h, t);
    case CleanUp(i) => CleanUpKeeps(h, i);
    case Lookup(client, resp) => LookupKeeps(h, client, resp);
    case Push(t) => PushKeeps(h, t);
    case Sent(i, ok) => assert Proper(h.conns, h.calls[i]); UpdateKeeps(h, i, AfterSend(h.calls[i], ok));
    case Take(i) => assert Proper(h.conns, h.calls[i]); UpdateKeeps(h, i, Taken(h.calls[i]));
    case Timeout(i) => assert Proper(h.conns, h.calls[i]); UpdateKeeps(h, i, EndWait(h.calls[i], TimedOut));
    case Cancel(i) =>
      assert Proper(h.conns, h.calls[i]);
      UpdateKeeps(h, i, h.calls[i].(phase := Grace, outcome := Some(Cancelled)));
  }

  // ---------------------------------------------------------------- over whole runs

  /** The hub after the given steps, if each could be taken when its turn came. */
  function Run(steps: seq<Step>): Option<Hub> {
    if steps == [] then Some(Initial)
    else
      var before := Run(steps[..|steps| - 1]);
      if before.Some? && Enabled(before.value, steps[|steps| - 1])
      then Some(Next(before.value, steps[|steps| - 1])) else None
  }

  lemma {:induction false} RunKeepsInv(steps: seq<Step>)
    requires Run(steps).Some?
    ensures Inv(Run(steps).value)
  {
    if steps != [] {
      var before := steps[..|steps| - 1];
      RunKeepsInv(before);
      StepKeepsInv(Run(before).value, steps[|steps| - 1]);
    }
  }

  /** The matching theorem, over every interleaving: a tunnel's request ids are pairwise
      distinct, a caller gets at most the response with its own id, and `pending` holds exactly
      the calls and grace waits that are neither cleaned up nor cut off by Unregister. */
  lemma Matching(steps: seq<Step>, i: nat)
    requires Run(steps).Some? && i < |Run(steps).value.calls|
    ensures var h := Run(steps).value; var c := h.calls[i];
      && c.tunnel < |h.conns|
      && (forall j: nat | j < |h.calls| && h.calls[j].tunnel == c.tunnel && h.calls[j].id == c.id :: j == i)
      && (c.outcome.Some? && c.outcome.value.Got? ==> c.outcome.value.resp.id == c.id)
      && (c.phase != Done && !c.closed
          <==> c.id in h.conns[c.tunnel].pending && h.conns[c.tunnel].pending[c.id] == i)
  {
    RunKeepsInv(steps);
    var h := Run(steps).value;
    var c := h.calls[i];
    assert Proper(h.conns, c);
    assert Live(c) ==> Registered(h.conns, c, i);
    if c.id in h.conns[c.tunnel].pending {
      assert Awaits(h.calls, c.tunnel, c.id, h.conns[c.tunnel].pending[c.id]);
    }
  }

  /** A caller's outcome never changes once it has one, so it receives at most one response;
      nor does a call ever change its tunnel or its id. */
  lemma OutcomeKept(h: Hub, s: Step, i: nat)
    requires Inv(h) && Enabled(h, s) && i < |h.calls|
    ensures var g := Next(h, s);
      && i < |g.calls| && g.calls[i].tunnel == h.calls[i].tunnel && g.calls[i].id == h.calls[i].id
      && (h.calls[i].outcome.Some? ==> g.calls[i].outcome == h.calls[i].outcome)
  {
    assert Proper(h.conns, h.calls[i]);
  }

  lemma {:induction false} AtMostOneResponse(steps: seq<Step>, more: seq<Step>, i: nat)
    requires Run(steps).Some? && Run(steps + more).Some?
    requires i < |Run(steps).value.calls|
    ensures i < |Run(steps + more).value.calls|
    ensures var c := Run(steps).value.calls[i]; var d := Run(steps + more).value.calls[i];
      d.tunnel == c.tunnel && d.id == c.id && (c.outcome.Some? ==> d.outcome == c.outcome)
    decreases |more|
  {
    if more == [] {
      assert steps + more == steps;
    } else {
      var less := more[..|more| - 1];
      assert (steps + more)[..|steps + more| - 1] == steps + less;
      AtMostOneResponse(steps, less, i);
      RunKeepsInv(steps + less);
      OutcomeKept(Run(steps + less).value, more[|more| - 1], i);
    }
  }

  /** The one step that gives a waiting caller each outcome. */
  lemma OutcomeExactly(h: Hub, s: Step, i: nat)
    requires Inv(h) && Enabled(h, s) && i < |h.calls| && h.calls[i].outcome.None?
    ensures i < |Next(h, s).calls|
    ensures Next(h, s).calls[i].outcome ==
      if s == Sent(i, false) then Some(SendFailed)
      else if s == Timeout(i) then Some(TimedOut)
      else if s == Cancel(i) then Some(Cancelled)
      else if s == Take(i) then Some(if h.calls[i].buffer.Some? then Got(h.calls[i].buffer.value) else Closed)
      else None
  {
    assert Proper(h.conns, h.calls[i]);
  }

  /** How a call moves along: one whose caller's context ends stays in its grace period, where it
      is still pending, until a late response or the end of that period. */
  lemma PhaseExactly(h: Hub, s: Step, i: nat)
    requires Enabled(h, s) && i < |h.calls|
    ensures i < |Next(h, s).calls|
    ensures Next(h, s).calls[i].phase ==
      if s == Sent(i, true) then Waiting
      else if s == Cancel(i) then Grace
      else if s == Sent(i, false) || s == Take(i) || s == Timeout(i) then Cleaning
      else if s == CleanUp(i) then Done
      else h.calls[i].phase
    ensures s == Cancel(i) ==>
      Next(h, s).conns == h.conns && Enabled(Next(h, s), Timeout(i)) && !Enabled(Next(h, s), CleanUp(i))
  {
  }

  /** What a channel holds: a response stays until it is taken, whatever else is delivered. */
  lemma BufferExactly(h: Hub, s: Step, i: nat)
    requires Inv(h) && Enabled(h, s) && i < |h.calls|
    ensures i < |Next(h, s).calls|
    ensures Next(h, s).calls[i].buffer ==
      if s == Take(i) then None
      else if h.calls[i].buffer.None? && s.Push? && h.looked[s.tunnel].0 == i then Some(h.looked[s.tunnel].1)
      else h.calls[i].buffer
  {
  }

  /** Over every interleaving: once a waiting caller's channel holds a response, that response is
      the only one the caller can get; later ones for the same request are dropped. */
  lemma {:induction false} FirstResponseWins(steps: seq<Step>, more: seq<Step>, i: nat, resp: Response)
    requires Run(steps).Some? && Run(steps + more).Some? && i < |Run(steps).value.calls|
    requires Run(steps).value.calls[i].buffer == Some(resp) && Run(steps).value.calls[i].outcome.None?
    ensures i < |Run(steps + more).value.calls|
    ensures var d := Run(steps + more).value.calls[i];
      && (d.outcome.None? ==> d.buffer == Some(resp))
      && (d.outcome.Some? ==> d.outcome.value in {Got(resp), SendFailed, TimedOut, Cancelled})
    decreases |more|
  {
    if more == [] {
      assert steps + more == steps;
    } else {
      var less, s := more[..|more| - 1], more[|more| - 1];
      assert (steps + more)[..|steps + more| - 1] == steps + less;
      FirstResponseWins(steps, less, i, resp);
      RunKeepsInv(steps + less);
      var h := Run(steps + less).value;
      OutcomeKept(h, s, i);
      if h.calls[i].outcome.None? {
        OutcomeExactly(h, s, i);
        BufferExactly(h, s, i);
      }
    }
  }

  // ------------------------------------------------------------- where responses come from

  /** The handler of this client received this response at some point of the run. */
  predicate Received(steps: seq<Step>, client: string, resp: Response) {
    steps != [] && (steps[|steps| - 1] == Lookup(client, resp) || Received(steps[..|steps| - 1], client, resp))
  }

  ghost predicate CallsFromClient(steps: seq<Step>, h: Hub) {
    forall i | 0 <= i < |h.calls| :: HoldsReceived(steps, h.calls[i])
  }

  ghost predicate LookedFromClient(steps: seq<Step>, h: Hub) {
    forall t | t in h.looked && t < |h.conns| :: Received(steps, h.conns[t].clientID, h.looked[t].1)
  }

  ghost predicate HoldsReceived(steps: seq<Step>, c: Call) {
    && (c.buffer.Some? ==> Received(steps, c.id.clientID, c.buffer.value))
    && (c.outcome.Some? && c.outcome.value.Got? ==> Received(steps, c.id.clientID, c.outcome.value.resp))
  }

  lemma StillReceived(steps: seq<Step>, c: Call)
    requires steps != [] && HoldsReceived(steps[..|steps| - 1], c)
    ensures HoldsReceived(steps, c)
  {
  }

  /** What one call can hold after a step: what it held, or what its handler had looked up. */
  lemma CallHolds(h: Hub, s: Step, i: nat)
    requires Inv(h) && Enabled(h, s) && i < |h.calls|
    ensures var c := h.calls[i]; var d := Next(h, s).calls[i];
      && d.id == c.id
      && (d.buffer == c.buffer || d.buffer == None
          || (c.tunnel in h.looked && d.buffer == Some(h.looked[c.tunnel].1)))
      && (d.outcome.Some? && d.outcome.value.Got? ==>
          d.outcome == c.outcome || c.buffer == Some(d.outcome.value.resp))
  {
  }

  lemma CallFromClientStep(steps: seq<Step>, h: Hub, i: nat)
    requires steps != [] && Inv(h) && Enabled(h, steps[|steps| - 1]) && FromClient(steps[..|steps| - 1], h)
    requires i < |Next(h, steps[|steps| - 1]).calls|
    ensures HoldsReceived(steps, Next(h, steps[|steps| - 1]).calls[i])
  {
    if i < |h.calls| {
      assert Proper(h.conns, h.calls[i]) && HoldsReceived(steps[..|steps| - 1], h.calls[i]);
      CallHolds(h, steps[|steps| - 1], i);
      StillReceived(steps, Next(h, steps[|steps| - 1]).calls[i]);
    }
  }

  lemma LookedFromClientStep(steps: seq<Step>, h: Hub)
    requires steps != [] && Inv(h) && Enabled(h, steps[|steps| - 1]) && FromClient(steps[..|steps| - 1], h)
    ensures LookedFromClient(steps, Next(h, steps[|steps| - 1]))
  {
    var g := Next(h, steps[|steps| - 1]);
    forall t | t in g.looked && t < |g.conns| ensures Received(steps, g.conns[t].clientID, g.looked[t].1) {
      if t in h.looked && g.looked[t] == h.looked[t] {
        assert Open(h, t) && g.conns[t].clientID == h.conns[t].clientID;
      }
    }
  }

  ghost predicate FromClient(steps: seq<Step>, h: Hub) {
    CallsFromClient(steps, h) && LookedFromClient(steps, h)
  }

  lemma FromClientStep(steps: seq<Step>, h: Hub)
    requires steps != [] && Inv(h) && Enabled(h, steps[|steps| - 1]) && FromClient(steps[..|steps| - 1], h)
    ensures FromClient(steps, Next(h, steps[|steps| - 1]))
  {
    LookedFromClientStep(steps, h);
    var g := Next(h, steps[|steps| - 1]);
    forall i: nat | i < |g.calls| ensures HoldsReceived(steps, g.calls[i]) {
      CallFromClientStep(steps, h, i);
    }
  }

  /** Every response that a channel or a caller holds was received from the call's own client. */
  lemma {:induction false} ResponsesAreReceived(steps: seq<Step>)
    requires Run(steps).Some?
    ensures FromClient(steps, Run(steps).value)
  {
    if steps != [] {
      var before := steps[..|steps| - 1];
      ResponsesAreReceived(before);
      RunKeepsInv(before);
      FromClientStep(steps, Run(before).value);
    }
  }

  // ---------------------------------------------------------------------- progress

  /** The client's handler looks the response up, offers it to the channel, and call i takes it. */
  predicate Answered(h: Hub, i: nat, resp: Response)
    requires i < |h.calls|
  {
    Enabled(h, Lookup(resp.id.clientID, resp)) &&
    var found := Next(h, Lookup(resp.id.clientID, resp));
    Enabled(found, Push(h.calls[i].tunnel)) &&
    var offered := Next(found, Push(h.calls[i].tunnel));
    Enabled(offered, Take(i)) && Next(offered, Take(i)).calls[i].outcome == Some(Got(resp))
  }

  /** A response that the client sends for a waiting call reaches that call's caller, whatever
      else is pending. */
  lemma ResponseReachesItsCaller(h: Hub, i: nat, body: bytes)
    requires Inv(h) && i < |h.calls| && h.calls[i].phase == Waiting
    requires Open(h, h.calls[i].tunnel) && h.calls[i].tunnel !in h.looked
    requires h.calls[i].buffer.None?
    ensures Answered(h, i, Response(h.calls[i].id, body))
  {
    var c := h.calls[i];
    assert Proper(h.conns, c);
    assert Live(c) by { assert !c.closed; }
    assert Registered(h.conns, c, i);
  }

  /** Unregistering leaves no caller stuck: each call that was pending in the tunnel can leave
      its select at once, with its buffered response if it has one and Closed otherwise. */
  lemma UnregisterReleases(h: Hub, client: string, i: nat)
    requires Inv(h) && Enabled(h, Unregister(client))
    requires i < |h.calls| && h.calls[i].tunnel == h.tunnels[client] && h.calls[i].phase == Waiting
    ensures var g := Next(h, Unregister(client));
      && Enabled(g, Take(i))
      && Next(g, Take(i)).calls[i].outcome
         == Some(if h.calls[i].buffer.Some? then Got(h.calls[i].buffer.value) else Closed)
  {
    var c := h.calls[i];
    assert Open(h, c.tunnel) && !c.closed;
    assert Live(c) && Registered(h.conns, c, i);
  }

  /** The handler never sends on a closed channel. */
  lemma NoSendOnClosedChannel(steps: seq<Step>, t: nat)
    requires Run(steps).Some? && t in Run(steps).value.looked
    ensures var h := Run(steps).value;
      Enabled(h, Push(t)) && !h.calls[h.looked[t].0].closed
  {
    RunKeepsInv(steps);
  }

  // ---------------------------------------------------------------------- the hub itself

  class TunnelHub {
    var tunnels: map<string, nat>
    var conns: seq<Conn>
    var calls: seq<Call>
    var looked: map<nat, (nat, Response)>

    function State(): Hub
      reads this
    {
      Hub(tunnels, conns, calls, looked)
    }

    constructor ()
      ensures State() == Initial && Inv(State())
    {
      tunnels, conns, calls, looked := map[], [], [], map[];
    }

    method Register(clientID: string) returns (t: nat)
      requires Inv(State()) && Enabled(State(), Step.Register(clientID))
      modifies this
      ensures Inv(State()) && State() == Next(old(State()), Step.Register(clientID))
      ensures Open(State(), t) && conns[t] == Conn(clientID, map[], 0)
    {
      StepKeepsInv(State(), Step.Register(clientID));
      t := |conns|;
      conns := conns + [Conn(clientID, map[], 0)];
      tunnels := tunnels[clientID := t];
    }

    method Unregister(clientID: string)
      requires Inv(State())
      requires clientID in tunnels ==> tunnels[clientID] !in looked
      modifies this
      ensures Inv(State())
      ensures State() == if clientID in old(tunnels) then Next(old(State()), Step.Unregister(clientID)) else old(State())
    {
      if clientID in tunnels {
        StepKeepsInv(State(), Step.Unregister(clientID));
        var t := tunnels[clientID];
        CloseChannels(t);
        conns := conns[t := conns[t].(pending := map[])];
        tunnels := tunnels - {clientID};
      }
    }

    /** `for _, ch := range t.pending { close(ch) }` in whatever order the map yields. */
    method CloseChannels(t: nat)
      requires Inv(State()) && t < |conns|
      modifies this`calls
      ensures calls == ClosePending(conns[t], t, old(calls))
    {
      var pending := conns[t].pending;
      var ids := pending.Keys;
      ghost var was := calls;
      while ids != {}
        invariant ids <= pending.Keys && |calls| == |was|
        invariant forall i | 0 <= i < |calls| ::
          calls[i] == if Pends(conns[t], t, was[i], i) && was[i].id !in ids then was[i].(closed := true) else was[i]
        decreases ids
      {
        var id :| id in ids;
        assert Awaits(was, t, id, pending[id]);
        calls := calls[pending[id] := calls[pending[id]].(closed := true)];
        ids := ids - {id};
      }
    }

    method Find(clientID: string) returns (t: Option<nat>)
      ensures t == if clientID in tunnels then Some(tunnels[clientID]) else None
    {
      t := if clientID in tunnels then Some(tunnels[clientID]) else None;
    }

    /** The locked section of SendCommand. */
    method Assign(t: nat) returns (i: nat)
      requires Inv(State()) && t < |conns|
      modifies this
      ensures Inv(State()) && State() == Next(old(State()), Begin(t))
      ensures i == |old(calls)| && calls[i].id == NextID(old(conns)[t]) && calls[i].id !in old(conns)[t].pending
    {
      ghost var h := State();
      BeginKeeps(h, t);
      Unused(h, t);
      var conn := conns[t];
      var seqID := conn.seqID + 1;
      var id := RequestID(conn.clientID, seqID);
      i := |calls|;
      conns := conns[t := Conn(conn.clientID, conn.pending[id := i], seqID)];
      calls := calls + [Call(t, id, Sending, None, None, false)];
      assert State() == Begun(h, t);
    }

    method Send(i: nat, ok: bool)
      requires Inv(State()) && Enabled(State(), Sent(i, ok))
      modifies this`calls
      ensures Inv(State()) && State() == Next(old(State()), Sent(i, ok))
    {
      StepKeepsInv(State(), Sent(i, ok));
      if ok {
        calls := calls[i := calls[i].(phase := Waiting)];
      } else {
        calls := calls[i := calls[i].(phase := Cleaning, outcome := Some(SendFailed))];
      }
    }

    method Receive(i: nat)
      requires Inv(State()) && Enabled(State(), Take(i))
      modifies this`calls
      ensures Inv(State()) && State() == Next(old(State()), Take(i))
    {
      StepKeepsInv(State(), Take(i));
      var c := calls[i];
      if c.phase == Waiting {
        if c.buffer.Some? {
          c := c.(outcome := Some(Got(c.buffer.value)));
        } else {
          c := c.(outcome := Some(Closed));
        }
      }
      calls := calls[i := c.(phase := Cleaning, buffer := None)];
    }

    method Expire(i: nat)
      requires Inv(State()) && Enabled(State(), Timeout(i))
      modifies this`calls
      ensures Inv(State()) && State() == Next(old(State()), Timeout(i))
    {
      StepKeepsInv(State(), Timeout(i));
      var c := calls[i];
      if c.phase == Waiting {
        c := c.(outcome := Some(TimedOut));
      }
      calls := calls[i := c.(phase := Cleaning)];
    }

    method Leave(i: nat)
      requires Inv(State()) && Enabled(State(), Cancel(i))
      modifies this`calls
      ensures Inv(State()) && State() == Next(old(State()), Cancel(i))
    {
      StepKeepsInv(State(), Cancel(i));
      calls := calls[i := calls[i].(outcome := Some(Cancelled), phase := Grace)];
    }

    method Forget(i: nat)
      requires Inv(State()) && Enabled(State(), CleanUp(i))
      modifies this
      ensures Inv(State()) && State() == Next(old(State()), CleanUp(i))
      ensures calls[i].id !in conns[calls[i].tunnel].pending
    {
      StepKeepsInv(State(), CleanUp(i));
      var c := calls[i];
      conns := conns[c.tunnel := conns[c.tunnel].(pending := conns[c.tunnel].pending - {c.id})];
      calls := calls[i := c.(phase := Done)];
    }

    method FindChannel(clientID: string, resp: Response)
      requires Inv(State()) && (clientID in tunnels ==> tunnels[clientID] !in looked)
      modifies this`looked
      ensures Inv(State())
      ensures State() == if clientID in tunnels then Next(old(State()), Lookup(clientID, resp)) else old(State())
    {
      if clientID in tunnels {
        StepKeepsInv(State(), Lookup(clientID, resp));
        var t := tunnels[clientID];
        if resp.id in conns[t].pending {
          looked := looked[t := (conns[t].pending[resp.id], resp)];
        }
      }
    }

    method Offer(t: nat)
      requires Inv(State()) && t in looked
      modifies this`calls, this`looked
      ensures Inv(State()) && State() == Next(old(State()), Push(t))
    {
      StepKeepsInv(State(), Push(t));
      var (i, resp) := looked[t];
      if calls[i].buffer.None? {
        calls := calls[i := calls[i].(buffer := Some(resp))];
      }
      looked := looked - {t};
    }
  }
}
