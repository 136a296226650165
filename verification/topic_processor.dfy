/** The two processor roles of a topic endpoint and the connection loops
    that drive them over one websocket.

    The Writeable role serves a remote reader: it sends a record only in
    answer to a READY frame, one record per READY, and stops on CLOSE. The
    Redeable role feeds a local queue from a remote writer: it announces
    capacity with READY on connect and again after every record it stores.

    A socket is the frames received and not yet read, the text frames sent,
    and a `closed` flag. Waiting with a timeout becomes a `Pending` step that
    the loop resumes later. The server's reported address is pure string
    formatting over the fields it keeps after binding. */
module TopicProcessor {
  import opened Common
  import opened TopicQueue
  import Address

  const CLOSE_SIGNAL: string := "-close-"
  const READY_SIGNAL: string := "-ready-"

  /** A websocket message as the loops classify it. */
  datatype Frame = Text(data: string) | Binary | ErrorFrame | CloseFrame

  datatype Socket = Socket(inbox: seq<Frame>, outbox: seq<string>, closed: bool)

  /** `ws.send_str(s)`. */
  function Send(ws: Socket, s: string): (ws': Socket)
    ensures ws'.outbox == ws.outbox + [s]
    ensures ws'.inbox == ws.inbox && ws'.closed == ws.closed
  {
    ws.(outbox := ws.outbox + [s])
  }

  // ---------------------------------------------------------------------
  // Writeable role
  // ---------------------------------------------------------------------

  /** A `WriteableTopic`: its queue and its `ready` event. */
  datatype Writeable = Writeable(queue: Queue, ready: bool)

  /** `WriteableTopic(storage, name)`: the constructor already sets up the
      `None` group at the storage's current length; `ready` starts unset. */
  function NewWriteable(storage: seq<Record>): (w: Writeable)
    ensures Valid(w.queue) && w.queue.log == storage
    ensures w.queue.offsets == map[None := |storage|]
    ensures !w.ready
  {
    Writeable(Setup(NewQueue(storage, None), None), false)
  }

  /** `connection(ws, group)`: the connection's group joins the queue. */
  function WriteableConnection(w: Writeable, g: Group): (w': Writeable)
    ensures w'.ready == w.ready && w'.queue.log == w.queue.log
    ensures g in w'.queue.offsets
    ensures g in w.queue.offsets ==> w' == w
    ensures g !in w.queue.offsets ==> w'.queue.offsets == w.queue.offsets[g := |w.queue.log|]
  {
    w.(queue := Setup(w.queue, g))
  }

  /** What one call of a processing coroutine did: it returned `result`
      (`Some(b)` for a boolean, `None` for Python's `None`), or it is still
      waiting for data. */
  datatype Step = Finished(w: Writeable, ws: Socket, result: Option<bool>) | Pending(w: Writeable, ws: Socket)

  /** The record the connection's group reads next, when there is one. */
  predicate HasNext(q: Queue, g: Group)
  {
    g in q.offsets && 0 <= q.offsets[g] < |q.log|
  }

  /** One pass of the `while True` body after a READY: a record for the
      group is sent as exactly one frame, the group's offset advances, and
      `ready` is cleared; with no record, a closed socket ends processing
      with `False`, an open one keeps it waiting. */
  function ServeReady(w: Writeable, ws: Socket, g: Group): (s: Step)
    ensures s.ws.inbox == ws.inbox && s.ws.closed == ws.closed
    ensures s.w.queue.log == w.queue.log && s.w.queue.defaultGroup == w.queue.defaultGroup
    ensures Valid(w.queue) ==> Valid(s.w.queue)
    ensures g in s.w.queue.offsets
    ensures HasNext(w.queue, g) <==> s == Finished(s.w, s.ws, Some(true))
    ensures HasNext(w.queue, g) ==>
      && s.ws.outbox == ws.outbox + [w.queue.log[w.queue.offsets[g]]]
      && s.w.queue.offsets == w.queue.offsets[g := w.queue.offsets[g] + 1]
      && !s.w.ready
    ensures !HasNext(w.queue, g) ==>
      && s.ws == ws && s.w.ready == w.ready
      && s.w.queue == Setup(w.queue, g)
      && (s.Finished? <==> ws.closed)
      && (s.Finished? ==> s.result == Some(false))
  {
    match Get(w.queue, g)
    case Delivered(q', x) => Finished(Writeable(q', false), Send(ws, x), Some(true))
    case Blocked(q') =>
      if ws.closed then Finished(w.(queue := q'), ws, Some(false))
      else Pending(w.(queue := q'), ws)
  }

  /** `processing(ws, msg, group)` of the Writeable role. CLOSE ends with
      `False`; READY sets `ready` and serves the group; any other text ends
      with `None`. Only a READY can send, and at most one frame. */
  function WriteableProcessing(w: Writeable, ws: Socket, data: string, g: Group): (s: Step)
    ensures s.ws.inbox == ws.inbox && s.ws.closed == ws.closed
    ensures data == CLOSE_SIGNAL ==> s == Finished(w, ws, Some(false))
    ensures data != CLOSE_SIGNAL && data != READY_SIGNAL ==> s == Finished(w, ws, None)
    ensures data != READY_SIGNAL ==> s.ws == ws
    ensures data == READY_SIGNAL ==>
      (s.ws == ws || (HasNext(w.queue, g) && s.ws.outbox == ws.outbox + [w.queue.log[w.queue.offsets[g]]]))
    ensures data == READY_SIGNAL && s.Pending? ==> s.w.ready
    ensures s.Finished? && s.result == Some(true) ==> data == READY_SIGNAL && HasNext(w.queue, g)
  {
    if data == CLOSE_SIGNAL then Finished(w, ws, Some(false))
    else if data == READY_SIGNAL then ServeReady(w.(ready := true), ws, g)
    else Finished(w, ws, None)
  }

  /** `put(message)` of the Writeable role: it waits for `ready` and then
      appends to the queue. It has no socket to write to; `None` is the
      waiting state. */
  function WriteablePut(w: Writeable, x: Record): (r: Option<Writeable>)
    ensures r.Some? <==> w.ready
    ensures r.Some? ==> r.value.ready && r.value.queue == Put(w.queue, x)
  {
    if w.ready then Some(w.(queue := Put(w.queue, x))) else None
  }

  // ---------------------------------------------------------------------
  // Redeable role
  // ---------------------------------------------------------------------

  /** A `RedeableTopic`: its queue. */
  datatype Redeable = Redeable(queue: Queue)

  function NewRedeable(storage: seq<Record>): (r: Redeable)
    ensures Valid(r.queue) && r.queue.log == storage && r.queue.offsets == map[]
  {
    Redeable(NewQueue(storage, None))
  }

  /** `connection(ws)` of the Redeable role: exactly one READY is sent. */
  function RedeableConnection(ws: Socket): (ws': Socket)
    ensures ws'.outbox == ws.outbox + [READY_SIGNAL]
    ensures ws'.inbox == ws.inbox && ws'.closed == ws.closed
  {
    Send(ws, READY_SIGNAL)
  }

  datatype RStep = RStep(r: Redeable, ws: Socket, result: Option<bool>)

  /** `processing(ws, msg)` of the Redeable role: a text payload is stored
      in the queue and answered with exactly one READY; an error frame ends
      with `False`; anything else returns `None` untouched. */
  function RedeableProcessing(r: Redeable, ws: Socket, msg: Frame): (s: RStep)
    ensures s.ws.inbox == ws.inbox && s.ws.closed == ws.closed
    ensures s.r.queue.offsets == r.queue.offsets
    ensures msg.Text? ==> s.result == Some(true)
    ensures msg.Text? ==> s.r.queue.log == r.queue.log + [msg.data]
    ensures msg.Text? ==> s.ws.outbox == ws.outbox + [READY_SIGNAL]
    ensures !msg.Text? ==> s.r == r && s.ws == ws
    ensures msg.ErrorFrame? ==> s.result == Some(false)
    ensures msg.Binary? || msg.CloseFrame? ==> s.result == None
  {
    match msg
    case Text(d) => RStep(Redeable(Put(r.queue, d)), Send(ws, READY_SIGNAL), Some(true))
    case ErrorFrame => RStep(r, ws, Some(false))
    case _ => RStep(r, ws, None)
  }

  /** `disconnection(ws)` of the Redeable role: CLOSE is sent exactly when
      the socket is still open. */
  function RedeableDisconnection(ws: Socket): (ws': Socket)
    ensures ws'.inbox == ws.inbox && ws'.closed == ws.closed
    ensures !ws.closed ==> ws'.outbox == ws.outbox + [CLOSE_SIGNAL]
    ensures ws.closed ==> ws' == ws
  {
    if !ws.closed then Send(ws, CLOSE_SIGNAL) else ws
  }

  /** `get(group)` of the Redeable role: the next record of its queue. */
  function RedeableGet(r: Redeable, g: Group): (o: GetOutcome)
    ensures o.Delivered? <==> HasNext(r.queue, g)
    ensures o.Delivered? ==> o.record == r.queue.log[r.queue.offsets[g]]
  {
    Get(r.queue, g)
  }

  // ---------------------------------------------------------------------
  // Connection loops
  // ---------------------------------------------------------------------

  datatype Role = WriteableRole(w: Writeable) | RedeableRole(r: Redeable)

  /** Which loop drives the socket: the server's `handler` or the client's
      `connect`. */
  datatype Side = ServerSide | ClientSide

  /** `Reading`: in `async for msg in ws`; `Serving`: inside a Writeable
      processing call that is waiting for data; `Ended`: the loop is over and
      the role's disconnection has run. */
  datatype Status = Reading | Serving | Ended

  datatype Loop = Loop(side: Side, role: Role, ws: Socket, group: Group, status: Status)

  /** A `{group}` path segment as aiohttp matches it: non-empty, without
      `/`, `{` or `}`. */
  predicate IsSegment(seg: string)
  {
    |seg| > 0 && forall i :: 0 <= i < |seg| ==> seg[i] != '/' && seg[i] != '{' && seg[i] != '}'
  }

  /** The server's routes `/` and `/{group}`: the group of a request path,
      `None` for the root, and no route for anything else. */
  function RouteGroup(path: string): (r: Option<Group>)
    ensures r == Some(None) <==> path == "/"
    ensures r.Some? && r.value.Some? ==> path == "/" + r.value.value && IsSegment(r.value.value)
  {
    if path == "/" then Some(None)
    else if |path| > 1 && path[0] == '/' && IsSegment(path[1..]) then Some(Some(path[1..]))
    else None
  }

  /** The path a client dials with a group segment reaches that group. */
  lemma RouteGroupOfSegment(seg: string)
    requires IsSegment(seg)
    ensures RouteGroup("/" + seg) == Some(Some(seg))
  {
    assert ("/" + seg)[1..] == seg;
  }

  /** Start of a connection: the server's group comes from the request path
      (no loop when no route matches), the client's is always `None`; then
      the role's `connection` runs. */
  function Open(side: Side, role: Role, ws: Socket, path: string): (lp: Option<Loop>)
    ensures side == ClientSide ==> lp.Some? && lp.value.group == None
    ensures side == ServerSide ==> (lp.Some? <==> RouteGroup(path).Some?)
    ensures side == ServerSide && lp.Some? ==> lp.value.group == RouteGroup(path).value
    ensures lp.Some? ==> lp.value.status == Reading && lp.value.side == side
    ensures lp.Some? && role.RedeableRole? ==>
      lp.value.role == role && lp.value.ws.outbox == ws.outbox + [READY_SIGNAL]
    ensures lp.Some? && role.WriteableRole? ==>
      lp.value.ws == ws && lp.value.role.WriteableRole? && lp.value.group in lp.value.role.w.queue.offsets
  {
    var g: Option<Group> := if side == ClientSide then Some(None) else RouteGroup(path);
    match g
    case None => None
    case Some(grp) =>
      match role
      case WriteableRole(w) => Some(Loop(side, WriteableRole(WriteableConnection(w, grp)), ws, grp, Reading))
      case RedeableRole(r) => Some(Loop(side, role, RedeableConnection(ws), grp, Reading))
  }

  /** `Open` as the client classes are written: `WriteableTopicClient`
      inherits from both `WriteableTopic` and `TopicClient`, whose
      constructors each create an event named `ready`; the second replaces
      the first, and `connect` sets it once the socket is open. So a
      Writeable client has `ready` set before any READY arrives. */
  function OpenAsWritten(side: Side, role: Role, ws: Socket, path: string): (lp: Option<Loop>)
    ensures lp.Some? <==> Open(side, role, ws, path).Some?
    ensures lp.Some? && !(side == ClientSide && role.WriteableRole?) ==> lp == Open(side, role, ws, path)
    ensures lp.Some? && side == ClientSide && role.WriteableRole? ==>
      lp.value.role.WriteableRole? && lp.value.role.w.ready
      && lp.value.role.w.queue == Open(side, role, ws, path).value.role.w.queue
  {
    match Open(side, role, ws, path)
    case None => None
    case Some(lp) =>
      if side == ClientSide && role.WriteableRole? then
        Some(lp.(role := WriteableRole(lp.role.w.(ready := true))))
      else Some(lp)
  }

  /** As written, a freshly connected Writeable client accepts `put`
      although no READY has been received. */
  lemma ClientPutBeforeReady(storage: seq<Record>, path: string, x: Record)
    ensures var lp := OpenAsWritten(ClientSide, WriteableRole(NewWriteable(storage)), Socket([], [], false), path);
      && lp.Some? && lp.value.ws.inbox == [] && lp.value.role.WriteableRole?
      && WriteablePut(lp.value.role.w, x).Some?
  {
  }

  /** With `ready` kept apart from the connection event, a freshly opened
      Writeable endpoint, client or server, holds `put` back until a READY
      sets `ready`. */
  lemma OpenPutWaitsForReady(side: Side, storage: seq<Record>, path: string, x: Record)
    ensures var lp := Open(side, WriteableRole(NewWriteable(storage)), Socket([], [], false), path);
      lp.Some? ==> lp.value.role.WriteableRole? && WriteablePut(lp.value.role.w, x).None?
  {
  }

  /** The role's `disconnection`, which both loops run when they end. */
  function Disconnect(role: Role, ws: Socket): Socket
  {
    match role
    case WriteableRole(_) => ws
    case RedeableRole(_) => RedeableDisconnection(ws)
  }

  /** The loop after `processing` returned: a falsy result closes the socket
      and ends the loop. */
  function AfterProcessing(lp: Loop, role: Role, ws: Socket, result: Option<bool>): Loop
  {
    if result == Some(true) then lp.(role := role, ws := ws, status := Reading)
    else
      var closed := ws.(closed := true);
      lp.(role := role, ws := Disconnect(role, closed), status := Ended)
  }

  /** One message of `async for msg in ws`. Text goes to the role's
      processing; other data frames are ignored; a close frame ends the
      loop with the socket closed. An error frame arrives on a socket that
      `receive` has already closed: the client breaks out of the loop, and
      the server logs it and then reads the closed socket, which ends its
      loop too; both are one step here. */
  function LoopStep(lp: Loop): (lp': Loop)
    requires lp.status == Reading && |lp.ws.inbox| > 0
    ensures lp'.side == lp.side && lp'.group == lp.group
    ensures lp'.ws.inbox == lp.ws.inbox[1..]
    ensures lp'.status == Ended ==> lp'.ws.closed
    ensures lp.ws.inbox[0].ErrorFrame? || lp.ws.inbox[0].CloseFrame? ==> lp'.status == Ended
    ensures lp.role.WriteableRole? ==> lp'.role.WriteableRole?
    ensures lp.role.RedeableRole? ==> lp'.role.RedeableRole?
  {
    var msg := lp.ws.inbox[0];
    var ws := lp.ws.(inbox := lp.ws.inbox[1..]);
    match msg
    case Text(d) =>
      (match lp.role
       case WriteableRole(w) =>
         (match WriteableProcessing(w, ws, d, lp.group)
          case Pending(w', ws') => lp.(role := WriteableRole(w'), ws := ws', status := Serving)
          case Finished(w', ws', res) => AfterProcessing(lp, WriteableRole(w'), ws', res))
       case RedeableRole(r) =>
         var s := RedeableProcessing(r, ws, msg);
         AfterProcessing(lp, RedeableRole(s.r), s.ws, s.result))
    case ErrorFrame =>
      var closed := ws.(closed := true);
      lp.(ws := Disconnect(lp.role, closed), status := Ended)
    case Binary => lp.(ws := ws)
    case CloseFrame =>
      var closed := ws.(closed := true);
      lp.(ws := Disconnect(lp.role, closed), status := Ended)
  }

  /** A Writeable loop waiting inside processing tries again after its
      timeout. */
  function Resume(lp: Loop): (lp': Loop)
    requires lp.status == Serving && lp.role.WriteableRole?
    ensures lp'.side == lp.side && lp'.group == lp.group && lp'.ws.inbox == lp.ws.inbox
    ensures lp'.role.WriteableRole?
  {
    match ServeReady(lp.role.w, lp.ws, lp.group)
    case Pending(w', ws') => lp.(role := WriteableRole(w'), ws := ws')
    case Finished(w', ws', res) => AfterProcessing(lp, WriteableRole(w'), ws', res)
  }

  /** On the Writeable side CLOSE ends the loop, closes the socket, and
      sends nothing. */
  lemma WriteableCloseEndsLoop(lp: Loop)
    requires lp.status == Reading && lp.role.WriteableRole?
    requires |lp.ws.inbox| > 0 && lp.ws.inbox[0] == Text(CLOSE_SIGNAL)
    ensures LoopStep(lp).status == Ended && LoopStep(lp).ws.closed
    ensures LoopStep(lp).ws.outbox == lp.ws.outbox
  {
  }

  /** An error frame ends either side's loop with the socket closed, and
      nothing is sent: the Redeable disconnection finds the socket closed
      and keeps its CLOSE back. */
  lemma ErrorFrameEndsLoop(lp: Loop)
    requires lp.status == Reading && |lp.ws.inbox| > 0 && lp.ws.inbox[0] == ErrorFrame
    ensures LoopStep(lp).status == Ended && LoopStep(lp).ws.closed
    ensures LoopStep(lp).ws.outbox == lp.ws.outbox
    ensures LoopStep(lp).role == lp.role
  {
  }

  /** On the Writeable side a text frame that is neither sentinel makes
      processing return `None`; the loop treats that as false and closes. */
  lemma WriteableUnknownTextEndsLoop(lp: Loop, d: string)
    requires lp.status == Reading && lp.role.WriteableRole?
    requires |lp.ws.inbox| > 0 && lp.ws.inbox[0] == Text(d)
    requires d != CLOSE_SIGNAL && d != READY_SIGNAL
    ensures LoopStep(lp).status == Ended && LoopStep(lp).ws.closed
    ensures LoopStep(lp).ws.outbox == lp.ws.outbox
  {
  }

  /** On the Writeable side a READY answers with at most one frame, the
      next record of the connection's group, or leaves the loop waiting. */
  lemma WriteableReadyAnswersOnce(lp: Loop)
    requires lp.status == Reading && lp.role.WriteableRole?
    requires |lp.ws.inbox| > 0 && lp.ws.inbox[0] == Text(READY_SIGNAL)
    requires Valid(lp.role.w.queue)
    ensures var q, g := lp.role.w.queue, lp.group;
      HasNext(q, g) ==>
        LoopStep(lp).status == Reading
        && LoopStep(lp).ws.outbox == lp.ws.outbox + [q.log[q.offsets[g]]]
    ensures !HasNext(lp.role.w.queue, lp.group) && !lp.ws.closed ==>
      LoopStep(lp).status == Serving && LoopStep(lp).ws.outbox == lp.ws.outbox
  {
  }

  /** On the Redeable side every text frame is stored and answered with
      exactly one READY, and the loop goes on. */
  lemma RedeableTextAnswersReady(lp: Loop, d: string)
    requires lp.status == Reading && lp.role.RedeableRole?
    requires |lp.ws.inbox| > 0 && lp.ws.inbox[0] == Text(d)
    ensures LoopStep(lp).status == Reading
    ensures LoopStep(lp).ws.outbox == lp.ws.outbox + [READY_SIGNAL]
    ensures LoopStep(lp).role.r.queue.log == lp.role.r.queue.log + [d]
  {
  }

  // ---------------------------------------------------------------------
  // Server address
  // ---------------------------------------------------------------------

  /** The address family of the bound listening socket. */
  datatype Family = AF_INET | AF_INET6 | OtherFamily

  /** The fields of a `TopicServer`: the configured address, what `start`
      learned from the bound socket (`None` when not bound), and whether
      `start` has ever created the `runner` attribute. */
  datatype Server = Server(
    address: string,
    scheme: Option<string>,
    hostname: Option<string>,
    port: Option<nat>,
    family: Option<Family>,
    hasRunner: bool)

  function NewServer(address: string): (s: Server)
    ensures GetAddress(s) == Ok(address)
    ensures !s.hasRunner
  {
    Server(address, None, None, None, None, false)
  }

  /** `start`: it creates the runner, then assigns the fields from the URL
      scheme and what `getsockname()` and the socket report. */
  function Bind(s: Server, scheme: string, host: string, port: nat, family: Family): (s': Server)
    ensures s'.address == s.address && s'.hasRunner
    ensures IsBound(s') <==> scheme != "" && host != "" && port != 0
    ensures IsBound(s') ==> s'.hostname == Some(host) && s'.port == Some(port) && s'.family == Some(family)
  {
    s.(scheme := Some(scheme), hostname := Some(host), port := Some(port), family := Some(family), hasRunner := true)
  }

  /** `stop`: `self.runner.cleanup()` raises `AttributeError` on a server
      that was never started; otherwise the bound fields go back to `None`
      and the runner stays. */
  function StopServer(s: Server): (r: Result<Server, Exception>)
    ensures r.Err? <==> !s.hasRunner
    ensures r.Err? ==> r.error == AttributeError
    ensures r.Ok? ==> !IsBound(r.value) && r.value.address == s.address && r.value.hasRunner
    ensures r.Ok? ==> GetAddress(r.value) == Ok(s.address)
  {
    if !s.hasRunner then Err(AttributeError)
    else Ok(Server(s.address, None, None, None, None, true))
  }

  /** A started server can be stopped, and stopped again. */
  lemma StartStopStop(s: Server, scheme: string, host: string, port: nat, family: Family)
    ensures var s1 := Bind(s, scheme, host, port, family);
      && StopServer(s1).Ok?
      && StopServer(StopServer(s1).value).Ok?
      && GetAddress(StopServer(s1).value) == Ok(s.address)
  {
  }

  /** The port is truthy: present and not 0. */
  predicate TruthyPort(p: Option<nat>)
  {
    p.Some? && p.value != 0
  }

  predicate IsBound(s: Server)
  {
    TruthyString(s.scheme) && TruthyString(s.hostname) && TruthyPort(s.port)
  }

  /** `get_address()`: the bound host and port in IPv4 or bracketed IPv6
      form, `RuntimeError` for any other family, and the configured address
      while not bound. */
  function GetAddress(s: Server): (r: Result<string, Exception>)
    ensures !IsBound(s) ==> r == Ok(s.address)
    ensures r.Err? <==> IsBound(s) && s.family != Some(AF_INET) && s.family != Some(AF_INET6)
    ensures r.Err? ==> r.error == RuntimeError
  {
    if IsBound(s) then
      if s.family == Some(AF_INET) then
        Ok(Address.HttpAddress(s.hostname.value, s.port.value))
      else if s.family == Some(AF_INET6) then
        Ok(Address.HttpAddress6(s.hostname.value, s.port.value))
      else
        Err(RuntimeError)
    else
      Ok(s.address)
  }

  /** A bound server's address reads back to the host and port it is bound
      to, in either family (an IPv4 host is never written in brackets). */
  lemma GetAddressReadsBack(s: Server)
    requires IsBound(s) && (s.family == Some(AF_INET) || s.family == Some(AF_INET6))
    requires s.family == Some(AF_INET) ==> !Address.Bracketed(s.hostname.value)
    ensures GetAddress(s).Ok?
    ensures Address.ParseHttpAddress(GetAddress(s).value) == Some((s.hostname.value, s.port.value))
  {
    if s.family == Some(AF_INET) {
      Address.HttpAddressRoundTrip(s.hostname.value, s.port.value);
    } else {
      Address.HttpAddress6RoundTrip(s.hostname.value, s.port.value);
    }
  }

  /** The server `add_topic` builds at `http://<ip>:0` is never started
      before it is published: every field `start` fills is `None`, so it
      reports its configured address, with port 0, and not a bound one. */
  lemma UnstartedReportsPortZero(ip: string)
    requires !Address.Bracketed(ip)
    ensures var s := NewServer(Address.HttpAddress(ip, 0));
      && GetAddress(s) == Ok(Address.HttpAddress(ip, 0))
      && Address.ParseHttpAddress(GetAddress(s).value) == Some((ip, 0))
  {
    Address.HttpAddressRoundTrip(ip, 0);
  }
}
