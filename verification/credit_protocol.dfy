/** A Writeable endpoint and a Redeable endpoint joined by one websocket,
    run as an interleaving of atomic steps: each side's loop reads a frame,
    a sent frame travels to the other side, the Writeable loop retries after
    a timeout, a local producer puts into the Writeable queue, a local
    consumer gets from the Redeable queue.

    The READY/record exchange is a one-credit protocol: at every moment
    exactly one token is in play, either a READY on its way to the Writeable
    side, a Writeable loop waiting for data, or a record on its way to the
    Redeable side. So records sent never exceed READYs received, at most one
    record is in flight, and the Redeable queue receives the Writeable
    group's records in order, none skipped or repeated.

    There is no close step: both sockets stay open through every run, so
    CLOSE and the end of either loop are covered by the per-loop lemmas of
    `TopicProcessor` only. A producer's put is an event that happens at
    once or not at all; a put left waiting on `ready` is not kept. */
module CreditProtocol {
  import opened Common
  import opened TopicQueue
  import opened TopicProcessor

  /** Both loops, and two counters kept for the statement of the credit
      property: READY frames the Writeable side has read, records it has
      sent. */
  datatype Link = Link(wl: Loop, rl: Loop, readies: nat, records: nat)

  datatype Event =
    | ProducerPut(x: Record)   // `WriteableTopic.put` by the local producer
    | ToWriteable              // the oldest frame the Redeable side sent arrives
    | ToRedeable               // the oldest frame the Writeable side sent arrives
    | WriteableReads           // the Writeable loop reads one frame
    | WriteableRetries         // the Writeable wait times out and tries again
    | RedeableReads            // the Redeable loop reads one frame
    | ConsumerGet(h: Group)    // `RedeableTopic.get` by the local consumer

  predicate WellFormed(s: Link)
  {
    s.wl.role.WriteableRole? && s.rl.role.RedeableRole?
  }

  /** One step; a step that is not enabled leaves the link unchanged. */
  function Next(s: Link, e: Event): (s': Link)
    requires WellFormed(s)
    ensures WellFormed(s')
  {
    var wl, rl := s.wl, s.rl;
    match e
    case ProducerPut(x) =>
      (match WriteablePut(wl.role.w, x)
       case Some(w') => s.(wl := wl.(role := WriteableRole(w')))
       case None => s)
    case ToWriteable =>
      if |rl.ws.outbox| == 0 then s
      else
        s.(rl := rl.(ws := rl.ws.(outbox := rl.ws.outbox[1..])),
           wl := wl.(ws := wl.ws.(inbox := wl.ws.inbox + [Text(rl.ws.outbox[0])])))
    case ToRedeable =>
      if |wl.ws.outbox| == 0 then s
      else
        s.(wl := wl.(ws := wl.ws.(outbox := wl.ws.outbox[1..])),
           rl := rl.(ws := rl.ws.(inbox := rl.ws.inbox + [Text(wl.ws.outbox[0])])))
    case WriteableReads =>
      if wl.status != Reading || |wl.ws.inbox| == 0 then s
      else
        var wl' := LoopStep(wl);
        s.(wl := wl',
           readies := s.readies + (if wl.ws.inbox[0] == Text(READY_SIGNAL) then 1 else 0),
           records := s.records + (if |wl'.ws.outbox| > |wl.ws.outbox| then 1 else 0))
    case WriteableRetries =>
      if wl.status != Serving then s
      else
        var wl' := Resume(wl);
        s.(wl := wl', records := s.records + (if |wl'.ws.outbox| > |wl.ws.outbox| then 1 else 0))
    case RedeableReads =>
      if rl.status != Reading || |rl.ws.inbox| == 0 then s
      else s.(rl := LoopStep(rl))
    case ConsumerGet(h) =>
      s.(rl := rl.(role := RedeableRole(Redeable(RedeableGet(rl.role.r, h).q))))
  }

  /** Where the single credit is. */
  datatype Place = ReadyOut | ReadyIn | Waiting | RecordOut | RecordIn

  /** Exactly one frame or waiting loop holds the credit, at the given
      place; every other channel is empty. */
  predicate CreditAt(s: Link, p: Place)
  {
    && |s.rl.ws.outbox| == (if p == ReadyOut then 1 else 0)
    && |s.wl.ws.inbox| == (if p == ReadyIn then 1 else 0)
    && (s.wl.status == Serving <==> p == Waiting)
    && |s.wl.ws.outbox| == (if p == RecordOut then 1 else 0)
    && |s.rl.ws.inbox| == (if p == RecordIn then 1 else 0)
    && (p == ReadyOut ==> s.rl.ws.outbox[0] == READY_SIGNAL)
    && (p == ReadyIn ==> s.wl.ws.inbox[0] == Text(READY_SIGNAL))
    && (p == RecordIn ==> s.rl.ws.inbox[0].Text?)
  }

  /** The records on their way from the Writeable queue to the Redeable
      queue. */
  function InFlight(s: Link): seq<Record>
  {
    s.wl.ws.outbox + (if |s.rl.ws.inbox| > 0 && s.rl.ws.inbox[0].Text? then [s.rl.ws.inbox[0].data] else [])
  }

  /** The invariant of the link, for the Writeable connection's group
      `s.wl.group`, which joined at offset `start`, and a Redeable queue
      that held `base` before the link opened. */
  ghost predicate Inv(s: Link, start: int, base: seq<Record>)
  {
    && WellFormed(s)
    && var w, r, g := s.wl.role.w, s.rl.role.r, s.wl.group;
    && s.wl.status != Ended && s.rl.status == Reading
    && !s.wl.ws.closed && !s.rl.ws.closed
    && (exists p :: CreditAt(s, p))
    && s.readies == s.records + (if s.wl.status == Serving then 1 else 0)
    && Valid(w.queue) && g in w.queue.offsets && 0 <= start <= w.queue.offsets[g]
    && r.queue.log + InFlight(s) == base + w.queue.log[start..w.queue.offsets[g]]
  }

  lemma CreditOf(s: Link, start: int, base: seq<Record>) returns (p: Place)
    requires Inv(s, start, base)
    ensures CreditAt(s, p)
  {
    p :| CreditAt(s, p);
  }

  lemma ProducerPutKeeps(s: Link, x: Record, start: int, base: seq<Record>)
    requires Inv(s, start, base)
    ensures Inv(Next(s, ProducerPut(x)), start, base)
  {
    var p := CreditOf(s, start, base);
    var s' := Next(s, ProducerPut(x));
    assert CreditAt(s', p);
    var w, w' := s.wl.role.w, s'.wl.role.w;
    var g := s.wl.group;
    assert w'.queue.log[start..w.queue.offsets[g]] == w.queue.log[start..w.queue.offsets[g]];
  }

  lemma ToWriteableKeeps(s: Link, start: int, base: seq<Record>)
    requires Inv(s, start, base)
    ensures Inv(Next(s, ToWriteable), start, base)
  {
    var p := CreditOf(s, start, base);
    var s' := Next(s, ToWriteable);
    if p == ReadyOut {
      assert CreditAt(s', ReadyIn);
      assert InFlight(s') == InFlight(s);
    } else {
      assert CreditAt(s', p);
    }
  }

  lemma ToRedeableKeeps(s: Link, start: int, base: seq<Record>)
    requires Inv(s, start, base)
    ensures Inv(Next(s, ToRedeable), start, base)
  {
    var p := CreditOf(s, start, base);
    var s' := Next(s, ToRedeable);
    if p == RecordOut {
      assert CreditAt(s', RecordIn);
      assert InFlight(s') == InFlight(s);
    } else {
      assert CreditAt(s', p);
    }
  }

  lemma WriteableReadsKeeps(s: Link, start: int, base: seq<Record>)
    requires Inv(s, start, base)
    ensures Inv(Next(s, WriteableReads), start, base)
  {
    var p := CreditOf(s, start, base);
    if p == ReadyIn && s.wl.status == Reading {
      if HasNext(s.wl.role.w.queue, s.wl.group) {
        WriteableReadsSends(s, start, base);
      } else {
        WriteableReadsWaits(s, start, base);
      }
    } else {
      assert CreditAt(Next(s, WriteableReads), p);
    }
  }

  /** The writeable side takes the credit and has a record: it sends it. */
  lemma WriteableReadsSends(s: Link, start: int, base: seq<Record>)
    requires Inv(s, start, base) && CreditAt(s, ReadyIn) && s.wl.status == Reading
    requires HasNext(s.wl.role.w.queue, s.wl.group)
    ensures Inv(Next(s, WriteableReads), start, base)
  {
    var s' := Next(s, WriteableReads);
    var w, g := s.wl.role.w, s.wl.group;
    var o := w.queue.offsets[g];
    assert s.wl.ws.inbox[0] == Text(READY_SIGNAL);
    assert InFlight(s) == [];
    var w' := s'.wl.role.w;
    assert w'.queue.log == w.queue.log && w'.queue.offsets[g] == o + 1;
    assert s'.rl == s.rl;
    assert CreditAt(s', RecordOut);
    assert InFlight(s') == [w.queue.log[o]];
    assert w.queue.log[start..o + 1] == w.queue.log[start..o] + [w.queue.log[o]];
    assert s.rl.role.r.queue.log == base + w.queue.log[start..o];
    assert s'.rl.role.r.queue.log + InFlight(s') == base + w'.queue.log[start..o + 1];
  }

  /** The writeable side takes the credit and has nothing: it waits. */
  lemma WriteableReadsWaits(s: Link, start: int, base: seq<Record>)
    requires Inv(s, start, base) && CreditAt(s, ReadyIn) && s.wl.status == Reading
    requires !HasNext(s.wl.role.w.queue, s.wl.group)
    ensures Inv(Next(s, WriteableReads), start, base)
  {
    var s' := Next(s, WriteableReads);
    assert s.wl.ws.inbox[0] == Text(READY_SIGNAL);
    assert InFlight(s) == [];
    assert CreditAt(s', Waiting);
    assert InFlight(s') == [];
  }

  lemma WriteableRetriesKeeps(s: Link, start: int, base: seq<Record>)
    requires Inv(s, start, base)
    ensures Inv(Next(s, WriteableRetries), start, base)
  {
    var p := CreditOf(s, start, base);
    var s' := Next(s, WriteableRetries);
    if p == Waiting {
      var w, g := s.wl.role.w, s.wl.group;
      var o := w.queue.offsets[g];
      assert InFlight(s) == [];
      if HasNext(w.queue, g) {
        var w' := s'.wl.role.w;
        assert w'.queue.log == w.queue.log && w'.queue.offsets[g] == o + 1;
        assert s'.rl == s.rl;
        assert CreditAt(s', RecordOut);
        assert InFlight(s') == [w.queue.log[o]];
        assert w.queue.log[start..o + 1] == w.queue.log[start..o] + [w.queue.log[o]];
        assert s.rl.role.r.queue.log == base + w.queue.log[start..o];
        assert s'.rl.role.r.queue.log + InFlight(s') == base + w'.queue.log[start..o + 1];
      } else {
        assert CreditAt(s', Waiting);
      }
    } else {
      assert CreditAt(s', p);
    }
  }

  lemma RedeableReadsKeeps(s: Link, start: int, base: seq<Record>)
    requires Inv(s, start, base)
    ensures Inv(Next(s, RedeableReads), start, base)
  {
    var p := CreditOf(s, start, base);
    var s' := Next(s, RedeableReads);
    if p == RecordIn {
      var d := s.rl.ws.inbox[0].data;
      assert InFlight(s) == [d];
      assert CreditAt(s', ReadyOut);
      assert InFlight(s') == [];
      assert s'.rl.role.r.queue.log == s.rl.role.r.queue.log + [d];
    } else {
      assert CreditAt(s', p);
    }
  }

  lemma ConsumerGetKeeps(s: Link, h: Group, start: int, base: seq<Record>)
    requires Inv(s, start, base)
    ensures Inv(Next(s, ConsumerGet(h)), start, base)
  {
    var p := CreditOf(s, start, base);
    assert CreditAt(Next(s, ConsumerGet(h)), p);
  }

  /** Every step keeps the invariant. */
  lemma NextKeeps(s: Link, e: Event, start: int, base: seq<Record>)
    requires Inv(s, start, base)
    ensures Inv(Next(s, e), start, base)
  {
    match e
    case ProducerPut(x) => ProducerPutKeeps(s, x, start, base);
    case ToWriteable => ToWriteableKeeps(s, start, base);
    case ToRedeable => ToRedeableKeeps(s, start, base);
    case WriteableReads => WriteableReadsKeeps(s, start, base);
    case WriteableRetries => WriteableRetriesKeeps(s, start, base);
    case RedeableReads => RedeableReadsKeeps(s, start, base);
    case ConsumerGet(h) => ConsumerGetKeeps(s, h, start, base);
  }

  function RunLink(s: Link, es: seq<Event>): (s': Link)
    requires WellFormed(s)
    ensures WellFormed(s')
    decreases |es|
  {
    if |es| == 0 then s else RunLink(Next(s, es[0]), es[1..])
  }

  lemma {:induction false} RunKeeps(s: Link, es: seq<Event>, start: int, base: seq<Record>)
    requires Inv(s, start, base)
    ensures Inv(RunLink(s, es), start, base)
    decreases |es|
  {
    if |es| > 0 {
      NextKeeps(s, es[0], start, base);
      RunKeeps(Next(s, es[0]), es[1..], start, base);
    }
  }

  /** The connection as both loops open it: the Writeable loop has joined
      its group, the Redeable loop has sent its first READY, nothing else
      has happened. */
  predicate Opened(s: Link)
  {
    && WellFormed(s)
    && s.wl.status == Reading && s.rl.status == Reading
    && s.wl.ws == Socket([], [], false)
    && s.rl.ws == Socket([], [READY_SIGNAL], false)
    && Valid(s.wl.role.w.queue) && s.wl.group in s.wl.role.w.queue.offsets
    && s.readies == 0 && s.records == 0
  }

  /** Opening both ends, a Writeable server dialled by a Redeable client
      or the other way round, gives a link in the opened state, with the
      Writeable side's `ready` unset. */
  lemma OpenGivesOpened(wSide: Side, rSide: Side, wStorage: seq<Record>, rStorage: seq<Record>, path: string)
    requires wSide == ServerSide ==> RouteGroup(path).Some?
    requires rSide == ServerSide ==> RouteGroup(path).Some?
    ensures var wl := Open(wSide, WriteableRole(NewWriteable(wStorage)), Socket([], [], false), path);
      var rl := Open(rSide, RedeableRole(NewRedeable(rStorage)), Socket([], [], false), path);
      && wl.Some? && rl.Some? && Opened(Link(wl.value, rl.value, 0, 0))
      && !wl.value.role.w.ready
  {
  }

  /** The same with the client classes as written: the link is in the
      opened state in both directions, only with `ready` already set when
      the Writeable side is the client. */
  lemma OpenAsWrittenGivesOpened(wSide: Side, rSide: Side, wStorage: seq<Record>, rStorage: seq<Record>, path: string)
    requires wSide == ServerSide ==> RouteGroup(path).Some?
    requires rSide == ServerSide ==> RouteGroup(path).Some?
    ensures var wl := OpenAsWritten(wSide, WriteableRole(NewWriteable(wStorage)), Socket([], [], false), path);
      var rl := OpenAsWritten(rSide, RedeableRole(NewRedeable(rStorage)), Socket([], [], false), path);
      && wl.Some? && rl.Some? && Opened(Link(wl.value, rl.value, 0, 0))
      && (wl.value.role.w.ready <==> wSide == ClientSide)
  {
    OpenGivesOpened(wSide, rSide, wStorage, rStorage, path);
  }

  /** The opened state satisfies the invariant: the credit is the first
      READY, and nothing has moved yet. */
  lemma OpenedInv(s: Link)
    requires Opened(s)
    ensures Inv(s, s.wl.role.w.queue.offsets[s.wl.group], s.rl.role.r.queue.log)
  {
    assert CreditAt(s, ReadyOut);
    assert InFlight(s) == [];
  }

  /** The credit property of a link `s'` reached from the opened link `s`:
      records sent never exceed READYs read and trail them by at most one;
      at most one record is in flight; the Redeable queue holds its earlier
      contents followed by the Writeable group's records from its joining
      offset, in order, except the one in flight. */
  ghost predicate CreditHolds(s: Link, s': Link)
    requires Opened(s) && WellFormed(s')
  {
    var w0, w', r' := s.wl.role.w.queue, s'.wl.role.w.queue, s'.rl.role.r.queue;
    var g := s.wl.group;
    && s'.records <= s'.readies <= s'.records + 1
    && |InFlight(s')| <= 1
    && s'.wl.group == g && g in w'.offsets
    && w0.offsets[g] <= w'.offsets[g] <= |w'.log|
    && r'.log + InFlight(s') == s.rl.role.r.queue.log + w'.log[w0.offsets[g]..w'.offsets[g]]
  }

  /** The credit property holds over any run from an opened link. */
  lemma CreditProperty(s: Link, es: seq<Event>)
    requires Opened(s)
    ensures CreditHolds(s, RunLink(s, es))
  {
    var start, base := s.wl.role.w.queue.offsets[s.wl.group], s.rl.role.r.queue.log;
    OpenedInv(s);
    RunKeeps(s, es, start, base);
    var s' := RunLink(s, es);
    GroupStable(s, es);
    var p := CreditOf(s', start, base);
  }

  /** The credit property of the program as written, in both directions:
      a Writeable server with a Redeable client, or a Writeable client
      (whose `ready` is set on connect) with a Redeable server. */
  lemma AsWrittenCreditProperty(wSide: Side, rSide: Side, wStorage: seq<Record>, rStorage: seq<Record>,
                                path: string, es: seq<Event>)
    requires wSide == ServerSide ==> RouteGroup(path).Some?
    requires rSide == ServerSide ==> RouteGroup(path).Some?
    ensures var wl := OpenAsWritten(wSide, WriteableRole(NewWriteable(wStorage)), Socket([], [], false), path);
      var rl := OpenAsWritten(rSide, RedeableRole(NewRedeable(rStorage)), Socket([], [], false), path);
      && wl.Some? && rl.Some?
      && var s := Link(wl.value, rl.value, 0, 0);
      Opened(s) && CreditHolds(s, RunLink(s, es))
  {
    OpenAsWrittenGivesOpened(wSide, rSide, wStorage, rStorage, path);
    var wl := OpenAsWritten(wSide, WriteableRole(NewWriteable(wStorage)), Socket([], [], false), path);
    var rl := OpenAsWritten(rSide, RedeableRole(NewRedeable(rStorage)), Socket([], [], false), path);
    CreditProperty(Link(wl.value, rl.value, 0, 0), es);
  }

  /** `ready` is set exactly while the Writeable loop holds the credit
      waiting for data. The corrected `Open` starts a link this way; the
      Writeable client as written does not. */
  predicate ReadyTracks(s: Link)
  {
    WellFormed(s) && s.wl.role.w.ready == (s.wl.status == Serving)
  }

  /** Every step keeps `ready` in step with the Writeable loop. */
  lemma NextKeepsReady(s: Link, e: Event, start: int, base: seq<Record>)
    requires Inv(s, start, base) && ReadyTracks(s)
    ensures ReadyTracks(Next(s, e))
  {
    var p := CreditOf(s, start, base);
    match e
    case WriteableReads =>
      if p == ReadyIn && s.wl.status == Reading {
        assert s.wl.ws.inbox[0] == Text(READY_SIGNAL);
      }
    case WriteableRetries =>
    case _ =>
  }

  lemma {:induction false} RunKeepsReady(s: Link, es: seq<Event>, start: int, base: seq<Record>)
    requires Inv(s, start, base) && ReadyTracks(s)
    ensures Inv(RunLink(s, es), start, base) && ReadyTracks(RunLink(s, es))
    decreases |es|
  {
    if |es| > 0 {
      NextKeeps(s, es[0], start, base);
      NextKeepsReady(s, es[0], start, base);
      RunKeepsReady(Next(s, es[0]), es[1..], start, base);
    }
  }

  /** Within the link, a `put` issued now goes through exactly while the
      Writeable loop holds the credit waiting for data: a READY has been
      read and not yet answered. */
  lemma PutOnlyWhileServing(s: Link, x: Record, start: int, base: seq<Record>)
    requires Inv(s, start, base) && ReadyTracks(s)
    ensures WriteablePut(s.wl.role.w, x).Some? <==> s.wl.status == Serving
    ensures s.wl.status == Serving ==> s.readies == s.records + 1
  {
  }

  /** Over any run from a link opened with `ready` unset, as the corrected
      `Open` gives, a `put` issued after the run goes through exactly while
      a READY is unanswered. */
  lemma CorrectedPutOnlyWhileServing(s: Link, es: seq<Event>, x: Record)
    requires Opened(s) && !s.wl.role.w.ready
    ensures var s' := RunLink(s, es);
      && (WriteablePut(s'.wl.role.w, x).Some? <==> s'.wl.status == Serving)
      && (s'.wl.status == Serving ==> s'.readies == s'.records + 1)
  {
    var start, base := s.wl.role.w.queue.offsets[s.wl.group], s.rl.role.r.queue.log;
    OpenedInv(s);
    RunKeepsReady(s, es, start, base);
    PutOnlyWhileServing(RunLink(s, es), x, start, base);
  }

  /** The loops never change the group of their connection. */
  lemma {:induction false} GroupStable(s: Link, es: seq<Event>)
    requires WellFormed(s)
    ensures RunLink(s, es).wl.group == s.wl.group
    decreases |es|
  {
    if |es| > 0 {
      GroupStable(Next(s, es[0]), es[1..]);
    }
  }
}
