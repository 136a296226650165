/** `TopicQueue`: a record log with one read offset per consumer group.

    A group that is not yet known joins at the current end of the log, so it
    never sees the backlog. `get` is enabled only while the group's offset
    is inside the log; it then returns the record there and advances that
    group's offset alone. Groups with distinct keys therefore each read the
    whole stream from their joining point, while readers sharing a key split
    it between them.

    Blocking becomes a guard: `Get` answers `Blocked` where the source would
    wait on the group's condition, and a caller retries after a `Put`. */
module TopicQueue {
  import opened Common
  import Storage

  type Record = Storage.Record

  /** A consumer-group key: Python's `None` group or a string. */
  type Group = Option<string>

  /** `log` is the queue's storage seen as the sequence of appended records;
      `offsets` is `_pointers`. */
  datatype Queue = Queue(log: seq<Record>, offsets: map<Group, int>, defaultGroup: Group)

  /** Every known group reads from inside the log or from its end. */
  predicate Valid(q: Queue)
  {
    forall g :: g in q.offsets ==> 0 <= q.offsets[g] <= |q.log|
  }

  /** `TopicQueue(storage, default_group=dg)`: no group is known yet, and a
      falsy default group (`None` or `""`) becomes the `None` group. */
  function NewQueue(storage: seq<Record>, dg: Group): (q: Queue)
    ensures Valid(q) && q.log == storage && q.offsets == map[]
    ensures TruthyString(dg) ==> q.defaultGroup == dg
    ensures !TruthyString(dg) ==> q.defaultGroup == None
  {
    Queue(storage, map[], if TruthyString(dg) then dg else None)
  }

  /** `setup(group)`: an unseen group starts at the current length; a known
      group keeps its offset. */
  function Setup(q: Queue, g: Group): (q': Queue)
    ensures q'.log == q.log && q'.defaultGroup == q.defaultGroup
    ensures g !in q.offsets ==> q'.offsets == q.offsets[g := |q.log|]
    ensures g in q.offsets ==> q' == q
    ensures Valid(q) ==> Valid(q')
  {
    if g in q.offsets then q else q.(offsets := q.offsets[g := |q.log|])
  }

  /** `put(data)`: the record is appended; no offset moves. */
  function Put(q: Queue, x: Record): (q': Queue)
    ensures q'.log == q.log + [x]
    ensures q'.offsets == q.offsets && q'.defaultGroup == q.defaultGroup
    ensures Valid(q) ==> Valid(q')
  {
    q.(log := q.log + [x])
  }

  /** `wait_condition(local_top)`: a record exists at the given offset. */
  predicate WaitCondition(q: Queue, top: int)
  {
    0 <= top < |q.log|
  }

  /** What a `put` does to a waiting `get`: the condition becomes true for a
      waiter at the old tail, stays true for one already enabled, and stays
      false for every other offset, a negative one in particular. */
  lemma PutWakesTail(q: Queue, x: Record, top: int)
    ensures WaitCondition(Put(q, x), top) <==> WaitCondition(q, top) || top == |q.log|
    ensures top < 0 ==> !WaitCondition(Put(q, x), top)
  {
  }

  /** The result of one attempt at `get`: still waiting (with the group set
      up), or the record read and the offset advanced. */
  datatype GetOutcome = Blocked(q: Queue) | Delivered(q: Queue, record: Record)

  /** `get(group)`: set the group up if unseen, then deliver the record at
      its offset once one exists, advancing that group's offset only. */
  function Get(q: Queue, g: Group): (o: GetOutcome)
    ensures o.q.log == q.log && o.q.defaultGroup == q.defaultGroup
    ensures g !in q.offsets ==> o == Blocked(q.(offsets := q.offsets[g := |q.log|]))
    ensures g in q.offsets ==> (o.Delivered? <==> 0 <= q.offsets[g] < |q.log|)
    ensures g in q.offsets && o.Blocked? ==> o.q == q
    ensures o.Delivered? ==> g in q.offsets && o.record == q.log[q.offsets[g]]
    ensures o.Delivered? ==> o.q.offsets == q.offsets[g := q.offsets[g] + 1]
    ensures Valid(q) ==> Valid(o.q)
  {
    var q1 := Setup(q, g);
    var top := q1.offsets[g];
    if WaitCondition(q1, top) then
      Delivered(q1.(offsets := q1.offsets[g := top + 1]), q1.log[top])
    else
      Blocked(q1)
  }

  /** `empty(group)`: nothing unread for the group, or the group unknown. */
  function Empty(q: Queue, g: Group): (b: bool)
    ensures b <==> g !in q.offsets || q.offsets[g] >= |q.log|
  {
    if g in q.offsets then q.offsets[g] >= |q.log| else true
  }

  /** `empty` answers exactly whether `get` would have to wait. */
  lemma EmptyIffGetBlocks(q: Queue, g: Group)
    requires Valid(q)
    ensures Empty(q, g) <==> Get(q, g).Blocked?
  {
  }

  /** `__anext__`: a `get` on the queue's default group. */
  function Next(q: Queue): (o: GetOutcome)
    ensures o.Delivered? ==> q.defaultGroup in q.offsets
    ensures o.Delivered? ==> 0 <= q.offsets[q.defaultGroup] < |q.log|
    ensures o.Delivered? ==> o.record == q.log[q.offsets[q.defaultGroup]]
    ensures o.Delivered? ==> o.q.offsets == q.offsets[q.defaultGroup := q.offsets[q.defaultGroup] + 1]
    ensures q.defaultGroup !in q.offsets ==> o.Blocked?
  {
    Get(q, q.defaultGroup)
  }

  // ---------------------------------------------------------------------
  // Runs of operations
  // ---------------------------------------------------------------------

  datatype Op = PutOp(record: Record) | GetOp(group: Group) | SetupOp(group: Group)

  /** One record handed to one `get` caller. */
  datatype Delivery = Delivery(group: Group, record: Record)

  function Apply(q: Queue, op: Op): (Queue, seq<Delivery>)
  {
    match op
    case PutOp(x) => (Put(q, x), [])
    case SetupOp(g) => (Setup(q, g), [])
    case GetOp(g) =>
      match Get(q, g)
      case Blocked(q') => (q', [])
      case Delivered(q', x) => (q', [Delivery(g, x)])
  }

  /** The queue and the deliveries after performing `ops` in order. */
  function Run(q: Queue, ops: seq<Op>): (Queue, seq<Delivery>)
    decreases |ops|
  {
    if |ops| == 0 then (q, [])
    else
      var step := Apply(q, ops[0]);
      var rest := Run(step.0, ops[1..]);
      (rest.0, step.1 + rest.1)
  }

  /** The records delivered to group `g`, in delivery order. */
  function DeliveredTo(ds: seq<Delivery>, g: Group): seq<Record>
  {
    if |ds| == 0 then []
    else (if ds[0].group == g then [ds[0].record] else []) + DeliveredTo(ds[1..], g)
  }

  lemma {:induction false} DeliveredToAppend(a: seq<Delivery>, b: seq<Delivery>, g: Group)
    ensures DeliveredTo(a + b, g) == DeliveredTo(a, g) + DeliveredTo(b, g)
    decreases |a|
  {
    if |a| > 0 {
      assert (a + b)[0] == a[0];
      assert (a + b)[1..] == a[1..] + b;
      DeliveredToAppend(a[1..], b, g);
    } else {
      assert a + b == b;
    }
  }

  /** Where group `g` starts reading: its offset if known, the end of the
      log otherwise (where it will join). */
  function StartOf(q: Queue, g: Group): int
  {
    if g in q.offsets then q.offsets[g] else |q.log|
  }

  /** What a run promises group `g`: the log only grew; a group known at the
      start stays known and received exactly the records between its old and
      new offsets; a group that joined during the run received a contiguous
      stretch of the log that begins no earlier than the old end of the log;
      a group still unknown received nothing. */
  ghost predicate StreamContract(q: Queue, q': Queue, ds: seq<Delivery>, g: Group)
  {
    StreamOf(q, q', DeliveredTo(ds, g), g)
  }

  /** The same promise stated for the records `d` group `g` received. */
  ghost predicate StreamOf(q: Queue, q': Queue, d: seq<Record>, g: Group)
  {
    && |q.log| <= |q'.log| && q'.log[..|q.log|] == q.log
    && (g in q.offsets ==> g in q'.offsets && q'.offsets[g] - |d| == q.offsets[g])
    && (g in q'.offsets ==>
          0 <= q'.offsets[g] - |d| && StartOf(q, g) + |d| <= q'.offsets[g] <= |q'.log|
          && d == q'.log[q'.offsets[g] - |d| .. q'.offsets[g]])
    && (g !in q'.offsets ==> d == [])
  }

  lemma ApplyStream(q: Queue, op: Op, g: Group)
    requires Valid(q)
    ensures StreamContract(q, Apply(q, op).0, Apply(q, op).1, g)
  {
    if op.GetOp? && op.group == g && Get(q, g).Delivered? {
      ApplyStreamDelivers(q, g);
    } else {
      ApplyStreamOther(q, op, g);
    }
  }

  /** A get that delivers to `g` hands it the record at its offset. */
  lemma ApplyStreamDelivers(q: Queue, g: Group)
    requires Valid(q) && Get(q, g).Delivered?
    ensures StreamContract(q, Apply(q, GetOp(g)).0, Apply(q, GetOp(g)).1, g)
  {
    var (q1, d1) := Apply(q, GetOp(g));
    assert q1.log[..|q.log|] == q.log;
    assert DeliveredTo(d1, g) == [q.log[q.offsets[g]]];
    assert q1.log[q.offsets[g]..q1.offsets[g]] == [q.log[q.offsets[g]]];
  }

  /** Any other step delivers nothing to `g` and moves its offset at most
      from unknown to the end of the log. */
  lemma ApplyStreamOther(q: Queue, op: Op, g: Group)
    requires Valid(q) && !(op.GetOp? && op.group == g && Get(q, g).Delivered?)
    ensures StreamContract(q, Apply(q, op).0, Apply(q, op).1, g)
  {
    var (q1, d1) := Apply(q, op);
    assert q1.log[..|q.log|] == q.log;
    assert DeliveredTo(d1, g) == [] by {
      if |d1| > 0 {
        assert d1[0].group != g;
      }
    }
  }

  /** A prefix of a prefix is a prefix. */
  lemma PrefixTrans(l0: seq<Record>, l1: seq<Record>, l2: seq<Record>)
    requires |l0| <= |l1| <= |l2| && l1[..|l0|] == l0 && l2[..|l1|] == l1
    ensures l2[..|l0|] == l0
  {
    assert l2[..|l0|] == l2[..|l1|][..|l0|];
  }

  /** A slice of an old log followed by the next slice of a log extending it
      is one slice of the longer log. */
  lemma SliceJoin(l1: seq<Record>, l2: seq<Record>, lo: int, m: int, e: int)
    requires |l1| <= |l2| && l2[..|l1|] == l1
    requires 0 <= lo <= m <= |l1| && m <= e <= |l2|
    ensures l1[lo..m] + l2[m..e] == l2[lo..e]
  {
    assert l1[lo..m] == l2[lo..m];
  }

  /** Stream contracts compose: a run followed by a run keeps the promise. */
  lemma StreamCompose(q: Queue, q1: Queue, a: seq<Record>, q2: Queue, b: seq<Record>, g: Group)
    requires StreamOf(q, q1, a, g) && StreamOf(q1, q2, b, g)
    ensures StreamOf(q, q2, a + b, g)
  {
    if g in q1.offsets {
      StreamComposeKnown(q, q1, a, q2, b, g);
    } else {
      StreamComposeUnknown(q, q1, a, q2, b, g);
    }
  }

  /** Composition when the group is known after the first run. */
  lemma StreamComposeKnown(q: Queue, q1: Queue, a: seq<Record>, q2: Queue, b: seq<Record>, g: Group)
    requires StreamOf(q, q1, a, g) && StreamOf(q1, q2, b, g) && g in q1.offsets
    ensures StreamOf(q, q2, a + b, g)
  {
    PrefixTrans(q.log, q1.log, q2.log);
    var m, e := q1.offsets[g], q2.offsets[g];
    SliceJoin(q1.log, q2.log, m - |a|, m, e);
    assert e - |a + b| == m - |a|;
  }

  /** Composition when the group is still unknown after the first run. */
  lemma StreamComposeUnknown(q: Queue, q1: Queue, a: seq<Record>, q2: Queue, b: seq<Record>, g: Group)
    requires StreamOf(q, q1, a, g) && StreamOf(q1, q2, b, g) && g !in q1.offsets
    ensures StreamOf(q, q2, a + b, g)
  {
    PrefixTrans(q.log, q1.log, q2.log);
    assert a + b == b;
  }

  /** Every run keeps the stream contract for every group: within a group,
      records come out in log order with none skipped or repeated; a group
      never sees records appended before it joined. */
  lemma {:induction false} RunStream(q: Queue, ops: seq<Op>, g: Group)
    requires Valid(q)
    ensures Valid(Run(q, ops).0)
    ensures StreamContract(q, Run(q, ops).0, Run(q, ops).1, g)
    decreases |ops|
  {
    if |ops| == 0 {
      assert DeliveredTo([], g) == [];
      assert q.log[..|q.log|] == q.log;
      if g in q.offsets {
        assert q.log[q.offsets[g]..q.offsets[g]] == [];
      }
    } else {
      var (q1, d1) := Apply(q, ops[0]);
      var (q2, d2) := Run(q1, ops[1..]);
      ApplyStream(q, ops[0], g);
      RunStream(q1, ops[1..], g);
      DeliveredToAppend(d1, d2, g);
      StreamCompose(q, q1, DeliveredTo(d1, g), q2, DeliveredTo(d2, g), g);
    }
  }

  /** Tail join: a group unknown when a run starts receives only records
      appended after the run started: a stretch of the log that begins at or
      after the old end of the log (and nothing if it never joined). */
  lemma TailJoin(q: Queue, ops: seq<Op>, g: Group)
    requires Valid(q) && g !in q.offsets
    ensures var (q', ds) := Run(q, ops);
      var d := DeliveredTo(ds, g);
      && (g !in q'.offsets ==> d == [])
      && (g in q'.offsets ==>
            var start := q'.offsets[g] - |d|;
            |q.log| <= start <= q'.offsets[g] <= |q'.log| && d == q'.log[start..q'.offsets[g]])
  {
    hide Run;
    RunStream(q, ops, g);
  }

  /** FIFO within a group: a group known when a run starts receives the
      records of the log from its offset on, in log order, none skipped and
      none repeated, however the run interleaves puts and other groups. */
  lemma KnownGroupStream(q: Queue, ops: seq<Op>, g: Group)
    requires Valid(q) && g in q.offsets
    ensures var (q', ds) := Run(q, ops);
      var o, d := q.offsets[g], DeliveredTo(ds, g);
      && g in q'.offsets && q'.offsets[g] == o + |d|
      && o + |d| <= |q'.log| && d == q'.log[o..o + |d|]
  {
    hide Run;
    RunStream(q, ops, g);
  }

  /** Broadcast: two groups that start at the same offset each receive a
      stretch of the same stream from that offset, whatever the other does;
      the slower one's records are a prefix of the faster one's. */
  lemma Broadcast(q: Queue, ops: seq<Op>, a: Group, b: Group)
    requires Valid(q) && a in q.offsets && b in q.offsets && q.offsets[a] == q.offsets[b]
    ensures var ds := Run(q, ops).1;
      var da, db := DeliveredTo(ds, a), DeliveredTo(ds, b);
      da <= db || db <= da
  {
    hide Run;
    var (q', ds) := Run(q, ops);
    var o, da, db := q.offsets[a], DeliveredTo(ds, a), DeliveredTo(ds, b);
    KnownGroupStream(q, ops, a);
    KnownGroupStream(q, ops, b);
    SameStartPrefix(q'.log, o, da, db);
  }

  /** Two stretches of one log that start at the same index: the shorter is
      a prefix of the longer. */
  lemma SameStartPrefix(l: seq<Record>, o: nat, da: seq<Record>, db: seq<Record>)
    requires o + |da| <= |l| && da == l[o..o + |da|]
    requires o + |db| <= |l| && db == l[o..o + |db|]
    ensures da <= db || db <= da
  {
    if |da| <= |db| {
      assert da == db[..|da|];
    } else {
      assert db == da[..|db|];
    }
  }

  // ---------------------------------------------------------------------
  // The scenarios the source's tests exercise
  // ---------------------------------------------------------------------

  function Puts(xs: seq<Record>): seq<Op>
  {
    seq(|xs|, i requires 0 <= i < |xs| => PutOp(xs[i]))
  }

  function Gets(g: Group, k: nat): seq<Op>
  {
    seq(k, i => GetOp(g))
  }

  /** An empty run changes nothing and delivers nothing. */
  lemma RunNil(q: Queue)
    ensures Run(q, []) == (q, [])
  {
  }

  /** A run is its first step followed by the run of the rest. */
  lemma RunCons(q: Queue, ops: seq<Op>)
    requires |ops| > 0
    ensures var step := Apply(q, ops[0]);
      Run(q, ops) == (Run(step.0, ops[1..]).0, step.1 + Run(step.0, ops[1..]).1)
  {
  }

  lemma {:induction false} RunAppend(q: Queue, a: seq<Op>, b: seq<Op>)
    ensures Run(q, a + b).0 == Run(Run(q, a).0, b).0
    ensures Run(q, a + b).1 == Run(q, a).1 + Run(Run(q, a).0, b).1
    decreases |a|
  {
    hide Run;
    if |a| > 0 {
      assert (a + b)[0] == a[0];
      assert (a + b)[1..] == a[1..] + b;
      RunCons(q, a + b);
      RunCons(q, a);
      RunAppend(Apply(q, a[0]).0, a[1..], b);
    } else {
      assert a + b == b;
      RunNil(q);
    }
  }

  /** Puts append their records and deliver nothing. */
  lemma {:induction false} RunPuts(q: Queue, xs: seq<Record>)
    ensures Run(q, Puts(xs)).0 == q.(log := q.log + xs)
    ensures Run(q, Puts(xs)).1 == []
    decreases |xs|
  {
    if |xs| > 0 {
      assert Puts(xs)[1..] == Puts(xs[1..]);
      RunPuts(Put(q, xs[0]), xs[1..]);
      assert q.log + [xs[0]] + xs[1..] == q.log + xs;
    } else {
      assert q.log + xs == q.log;
    }
  }

  /** Puts followed by anything run as that remainder on the extended log. */
  lemma PutsThen(q: Queue, xs: seq<Record>, rest: seq<Op>)
    ensures Run(q, Puts(xs) + rest) == Run(q.(log := q.log + xs), rest)
  {
    hide Run;
    var q2 := q.(log := q.log + xs);
    RunAppend(q, Puts(xs), rest);
    RunPuts(q, xs);
    assert [] + Run(q2, rest).1 == Run(q2, rest).1;
  }

  /** The first of `k` gets on a group with an unread record delivers it
      and leaves the rest of the gets to run from the advanced offset. */
  lemma GetsCons(q: Queue, g: Group, k: nat)
    requires k > 0 && g in q.offsets && 0 <= q.offsets[g] < |q.log|
    ensures var q1 := q.(offsets := q.offsets[g := q.offsets[g] + 1]);
      Run(q, Gets(g, k)) == (Run(q1, Gets(g, k - 1)).0, [Delivery(g, q.log[q.offsets[g]])] + Run(q1, Gets(g, k - 1)).1)
  {
    var q1 := q.(offsets := q.offsets[g := q.offsets[g] + 1]);
    assert Apply(q, GetOp(g)) == (q1, [Delivery(g, q.log[q.offsets[g]])]);
    assert Gets(g, k)[0] == GetOp(g) && Gets(g, k)[1..] == Gets(g, k - 1);
  }

  /** What a group receives from two runs in sequence is what it receives
      from the first followed by what it receives from the second. */
  lemma DeliveredSplit(q: Queue, a: seq<Op>, b: seq<Op>, g: Group)
    ensures DeliveredTo(Run(q, a + b).1, g) == DeliveredTo(Run(q, a).1, g) + DeliveredTo(Run(Run(q, a).0, b).1, g)
  {
    hide Run;
    RunAppend(q, a, b);
    DeliveredToAppend(Run(q, a).1, Run(Run(q, a).0, b).1, g);
  }

  /** No gets leave the queue as it was and deliver nothing. */
  lemma NoGets(q: Queue, g: Group)
    ensures Run(q, Gets(g, 0)) == (q, [])
  {
    assert Gets(g, 0) == [];
  }

  /** `k` gets on a group with `k` unread records move only its offset, by `k`. */
  lemma {:induction false} RunGetsState(q: Queue, g: Group, k: nat)
    requires g in q.offsets && 0 <= q.offsets[g] && q.offsets[g] + k <= |q.log|
    ensures Run(q, Gets(g, k)).0 == q.(offsets := q.offsets[g := q.offsets[g] + k])
    decreases k
  {
    hide Run;
    var o := q.offsets[g];
    if k == 0 {
      NoGets(q, g);
      assert q.offsets[g := o] == q.offsets;
    } else {
      var q1 := q.(offsets := q.offsets[g := o + 1]);
      GetsCons(q, g, k);
      RunGetsState(q1, g, k - 1);
      assert q1.offsets[g := o + k] == q.offsets[g := o + k];
    }
  }

  /** What the first of `k` gets delivers to its group comes first. */
  lemma GetsConsDelivered(q: Queue, g: Group, k: nat)
    requires k > 0 && g in q.offsets && 0 <= q.offsets[g] < |q.log|
    ensures var q1 := q.(offsets := q.offsets[g := q.offsets[g] + 1]);
      DeliveredTo(Run(q, Gets(g, k)).1, g) == [q.log[q.offsets[g]]] + DeliveredTo(Run(q1, Gets(g, k - 1)).1, g)
  {
    hide Run;
    var x := q.log[q.offsets[g]];
    var q1 := q.(offsets := q.offsets[g := q.offsets[g] + 1]);
    GetsCons(q, g, k);
    DeliveredToAppend([Delivery(g, x)], Run(q1, Gets(g, k - 1)).1, g);
  }

  /** A slice is its first element followed by the rest. */
  lemma SliceCons(s: seq<Record>, lo: int, hi: int)
    requires 0 <= lo < hi <= |s|
    ensures s[lo..hi] == [s[lo]] + s[lo + 1..hi]
  {
  }

  /** `k` gets on a group with `k` unread records deliver those records, in
      log order, to that group alone. */
  lemma {:induction false} RunGets(q: Queue, g: Group, k: nat)
    requires g in q.offsets && 0 <= q.offsets[g] && q.offsets[g] + k <= |q.log|
    ensures Run(q, Gets(g, k)).0 == q.(offsets := q.offsets[g := q.offsets[g] + k])
    ensures DeliveredTo(Run(q, Gets(g, k)).1, g) == q.log[q.offsets[g]..q.offsets[g] + k]
    decreases k
  {
    hide Run;
    RunGetsState(q, g, k);
    if k == 0 {
      NoGets(q, g);
    } else {
      GetsConsDelivered(q, g, k);
      RunGets(q.(offsets := q.offsets[g := q.offsets[g] + 1]), g, k - 1);
      SliceCons(q.log, q.offsets[g], q.offsets[g] + k);
    }
  }

  /** A group set up before `k` puts receives exactly those `k` records, in
      put order, from `k` gets. */
  lemma PutsThenGets(q: Queue, g: Group, xs: seq<Record>)
    requires g in q.offsets && q.offsets[g] == |q.log|
    ensures DeliveredTo(Run(q, Puts(xs) + Gets(g, |xs|)).1, g) == xs
  {
    hide Run;
    PutsThen(q, xs, Gets(g, |xs|));
    var q1 := q.(log := q.log + xs);
    RunGets(q1, g, |xs|);
    assert q1.log[|q.log|..|q.log| + |xs|] == xs;
  }

  /** Consumer first: a consumer whose first `get` finds the queue empty
      (and so joins at the end), then retries after the producer's puts,
      receives every record put, in order. */
  lemma ConsumerFirst(storage: seq<Record>, dg: Group, g: Group, xs: seq<Record>)
    ensures DeliveredTo(Run(NewQueue(storage, dg), [GetOp(g)] + Puts(xs) + Gets(g, |xs|)).1, g) == xs
  {
    var q := NewQueue(storage, dg);
    var q1 := q.(offsets := q.offsets[g := |q.log|]);
    assert Apply(q, GetOp(g)) == (q1, []);
    assert [GetOp(g)][1..] == [];
    assert Run(q1, []) == (q1, []);
    assert Run(q, [GetOp(g)]) == (q1, [] + []);
    assert [GetOp(g)] + Puts(xs) + Gets(g, |xs|) == [GetOp(g)] + (Puts(xs) + Gets(g, |xs|));
    RunAppend(q, [GetOp(g)], Puts(xs) + Gets(g, |xs|));
    PutsThenGets(q1, g, xs);
    DeliveredToAppend([], Run(q1, Puts(xs) + Gets(g, |xs|)).1, g);
  }

  /** Producer first: records put before a consumer's first `get` form a
      backlog it never sees; it receives exactly the records put after. */
  lemma ProducerFirst(storage: seq<Record>, dg: Group, g: Group, backlog: seq<Record>, xs: seq<Record>)
    ensures DeliveredTo(Run(NewQueue(storage, dg), Puts(backlog) + [GetOp(g)] + Puts(xs) + Gets(g, |xs|)).1, g) == xs
  {
    hide Run;
    var q := NewQueue(storage, dg);
    var rest := [GetOp(g)] + Puts(xs) + Gets(g, |xs|);
    assert Puts(backlog) + [GetOp(g)] + Puts(xs) + Gets(g, |xs|) == Puts(backlog) + rest;
    PutsThen(q, backlog, rest);
    var q1 := q.(log := q.log + backlog);
    assert q1 == NewQueue(storage + backlog, dg);
    ConsumerFirst(storage + backlog, dg, g, xs);
  }

  /** Gets on one group deliver nothing to any other group. */
  lemma {:induction false} GetsOnlyForTheirGroup(q: Queue, g: Group, h: Group, k: nat)
    requires g != h
    ensures DeliveredTo(Run(q, Gets(g, k)).1, h) == []
    decreases k
  {
    if k > 0 {
      var (q1, d1) := Apply(q, GetOp(g));
      assert Gets(g, k)[1..] == Gets(g, k - 1);
      GetsOnlyForTheirGroup(q1, g, h, k - 1);
      DeliveredToAppend(d1, Run(q1, Gets(g, k - 1)).1, h);
      assert DeliveredTo(d1, h) == [] by {
        if |d1| > 0 {
          assert d1[0].group == g;
        }
      }
    }
  }

  /** A single operation run on its own. */
  lemma RunOne(q: Queue, op: Op)
    ensures Run(q, [op]) == Apply(q, op)
  {
    assert [op][0] == op;
    assert [op][1..] == [];
    assert Run(Apply(q, op).0, []) == (Apply(q, op).0, []);
    assert Apply(q, op).1 + [] == Apply(q, op).1;
  }

  /** The first attempts of two consumers find nothing and join both groups
      at the end of the log. */
  lemma JoinTwo(storage: seq<Record>, dg: Group, a: Group, b: Group)
    requires a != b
    ensures Run(NewQueue(storage, dg), [GetOp(a), GetOp(b)])
         == (NewQueue(storage, dg).(offsets := map[a := |storage|, b := |storage|]), [])
  {
    var o := |storage|;
    var q := NewQueue(storage, dg);
    var qa := q.(offsets := map[a := o]);
    var q1 := q.(offsets := map[a := o, b := o]);
    assert Apply(q, GetOp(a)) == (qa, []);
    assert Apply(qa, GetOp(b)) == (q1, []);
    RunOne(q, GetOp(a));
    RunOne(qa, GetOp(b));
    RunAppend(q, [GetOp(a)], [GetOp(b)]);
    assert [GetOp(a)] + [GetOp(b)] == [GetOp(a), GetOp(b)];
  }

  /** Two groups at the same offset with `k` unread records: `k` gets on
      the first group, then `k` on the second, give each the same `k`
      records. */
  lemma DrainTwo(q: Queue, a: Group, b: Group, k: nat)
    requires a != b && a in q.offsets && b in q.offsets
    requires 0 <= q.offsets[a] == q.offsets[b] && q.offsets[a] + k <= |q.log|
    ensures var ds := Run(q, Gets(a, k) + Gets(b, k)).1;
      var o := q.offsets[a];
      DeliveredTo(ds, a) == q.log[o..o + k] && DeliveredTo(ds, b) == q.log[o..o + k]
  {
    hide Run;
    var q3 := q.(offsets := q.offsets[a := q.offsets[a] + k]);
    GetsFacts(q, a, b, k);
    GetsFacts(q3, b, a, k);
    TwoRuns(q, Gets(a, k), Gets(b, k), a, b, q3);
  }

  /** `RunGets` and `GetsOnlyForTheirGroup` together. */
  lemma GetsFacts(q: Queue, g: Group, h: Group, k: nat)
    requires g != h && g in q.offsets && 0 <= q.offsets[g] && q.offsets[g] + k <= |q.log|
    ensures Run(q, Gets(g, k)).0 == q.(offsets := q.offsets[g := q.offsets[g] + k])
    ensures DeliveredTo(Run(q, Gets(g, k)).1, g) == q.log[q.offsets[g]..q.offsets[g] + k]
    ensures DeliveredTo(Run(q, Gets(g, k)).1, h) == []
  {
    hide Run;
    RunGets(q, g, k);
    GetsOnlyForTheirGroup(q, g, h, k);
  }

  /** Two runs in sequence, where the first gives `b` nothing and the second
      gives `a` nothing: each group receives what its own run gave it. */
  lemma TwoRuns(q: Queue, xs: seq<Op>, ys: seq<Op>, a: Group, b: Group, q3: Queue)
    requires Run(q, xs).0 == q3
    requires DeliveredTo(Run(q, xs).1, b) == [] && DeliveredTo(Run(q3, ys).1, a) == []
    ensures DeliveredTo(Run(q, xs + ys).1, a) == DeliveredTo(Run(q, xs).1, a)
    ensures DeliveredTo(Run(q, xs + ys).1, b) == DeliveredTo(Run(q3, ys).1, b)
  {
    hide Run;
    DeliveredSplit(q, xs, ys, a);
    DeliveredSplit(q, xs, ys, b);
    assert DeliveredTo(Run(q, xs).1, a) + [] == DeliveredTo(Run(q, xs).1, a);
  }

  /** Two groups already at the end of the log, then `k` puts: `k` gets on
      the first group and `k` gets on the second each yield the `k` records. */
  lemma TwoGroupsAfterJoin(q: Queue, a: Group, b: Group, xs: seq<Record>)
    requires a != b && a in q.offsets && b in q.offsets
    requires q.offsets[a] == |q.log| && q.offsets[b] == |q.log|
    ensures var ds := Run(q, Puts(xs) + (Gets(a, |xs|) + Gets(b, |xs|))).1;
      DeliveredTo(ds, a) == xs && DeliveredTo(ds, b) == xs
  {
    hide Run;
    var n, o := |xs|, |q.log|;
    var q2 := q.(log := q.log + xs);
    PutsThen(q, xs, Gets(a, n) + Gets(b, n));
    DrainTwo(q2, a, b, n);
    assert q2.log[o..o + n] == xs;
  }

  /** Two groups: consumers of distinct groups whose first attempts both
      came before the puts each receive every record, in put order. */
  lemma TwoGroups(storage: seq<Record>, dg: Group, a: Group, b: Group, xs: seq<Record>)
    requires a != b
    ensures var ds := Run(NewQueue(storage, dg),
                          [GetOp(a), GetOp(b)] + (Puts(xs) + (Gets(a, |xs|) + Gets(b, |xs|)))).1;
      DeliveredTo(ds, a) == xs && DeliveredTo(ds, b) == xs
  {
    hide Run;
    var q := NewQueue(storage, dg);
    var rest := Puts(xs) + (Gets(a, |xs|) + Gets(b, |xs|));
    var q1 := q.(offsets := map[a := |storage|, b := |storage|]);
    JoinTwo(storage, dg, a, b);
    RunAppend(q, [GetOp(a), GetOp(b)], rest);
    TwoGroupsAfterJoin(q1, a, b, xs);
    assert Run(q, [GetOp(a), GetOp(b)] + rest).1 == [] + Run(q1, rest).1;
    assert [] + Run(q1, rest).1 == Run(q1, rest).1;
  }
}
