/** The earlier copy of `TopicQueue` kept beside the executable layer. It has
    no default group and writes the wait condition as two comparisons; apart
    from that it is the same queue. It models that copy: each operation is
    proved to take exactly the steps of `TopicQueue` on the `None` default
    group, so everything proved there holds of it too. */
module ExecTopicQueue {
  import opened Common
  import TQ = TopicQueue

  type Record = TQ.Record
  type Group = TQ.Group

  datatype ExecQueue = ExecQueue(log: seq<Record>, offsets: map<Group, int>)

  /** `TopicQueue(storage)`: no group known yet. */
  function NewExecQueue(storage: seq<Record>): (q: ExecQueue)
    ensures q.log == storage && q.offsets == map[]
  {
    ExecQueue(storage, map[])
  }

  /** `setup(group)`: an unseen group starts at the current length. */
  function Setup(q: ExecQueue, g: Group): (q': ExecQueue)
    ensures q'.log == q.log
    ensures g !in q.offsets ==> q'.offsets == q.offsets[g := |q.log|]
    ensures g in q.offsets ==> q' == q
  {
    if g !in q.offsets then ExecQueue(q.log, q.offsets[g := |q.log|]) else q
  }

  /** `put(data)`: append, offsets untouched. */
  function Put(q: ExecQueue, x: Record): (q': ExecQueue)
    ensures q'.log == q.log + [x] && q'.offsets == q.offsets
  {
    ExecQueue(q.log + [x], q.offsets)
  }

  /** `wait_condition(local_top)` as this copy writes it. */
  predicate WaitCondition(q: ExecQueue, top: int)
  {
    top >= 0 && top < |q.log|
  }

  datatype ExecGetOutcome = Blocked(q: ExecQueue) | Delivered(q: ExecQueue, record: Record)

  /** `get(group)`: join an unseen group at the tail, then deliver the
      record at the group's offset once one exists and advance it. */
  function Get(q: ExecQueue, g: Group): (o: ExecGetOutcome)
    ensures o.q.log == q.log
    ensures g !in q.offsets ==> o.Blocked? && o.q.offsets == q.offsets[g := |q.log|]
    ensures g in q.offsets ==> (o.Delivered? <==> 0 <= q.offsets[g] < |q.log|)
    ensures o.Delivered? ==> g in q.offsets && o.record == q.log[q.offsets[g]]
    ensures o.Delivered? ==> o.q.offsets == q.offsets[g := q.offsets[g] + 1]
  {
    var q1 := Setup(q, g);
    var top := q1.offsets[g];
    if WaitCondition(q1, top) then
      Delivered(ExecQueue(q1.log, q1.offsets[g := top + 1]), q1.log[top])
    else
      Blocked(q1)
  }

  /** `empty(group)`: nothing unread, or the group unknown (`KeyError`). */
  function Empty(q: ExecQueue, g: Group): (b: bool)
    ensures b <==> g !in q.offsets || q.offsets[g] >= |q.log|
  {
    if g in q.offsets then q.offsets[g] >= |q.log| else true
  }

  // ---------------------------------------------------------------------
  // Refinement: this copy is `TopicQueue` with the `None` default group
  // ---------------------------------------------------------------------

  function Lift(q: ExecQueue): TQ.Queue
  {
    TQ.Queue(q.log, q.offsets, None)
  }

  function LiftOutcome(o: ExecGetOutcome): TQ.GetOutcome
  {
    match o
    case Blocked(q) => TQ.Blocked(Lift(q))
    case Delivered(q, x) => TQ.Delivered(Lift(q), x)
  }

  /** The constructors agree. */
  lemma NewRefines(storage: seq<Record>)
    ensures Lift(NewExecQueue(storage)) == TQ.NewQueue(storage, None)
  {
  }

  /** The two wait conditions are the same predicate. */
  lemma WaitConditionRefines(q: ExecQueue, top: int)
    ensures WaitCondition(q, top) == TQ.WaitCondition(Lift(q), top)
  {
  }

  lemma SetupRefines(q: ExecQueue, g: Group)
    ensures Lift(Setup(q, g)) == TQ.Setup(Lift(q), g)
  {
  }

  lemma PutRefines(q: ExecQueue, x: Record)
    ensures Lift(Put(q, x)) == TQ.Put(Lift(q), x)
  {
  }

  /** Every `get` of this copy is the `get` of `TopicQueue`: same enabling,
      same record, same offsets afterwards. */
  lemma GetRefines(q: ExecQueue, g: Group)
    ensures LiftOutcome(Get(q, g)) == TQ.Get(Lift(q), g)
  {
  }

  lemma EmptyRefines(q: ExecQueue, g: Group)
    ensures Empty(q, g) == TQ.Empty(Lift(q), g)
  {
  }
}
