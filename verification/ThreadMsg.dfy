/** The cross-thread message queue: a circular singly linked list held by its tail, filled by any
    number of producers under a lock and emptied in batches by one consumer. */
module ThreadMsg {

  /** `producer` identifies the pushing thread; a handler that pushes counts as a producer too. */
  datatype Msg = Msg(producer: nat, body: nat)

  // ---------- The protocol ----------

  /** `sawTail`: the consumer has read a non-null tail without the lock and not yet taken it. */
  datatype State = State(
    queue: seq<Msg>,
    batch: seq<Msg>,
    dispatched: seq<Msg>,
    sawTail: bool,
    pushed: seq<Msg>)

  const START := State([], [], [], false, [])

  datatype Event = Push(m: Msg) | TestTail | TakeBatch | DispatchOne

  /** The order of the consumer's own steps; producers may push at any time. */
  predicate Fits(s: State, e: Event) {
    match e
    case Push(_) => true
    case TestTail => s.batch == [] && !s.sawTail
    case TakeBatch => s.batch == [] && s.sawTail
    case DispatchOne => s.batch != []
  }

  function Step(s: State, e: Event): State
    requires Fits(s, e)
  {
    match e
    case Push(m) => s.(queue := s.queue + [m], pushed := s.pushed + [m])
    case TestTail => s.(sawTail := s.queue != [])
    case TakeBatch => s.(queue := [], batch := s.queue, sawTail := false)
    case DispatchOne => s.(batch := s.batch[1..], dispatched := s.dispatched + [s.batch[0]])
  }

  /** Everything pushed is dispatched, in the current batch or queued, in the order of the pushes;
      and a tail once seen stays until the consumer takes it. */
  predicate Inv(s: State) {
    s.pushed == s.dispatched + s.batch + s.queue && (s.sawTail ==> s.queue != [])
  }

  predicate Fitting(s: State, es: seq<Event>)
    decreases |es|
  {
    es == [] || (Fits(s, es[0]) && Fitting(Step(s, es[0]), es[1..]))
  }

  function Run(s: State, es: seq<Event>): State
    requires Fitting(s, es)
    decreases |es|
  {
    if es == [] then s else Run(Step(s, es[0]), es[1..])
  }

  lemma StepKeeps(s: State, e: Event)
    requires Inv(s) && Fits(s, e)
    ensures Inv(Step(s, e))
  {
  }

  lemma {:induction false} RunKeeps(s: State, es: seq<Event>)
    requires Inv(s) && Fitting(s, es)
    ensures Inv(Run(s, es))
    decreases |es|
  {
    if es != [] {
      StepKeeps(s, es[0]);
      RunKeeps(Step(s, es[0]), es[1..]);
    }
  }

  function From(p: nat, ms: seq<Msg>): seq<Msg> {
    if ms == [] then []
    else From(p, ms[..|ms| - 1]) + (if ms[|ms| - 1].producer == p then [ms[|ms| - 1]] else [])
  }

  lemma {:induction false} FromConcat(p: nat, a: seq<Msg>, b: seq<Msg>)
    ensures From(p, a + b) == From(p, a) + From(p, b)
  {
    if b == [] {
      assert a + b == a;
    } else {
      var b' := b[..|b| - 1];
      assert (a + b)[..|a + b| - 1] == a + b';
      FromConcat(p, a, b');
    }
  }

  /** For any interleaving: the messages dispatched are the first of those pushed, so each comes
      out at most once and each producer's in push order; the rest is still held, exactly once. */
  lemma DispatchedInPushOrder(es: seq<Event>, p: nat)
    requires Fitting(START, es)
    ensures var s := Run(START, es);
            && s.dispatched <= s.pushed
            && From(p, s.dispatched) <= From(p, s.pushed)
            && s.pushed == s.dispatched + s.batch + s.queue
            && (s.batch == [] && s.queue == [] ==> s.dispatched == s.pushed)
            && (s.sawTail ==> s.queue != [])
  {
    RunKeeps(START, es);
    var s := Run(START, es);
    assert s.pushed == s.dispatched + (s.batch + s.queue);
    FromConcat(p, s.dispatched, s.batch + s.queue);
  }

  function Pushes(es: seq<Event>): seq<Msg> {
    if es == [] then [] else (if es[0].Push? then [es[0].m] else []) + Pushes(es[1..])
  }

  lemma {:induction false} PushedIsAll(s: State, es: seq<Event>)
    requires Fitting(s, es)
    ensures Run(s, es).pushed == s.pushed + Pushes(es)
    decreases |es|
  {
    if es != [] {
      PushedIsAll(Step(s, es[0]), es[1..]);
    }
  }

  function Repeat(e: Event, n: nat): (es: seq<Event>)
    ensures |es| == n
  {
    if n == 0 then [] else [e] + Repeat(e, n - 1)
  }

  /** Once the producers are quiet, the consumer's own steps bring out everything: first the rest
      of the batch, then, if the queue is not empty, one more batch. */
  lemma {:induction false} BatchDrains(s: State)
    ensures Fitting(s, Repeat(DispatchOne, |s.batch|))
    ensures Run(s, Repeat(DispatchOne, |s.batch|)) == s.(batch := [], dispatched := s.dispatched + s.batch)
    decreases |s.batch|
  {
    if s.batch != [] {
      var s' := Step(s, DispatchOne);
      BatchDrains(s');
      assert Repeat(DispatchOne, |s.batch|)[1..] == Repeat(DispatchOne, |s'.batch|);
      assert s.dispatched + [s.batch[0]] + s.batch[1..] == s.dispatched + s.batch;
    } else {
      assert s.dispatched + [] == s.dispatched;
    }
  }

  lemma {:induction false} RunConcat(s: State, a: seq<Event>, b: seq<Event>)
    requires Fitting(s, a) && Fitting(Run(s, a), b)
    ensures Fitting(s, a + b) && Run(s, a + b) == Run(Run(s, a), b)
    decreases |a|
  {
    if a == [] {
      assert a + b == b;
    } else {
      assert (a + b)[1..] == a[1..] + b;
      RunConcat(Step(s, a[0]), a[1..], b);
    }
  }

  /** The steps that fetch the queue as the next batch. */
  function Fetch(s: State): seq<Event> {
    if s.sawTail then [TakeBatch] else [TestTail, TakeBatch]
  }

  /** The consumer's way out of any state with an empty batch. */
  function NextBatch(s: State): seq<Event> {
    if s.queue == [] then [] else Fetch(s) + Repeat(DispatchOne, |s.queue|)
  }

  lemma OneEvent(s: State, e: Event)
    requires Fits(s, e)
    ensures Fitting(s, [e]) && Run(s, [e]) == Step(s, e)
  {
    hide Step, Fits;
    assert [e][1..] == [];
  }

  lemma Fetched(s: State)
    requires s.batch == [] && s.queue != []
    ensures Fitting(s, Fetch(s)) && Run(s, Fetch(s)) == s.(queue := [], batch := s.queue, sawTail := false)
  {
    if s.sawTail {
      OneEvent(s, TakeBatch);
    } else {
      var s1 := Step(s, TestTail);
      OneEvent(s, TestTail);
      OneEvent(s1, TakeBatch);
      assert Fetch(s) == [TestTail] + [TakeBatch];
      hide Run, Fitting;
      RunConcat(s, [TestTail], [TakeBatch]);
    }
  }

  /** Nothing is stuck: whatever was pushed comes out by the consumer's steps alone. */
  lemma EverythingComesOut(s: State)
    requires Inv(s)
    ensures var es := Repeat(DispatchOne, |s.batch|) + NextBatch(s);
            && Fitting(s, es)
            && Run(s, es).dispatched == s.pushed
  {
    var s1 := s.(batch := [], dispatched := s.dispatched + s.batch);
    NoEvent(s1);
    hide Run, Fitting, Fetch, Repeat;
    BatchDrains(s);
    if s.queue != [] {
      var s2 := s1.(queue := [], batch := s.queue, sawTail := false);
      Fetched(s1);
      BatchDrains(s2);
      RunConcat(s1, Fetch(s1), Repeat(DispatchOne, |s.queue|));
      assert NextBatch(s1) == Fetch(s1) + Repeat(DispatchOne, |s.queue|);
    }
    assert NextBatch(s) == NextBatch(s1) by {
      SameFetch(s, s1);
    }
    RunConcat(s, Repeat(DispatchOne, |s.batch|), NextBatch(s1));
  }

  lemma NoEvent(s: State)
    ensures Fitting(s, []) && Run(s, []) == s
  {
  }

  lemma SameFetch(s: State, s1: State)
    requires s.sawTail == s1.sawTail
    ensures Fetch(s) == Fetch(s1)
  {
  }

  // ---------- The linked list ----------

  class NodeMsg {
    var data: Msg
    var next: NodeMsg?

    constructor (m: Msg)
      ensures data == m
    {
      data := m;
      next := null;
    }
  }

  class CThreadMsgBase {
    var m_pMsgTail: NodeMsg?
    // The consumer's locals, kept here because producers run between its steps.
    var sawTail: bool
    var first: NodeMsg?
    var next: NodeMsg?
    var dispatched: seq<Msg>

    ghost var queue: seq<NodeMsg>
    ghost var batch: seq<NodeMsg>
    ghost var pushed: seq<Msg>

    /** The nodes form a circle: each points to the one after it and the tail to the oldest. */
    ghost predicate Circle(q: seq<NodeMsg>, tail: NodeMsg?)
      reads q
    {
      && (tail == null <==> q == [])
      && (q != [] ==> tail == q[|q| - 1] && tail.next == q[0])
      && (forall i :: 0 <= i < |q| - 1 ==> q[i].next == q[i + 1])
      && (forall i, j :: 0 <= i < j < |q| ==> q[i] != q[j])
    }

    /** The undispatched part of a batch: it ends where a node points to `first`, which itself may
        be deleted, or even recycled for a new message, by then. */
    ghost predicate Chain(b: seq<NodeMsg>, head: NodeMsg?, stop: NodeMsg?)
      reads b
    {
      && (head == null <==> b == [])
      && (b != [] ==> head == b[0] && b[|b| - 1].next == stop && stop != null)
      && (forall i :: 0 <= i < |b| - 1 ==> b[i].next == b[i + 1])
      && (forall i :: 1 <= i < |b| ==> b[i] != stop)
      && (forall i, j :: 0 <= i < j < |b| ==> b[i] != b[j])
    }

    ghost predicate Valid()
      reads this, queue, batch
    {
      && Circle(queue, m_pMsgTail)
      && Chain(batch, next, first)
      && (forall n :: n in queue ==> n !in batch)
      && (sawTail ==> m_pMsgTail != null)
      && Inv(Abs())
    }

    ghost function Data(q: seq<NodeMsg>): seq<Msg>
      reads q
    {
      seq(|q|, i requires 0 <= i < |q| reads q => q[i].data)
    }

    ghost function Abs(): State
      reads this, queue, batch
    {
      State(Data(queue), Data(batch), dispatched, sawTail, pushed)
    }

    constructor ()
      ensures Valid() && Abs() == START
    {
      m_pMsgTail, first, next := null, null, null;
      sawTail := false;
      dispatched, pushed, queue, batch := [], [], [], [];
    }

    /** Any thread, under the lock.  The node may live where a deleted one did. */
    method PushBackMsg(msg: NodeMsg)
      requires Valid() && msg !in queue && msg !in batch
      modifies `m_pMsgTail, `queue, `pushed, msg, if m_pMsgTail == null then {} else {m_pMsgTail}
      ensures Valid() && Abs() == Step(old(Abs()), Push(old(msg.data)))
      ensures queue == old(queue) + [msg] && batch == old(batch)
    {
      StepKeeps(Abs(), Push(msg.data));
      ghost var q, was := queue, Abs();
      assert m_pMsgTail != null ==> m_pMsgTail in queue && m_pMsgTail !in batch;
      Link(msg);
      queue := queue + [msg];
      pushed := pushed + [msg.data];
      hide Inv, Circle;
      assert forall i :: 0 <= i < |q| ==> queue[i] == q[i];
      assert Data(queue) == was.queue + [msg.data];
      assert Data(batch) == was.batch;
      assert forall i :: 0 <= i < |batch| ==> batch[i].next == old(batch[i].next);
    }

    /** Puts the node behind the tail of the circle. */
    method Link(msg: NodeMsg)
      requires Circle(queue, m_pMsgTail) && msg !in queue
      modifies `m_pMsgTail, msg`next, if m_pMsgTail == null then {} else {m_pMsgTail}`next
      ensures Circle(queue + [msg], m_pMsgTail)
    {
      ghost var q := queue;
      if m_pMsgTail == null {
        msg.next := msg;
        m_pMsgTail := msg;
      } else {
        msg.next := m_pMsgTail.next;
        m_pMsgTail.next := msg;
        m_pMsgTail := msg;
      }
      ghost var q' := q + [msg];
      assert forall i :: 0 <= i < |q| ==> q'[i] == q[i];
      assert forall i :: 0 <= i < |q| - 1 ==> q[i].next == q[i + 1];
    }

    /** The consumer, without the lock. */
    method TestTail() returns (found: bool)
      requires Valid() && batch == [] && !sawTail
      modifies `sawTail
      ensures Valid() && Abs() == Step(old(Abs()), Event.TestTail)
      ensures found == sawTail
    {
      sawTail := m_pMsgTail != null;
      found := sawTail;
    }

    /** The consumer, under the lock: the tail it saw is still there. */
    method TakeBatch()
      requires Valid() && batch == [] && sawTail
      modifies `m_pMsgTail, `sawTail, `first, `next, `queue, `batch
      ensures Valid() && Abs() == Step(old(Abs()), Event.TakeBatch)
      ensures batch == old(queue)
    {
      StepKeeps(Abs(), Event.TakeBatch);
      hide Inv;
      first := m_pMsgTail.next;
      next := first;
      m_pMsgTail := null;
      sawTail := false;
      batch := queue;
      queue := [];
      assert Data(batch) == old(Data(queue));
      assert Data(queue) == [];
    }

    /** The next node is the one pointed to, unless that is where the batch began. */
    lemma ChainTail(b: seq<NodeMsg>, head: NodeMsg, stop: NodeMsg?)
      requires Chain(b, head, stop)
      ensures b != [] && head == b[0] && Chain(b[1..], if head.next != stop then head.next else null, stop)
    {
      assert |b| > 1 ==> head.next == b[1];
      assert forall i :: 0 <= i < |b[1..]| ==> b[1..][i] == b[i + 1];
    }

    lemma DataTail(b: seq<NodeMsg>)
      requires b != []
      ensures Data(b) == [b[0].data] + Data(b[1..])
    {
      assert forall i :: 0 <= i < |b[1..]| ==> b[1..][i] == b[i + 1];
    }

    /** The consumer: one turn of the dispatch loop, up to the handler's call. */
    method DispatchOne() returns (m: Msg)
      requires Valid() && next != null
      modifies `next, `dispatched, `batch
      ensures Valid() && Abs() == Step(old(Abs()), Event.DispatchOne)
      ensures m == old(next.data) && batch == old(batch)[1..] && queue == old(queue)
    {
      StepKeeps(Abs(), Event.DispatchOne);
      ChainTail(batch, next, first);
      DataTail(batch);
      assert forall n :: n in batch[1..] ==> n in batch;
      hide Inv, Circle, Chain, Data;
      var req := next;
      next := if req.next != first then req.next else null;
      m := req.data;
      dispatched := dispatched + [m];
      batch := batch[1..];
    }
  }
}
