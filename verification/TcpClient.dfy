/** The send path of the TCP client: any number of threads in Send fill the circular buffer in
    pieces under a mutex, and the loop thread drains it into recycled write requests.

    A step is one critical section or one libuv call, so a run is any interleaving of the
    threads.  The bytes and the write requests are two machines that step together; the class
    at the end runs both on the real buffer and the real request list. */
module TcpClient {
  import opened CircularBuffer
  import opened Wrappers

  newtype Byte = x: int | 0 <= x < 0x100

  const MAXLISTSIZE: nat := 20
  const BUFFER_SIZE: nat := 1024 * 10

  // ---------- The bytes ----------

  /** One call of Send: `iret` bytes are in the buffer; `over` once the call has returned. */
  datatype Sender = Sender(data: seq<Byte>, iret: nat, over: bool)

  /** One call of uv_write and whether it succeeded. */
  datatype Submission = Submission(bytes: seq<Byte>, ok: bool)

  datatype Tagged = Tagged(sender: nat, byte: Byte)

  /** `held` is what the loop thread has read and not yet passed to uv_write; `accepted` is the
      history of the buffer: every byte that entered it, and who sent it. */
  datatype State = State(
    ring: seq<Byte>,
    senders: seq<Sender>,
    closed: bool,
    held: seq<Byte>,
    passed: seq<Submission>,
    accepted: seq<Tagged>)

  datatype Event = Begin(data: seq<Byte>) | Turn(i: nat) | Close | Take | Submit(ok: bool)

  const START := State([], [], false, [], [], [])

  /** The size_t-to-int conversion in `write(data + iret, len - iret)`. */
  function CInt(n: nat): (i: int)
    ensures i <= n
    ensures n < 0x8000_0000 ==> i == n
  {
    (n + 0x8000_0000) % 0x1_0000_0000 - 0x8000_0000
  }

  function Tag(i: nat, s: seq<Byte>): (t: seq<Tagged>)
    ensures |t| == |s|
  {
    seq(|s|, k requires 0 <= k < |s| => Tagged(i, s[k]))
  }

  /** How much sender c gets into the buffer in its next turn. */
  function Room(s: State, c: Sender, capacity: nat): (n: nat)
    requires |s.ring| <= capacity && c.iret <= |c.data|
    ensures n <= capacity - |s.ring| && n <= |c.data| - c.iret
  {
    Moved(CInt(|c.data| - c.iret), capacity - |s.ring|)
  }

  /** One turn of the loop in Send. */
  function SendTurn(s: State, i: nat, capacity: nat): State
    requires i < |s.senders| && |s.ring| <= capacity && s.senders[i].iret <= |s.senders[i].data|
  {
    var c := s.senders[i];
    if c.over then s
    else if s.closed then s.(senders := s.senders[i := c.(over := true)])
    else
      var n := Room(s, c, capacity);
      var piece := c.data[c.iret..c.iret + n];
      s.(ring := s.ring + piece,
         senders := s.senders[i := Sender(c.data, c.iret + n, c.iret + n == |c.data|)],
         accepted := s.accepted + Tag(i, piece))
  }

  /** Send returns at once on empty data; the rest of the guards are those of send_inl. */
  predicate Fits(s: State, e: Event, capacity: nat) {
    match e
    case Begin(data) => data != []
    case Turn(i) => i < |s.senders| && |s.ring| <= capacity && s.senders[i].iret <= |s.senders[i].data|
    case Close => true
    case Take => s.ring != [] && s.held == []
    case Submit(_) => s.held != []
  }

  function Step(s: State, e: Event, capacity: nat): State
    requires Fits(s, e, capacity)
  {
    match e
    case Begin(data) => s.(senders := s.senders + [Sender(data, 0, false)])
    case Turn(i) => SendTurn(s, i, capacity)
    case Close => s.(closed := true)
    case Take =>
      var n := Moved(BUFFER_SIZE, |s.ring|);
      s.(ring := s.ring[n..], held := s.ring[..n])
    case Submit(ok) => s.(held := [], passed := s.passed + [Submission(s.held, ok)])
  }

  function Bytes(subs: seq<Submission>): seq<Byte> {
    if subs == [] then [] else Bytes(subs[..|subs| - 1]) + subs[|subs| - 1].bytes
  }

  function Untag(t: seq<Tagged>): (s: seq<Byte>)
    ensures |s| == |t|
  {
    seq(|t|, k requires 0 <= k < |t| => t[k].byte)
  }

  /** The bytes of sender i, in the order they entered the buffer. */
  function Of(i: nat, t: seq<Tagged>): seq<Byte> {
    if t == [] then []
    else Of(i, t[..|t| - 1]) + (if t[|t| - 1].sender == i then [t[|t| - 1].byte] else [])
  }

  /** No byte is lost, duplicated or reordered between the buffer and uv_write. */
  predicate Conserved(s: State) {
    Untag(s.accepted) == Bytes(s.passed) + s.held + s.ring
  }

  /** What sender i got into the buffer is the front of its data, in order; it returned because
      that is all of it or because the client was closed. */
  predicate Kept(s: State, i: nat)
    requires i < |s.senders|
  {
    var c := s.senders[i];
    && c.iret <= |c.data|
    && Of(i, s.accepted) == c.data[..c.iret]
    && (c.over ==> c.iret == |c.data| || s.closed)
  }

  predicate Inv(s: State, capacity: nat) {
    && |s.ring| <= capacity
    && Conserved(s)
    && (forall i :: 0 <= i < |s.senders| ==> Kept(s, i))
    && (forall k :: 0 <= k < |s.accepted| ==> s.accepted[k].sender < |s.senders|)
  }

  lemma {:induction false} OfConcat(i: nat, t: seq<Tagged>, u: seq<Tagged>)
    ensures Of(i, t + u) == Of(i, t) + Of(i, u)
  {
    if u == [] {
      assert t + u == t;
    } else {
      var u' := u[..|u| - 1];
      assert (t + u)[..|t + u| - 1] == t + u';
      OfConcat(i, t, u');
    }
  }

  lemma {:induction false} OfTag(i: nat, j: nat, s: seq<Byte>)
    ensures Of(i, Tag(j, s)) == if i == j then s else []
  {
    if s != [] {
      var s' := s[..|s| - 1];
      assert Tag(j, s)[..|s| - 1] == Tag(j, s');
      OfTag(i, j, s');
    }
  }

  lemma {:induction false} OfNobody(i: nat, t: seq<Tagged>)
    requires forall k :: 0 <= k < |t| ==> t[k].sender != i
    ensures Of(i, t) == []
  {
    if t != [] {
      OfNobody(i, t[..|t| - 1]);
    }
  }

  lemma OfAccept(i: nat, j: nat, t: seq<Tagged>, s: seq<Byte>)
    ensures Of(j, t + Tag(i, s)) == if i == j then Of(j, t) + s else Of(j, t)
  {
    OfConcat(j, t, Tag(i, s));
    OfTag(j, i, s);
    assert Of(j, t) + [] == Of(j, t);
  }

  lemma TurnKeeps(s: State, i: nat, capacity: nat)
    requires Inv(s, capacity) && Fits(s, Turn(i), capacity)
    ensures Inv(SendTurn(s, i, capacity), capacity)
  {
    hide Of;
    var c := s.senders[i];
    var s' := SendTurn(s, i, capacity);
    assert Kept(s, i);
    if !c.over && !s.closed {
      var n := Room(s, c, capacity);
      var piece := c.data[c.iret..c.iret + n];
      assert Untag(s'.accepted) == Untag(s.accepted) + piece;
      forall j: nat | j < |s.senders|
        ensures Kept(s', j)
      {
        assert Kept(s, j);
        OfAccept(i, j, s.accepted, piece);
        assert c.data[..c.iret] + piece == c.data[..c.iret + n];
      }
    } else {
      assert forall j: nat :: j < |s.senders| && Kept(s, j) ==> Kept(s', j);
    }
  }

  lemma BeginKeeps(s: State, data: seq<Byte>, capacity: nat)
    requires Inv(s, capacity)
    ensures Inv(s.(senders := s.senders + [Sender(data, 0, false)]), capacity)
  {
    hide Of, Untag, Bytes;
    var s' := s.(senders := s.senders + [Sender(data, 0, false)]);
    OfNobody(|s.senders|, s.accepted);
    assert data[..0] == [];
    assert forall j: nat :: j < |s.senders| && Kept(s, j) ==> Kept(s', j);
  }

  /** The loop thread only moves bytes on. */
  lemma MoveKeeps(s: State, s': State, capacity: nat)
    requires Inv(s, capacity) && |s'.ring| <= capacity
    requires s'.senders == s.senders && s'.accepted == s.accepted && (s.closed ==> s'.closed)
    requires Bytes(s'.passed) + s'.held + s'.ring == Bytes(s.passed) + s.held + s.ring
    ensures Inv(s', capacity)
  {
    hide Of, Untag, Bytes;
    assert forall j: nat :: j < |s.senders| && Kept(s, j) ==> Kept(s', j);
  }

  lemma StepKeeps(s: State, e: Event, capacity: nat)
    requires Inv(s, capacity) && Fits(s, e, capacity)
    ensures Inv(Step(s, e, capacity), capacity)
  {
    hide Inv;
    var s' := Step(s, e, capacity);
    assert |s.ring| <= capacity by { RingFits(s, capacity); }
    match e
    case Begin(data) => BeginKeeps(s, data, capacity);
    case Turn(i) => TurnKeeps(s, i, capacity);
    case Close => MoveKeeps(s, s', capacity);
    case Take =>
      assert Bytes(s'.passed) + s'.held + s'.ring == Bytes(s.passed) + s.held + s.ring;
      MoveKeeps(s, s', capacity);
    case Submit(ok) =>
      assert s'.passed[..|s'.passed| - 1] == s.passed;
      assert Bytes(s'.passed) + s'.held + s'.ring == Bytes(s.passed) + s.held + s.ring;
      MoveKeeps(s, s', capacity);
  }

  lemma RingFits(s: State, capacity: nat)
    requires Inv(s, capacity)
    ensures |s.ring| <= capacity
  {
  }

  // ---------- Runs ----------

  /** Each event fits where it happens. */
  predicate Fitting(s: State, es: seq<Event>, capacity: nat)
    decreases |es|
  {
    es == [] || (Fits(s, es[0], capacity) && Fitting(Step(s, es[0], capacity), es[1..], capacity))
  }

  function Run(s: State, es: seq<Event>, capacity: nat): State
    requires Fitting(s, es, capacity)
    decreases |es|
  {
    if es == [] then s else Run(Step(s, es[0], capacity), es[1..], capacity)
  }

  lemma {:induction false} RunKeeps(s: State, es: seq<Event>, capacity: nat)
    requires Inv(s, capacity) && Fitting(s, es, capacity)
    ensures Inv(Run(s, es, capacity), capacity)
    decreases |es|
  {
    if es != [] {
      StepKeeps(s, es[0], capacity);
      RunKeeps(Step(s, es[0], capacity), es[1..], capacity);
    }
  }

  /** From the start, for any interleaving: the bytes passed to uv_write, then those in hand, then
      those in the buffer are an interleaving of fronts of all the data sent, each in order. */
  lemma EveryRunConserves(es: seq<Event>, capacity: nat)
    requires Fitting(START, es, capacity)
    ensures var s := Run(START, es, capacity);
            && Untag(s.accepted) == Bytes(s.passed) + s.held + s.ring
            && (forall i :: 0 <= i < |s.senders| ==> Kept(s, i))
  {
    RunKeeps(START, es, capacity);
  }

  /** The bytes that libuv took over: those of the uv_write calls that returned zero. */
  function TakenOver(subs: seq<Submission>): seq<Byte> {
    if subs == [] then []
    else TakenOver(subs[..|subs| - 1]) + (if subs[|subs| - 1].ok then subs[|subs| - 1].bytes else [])
  }

  /** A refused uv_write loses its bytes: everything passed on is taken over exactly when no call
      with bytes was refused. */
  lemma {:induction false} TakenOverIff(subs: seq<Submission>)
    requires forall k :: 0 <= k < |subs| ==> subs[k].bytes != []
    ensures |TakenOver(subs)| <= |Bytes(subs)|
    ensures TakenOver(subs) == Bytes(subs) <==> forall k :: 0 <= k < |subs| ==> subs[k].ok
  {
    if subs != [] {
      var last := |subs| - 1;
      TakenOverIff(subs[..last]);
      assert subs == subs[..last] + [subs[last]];
      if TakenOver(subs) == Bytes(subs) {
        assert subs[last].ok;
        assert TakenOver(subs[..last]) == TakenOver(subs)[..|TakenOver(subs[..last])|];
      }
    }
  }

  /** When a turn of Send moves nothing: the buffer is full, or the remaining length converts to
      an int that is not positive.  A Send of 2^31 bytes therefore never gets a byte in. */
  lemma TurnStallsIff(s: State, i: nat, capacity: nat)
    requires Fits(s, Turn(i), capacity) && !s.closed && !s.senders[i].over
    ensures var left := |s.senders[i].data| - s.senders[i].iret;
            SendTurn(s, i, capacity).senders[i].iret == s.senders[i].iret
            <==> |s.ring| == capacity || left % 0x1_0000_0000 == 0 || left % 0x1_0000_0000 >= 0x8000_0000
  {
    var left := |s.senders[i].data| - s.senders[i].iret;
    var r := left % 0x1_0000_0000;
    assert (left + 0x8000_0000) % 0x1_0000_0000 == if r < 0x8000_0000 then r + 0x8000_0000 else r - 0x8000_0000;
  }

  /** After the client was closed a turn ends its Send and moves nothing. */
  lemma ClosedTurn(s: State, i: nat, capacity: nat)
    requires Fits(s, Turn(i), capacity) && s.closed
    ensures var s' := Step(s, Turn(i), capacity);
      && s'.senders[i] == s.senders[i].(over := true)
      && s'.ring == s.ring && s'.accepted == s.accepted && s'.closed
  {
  }

  /** The loop thread takes up to 10240 bytes at a time, the oldest first. */
  lemma TakeLaw(s: State, capacity: nat)
    requires Fits(s, Take, capacity)
    ensures var s' := Step(s, Take, capacity);
      && (|s.ring| <= 10240 ==> s'.held == s.ring && s'.ring == [])
      && (|s.ring| > 10240 ==> |s'.held| == 10240 && s'.held + s'.ring == s.ring)
  {
  }

  // ---------- One sender at a time ----------

  predicate Finished(s: State) {
    forall i :: 0 <= i < |s.senders| ==> s.senders[i].iret == |s.senders[i].data|
  }

  /** A Send only starts when the earlier ones have all their bytes in the buffer. */
  predicate Lone(s: State, es: seq<Event>, capacity: nat)
    requires Fitting(s, es, capacity)
    decreases |es|
  {
    es == [] || ((es[0].Begin? ==> Finished(s)) && Lone(Step(s, es[0], capacity), es[1..], capacity))
  }

  function AllSent(senders: seq<Sender>): seq<Byte> {
    if senders == [] then [] else AllSent(senders[..|senders| - 1]) + senders[|senders| - 1].data
  }

  function Unsent(senders: seq<Sender>): seq<Byte>
    requires forall i :: 0 <= i < |senders| ==> senders[i].iret <= |senders[i].data|
  {
    if senders == [] then [] else senders[|senders| - 1].data[senders[|senders| - 1].iret..]
  }

  /** All senders but the last are finished, and what entered the buffer, then what the last one
      still has, is everything. */
  predicate InOrder(s: State) {
    && (forall i :: 0 <= i < |s.senders| ==> s.senders[i].iret <= |s.senders[i].data|)
    && (forall i :: 0 <= i < |s.senders| - 1 ==> s.senders[i].iret == |s.senders[i].data|)
    && Untag(s.accepted) + Unsent(s.senders) == AllSent(s.senders)
  }

  lemma LoneBegin(s: State, data: seq<Byte>)
    requires InOrder(s) && Finished(s)
    ensures InOrder(s.(senders := s.senders + [Sender(data, 0, false)]))
  {
    hide Untag;
    var s' := s.(senders := s.senders + [Sender(data, 0, false)]);
    assert s'.senders[..|s.senders|] == s.senders;
    assert Unsent(s.senders) == [];
    assert Untag(s.accepted) + [] == Untag(s.accepted);
    assert data[0..] == data;
  }

  /** Sender i moves n more bytes; only the last sender has any. */
  lemma LoneMove(s: State, i: nat, n: nat, s': State)
    requires InOrder(s) && i < |s.senders| && s.senders[i].iret + n <= |s.senders[i].data|
    requires var c := s.senders[i];
             && |s'.senders| == |s.senders| && s'.senders == s.senders[i := s'.senders[i]]
             && s'.senders[i].data == c.data && s'.senders[i].iret == c.iret + n
             && Untag(s'.accepted) == Untag(s.accepted) + c.data[c.iret..c.iret + n]
    ensures InOrder(s')
  {
    hide Untag, AllSent;
    var c := s.senders[i];
    SameData(s.senders, i, s'.senders[i]);
    var piece := c.data[c.iret..c.iret + n];
    if i == |s.senders| - 1 {
      assert piece + c.data[c.iret + n..] == c.data[c.iret..];
      assert Untag(s'.accepted) + c.data[c.iret + n..] == Untag(s.accepted) + c.data[c.iret..];
    } else {
      assert piece == [] && Untag(s.accepted) + piece == Untag(s.accepted);
      assert Unsent(s'.senders) == Unsent(s.senders);
    }
  }

  lemma LoneTurn(s: State, i: nat, capacity: nat)
    requires InOrder(s) && Fits(s, Turn(i), capacity)
    ensures InOrder(SendTurn(s, i, capacity))
  {
    hide AllSent, Unsent, InOrder;
    var c := s.senders[i];
    var s' := SendTurn(s, i, capacity);
    if !c.over {
      var n := if s.closed then 0 else Room(s, c, capacity);
      var piece := c.data[c.iret..c.iret + n];
      assert Untag(s'.accepted) == Untag(s.accepted) + piece;
      LoneMove(s, i, n, s');
    }
  }

  lemma LoneStep(s: State, e: Event, capacity: nat)
    requires InOrder(s) && Fits(s, e, capacity) && (e.Begin? ==> Finished(s))
    ensures InOrder(Step(s, e, capacity))
  {
    hide AllSent, Unsent, Untag;
    match e
    case Begin(data) => LoneBegin(s, data);
    case Turn(i) => LoneTurn(s, i, capacity);
    case _ =>
  }

  lemma SameData(senders: seq<Sender>, i: nat, c: Sender)
    requires i < |senders| && c.data == senders[i].data
    ensures AllSent(senders[i := c]) == AllSent(senders)
  {
    var last := |senders| - 1;
    if i == last {
      assert senders[i := c][..last] == senders[..last];
    } else {
      assert senders[i := c][..last] == senders[..last][i := c];
      SameData(senders[..last], i, c);
    }
  }

  lemma {:induction false} LoneRun(s: State, es: seq<Event>, capacity: nat)
    requires InOrder(s) && Fitting(s, es, capacity) && Lone(s, es, capacity)
    ensures InOrder(Run(s, es, capacity))
    decreases |es|
  {
    if es != [] {
      LoneStep(s, es[0], capacity);
      LoneRun(Step(s, es[0], capacity), es[1..], capacity);
    }
  }

  /** With one sender at a time the stream is exact: bytes passed to uv_write, bytes in hand,
      buffer contents and unsent tail are the concatenation of all data sent. */
  lemma LoneSenderStream(es: seq<Event>, capacity: nat)
    requires Fitting(START, es, capacity) && Lone(START, es, capacity)
    ensures var s := Run(START, es, capacity);
            && InOrder(s)
            && Bytes(s.passed) + s.held + s.ring + Unsent(s.senders) == AllSent(s.senders)
  {
    RunKeeps(START, es, capacity);
    LoneRun(START, es, capacity);
  }

  // ---------- The write requests ----------

  /** m_listWriteParam, the request the loop thread has in hand, and the requests libuv still owns
      with the bytes it is to send from their buffers. */
  datatype Pool<P(==)> = Pool(free: seq<P>, held: Option<P>, pending: map<P, seq<Byte>>)

  function PoolTake<P>(q: Pool<P>, spare: P): Pool<P> {
    if q.free == [] then q.(held := Some(spare))
    else q.(held := Some(q.free[0]), free := q.free[1..])
  }

  /** A request that uv_write refuses is recycled at once. */
  function PoolSubmit<P(==)>(q: Pool<P>, ok: bool, bytes: seq<Byte>): Pool<P>
    requires q.held.Some?
  {
    if ok then q.(held := None, pending := q.pending[q.held.value := bytes])
    else q.(held := None, free := q.free + [q.held.value])
  }

  /** libuv gives a request back: it is recycled unless the list is long. */
  function PoolComplete<P(==)>(q: Pool<P>, p: P): Pool<P> {
    q.(pending := q.pending - {p}, free := if |q.free| > MAXLISTSIZE then q.free else q.free + [p])
  }

  /** A request is free, in hand or pending, never two of these, and the list stays short. */
  predicate RequestsApart<P(==)>(q: Pool<P>) {
    && (forall i, j :: 0 <= i < j < |q.free| ==> q.free[i] != q.free[j])
    && (forall p :: p in q.free ==> p !in q.pending)
    && (q.held.Some? ==> q.held.value !in q.pending && q.held.value !in q.free)
    && |q.free| + (if q.held.Some? then 1 else 0) <= MAXLISTSIZE + 1
  }

  lemma FreeIsIdle<P>(q: Pool<P>)
    requires RequestsApart(q) && q.free != []
    ensures q.free[0] !in q.pending
  {
  }

  lemma PoolKeeps<P>(q: Pool<P>, p: P, ok: bool, bytes: seq<Byte>)
    requires RequestsApart(q)
    ensures q.held.None? && (q.free == [] ==> p !in q.pending) ==> RequestsApart(PoolTake(q, p))
    ensures q.held.Some? ==> RequestsApart(PoolSubmit(q, ok, bytes))
    ensures q.held.None? && p in q.pending ==> RequestsApart(PoolComplete(q, p))
  {
    assert q.free != [] ==> q.free == [q.free[0]] + q.free[1..];
  }

  /** Requests come from the front of the list and go back to its end; one that libuv gives back while more
      than twenty are listed is dropped. */
  lemma PoolLaws<P>(q: Pool<P>, p: P, bytes: seq<Byte>)
    ensures q.free != [] ==> [PoolTake(q, p).held.value] + PoolTake(q, p).free == q.free
    ensures q.free == [] ==> PoolTake(q, p).held == Some(p) && PoolTake(q, p).free == []
    ensures q.held.Some? ==>
      && PoolSubmit(q, false, bytes) == Pool(q.free + [q.held.value], None, q.pending)
      && PoolSubmit(q, true, bytes) == Pool(q.free, None, q.pending[q.held.value := bytes])
    ensures p !in PoolComplete(q, p).pending
    ensures PoolComplete(q, p).free == q.free + if |q.free| <= 20 then [p] else []
  {
  }

  lemma SamePrefix(a: seq<Byte>, b: seq<Byte>, c: seq<Byte>, d: seq<Byte>)
    requires a + b == c + d && |a| == |c|
    ensures a == c && b == d
  {
    assert (a + b)[..|a|] == a && (c + d)[..|c|] == c;
    assert (a + b)[|a|..] == b && (c + d)[|c|..] == d;
  }

  /** A turn of an open connection after n bytes were written to the buffer. */
  lemma TurnWrites(s: State, i: nat, capacity: nat, n: nat, ring: seq<Byte>)
    requires Inv(s, capacity) && i < |s.senders| && !s.closed && !s.senders[i].over
    requires var c := s.senders[i];
      && |s.ring| <= capacity && c.iret <= |c.data|
      && n == Moved(CInt(|c.data| - c.iret), capacity - |s.ring|) && n <= |c.data[c.iret..]|
      && ring == s.ring + c.data[c.iret..][..n]
    ensures Fits(s, Turn(i), capacity) && Step(s, Turn(i), capacity) == SendTurn(s, i, capacity)
    ensures var c, s' := s.senders[i], SendTurn(s, i, capacity);
      && Inv(s', capacity) && s'.ring == ring && !s'.closed && s'.held == s.held && |s'.senders| == |s.senders|
      && c.iret + n <= |c.data| && s'.senders[i] == Sender(c.data, c.iret + n, c.iret + n == |c.data|)
  {
    TurnKeeps(s, i, capacity);
    var c := s.senders[i];
    assert c.data[c.iret..][..n] == c.data[c.iret..c.iret + n];
    hide Inv;
  }

  lemma TakeIs(s: State, capacity: nat)
    requires Fits(s, Take, capacity)
    ensures var s' := Step(s, Take, capacity);
      && s'.closed == s.closed && s'.held != []
      && s.ring == s'.held + s'.ring && |s'.held| == Moved(BUFFER_SIZE, |s.ring|)
  {
  }

  // ---------- The client ----------

  class WriteParam {
    var buf: seq<Byte>

    constructor ()
      ensures buf == []
    {
      buf := [];
    }
  }

  class CTCPClient {
    const m_buferWrite: CPodCircularBuffer<Byte>
    var m_listWriteParam: seq<WriteParam>
    var m_bIsUserAskForClosed: bool
    ghost var state: State
    ghost var pool: Pool<WriteParam>

    ghost function Held(): set<WriteParam>
      reads `pool
    {
      if pool.held.Some? then {pool.held.value} else {}
    }

    /** The machines describe the buffer, the list and every buffer libuv is reading from. */
    ghost predicate Valid()
      reads this, m_buferWrite, m_buferWrite.m_pBuf, pool.pending.Keys, Held()
    {
      && m_buferWrite.Valid()
      && Inv(state, m_buferWrite.m_pBuf.Length)
      && state.ring == m_buferWrite.Contents()
      && state.closed == m_bIsUserAskForClosed
      && Requests(state.held)
    }

    ghost predicate Requests(held: seq<Byte>)
      reads `pool, `m_listWriteParam, pool.pending.Keys, Held()
    {
      && RequestsApart(pool)
      && pool.free == m_listWriteParam
      && (forall p :: p in pool.pending ==> p.buf == pool.pending[p])
      && (pool.held.None? <==> held == [])
      && (pool.held.Some? ==> pool.held.value.buf == held)
    }

    constructor ()
      ensures Valid() && state == START && pool == Pool([], None, map[])
      ensures fresh(m_buferWrite) && fresh(m_buferWrite.m_pBuf) && m_buferWrite.m_pBuf.Length == BUFFER_SIZE
    {
      m_buferWrite := new CPodCircularBuffer<Byte>(BUFFER_SIZE);
      m_listWriteParam := [];
      m_bIsUserAskForClosed := false;
      state := START;
      pool := Pool([], None, map[]);
    }

    /** A thread enters Send with something to send. */
    method BeginSend(data: seq<Byte>) returns (ghost i: nat)
      requires Valid() && data != []
      modifies `state
      ensures Valid() && state == Step(old(state), Begin(data), m_buferWrite.m_pBuf.Length)
      ensures i == |old(state.senders)| && state.senders == old(state.senders) + [Sender(data, 0, false)]
    {
      BeginKeeps(state, data, m_buferWrite.m_pBuf.Length);
      hide Inv, RequestsApart;
      i := |state.senders|;
      state := Step(state, Begin(data), m_buferWrite.m_pBuf.Length);
    }

    /** The user asks for the connection to be closed. */
    method AskForClose()
      requires Valid()
      modifies `state, `m_bIsUserAskForClosed
      ensures Valid() && m_bIsUserAskForClosed
      ensures state == Step(old(state), Close, m_buferWrite.m_pBuf.Length)
    {
      StepKeeps(state, Close, m_buferWrite.m_pBuf.Length);
      hide Inv, RequestsApart;
      state := Step(state, Close, m_buferWrite.m_pBuf.Length);
      m_bIsUserAskForClosed := true;
    }

    /** One turn of Send's loop, for the call recorded as sender i. */
    method SendLoopTurn(ghost i: nat, data: seq<Byte>, iret: nat) returns (iret': nat, again: bool)
      requires Valid() && i < |state.senders| && state.senders[i] == Sender(data, iret, false)
      modifies `state, m_buferWrite, m_buferWrite.m_pBuf
      ensures Valid() && Fits(old(state), Turn(i), m_buferWrite.m_pBuf.Length)
      ensures state == Step(old(state), Turn(i), m_buferWrite.m_pBuf.Length)
      ensures state.senders[i] == Sender(data, iret', !again)
    {
      hide *;
      if m_bIsUserAskForClosed {
        NoTurn(i, data, iret);
        iret', again := iret, false;
      } else {
        SenderFits(i);
        iret' := WritePiece(i, data, iret);
        again := iret' < |data|;
      }
    }

    lemma SenderFits(i: nat)
      requires Valid() && i < |state.senders|
      ensures state.senders[i].iret <= |state.senders[i].data|
    {
      assert Kept(state, i);
    }

    /** Send gives up once the user has asked for the close. */
    ghost method NoTurn(i: nat, data: seq<Byte>, iret: nat)
      requires Valid() && i < |state.senders| && state.senders[i] == Sender(data, iret, false) && m_bIsUserAskForClosed
      modifies `state
      ensures Valid() && Fits(old(state), Turn(i), m_buferWrite.m_pBuf.Length)
      ensures state == Step(old(state), Turn(i), m_buferWrite.m_pBuf.Length)
      ensures state.senders[i] == Sender(data, iret, true)
    {
      assert Kept(state, i);
      TurnKeeps(state, i, m_buferWrite.m_pBuf.Length);
      hide Inv, RequestsApart, Requests;
      state := SendTurn(state, i, m_buferWrite.m_pBuf.Length);
    }

    /** The critical section of Send. */
    method WritePiece(ghost i: nat, data: seq<Byte>, iret: nat) returns (iret': nat)
      requires Valid() && i < |state.senders| && state.senders[i] == Sender(data, iret, false)
      requires !m_bIsUserAskForClosed && iret <= |data|
      modifies `state, m_buferWrite, m_buferWrite.m_pBuf
      ensures Valid() && Fits(old(state), Turn(i), m_buferWrite.m_pBuf.Length)
      ensures state == Step(old(state), Turn(i), m_buferWrite.m_pBuf.Length)
      ensures iret' <= |data| && state.senders[i] == Sender(data, iret', iret' == |data|)
    {
      hide Inv, RequestsApart, SendTurn, Step, Fits, Moved, CInt;
      ghost var was := state;
      var n := m_buferWrite.Write(data[iret..], CInt(|data| - iret));
      TurnWrites(was, i, m_buferWrite.m_pBuf.Length, n, m_buferWrite.Contents());
      state := SendTurn(was, i, m_buferWrite.m_pBuf.Length);
      iret' := iret + n;
    }

    /** The critical section of send_inl; None when there is nothing to send. */
    method TakeChunk() returns (writep: Option<WriteParam>)
      requires Valid() && pool.held.None?
      modifies this, m_buferWrite, m_listWriteParam
      ensures Valid()
      ensures writep.None? <==> old(m_buferWrite.Contents()) == []
      ensures writep.None? ==> state == old(state) && pool == old(pool)
      ensures writep.Some? ==>
                && (fresh(writep.value) || writep.value in old(m_listWriteParam))
                && pool == PoolTake(old(pool), writep.value)
                && pool.held == writep
                && Fits(old(state), Take, m_buferWrite.m_pBuf.Length)
                && state == Step(old(state), Take, m_buferWrite.m_pBuf.Length)
    {
      hide Inv, RequestsApart, Step;
      var empty := m_buferWrite.Empty();
      if empty {
        return None;
      }
      StepKeeps(state, Take, m_buferWrite.m_pBuf.Length);
      TakeIs(state, m_buferWrite.m_pBuf.Length);
      var p := TakeParam();
      state := Step(state, Take, m_buferWrite.m_pBuf.Length);
      p.buf := m_buferWrite.Read(BUFFER_SIZE);
      SamePrefix(p.buf, m_buferWrite.Contents(), state.held, state.ring);
      return Some(p);
    }

    /** A request from the front of the list, or a new one. */
    method TakeParam() returns (p: WriteParam)
      requires pool.held.None? && RequestsApart(pool) && pool.free == m_listWriteParam
      modifies `m_listWriteParam, `pool
      ensures RequestsApart(pool) && pool == PoolTake(old(pool), p) && pool.held == Some(p)
      ensures pool.free == m_listWriteParam && p !in pool.pending && pool.pending == old(pool.pending)
      ensures fresh(p) || p in old(m_listWriteParam)
    {
      hide RequestsApart;
      if m_listWriteParam == [] {
        p := new WriteParam();
      } else {
        FreeIsIdle(pool);
        p := m_listWriteParam[0];
        m_listWriteParam := m_listWriteParam[1..];
      }
      PoolKeeps(pool, p, true, []);
      pool := PoolTake(pool, p);
    }

    /** uv_write and what send_inl does with its result. */
    method SubmitChunk(writep: WriteParam, ok: bool)
      requires Valid() && pool.held == Some(writep)
      modifies this
      ensures Valid() && Fits(old(state), Submit(ok), m_buferWrite.m_pBuf.Length)
      ensures state == Step(old(state), Submit(ok), m_buferWrite.m_pBuf.Length)
      ensures state.passed == old(state.passed) + [Submission(writep.buf, ok)]
      ensures pool == PoolSubmit(old(pool), ok, writep.buf)
    {
      hide Inv, RequestsApart;
      StepKeeps(state, Submit(ok), m_buferWrite.m_pBuf.Length);
      PoolKeeps(pool, writep, ok, writep.buf);
      state := Step(state, Submit(ok), m_buferWrite.m_pBuf.Length);
      pool := PoolSubmit(pool, ok, writep.buf);
      if !ok {
        m_listWriteParam := m_listWriteParam + [writep];
      }
    }

    /** The request list part of AfterSend and send_inl. */
    method Recycle(req: WriteParam)
      requires Valid() && pool.held.None? && req in pool.pending
      modifies this
      ensures Valid() && state == old(state) && pool == PoolComplete(old(pool), req)
    {
      hide Inv, RequestsApart;
      PoolKeeps(pool, req, true, []);
      pool := PoolComplete(pool, req);
      if |m_listWriteParam| <= MAXLISTSIZE {
        m_listWriteParam := m_listWriteParam + [req];
      }
    }

    /** One turn of the loop of send_inl, with uv_write accepting: false when the buffer was empty. */
    method MoveChunk() returns (more: bool)
      requires Valid() && pool.held.None?
      modifies this, m_buferWrite, m_listWriteParam
      ensures Valid() && pool.held.None? && SameInput(old(state), state)
      ensures if more then |state.ring| < |old(state.ring)| else state.ring == []
      ensures forall k :: 0 <= k < |m_listWriteParam| ==> m_listWriteParam[k] in old(m_listWriteParam)
    {
      hide Inv, RequestsApart;
      var writep := TakeChunk();
      more := writep.Some?;
      if more {
        TakeIs(old(state), m_buferWrite.m_pBuf.Length);
        assert forall k :: 0 <= k < |pool.free| ==> pool.free[k] in old(pool.free);
        SubmitChunk(writep.value, true);
      }
    }

    /** The loop: afterwards the buffer is empty. */
    method Drain()
      requires Valid() && pool.held.None?
      modifies this, m_buferWrite, m_listWriteParam
      ensures Valid() && pool.held.None? && SameInput(old(state), state) && state.ring == []
      ensures forall k :: 0 <= k < |m_listWriteParam| ==> m_listWriteParam[k] in old(m_listWriteParam)
    {
      hide *;
      SameInputLaws(state, state, state);
      var more := true;
      while more
        invariant Valid() && pool.held.None? && SameInput(old(state), state)
        invariant forall k :: 0 <= k < |m_listWriteParam| ==> m_listWriteParam[k] in old(m_listWriteParam)
        invariant !more ==> state.ring == []
        decreases |state.ring|, more
      {
        ghost var before := state;
        more := MoveChunk();
        SameInputLaws(old(state), before, state);
      }
    }

    /** What a lone Send and the loop thread keep between them. */
    ghost predicate Sending(data: seq<Byte>, iret: nat, again: bool)
      reads this, m_buferWrite, m_buferWrite.m_pBuf, pool.pending.Keys, Held()
    {
      && Valid() && pool.held.None? && InOrder(state) && !state.closed && state.ring == []
      && m_buferWrite.m_pBuf.Length > 0
      && iret <= |data| && (!again ==> iret == |data|)
      && state.senders == [Sender(data, iret, !again)]
    }

    method StartSending(data: seq<Byte>)
      requires Valid() && state == START && pool.held.None? && data != []
      modifies `state
      ensures Sending(data, 0, true)
    {
      LoneStep(START, Begin(data), m_buferWrite.m_pBuf.Length);
      hide Inv, RequestsApart, InOrder;
      ghost var i := BeginSend(data);
    }

    lemma AllSentOut(data: seq<Byte>)
      requires Sending(data, |data|, false)
      ensures Valid() && Bytes(state.passed) == data
    {
      hide InOrder;
      AllPassed(state, data, m_buferWrite.m_pBuf.Length);
    }

    /** A turn of Send's loop and a drain: some bytes get through. */
    method SendSome(data: seq<Byte>, iret: nat) returns (iret': nat, again: bool)
      requires Sending(data, iret, true) && iret < |data| < 0x8000_0000
      modifies this, m_buferWrite, m_buferWrite.m_pBuf, m_listWriteParam
      ensures Sending(data, iret', again) && iret < iret' <= |data| && (iret' < |data| <==> again)
      ensures forall k :: 0 <= k < |m_listWriteParam| ==> m_listWriteParam[k] in old(m_listWriteParam)
    {
      ghost var was, capacity := state, m_buferWrite.m_pBuf.Length;
      TurnStallsIff(was, 0, capacity);
      LoneStep(was, Turn(0), capacity);
      TurnIs(was, 0, capacity);
      hide Inv, RequestsApart, InOrder, SendTurn;
      iret', again := SendLoopTurn(0, data, iret);
      InOrderInput(state);
      Drain();
    }
  }

  /** Nothing changed on the side of the senders. */
  predicate SameInput(s: State, s': State) {
    s'.senders == s.senders && s'.accepted == s.accepted && s'.closed == s.closed
  }

  lemma SameInputLaws(s: State, s1: State, s2: State)
    ensures SameInput(s, s)
    ensures SameInput(s, s1) && SameInput(s1, s2) ==> SameInput(s, s2)
  {
  }

  lemma InOrderInput(s: State)
    ensures forall s' :: SameInput(s, s') ==> (InOrder(s') <==> InOrder(s))
  {
  }

  lemma TurnIs(s: State, i: nat, capacity: nat)
    requires Fits(s, Turn(i), capacity) && !s.closed && !s.senders[i].over
    ensures var s' := SendTurn(s, i, capacity);
      && s'.closed == s.closed && |s'.senders| == |s.senders| && s'.senders[i].data == s.senders[i].data
      && s.senders[i].iret <= s'.senders[i].iret <= |s.senders[i].data|
      && (s'.senders[i].over <==> s'.senders[i].iret == |s.senders[i].data|)
  {
  }

  /** A whole Send of less than 2^31 bytes by one thread, with the loop thread draining the buffer after
      every turn: all of the data has gone to uv_write, in order. */
  method SendAll(data: seq<Byte>) returns (c: CTCPClient)
    requires 0 < |data| < 0x8000_0000
    ensures c.Valid() && Bytes(c.state.passed) == data
  {
    hide *;
    c := new CTCPClient();
    Fresh(c);
    c.StartSending(data);
    var iret: nat, again := 0, true;
    while again
      invariant fresh(c) && fresh(c.m_buferWrite) && fresh(c.m_buferWrite.m_pBuf)
      invariant forall k :: 0 <= k < |c.m_listWriteParam| ==> fresh(c.m_listWriteParam[k])
      invariant c.Sending(data, iret, again) && iret <= |data| && (iret < |data| <==> again)
      decreases |data| - iret
    {
      iret, again := c.SendSome(data, iret);
    }
    c.AllSentOut(data);
  }

  lemma Fresh(c: CTCPClient)
    requires c.Valid() && c.state == START && c.pool == Pool([], None, map[])
    ensures c.m_listWriteParam == [] && c.pool.held.None?
  {
  }

  lemma AllPassed(s: State, data: seq<Byte>, capacity: nat)
    requires Inv(s, capacity) && InOrder(s) && s.ring == [] && s.held == []
    requires s.senders == [Sender(data, |data|, true)]
    ensures Bytes(s.passed) == data
  {
    assert s.senders[..0] == [] && AllSent(s.senders) == AllSent([]) + data == data;
    assert Unsent(s.senders) == [];
    assert Bytes(s.passed) + [] + [] == Bytes(s.passed);
    assert Untag(s.accepted) + [] == Untag(s.accepted);
  }
}
