/** The forwarding table of the media server: a directed graph stored twice, once as `dataTo`
    (with a cached address per target) and once as the reverse index `dataFrom`.

    The first half gives each handler as a function on tables and proves what every run keeps.
    The class at the end is the server itself: its methods change the table step by step, in
    any iteration order of the hash containers, and are proved against those functions. */
module MediaServer {
  import opened Wrappers

  newtype UserId = x: int | 0 <= x < 0x1_0000_0000

  newtype uint32 = x: int | 0 <= x < 0x1_0000_0000

  newtype uint16 = x: int | 0 <= x < 0x1_0000

  datatype Addr = Addr(ip: uint32, port: uint16)

  /** One row of the table.  `dataTo` caches the address each target had when the edge was made. */
  datatype ForwardTable = ForwardTable(
    addr: Addr,
    sessionId: uint32,
    expireTime: nat,
    localUdpPort: uint16,
    dataTo: map<UserId, Addr>,
    dataFrom: set<UserId>)

  type Table = map<UserId, ForwardTable>

  /** The part of a login packet that verification keeps. */
  datatype VerifyCtx = VerifyCtx(userId: UserId, sessionId: uint32, localPort: uint16, srcAddr: Addr)

  datatype Server = Server(table: Table, pending: seq<VerifyCtx>)

  const TIMEOUT: nat := 30000

  // ---------- Elementary edits ----------

  function DropTo(row: ForwardTable, u: UserId): ForwardTable {
    row.(dataTo := row.dataTo - {u})
  }

  function DropFrom(row: ForwardTable, u: UserId): ForwardTable {
    row.(dataFrom := row.dataFrom - {u})
  }

  /** `find` and, when the row exists, erase u from its dataTo: for every user of `who`. */
  function EraseTo(t: Table, who: set<UserId>, u: UserId): Table {
    map k | k in t :: if k in who then DropTo(t[k], u) else t[k]
  }

  function EraseFrom(t: Table, who: set<UserId>, u: UserId): Table {
    map k | k in t :: if k in who then DropFrom(t[k], u) else t[k]
  }

  /** The row that `operator[]` makes up for a user without one. */
  type Blanks = UserId -> ForwardTable

  function GetOr(t: Table, k: UserId, blank: Blanks): ForwardTable {
    if k in t then t[k] else blank(k)
  }

  /** The only thing known about such rows: they have no edges. */
  ghost predicate NoEdges(blank: Blanks) {
    forall k :: blank(k).dataTo == map[] && blank(k).dataFrom == {}
  }

  /** `operator[]` and erase u from its dataTo, for every user of `who`: missing rows appear. */
  function TouchTo(t: Table, who: set<UserId>, u: UserId, blank: Blanks): Table {
    map k | k in t.Keys + who :: if k in who then DropTo(GetOr(t, k, blank), u) else t[k]
  }

  function TouchFrom(t: Table, who: set<UserId>, u: UserId, blank: Blanks): Table {
    map k | k in t.Keys + who :: if k in who then DropFrom(GetOr(t, k, blank), u) else t[k]
  }

  // ---------- The handlers as functions ----------

  predicate NeedsVerification(t: Table, c: VerifyCtx) {
    c.userId !in t || (t[c.userId].addr != c.srcAddr && t[c.userId].sessionId != c.sessionId)
  }

  function RecvLogin(s: Server, c: VerifyCtx, now: nat): Server {
    if NeedsVerification(s.table, c) then s.(pending := s.pending + [c])
    else s.(table := s.table[c.userId := s.table[c.userId].(expireTime := now + 3 * TIMEOUT)])
  }

  function UpdateLoginInfo(t: Table, c: VerifyCtx, now: nat): Table {
    if c.userId in t then t
    else t[c.userId := ForwardTable(c.srcAddr, c.sessionId, now + 3 * TIMEOUT, c.localPort, map[], {})]
  }

  /** The thread pool may finish any pending verification first. */
  function Verified(s: Server, i: nat, success: bool, now: nat): Server {
    if i >= |s.pending| then s
    else Server(if success then UpdateLoginInfo(s.table, s.pending[i], now) else s.table,
                s.pending[..i] + s.pending[i + 1..])
  }

  function UpdateForward(t: Table, add: bool, src: UserId, dst: UserId): Table {
    if src !in t || dst !in t then t
    else if add then
      var t1 := t[src := t[src].(dataTo := t[src].dataTo[dst := t[dst].addr])];
      t1[dst := t1[dst].(dataFrom := t1[dst].dataFrom + {src})]
    else
      var t1 := t[src := DropTo(t[src], dst)];
      t1[dst := DropFrom(t1[dst], src)]
  }

  function LeaveRoom(t: Table, u: UserId): Table {
    if u !in t then t
    else
      var t1 := EraseTo(t, t[u].dataFrom, u);
      t1[u := t1[u].(dataFrom := {}, dataTo := map[])]
  }

  function LogoutTcp(t: Table, u: UserId): Table {
    if u !in t then t
    else EraseFrom(EraseTo(t, t[u].dataFrom - {u}, u), t[u].dataTo.Keys - {u}, u) - {u}
  }

  function LogoutUdp(t: Table, u: UserId, blank: Blanks): Table {
    if u !in t then t else TouchTo(t, t[u].dataFrom, u, blank) - {u}
  }

  /** One turn of the timeout sweep, standing at user u. */
  function Visit(t: Table, now: nat, u: UserId, blank: Blanks): Table {
    if u !in t || now <= t[u].expireTime then t
    else TouchFrom(TouchTo(t, t[u].dataFrom - {u}, u, blank), t[u].dataTo.Keys - {u}, u, blank) - {u}
  }

  /** The whole sweep.  `order` is the order in which the hash table yields its rows; rows that
      appear during the sweep may or may not be met, so `order` may list further users. */
  function Sweep(t: Table, now: nat, order: seq<UserId>, blank: Blanks): Table
    decreases |order|
  {
    if order == [] then t else Sweep(Visit(t, now, order[0], blank), now, order[1..], blank)
  }

  // ---------- Events and runs ----------

  datatype Event =
    | Login(ctx: VerifyCtx, now: nat)
    | VerifyDone(index: nat, success: bool, now: nat)
    | Update(add: bool, src: UserId, dst: UserId)
    | Leave(user: UserId)
    | TcpLogout(user: UserId)
    | UdpLogout(user: UserId, blank: Blanks)
    | Timeout(now: nat, order: seq<UserId>, blank: Blanks)
  {
    ghost predicate WellFormed() {
      (UdpLogout? ==> NoEdges(blank)) && (Timeout? ==> NoEdges(blank))
    }
  }

  function Step(s: Server, e: Event): Server {
    match e
    case Login(c, now) => RecvLogin(s, c, now)
    case VerifyDone(i, ok, now) => Verified(s, i, ok, now)
    case Update(add, src, dst) => s.(table := UpdateForward(s.table, add, src, dst))
    case Leave(u) => s.(table := LeaveRoom(s.table, u))
    case TcpLogout(u) => s.(table := LogoutTcp(s.table, u))
    case UdpLogout(u, b) => s.(table := LogoutUdp(s.table, u, b))
    case Timeout(now, order, b) => s.(table := Sweep(s.table, now, order, b))
  }

  function Run(s: Server, es: seq<Event>): Server
    decreases |es|
  {
    if es == [] then s else Run(Step(s, es[0]), es[1..])
  }

  const INIT := Server(map[], [])

  // ---------- Edges and invariants ----------

  /** s sends to d. */
  predicate Fwd(t: Table, s: UserId, d: UserId) {
    s in t && d in t[s].dataTo
  }

  /** d's reverse index lists s. */
  predicate Bwd(t: Table, s: UserId, d: UserId) {
    d in t && s in t[d].dataFrom
  }

  /** The target is registered, its reverse index lists s, and s caches its current address. */
  predicate CurrentEdge(t: Table, s: UserId, d: UserId)
    requires Fwd(t, s, d)
  {
    Bwd(t, s, d) && t[s].dataTo[d] == t[d].addr
  }

  ghost predicate TargetsCurrent(t: Table) {
    forall s, d :: Fwd(t, s, d) ==> CurrentEdge(t, s, d)
  }

  /** dataTo and dataFrom are exact converses, so both mention registered users only. */
  ghost predicate Symmetric(t: Table) {
    TargetsCurrent(t) && forall s, d :: Bwd(t, s, d) ==> Fwd(t, s, d)
  }

  lemma UpdateKeeps(t: Table, add: bool, src: UserId, dst: UserId)
    ensures TargetsCurrent(t) ==> TargetsCurrent(UpdateForward(t, add, src, dst))
    ensures Symmetric(t) ==> Symmetric(UpdateForward(t, add, src, dst))
  {
    var t' := UpdateForward(t, add, src, dst);
    forall s, d
      ensures Fwd(t', s, d) ==> Fwd(t, s, d) || (add && s == src && d == dst)
      ensures Bwd(t', s, d) ==> Bwd(t, s, d) || (add && s == src && d == dst)
    {
    }
  }

  lemma LeaveKeeps(t: Table, u: UserId)
    requires TargetsCurrent(t)
    ensures TargetsCurrent(LeaveRoom(t, u))
  {
    var t' := LeaveRoom(t, u);
    assert forall s, d :: Fwd(t', s, d) ==> Fwd(t, s, d);
  }

  lemma LogoutTcpKeeps(t: Table, u: UserId)
    ensures TargetsCurrent(t) ==> TargetsCurrent(LogoutTcp(t, u))
    ensures Symmetric(t) ==> Symmetric(LogoutTcp(t, u))
  {
    var t' := LogoutTcp(t, u);
    assert forall s, d :: Fwd(t', s, d) ==> Fwd(t, s, d);
    assert forall s, d :: Bwd(t', s, d) ==> Bwd(t, s, d);
  }

  lemma LogoutUdpKeeps(t: Table, u: UserId, blank: Blanks)
    requires TargetsCurrent(t) && NoEdges(blank)
    ensures TargetsCurrent(LogoutUdp(t, u, blank))
  {
    var t' := LogoutUdp(t, u, blank);
    assert forall s, d :: Fwd(t', s, d) ==> Fwd(t, s, d);
  }

  lemma VisitKeeps(t: Table, now: nat, u: UserId, blank: Blanks)
    requires TargetsCurrent(t) && NoEdges(blank)
    ensures TargetsCurrent(Visit(t, now, u, blank))
    ensures Symmetric(t) ==> Symmetric(Visit(t, now, u, blank))
  {
    var t' := Visit(t, now, u, blank);
    assert forall s, d :: Fwd(t', s, d) ==> Fwd(t, s, d);
    assert forall s, d :: Bwd(t', s, d) ==> Bwd(t, s, d);
  }

  lemma {:induction false} SweepKeeps(t: Table, now: nat, order: seq<UserId>, blank: Blanks)
    requires TargetsCurrent(t) && NoEdges(blank)
    ensures TargetsCurrent(Sweep(t, now, order, blank))
    ensures Symmetric(t) ==> Symmetric(Sweep(t, now, order, blank))
    decreases |order|
  {
    if order != [] {
      VisitKeeps(t, now, order[0], blank);
      SweepKeeps(Visit(t, now, order[0], blank), now, order[1..], blank);
    }
  }

  lemma LoginKeeps(t: Table, t': Table, c: VerifyCtx, now: nat)
    requires t' == UpdateLoginInfo(t, c, now)
             || (c.userId in t && t' == t[c.userId := t[c.userId].(expireTime := now + 3 * TIMEOUT)])
    ensures TargetsCurrent(t) ==> TargetsCurrent(t')
    ensures Symmetric(t) ==> Symmetric(t')
  {
    assert forall s, d :: Fwd(t', s, d) <==> Fwd(t, s, d);
    assert forall s, d :: Bwd(t', s, d) <==> Bwd(t, s, d);
  }

  // ---------- Safety over every run ----------

  lemma StepKeepsTargetsCurrent(s: Server, e: Event)
    requires TargetsCurrent(s.table) && e.WellFormed()
    ensures TargetsCurrent(Step(s, e).table)
  {
    match e
    case Login(c, now) =>
      if !NeedsVerification(s.table, c) { LoginKeeps(s.table, Step(s, e).table, c, now); }
    case VerifyDone(i, ok, now) =>
      if i < |s.pending| && ok { LoginKeeps(s.table, Step(s, e).table, s.pending[i], now); }
    case Update(add, src, dst) => UpdateKeeps(s.table, add, src, dst);
    case Leave(u) => LeaveKeeps(s.table, u);
    case TcpLogout(u) => LogoutTcpKeeps(s.table, u);
    case UdpLogout(u, b) => LogoutUdpKeeps(s.table, u, b);
    case Timeout(now, order, b) => SweepKeeps(s.table, now, order, b);
  }

  lemma {:induction false} RunKeepsTargetsCurrent(s: Server, es: seq<Event>)
    requires TargetsCurrent(s.table)
    requires forall e :: e in es ==> e.WellFormed()
    ensures TargetsCurrent(Run(s, es).table)
    decreases |es|
  {
    if es != [] {
      StepKeepsTargetsCurrent(s, es[0]);
      RunKeepsTargetsCurrent(Step(s, es[0]), es[1..]);
    }
  }

  /** The address a single forward to d would use. */
  function SingleTarget(t: Table, d: UserId): (a: Option<Addr>) {
    if d in t then Some(t[d].addr) else None
  }

  /** In every reachable table, multi-forward along the cached addresses reaches each target
      exactly where a look-up of that target would send. */
  lemma FanOutIsLookup(es: seq<Event>, u: UserId, d: UserId)
    requires forall e :: e in es ==> e.WellFormed()
    requires Fwd(Run(INIT, es).table, u, d)
    ensures SingleTarget(Run(INIT, es).table, d) == Some(Run(INIT, es).table[u].dataTo[d])
  {
    RunKeepsTargetsCurrent(INIT, es);
    assert CurrentEdge(Run(INIT, es).table, u, d);
  }

  // ---------- What each handler leaves alone, and what it cuts ----------

  predicate Alive(t: Table, now: nat, k: UserId) {
    k in t && now <= t[k].expireTime
  }

  /** The edges a handler has any business with. */
  predicate Concerns(t: Table, e: Event, a: UserId, b: UserId) {
    match e
    case Login(_, _) => false
    case VerifyDone(_, _, _) => false
    case Update(_, src, dst) => a == src && b == dst
    case Leave(u) => u == a || u == b
    case TcpLogout(u) => u == a || u == b
    case UdpLogout(u, _) => u == a || u == b
    case Timeout(now, _, _) => !(Alive(t, now, a) && Alive(t, now, b))
  }

  predicate SameEdge(t: Table, t': Table, a: UserId, b: UserId) {
    && (Fwd(t, a, b) <==> Fwd(t', a, b))
    && (Bwd(t, a, b) <==> Bwd(t', a, b))
    && (Fwd(t, a, b) && Fwd(t', a, b) ==> t[a].dataTo[b] == t'[a].dataTo[b])
  }

  lemma {:induction false} SweepFrames(t: Table, now: nat, order: seq<UserId>, blank: Blanks,
                                       a: UserId, b: UserId)
    requires Alive(t, now, a) && Alive(t, now, b)
    ensures Alive(Sweep(t, now, order, blank), now, a)
    ensures SameEdge(t, Sweep(t, now, order, blank), a, b)
    decreases |order|
  {
    if order != [] {
      SweepFrames(Visit(t, now, order[0], blank), now, order[1..], blank, a, b);
    }
  }

  lemma StepFrames(s: Server, e: Event, a: UserId, b: UserId)
    requires e.WellFormed() && !Concerns(s.table, e, a, b)
    ensures SameEdge(s.table, Step(s, e).table, a, b)
  {
    match e
    case Timeout(now, order, blank) => SweepFrames(s.table, now, order, blank, a, b);
    case _ =>
  }

  /** Adding makes exactly the edge asked for, at the target's address; removing takes it away; and
      nothing happens unless both users are registered. */
  lemma UpdateDoes(t: Table, add: bool, src: UserId, dst: UserId)
    ensures UpdateForward(t, add, src, dst).Keys == t.Keys
    ensures src !in t || dst !in t ==> UpdateForward(t, add, src, dst) == t
    ensures src in t && dst in t ==>
      && Fwd(UpdateForward(t, add, src, dst), src, dst) == add
      && Bwd(UpdateForward(t, add, src, dst), src, dst) == add
      && (add ==> UpdateForward(t, add, src, dst)[src].dataTo[dst] == t[dst].addr)
  {
  }

  /** After leave or either logout nobody sends to the user and the user sends to nobody. */
  lemma GoneMeansSilent(t: Table, u: UserId, blank: Blanks, x: UserId)
    requires TargetsCurrent(t) && NoEdges(blank)
    ensures !Fwd(LeaveRoom(t, u), u, x) && !Fwd(LeaveRoom(t, u), x, u)
    ensures !Fwd(LogoutTcp(t, u), u, x) && !Fwd(LogoutTcp(t, u), x, u)
    ensures !Fwd(LogoutUdp(t, u, blank), u, x) && !Fwd(LogoutUdp(t, u, blank), x, u)
    ensures u !in LogoutTcp(t, u) && u !in LogoutUdp(t, u, blank)
    ensures LeaveRoom(t, u).Keys == t.Keys
    ensures u !in t ==> LeaveRoom(t, u) == LogoutTcp(t, u) == LogoutUdp(t, u, blank) == t
  {
    assert Fwd(t, x, u) ==> CurrentEdge(t, x, u);
  }

  /** Who is registered afterwards, and which reverse index still names the user: after a TCP logout
      only one it did not send to, after leave and UDP logout every other one that did. */
  lemma GoneFromIndexes(t: Table, u: UserId, blank: Blanks, x: UserId)
    requires NoEdges(blank) && u in t
    ensures LogoutTcp(t, u).Keys == t.Keys - {u}
    ensures LogoutUdp(t, u, blank).Keys == t.Keys + t[u].dataFrom - {u}
    ensures !Bwd(LeaveRoom(t, u), x, u) && (Bwd(LeaveRoom(t, u), u, x) <==> x != u && Bwd(t, u, x))
    ensures Bwd(LogoutTcp(t, u), u, x) <==> x != u && Bwd(t, u, x) && !Fwd(t, u, x)
    ensures Bwd(LogoutUdp(t, u, blank), u, x) <==> x != u && Bwd(t, u, x)
  {
  }

  // ---------- Logins ----------

  /** A login is accepted at once when the user is registered and came with its address or its session:
      then only its time changes. Otherwise exactly this login waits for verification. */
  lemma LoginLaw(s: Server, c: VerifyCtx, now: nat)
    ensures var s', t, u := Step(s, Login(c, now)), s.table, c.userId;
      if u in t && (t[u].addr == c.srcAddr || t[u].sessionId == c.sessionId)
      then
        && s'.pending == s.pending && s'.table.Keys == t.Keys
        && s'.table[u] == t[u].(expireTime := now + 90000)
        && forall k :: k in t && k != u ==> s'.table[k] == t[k]
      else s' == Server(t, s.pending + [c])
  {
  }

  /** A verified login registers a new user until 90 seconds later and changes nothing else; the row of
      a user that is there already stays, and a failed verification leaves the table alone. */
  lemma VerifiedLaw(s: Server, i: nat, ok: bool, now: nat)
    requires i < |s.pending|
    ensures var s', t, c := Step(s, VerifyDone(i, ok, now)), s.table, s.pending[i];
      && s'.pending == s.pending[..i] + s.pending[i + 1..]
      && (!ok || c.userId in t ==> s'.table == t)
      && (ok && c.userId !in t ==>
            && s'.table.Keys == t.Keys + {c.userId}
            && s'.table[c.userId].addr == c.srcAddr && s'.table[c.userId].sessionId == c.sessionId
            && s'.table[c.userId].localUdpPort == c.localPort && s'.table[c.userId].expireTime == now + 90000
            && s'.table[c.userId].dataTo == map[] && s'.table[c.userId].dataFrom == {}
            && forall k :: k in t ==> s'.table[k] == t[k])
  {
  }

  /** Registered under this session and address, with time left until `until` at least. */
  predicate Registered(t: Table, u: UserId, sessionId: uint32, addr: Addr, until: nat) {
    u in t && t[u].sessionId == sessionId && t[u].addr == addr && until <= t[u].expireTime
  }

  /** u logs in again with its session, from whatever address, at most 90000 before every sweep, and
      does not log out; `last` is the time of its last login. Anybody else does anything. */
  predicate StaysOn(es: seq<Event>, u: UserId, sessionId: uint32, last: nat)
    decreases |es|
  {
    es == [] ||
    match es[0]
    case Login(c, now) =>
      if c.userId != u then StaysOn(es[1..], u, sessionId, last)
      else last <= now && StaysOn(es[1..], u, sessionId, if c.sessionId == sessionId then now else last)
    case Timeout(now, _, _) => now <= last + 90000 && StaysOn(es[1..], u, sessionId, last)
    case TcpLogout(v) => v != u && StaysOn(es[1..], u, sessionId, last)
    case UdpLogout(v, _) => v != u && StaysOn(es[1..], u, sessionId, last)
    case _ => StaysOn(es[1..], u, sessionId, last)
  }

  lemma {:induction false} SweepKeepsRow(t: Table, now: nat, order: seq<UserId>, blank: Blanks, u: UserId,
                                         sessionId: uint32, addr: Addr, until: nat)
    requires Registered(t, u, sessionId, addr, until) && now <= until
    ensures Registered(Sweep(t, now, order, blank), u, sessionId, addr, until)
    decreases |order|
  {
    if order != [] {
      SweepKeepsRow(Visit(t, now, order[0], blank), now, order[1..], blank, u, sessionId, addr, until);
    }
  }

  lemma StayOnStep(s: Server, e: Event, u: UserId, sessionId: uint32, addr: Addr, last: nat)
    requires Registered(s.table, u, sessionId, addr, last + 90000) && StaysOn([e], u, sessionId, last)
    ensures var last' := if e.Login? && e.ctx.userId == u && e.ctx.sessionId == sessionId then e.now else last;
      Registered(Step(s, e).table, u, sessionId, addr, last' + 90000)
  {
    match e
    case Timeout(now, order, blank) => SweepKeepsRow(s.table, now, order, blank, u, sessionId, addr, last + 90000);
    case _ =>
  }

  /** Whatever the others do and in whatever order the sweeps go: a user that keeps logging in with its
      session stays registered, under the address it was verified with. */
  lemma {:induction false} KeepingOnline(s: Server, es: seq<Event>, u: UserId, sessionId: uint32, addr: Addr, last: nat)
    requires Registered(s.table, u, sessionId, addr, last + 90000) && StaysOn(es, u, sessionId, last)
    ensures Registered(Run(s, es).table, u, sessionId, addr, last + 90000)
    decreases |es|
  {
    if es != [] {
      var e := es[0];
      assert StaysOn([e], u, sessionId, last) by {
        assert [e][1..] == [];
      }
      StayOnStep(s, e, u, sessionId, addr, last);
      var last' := if e.Login? && e.ctx.userId == u && e.ctx.sessionId == sessionId then e.now else last;
      hide Step;
      KeepingOnline(Step(s, e), es[1..], u, sessionId, addr, last');
    }
  }

  // ---------- When the two indexes stay converse ----------

  /** Leave and UDP logout clean one side only; that is harmless exactly when the user has no
      target besides itself. */
  predicate CleansBothSides(t: Table, e: Event) {
    match e
    case Leave(u) => u in t ==> t[u].dataTo.Keys <= {u}
    case UdpLogout(u, _) => u in t ==> t[u].dataTo.Keys <= {u}
    case _ => true
  }

  lemma OneSidedKeepsIff(t: Table, u: UserId, blank: Blanks, t': Table)
    requires Symmetric(t) && u in t && NoEdges(blank)
    requires t' == LeaveRoom(t, u) || t' == LogoutUdp(t, u, blank)
    ensures Symmetric(t') <==> t[u].dataTo.Keys <= {u}
  {
    forall s, d | Fwd(t', s, d)
      ensures Fwd(t, s, d) && s != u && d != u
    {
      assert Fwd(t, s, d) && CurrentEdge(t, s, d);
    }
    if d :| d in t[u].dataTo.Keys && d != u {
      assert Fwd(t, u, d) && CurrentEdge(t, u, d);
      assert Bwd(t', u, d) && !Fwd(t', u, d);
    } else {
      assert forall d :: Bwd(t, u, d) ==> Fwd(t, u, d);
      forall s, d | Bwd(t', s, d)
        ensures Fwd(t', s, d)
      {
        assert Bwd(t, s, d) && Fwd(t, s, d);
      }
    }
  }

  lemma StepKeepsSymmetricIff(s: Server, e: Event)
    requires Symmetric(s.table) && e.WellFormed()
    ensures Symmetric(Step(s, e).table) <==> CleansBothSides(s.table, e)
  {
    match e
    case Login(c, now) =>
      if !NeedsVerification(s.table, c) { LoginKeeps(s.table, Step(s, e).table, c, now); }
    case VerifyDone(i, ok, now) =>
      if i < |s.pending| && ok { LoginKeeps(s.table, Step(s, e).table, s.pending[i], now); }
    case Update(add, src, dst) => UpdateKeeps(s.table, add, src, dst);
    case Leave(u) =>
      if u in s.table { OneSidedKeepsIff(s.table, u, BLANK, LeaveRoom(s.table, u)); }
    case TcpLogout(u) => LogoutTcpKeeps(s.table, u);
    case UdpLogout(u, b) =>
      if u in s.table { OneSidedKeepsIff(s.table, u, b, LogoutUdp(s.table, u, b)); }
    case Timeout(now, order, b) => SweepKeeps(s.table, now, order, b);
  }

  predicate CleanRun(s: Server, es: seq<Event>)
    decreases |es|
  {
    es == [] || (CleansBothSides(s.table, es[0]) && CleanRun(Step(s, es[0]), es[1..]))
  }

  /** In particular any run of logins, edge updates, TCP logouts and sweeps is clean. */
  lemma {:induction false} RunKeepsSymmetric(s: Server, es: seq<Event>)
    requires Symmetric(s.table)
    requires forall e :: e in es ==> e.WellFormed()
    requires CleanRun(s, es) || forall e :: e in es ==> !e.Leave? && !e.UdpLogout?
    ensures Symmetric(Run(s, es).table)
    decreases |es|
  {
    if es != [] {
      StepKeepsSymmetricIff(s, es[0]);
      RunKeepsSymmetric(Step(s, es[0]), es[1..]);
    }
  }

  // ---------- The sweep from a symmetric table ----------

  function Cut(row: ForwardTable, dead: set<UserId>): ForwardTable {
    row.(dataTo := row.dataTo - dead, dataFrom := row.dataFrom - dead)
  }

  /** t without the users of `dead`, on both sides of every edge. */
  function Without(t: Table, dead: set<UserId>): Table {
    map k | k in t && k !in dead :: Cut(t[k], dead)
  }

  lemma CutTwice(row: ForwardTable, a: set<UserId>, b: set<UserId>)
    ensures Cut(row, {}) == row
    ensures Cut(Cut(row, a), b) == Cut(row, a + b)
  {
    assert row.dataTo - {} == row.dataTo;
    assert row.dataTo - a - b == row.dataTo - (a + b);
    assert row.dataFrom - a - b == row.dataFrom - (a + b);
  }

  lemma WithoutTwice(t: Table, a: set<UserId>, b: set<UserId>)
    ensures Without(t, {}) == t
    ensures Without(Without(t, a), b) == Without(t, a + b)
  {
    forall k | k in t { CutTwice(t[k], a, b); }
  }

  function Expired(t: Table, now: nat, order: seq<UserId>): set<UserId> {
    set k | k in t && k in order && t[k].expireTime < now
  }

  lemma VisitSymmetric(t: Table, now: nat, u: UserId, blank: Blanks)
    requires Symmetric(t)
    ensures Visit(t, now, u, blank) == Without(t, Expired(t, now, [u]))
  {
    var t' := Visit(t, now, u, blank);
    var w := Without(t, Expired(t, now, [u]));
    assert forall d :: u in t && d in t[u].dataFrom ==> Bwd(t, d, u) && Fwd(t, d, u);
    assert forall d :: u in t && d in t[u].dataTo ==> Fwd(t, u, d) && CurrentEdge(t, u, d);
    forall k | k in t && k != u
      ensures u in t[k].dataTo ==> Fwd(t, k, u) && CurrentEdge(t, k, u)
      ensures u in t[k].dataFrom ==> Bwd(t, u, k) && Fwd(t, u, k)
    {
    }
    if u in t && t[u].expireTime < now {
      assert Expired(t, now, [u]) == {u};
    } else {
      assert Expired(t, now, [u]) == {};
    }
    assert t'.Keys == w.Keys;
    forall k | k in w
      ensures t'[k] == w[k]
    {
    }
  }

  lemma {:induction false} SweepIsWithout(t: Table, now: nat, order: seq<UserId>, blank: Blanks)
    requires Symmetric(t) && NoEdges(blank)
    ensures Sweep(t, now, order, blank) == Without(t, Expired(t, now, order))
    decreases |order|
  {
    if order == [] {
      WithoutTwice(t, {}, {});
      assert Expired(t, now, order) == {};
    } else {
      var first := Expired(t, now, [order[0]]);
      var t1 := Visit(t, now, order[0], blank);
      VisitKeeps(t, now, order[0], blank);
      VisitSymmetric(t, now, order[0], blank);
      SweepIsWithout(t1, now, order[1..], blank);
      var rest := Expired(t1, now, order[1..]);
      assert Expired(t, now, order) == first + rest by {
        assert forall k :: k in order <==> k == order[0] || k in order[1..];
      }
      WithoutTwice(t, first, rest);
    }
  }

  /** Whatever the iteration order: exactly the users whose time has not passed remain, with
      exactly the edges between them, and no row is made up. */
  lemma SweepLeavesSurvivors(t: Table, now: nat, order: seq<UserId>, blank: Blanks)
    requires Symmetric(t) && NoEdges(blank)
    requires forall u :: u in t ==> u in order
    ensures forall u :: u in Sweep(t, now, order, blank) <==> Alive(t, now, u)
    ensures forall a, b {:trigger Fwd(Sweep(t, now, order, blank), a, b)} ::
              Fwd(Sweep(t, now, order, blank), a, b) <==> Fwd(t, a, b) && Alive(t, now, a) && Alive(t, now, b)
    ensures forall a, b {:trigger Bwd(Sweep(t, now, order, blank), a, b)} ::
              Bwd(Sweep(t, now, order, blank), a, b) <==> Bwd(t, a, b) && Alive(t, now, a) && Alive(t, now, b)
  {
    SweepIsWithout(t, now, order, blank);
    var w := Sweep(t, now, order, blank);
    forall a, b
      ensures Fwd(w, a, b) <==> Fwd(t, a, b) && Alive(t, now, a) && Alive(t, now, b)
      ensures Bwd(w, a, b) <==> Bwd(t, a, b) && Alive(t, now, a) && Alive(t, now, b)
    {
      assert Fwd(t, a, b) ==> CurrentEdge(t, a, b);
      assert Bwd(t, a, b) ==> Fwd(t, a, b);
    }
  }

  /** From any reachable table: visiting an expired user removes it and makes up a row for
      every user that only its reverse index still mentions. */
  lemma VisitMakesUpRows(t: Table, now: nat, u: UserId, blank: Blanks)
    requires TargetsCurrent(t) && u in t && t[u].expireTime < now
    ensures Visit(t, now, u, blank).Keys == t.Keys + t[u].dataFrom - {u}
  {
    assert forall d :: d in t[u].dataTo ==> Fwd(t, u, d) && CurrentEdge(t, u, d);
  }

  // ---------- When a sweep brings nobody back ----------

  /** Every user that an expired row names as a source is registered, and either has time left or
      still sends to that row, so that its own removal takes the name away. */
  ghost predicate SourcesKnown(t: Table, now: nat) {
    forall s, u :: Bwd(t, s, u) && !Alive(t, now, u) && s != u ==> s in t && (Alive(t, now, s) || Fwd(t, s, u))
  }

  predicate Covers(t: Table, order: seq<UserId>) {
    forall u :: u in t ==> u in order
  }

  /** Each user of the table once. */
  predicate Lists(t: Table, order: seq<UserId>) {
    && Covers(t, order)
    && (forall u :: u in order ==> u in t)
    && (forall i, j :: 0 <= i < j < |order| ==> order[i] != order[j])
  }

  predicate SweptTo(t: Table, now: nat, t': Table) {
    (forall u :: u in t' ==> Alive(t, now, u)) && (forall u :: u in t && Alive(t, now, u) ==> u in t')
  }

  lemma VisitKeepsKnown(t: Table, now: nat, u: UserId, blank: Blanks)
    requires TargetsCurrent(t) && SourcesKnown(t, now)
    ensures Visit(t, now, u, blank).Keys == t.Keys - Expired(t, now, [u])
    ensures SourcesKnown(Visit(t, now, u, blank), now)
    ensures forall k :: k in Visit(t, now, u, blank) ==> Visit(t, now, u, blank)[k].expireTime == t[k].expireTime
  {
    if u in t && t[u].expireTime < now {
      var t' := Visit(t, now, u, blank);
      assert forall s :: s in t[u].dataFrom && s != u ==> Bwd(t, s, u);
      assert forall d :: d in t[u].dataTo ==> Fwd(t, u, d) && CurrentEdge(t, u, d);
      assert Expired(t, now, [u]) == {u};
      assert t'.Keys == t.Keys - {u};
      forall s, d | Bwd(t', s, d) && !Alive(t', now, d) && s != d
        ensures s in t' && (Alive(t', now, s) || Fwd(t', s, d))
      {
        assert Bwd(t, s, d) && !Alive(t, now, d);
      }
    } else {
      assert Expired(t, now, [u]) == {};
    }
  }

  lemma {:induction false} KnownSweep(t: Table, now: nat, order: seq<UserId>, blank: Blanks)
    requires TargetsCurrent(t) && NoEdges(blank) && SourcesKnown(t, now)
    ensures Sweep(t, now, order, blank).Keys == t.Keys - Expired(t, now, order)
    decreases |order|
  {
    if order == [] {
      assert Expired(t, now, order) == {};
    } else {
      var t1 := Visit(t, now, order[0], blank);
      VisitKeeps(t, now, order[0], blank);
      VisitKeepsKnown(t, now, order[0], blank);
      KnownSweep(t1, now, order[1..], blank);
      assert forall k :: k in order <==> k == order[0] || k in order[1..];
      assert Expired(t, now, order) == Expired(t, now, [order[0]]) + Expired(t1, now, order[1..]);
    }
  }

  lemma {:induction false} SweepConcat(t: Table, now: nat, a: seq<UserId>, b: seq<UserId>, blank: Blanks)
    ensures Sweep(t, now, a + b, blank) == Sweep(Sweep(t, now, a, blank), now, b, blank)
    decreases |a|
  {
    if a == [] {
      assert a + b == b;
    } else {
      assert (a + b)[1..] == a[1..] + b;
      SweepConcat(Visit(t, now, a[0], blank), now, a[1..], b, blank);
    }
  }

  /** An expired row keeps naming a source that does not send to it, whoever is visited before. */
  lemma {:induction false} NameStays(t: Table, now: nat, order: seq<UserId>, blank: Blanks, s: UserId, u: UserId)
    requires NoEdges(blank) && u !in order && s != u
    requires Bwd(t, s, u) && !Fwd(t, s, u) && t[u].expireTime < now
    ensures var t' := Sweep(t, now, order, blank);
      Bwd(t', s, u) && !Fwd(t', s, u) && t'[u].expireTime < now
    decreases |order|
  {
    if order != [] {
      NameStays(Visit(t, now, order[0], blank), now, order[1..], blank, s, u);
    }
  }

  lemma ListOf(keys: set<UserId>) returns (order: seq<UserId>)
    ensures forall u :: u in order <==> u in keys
    ensures forall i, j :: 0 <= i < j < |order| ==> order[i] != order[j]
    decreases |keys|
  {
    if keys == {} {
      order := [];
    } else {
      var k :| k in keys;
      var rest := ListOf(keys - {k});
      order := rest + [k];
    }
  }

  /** A name that is not known is brought back when its row comes last. */
  lemma UnknownSweep(t: Table, now: nat, blank: Blanks) returns (order: seq<UserId>)
    requires NoEdges(blank) && !SourcesKnown(t, now)
    ensures Lists(t, order) && !SweptTo(t, now, Sweep(t, now, order, blank))
  {
    var s, u :| Bwd(t, s, u) && !Alive(t, now, u) && s != u && !(s in t && (Alive(t, now, s) || Fwd(t, s, u)));
    var before := ListOf(t.Keys - {u});
    order := before + [u];
    NameStays(t, now, before, blank, s, u);
    SweepConcat(t, now, before, [u], blank);
    var t1 := Sweep(t, now, before, blank);
    assert [u][1..] == [] && Sweep(t1, now, [u], blank) == Visit(t1, now, u, blank);
    assert s in Visit(t1, now, u, blank);
  }

  /** From any reachable table and for all made-up rows: every sweep leaves exactly the users whose
      time has not passed, if and only if the sources of expired rows are known. */
  lemma SweepExactIff(t: Table, now: nat, blank: Blanks)
    requires TargetsCurrent(t) && NoEdges(blank)
    ensures SourcesKnown(t, now) <==>
      forall order :: Covers(t, order) ==> SweptTo(t, now, Sweep(t, now, order, blank))
    ensures SourcesKnown(t, now) <==>
      forall order :: Lists(t, order) ==> SweptTo(t, now, Sweep(t, now, order, blank))
  {
    if SourcesKnown(t, now) {
      forall order | Covers(t, order)
        ensures SweptTo(t, now, Sweep(t, now, order, blank))
      {
        KnownSweep(t, now, order, blank);
      }
    } else {
      var order := UnknownSweep(t, now, blank);
    }
  }

  /** A symmetric table is a special case. */
  lemma SymmetricIsKnown(t: Table, now: nat)
    requires Symmetric(t)
    ensures SourcesKnown(t, now)
  {
  }

  const BLANK: Blanks := _ => ForwardTable(Addr(0, 0), 0, 0, 0, map[], {})

  function LoggedIn(u: UserId): VerifyCtx {
    VerifyCtx(u, 7, 0, Addr(9, 9))
  }

  /** User 1 sends to user 2, leaves the room and logs out over TCP. */
  const STALE_RUN: seq<Event> :=
    [Login(LoggedIn(1), 0), VerifyDone(0, true, 0)] + [Login(LoggedIn(2), 0), VerifyDone(0, true, 0)]
    + [Update(true, 1, 2), Leave(1), TcpLogout(1)]

  lemma {:induction false} RunConcat(s: Server, a: seq<Event>, b: seq<Event>)
    ensures Run(s, a + b) == Run(Run(s, a), b)
    decreases |a|
  {
    if a == [] {
      assert a + b == b;
    } else {
      assert (a + b)[1..] == a[1..] + b;
      RunConcat(Step(s, a[0]), a[1..], b);
    }
  }

  lemma RunTwo(s: Server, a: Event, b: Event)
    ensures Run(s, [a, b]) == Step(Step(s, a), b)
  {
    hide Step;
    assert [a, b][1..] == [b];
    assert [b][1..] == [];
    assert Run(Step(s, a), [b]) == Run(Step(Step(s, a), b), []);
  }

  lemma RunThree(s: Server, a: Event, b: Event, c: Event)
    ensures Run(s, [a, b, c]) == Step(Step(Step(s, a), b), c)
  {
    hide Step;
    assert [a, b, c][1..] == [b, c];
    RunTwo(Step(s, a), b, c);
  }

  lemma LoginRun(s: Server, u: UserId)
    requires u !in s.table && s.pending == []
    ensures Run(s, [Login(LoggedIn(u), 0), VerifyDone(0, true, 0)])
         == Server(s.table[u := ForwardTable(Addr(9, 9), 7, 90000, 0, map[], {})], [])
  {
    RunTwo(s, Login(LoggedIn(u), 0), VerifyDone(0, true, 0));
    assert [LoggedIn(u)][..0] + [LoggedIn(u)][1..] == [];
  }

  lemma StaleTable()
    ensures Run(INIT, STALE_RUN).table == map[2 := ForwardTable(Addr(9, 9), 7, 90000, 0, map[], {1})]
  {
    hide Run;
    var l1, l2 := [Login(LoggedIn(1), 0), VerifyDone(0, true, 0)], [Login(LoggedIn(2), 0), VerifyDone(0, true, 0)];
    var rest := [Update(true, 1, 2), Leave(1), TcpLogout(1)];
    RunConcat(INIT, l1 + l2, rest);
    RunConcat(INIT, l1, l2);
    LoginRun(INIT, 1);
    LoginRun(Run(INIT, l1), 2);
    var s := Run(INIT, l1 + l2);
    RunThree(s, rest[0], rest[1], rest[2]);
    var t5 := Step(s, rest[0]).table;
    assert t5[2].dataFrom == {1} && t5[1].dataFrom == {};
    var t6 := Step(Step(s, rest[0]), rest[1]).table;
    assert t6[1].dataTo == map[] && t6[1].dataFrom == {} && t6[2] == t5[2];
  }

  /** So the symmetric start is needed: this reachable sweep brings a departed user back. */
  lemma SweepMayReviveUser()
    ensures forall e :: e in STALE_RUN ==> e.WellFormed()
    ensures 1 !in Run(INIT, STALE_RUN).table
    ensures 1 in Sweep(Run(INIT, STALE_RUN).table, 100000, [2], BLANK)
    ensures !SourcesKnown(Run(INIT, STALE_RUN).table, 100000)
  {
    StaleTable();
    var t := Run(INIT, STALE_RUN).table;
    assert Bwd(t, 1, 2);
    RunKeepsTargetsCurrent(INIT, STALE_RUN);
    VisitMakesUpRows(t, 100000, 2, BLANK);
    var t' := Visit(t, 100000, 2, BLANK);
    assert [2][1..] == [] && Sweep(t', 100000, [], BLANK) == t';
  }

  // ---------- The server itself ----------

  class CMediaServer {
    var m_mapForwardTable: Table
    /** Verifications handed to the thread pool and not yet reported back. */
    var m_pending: seq<VerifyCtx>

    ghost function State(): Server
      reads this
    {
      Server(m_mapForwardTable, m_pending)
    }

    constructor ()
      ensures State() == INIT
    {
      m_mapForwardTable := map[];
      m_pending := [];
    }

    /** `acked` tells whether the login was acknowledged at once. */
    method OnRecvLoginMsg(msg: VerifyCtx, now: nat) returns (acked: bool)
      modifies this
      ensures State() == Step(old(State()), Login(msg, now))
      ensures acked <==>
              && msg.userId in old(m_mapForwardTable)
              && (old(m_mapForwardTable)[msg.userId].addr == msg.srcAddr
                  || old(m_mapForwardTable)[msg.userId].sessionId == msg.sessionId)
    {
      if msg.userId !in m_mapForwardTable
         || (m_mapForwardTable[msg.userId].addr != msg.srcAddr
             && m_mapForwardTable[msg.userId].sessionId != msg.sessionId)
      {
        m_pending := m_pending + [msg];
        acked := false;
      } else {
        var row := m_mapForwardTable[msg.userId];
        m_mapForwardTable := m_mapForwardTable[msg.userId := row.(expireTime := now + 3 * TIMEOUT)];
        acked := true;
      }
    }

    /** A login that was verified is acknowledged, also when the row is there already. */
    method AfterVerification(index: nat, success: bool, now: nat) returns (ack: Option<Addr>)
      requires index < |m_pending|
      modifies this
      ensures ack == if success then Some(old(m_pending)[index].srcAddr) else None
      ensures State() == Step(old(State()), VerifyDone(index, success, now))
    {
      var ctx := m_pending[index];
      ack := None;
      if success {
        ack := Some(ctx.srcAddr);
        var row := ForwardTable(ctx.srcAddr, ctx.sessionId, now + 3 * TIMEOUT, ctx.localPort, map[], {});
        // insert keeps a row that is already there
        if ctx.userId !in m_mapForwardTable {
          m_mapForwardTable := m_mapForwardTable[ctx.userId := row];
        }
      }
      m_pending := m_pending[..index] + m_pending[index + 1..];
    }

    method OnUpdateForwardTable(add: bool, src: UserId, dst: UserId)
      modifies this
      ensures State() == Step(old(State()), Update(add, src, dst))
    {
      if src !in m_mapForwardTable || dst !in m_mapForwardTable {
        return;
      }
      if add {
        var row := m_mapForwardTable[src];
        m_mapForwardTable := m_mapForwardTable[src := row.(dataTo := row.dataTo[dst := m_mapForwardTable[dst].addr])];
        row := m_mapForwardTable[dst];
        m_mapForwardTable := m_mapForwardTable[dst := row.(dataFrom := row.dataFrom + {src})];
      } else {
        m_mapForwardTable := m_mapForwardTable[src := DropTo(m_mapForwardTable[src], dst)];
        m_mapForwardTable := m_mapForwardTable[dst := DropFrom(m_mapForwardTable[dst], src)];
      }
    }

    method OnLeaveRoom(userId: UserId)
      modifies this
      ensures State() == Step(old(State()), Leave(userId))
    {
      if userId !in m_mapForwardTable {
        return;
      }
      ghost var t := m_mapForwardTable;
      var todo := m_mapForwardTable[userId].dataFrom;
      while todo != {}
        invariant todo <= t[userId].dataFrom
        invariant m_mapForwardTable == EraseTo(t, t[userId].dataFrom - todo, userId)
        invariant m_pending == old(m_pending)
      {
        var dst :| dst in todo;
        todo := todo - {dst};
        if dst in m_mapForwardTable {
          m_mapForwardTable := m_mapForwardTable[dst := DropTo(m_mapForwardTable[dst], userId)];
        }
      }
      var row := m_mapForwardTable[userId];
      m_mapForwardTable := m_mapForwardTable[userId := row.(dataFrom := {}, dataTo := map[])];
      assert t[userId].dataFrom - {} == t[userId].dataFrom;
    }

    method OnLogout(userId: UserId) returns (found: bool)
      modifies this
      ensures State() == Step(old(State()), TcpLogout(userId))
      ensures found == (userId in old(m_mapForwardTable))
    {
      found := userId in m_mapForwardTable;
      if !found {
        return;
      }
      ghost var t := m_mapForwardTable;
      var todo := m_mapForwardTable[userId].dataFrom;
      while todo != {}
        invariant todo <= t[userId].dataFrom
        invariant m_mapForwardTable == EraseTo(t, t[userId].dataFrom - {userId} - todo, userId)
        invariant m_pending == old(m_pending)
      {
        var del :| del in todo;
        todo := todo - {del};
        if del != userId && del in m_mapForwardTable {
          m_mapForwardTable := m_mapForwardTable[del := DropTo(m_mapForwardTable[del], userId)];
        }
      }
      assert t[userId].dataFrom - {userId} - {} == t[userId].dataFrom - {userId};
      ghost var t1 := m_mapForwardTable;
      todo := m_mapForwardTable[userId].dataTo.Keys;
      while todo != {}
        invariant todo <= t[userId].dataTo.Keys
        invariant m_mapForwardTable == EraseFrom(t1, t[userId].dataTo.Keys - {userId} - todo, userId)
        invariant m_pending == old(m_pending)
      {
        var del :| del in todo;
        todo := todo - {del};
        if del != userId && del in m_mapForwardTable {
          m_mapForwardTable := m_mapForwardTable[del := DropFrom(m_mapForwardTable[del], userId)];
        }
      }
      assert t[userId].dataTo.Keys - {userId} - {} == t[userId].dataTo.Keys - {userId};
      m_mapForwardTable := m_mapForwardTable - {userId};
    }

    /** Acknowledged in any case. */
    method OnRecvLogoutMsg(userId: UserId, srcAddr: Addr, blank: Blanks) returns (found: bool, ack: Addr)
      requires NoEdges(blank)
      modifies this
      ensures ack == srcAddr
      ensures State() == Step(old(State()), UdpLogout(userId, blank))
      ensures found == (userId in old(m_mapForwardTable))
    {
      ack := srcAddr;
      found := userId in m_mapForwardTable;
      if !found {
        return;
      }
      ghost var t := m_mapForwardTable;
      var todo := m_mapForwardTable[userId].dataFrom;
      while todo != {}
        invariant todo <= t[userId].dataFrom
        invariant m_mapForwardTable == TouchTo(t, t[userId].dataFrom - todo, userId, blank)
        invariant m_pending == old(m_pending)
      {
        var del :| del in todo;
        todo := todo - {del};
        m_mapForwardTable := m_mapForwardTable[del := DropTo(GetOr(m_mapForwardTable, del, blank), userId)];
      }
      assert t[userId].dataFrom - {} == t[userId].dataFrom;
      m_mapForwardTable := m_mapForwardTable - {userId};
    }

    /** The timeout sweep over the rows as the hash table yields them. */
    method OfflineDetection(now: nat, order: seq<UserId>, blank: Blanks)
      requires NoEdges(blank)
      modifies this
      ensures State() == Step(old(State()), Timeout(now, order, blank))
    {
      for i := 0 to |order|
        invariant Sweep(m_mapForwardTable, now, order[i..], blank) == Sweep(old(m_mapForwardTable), now, order, blank)
        invariant m_pending == old(m_pending)
      {
        assert order[i..][0] == order[i] && order[i..][1..] == order[i + 1..];
        VisitRow(now, order[i], blank);
      }
    }

    method VisitRow(now: nat, userId: UserId, blank: Blanks)
      modifies `m_mapForwardTable
      ensures m_mapForwardTable == Visit(old(m_mapForwardTable), now, userId, blank)
    {
      if userId !in m_mapForwardTable || now <= m_mapForwardTable[userId].expireTime {
        return;
      }
      var row := m_mapForwardTable[userId];
      DropFromSources(row.dataFrom, userId, blank);
      DropFromTargets(row.dataTo.Keys, userId, blank);
      m_mapForwardTable := m_mapForwardTable - {userId};
    }

    /** For every source but the user itself: `operator[]` and erase from its dataTo. */
    method DropFromSources(sources: set<UserId>, userId: UserId, blank: Blanks)
      modifies `m_mapForwardTable
      ensures m_mapForwardTable == TouchTo(old(m_mapForwardTable), sources - {userId}, userId, blank)
    {
      var todo := sources;
      while todo != {}
        invariant todo <= sources
        invariant m_mapForwardTable == TouchTo(old(m_mapForwardTable), sources - {userId} - todo, userId, blank)
      {
        var del :| del in todo;
        todo := todo - {del};
        if del != userId {
          m_mapForwardTable := m_mapForwardTable[del := DropTo(GetOr(m_mapForwardTable, del, blank), userId)];
        }
      }
      assert sources - {userId} - {} == sources - {userId};
    }

    /** For every target but the user itself: `operator[]` and erase from its dataFrom. */
    method DropFromTargets(targets: set<UserId>, userId: UserId, blank: Blanks)
      modifies `m_mapForwardTable
      ensures m_mapForwardTable == TouchFrom(old(m_mapForwardTable), targets - {userId}, userId, blank)
    {
      var todo := targets;
      while todo != {}
        invariant todo <= targets
        invariant m_mapForwardTable == TouchFrom(old(m_mapForwardTable), targets - {userId} - todo, userId, blank)
      {
        var del :| del in todo;
        todo := todo - {del};
        if del != userId {
          m_mapForwardTable := m_mapForwardTable[del := DropFrom(GetOr(m_mapForwardTable, del, blank), userId)];
        }
      }
      assert targets - {userId} - {} == targets - {userId};
    }

    /** Each target once, in any order; in a reachable table, each at its current address. */
    method OnRecvMultiForwardMsg(userId: UserId) returns (found: bool, sent: seq<(UserId, Addr)>)
      ensures found == (userId in m_mapForwardTable)
      ensures forall i, j :: 0 <= i < j < |sent| ==> sent[i].0 != sent[j].0
      ensures forall d: UserId :: (exists i :: 0 <= i < |sent| && sent[i].0 == d) <==> Fwd(m_mapForwardTable, userId, d)
      ensures found ==> forall p :: p in sent ==>
                p.0 in m_mapForwardTable[userId].dataTo && p.1 == m_mapForwardTable[userId].dataTo[p.0]
      ensures TargetsCurrent(m_mapForwardTable) ==>
                forall p :: p in sent ==> SingleTarget(m_mapForwardTable, p.0) == Some(p.1)
    {
      sent := [];
      found := userId in m_mapForwardTable;
      if !found {
        return;
      }
      var dataTo := m_mapForwardTable[userId].dataTo;
      var todo := dataTo.Keys;
      while todo != {}
        invariant todo <= dataTo.Keys
        invariant forall i, j :: 0 <= i < j < |sent| ==> sent[i].0 != sent[j].0
        invariant forall i :: 0 <= i < |sent| ==> sent[i].0 !in todo
        invariant forall p :: p in sent ==> Fwd(m_mapForwardTable, userId, p.0) && p.1 == dataTo[p.0]
        invariant forall d :: d in dataTo.Keys && d !in todo ==> exists i :: 0 <= i < |sent| && sent[i].0 == d
      {
        var d :| d in todo;
        todo := todo - {d};
        ghost var before := sent;
        sent := sent + [(d, dataTo[d])];
        assert sent[|before|].0 == d;
        assert forall i :: 0 <= i < |before| ==> sent[i] == before[i];
      }
    }
  }
}
