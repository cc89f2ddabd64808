/** Peer-to-peer connection attempts of the client: LAN punch-hole messages, then WAN ones, then
    the relay, driven by one repeating timer per peer.

    The first part is the client as a state machine over its callbacks; the class at the end is
    the client itself, with real timer objects, proved to take those steps. */
module PunchHole {

  newtype UserId = x: int | 0 <= x < 0x1_0000_0000

  datatype Addr = Addr(ip: nat, port: nat)

  datatype P2PStatus = pending | LAN_success | WAN_success | requireRelay

  datatype ClientCtx = ClientCtx(WANAddr: Addr, LANAddr: Addr, status: P2PStatus)

  /** What a timer carries: the peer, the `del` bit of the message (0 LAN, 1 WAN), the count. */
  datatype TimerCtx = TimerCtx(dst: UserId, wan: bool, repeatTimes: int)

  const LAN_TIMES := 4
  const WAN_TIMES := 10

  /** A punch-hole message sent to a peer. */
  datatype Sent = Sent(dst: UserId, addr: Addr, wan: bool)

  /** `H` stands for the libuv timer handles; `running` are those started and not yet stopped,
      `timers` is the map from peers to handles.  `relayed` and `asked` are the requests that went
      to the server: relay data to this peer, tell the address of this peer. */
  datatype State<H(==)> = State(
    peers: map<UserId, ClientCtx>,
    timers: map<UserId, H>,
    running: map<H, TimerCtx>,
    enableP2P: bool,
    sent: seq<Sent>,
    relayed: seq<UserId>,
    asked: seq<UserId>)

  datatype Event<H> =
    | Fire(h: H, spare: H)
    | AddrResponse(dst: UserId, wan: Addr, lan: Addr, spare: H)
    | Ack(dst: UserId, viaWan: bool, src: Addr)
    | Add(user: UserId)
    | Remove(user: UserId)
    | LeaveRoom
    | SetP2P(enable: bool)

  function Start<H>(): State<H> {
    State(map[], map[], map[], true, [], [], [])
  }

  // ---------- Steps ----------

  function RemoveTimer<H>(s: State<H>, k: UserId): State<H> {
    if k in s.timers then s.(running := s.running - {s.timers[k]}, timers := s.timers - {k}) else s
  }

  /** A new handle, started and put into the map, whatever the map held there. */
  function GenerateTimer<H(==)>(s: State<H>, h: H, ctx: TimerCtx): State<H> {
    s.(timers := s.timers[ctx.dst := h], running := s.running[h := ctx])
  }

  function TryLAN<H(==)>(s: State<H>, dst: UserId, h: H): State<H> {
    GenerateTimer(RemoveTimer(s, dst), h, TimerCtx(dst, false, LAN_TIMES))
  }

  function TryWAN<H(==)>(s: State<H>, dst: UserId, h: H): State<H> {
    GenerateTimer(RemoveTimer(s, dst), h, TimerCtx(dst, true, WAN_TIMES))
  }

  function SetStatus<H>(s: State<H>, k: UserId, status: P2PStatus): State<H>
    requires k in s.peers
  {
    s.(peers := s.peers[k := s.peers[k].(status := status)])
  }

  /** P2PTimer: one message, and the count goes down whatever comes next. */
  function TimerFired<H(==)>(s: State<H>, h: H, spare: H): State<H>
    requires h in s.running
  {
    var ctx := s.running[h];
    if ctx.dst !in s.peers then RemoveTimer(s, ctx.dst)
    else
      var s1 := CountDown(SendPunch(s, ctx), h);
      if ctx.repeatTimes != 0 then s1
      else if !ctx.wan then TryWAN(s1, ctx.dst, spare)
      else NeedRelay(RemoveTimer(s1, ctx.dst), ctx.dst)
  }

  function SendPunch<H>(s: State<H>, ctx: TimerCtx): State<H>
    requires ctx.dst in s.peers
  {
    var peer := s.peers[ctx.dst];
    s.(sent := s.sent + [Sent(ctx.dst, if ctx.wan then peer.WANAddr else peer.LANAddr, ctx.wan)])
  }

  function CountDown<H(==)>(s: State<H>, h: H): State<H>
    requires h in s.running
  {
    s.(running := s.running[h := s.running[h].(repeatTimes := s.running[h].repeatTimes - 1)])
  }

  function NeedRelay<H>(s: State<H>, k: UserId): State<H>
    requires k in s.peers
  {
    SetStatus(s, k, requireRelay).(relayed := s.relayed + [k])
  }

  function GotAddress<H(==)>(s: State<H>, dst: UserId, wan: Addr, lan: Addr, spare: H): State<H> {
    if dst !in s.peers then s
    else TryLAN(s.(peers := s.peers[dst := ClientCtx(wan, lan, s.peers[dst].status)]), dst, spare)
  }

  function GotAck<H>(s: State<H>, dst: UserId, viaWan: bool, src: Addr): State<H> {
    var s1 := RemoveTimer(s, dst);
    if dst !in s1.peers then s1
    else if !viaWan then
      SetStatus(s1.(peers := s1.peers[dst := s1.peers[dst].(LANAddr := src)]), dst, LAN_success)
    else SetStatus(s1, dst, WAN_success)
  }

  const NO_ADDR := Addr(0, 0)

  function AddNode<H>(s: State<H>, user: UserId): State<H> {
    if user in s.peers then s
    else if s.enableP2P then
      s.(peers := s.peers[user := ClientCtx(NO_ADDR, NO_ADDR, pending)], asked := s.asked + [user])
    else
      s.(peers := s.peers[user := ClientCtx(NO_ADDR, NO_ADDR, requireRelay)], relayed := s.relayed + [user])
  }

  function RemoveNode<H>(s: State<H>, user: UserId): State<H> {
    RemoveTimer(s.(peers := s.peers - {user}), user)
  }

  function ClearTimers<H(==)>(s: State<H>): State<H> {
    s.(timers := map[], running := s.running - s.timers.Values)
  }

  /** A timer fires while it runs; a new handle is one that is not running. */
  predicate Fits<H(==)>(s: State<H>, e: Event<H>) {
    match e
    case Fire(h, spare) => h in s.running && spare !in s.running
    case AddrResponse(_, _, _, spare) => spare !in s.running
    case _ => true
  }

  function Step<H(==)>(s: State<H>, e: Event<H>): State<H>
    requires Fits(s, e)
  {
    match e
    case Fire(h, spare) => TimerFired(s, h, spare)
    case AddrResponse(dst, wan, lan, spare) => GotAddress(s, dst, wan, lan, spare)
    case Ack(dst, viaWan, src) => GotAck(s, dst, viaWan, src)
    case Add(user) => AddNode(s, user)
    case Remove(user) => RemoveNode(s, user)
    case LeaveRoom => ClearTimers(s.(peers := map[]))
    case SetP2P(enable) => s.(enableP2P := enable)
  }

  predicate Fitting<H(==)>(s: State<H>, es: seq<Event<H>>)
    decreases |es|
  {
    es == [] || (Fits(s, es[0]) && Fitting(Step(s, es[0]), es[1..]))
  }

  function Run<H(==)>(s: State<H>, es: seq<Event<H>>): State<H>
    requires Fitting(s, es)
    decreases |es|
  {
    if es == [] then s else Run(Step(s, es[0]), es[1..])
  }

  // ---------- One live timer per peer, and only for peers in the room ----------

  /** Running timers and map entries match one to one, for users of `room`. */
  predicate Matched<H(==)>(room: set<UserId>, timers: map<UserId, H>, running: map<H, TimerCtx>) {
    && (forall h :: h in running ==> running[h].dst in timers && timers[running[h].dst] == h)
    && (forall k :: k in timers ==> k in room && timers[k] in running && running[timers[k]].dst == k)
    && (forall h :: h in running ==> 0 <= running[h].repeatTimes <= (if running[h].wan then WAN_TIMES else LAN_TIMES))
  }

  predicate Inv<H(==)>(s: State<H>) {
    Matched(s.peers.Keys, s.timers, s.running)
  }

  lemma RemoveTimerKeeps<H>(s: State<H>, k: UserId)
    requires Inv(s)
    ensures Inv(RemoveTimer(s, k)) && k !in RemoveTimer(s, k).timers
    ensures forall h :: h in RemoveTimer(s, k).running ==> h in s.running
    ensures RemoveTimer(s, k).timers.Keys == s.timers.Keys - {k}
  {
  }

  lemma GenerateKeeps<H>(s: State<H>, h: H, ctx: TimerCtx)
    requires Inv(s) && ctx.dst in s.peers && ctx.dst !in s.timers && h !in s.running
    requires 0 <= ctx.repeatTimes <= (if ctx.wan then WAN_TIMES else LAN_TIMES)
    ensures Inv(GenerateTimer(s, h, ctx))
  {
  }

  lemma TryKeeps<H>(s: State<H>, dst: UserId, h: H)
    requires Inv(s) && dst in s.peers && h !in s.running
    ensures Inv(TryLAN(s, dst, h)) && Inv(TryWAN(s, dst, h))
  {
    hide Inv;
    RemoveTimerKeeps(s, dst);
    GenerateKeeps(RemoveTimer(s, dst), h, TimerCtx(dst, false, LAN_TIMES));
    GenerateKeeps(RemoveTimer(s, dst), h, TimerCtx(dst, true, WAN_TIMES));
  }

  /** With matched timers the count of a timer that is removed does not show. */
  lemma FiredParts<H>(s: State<H>, h: H, spare: H)
    requires Inv(s) && h in s.running
    ensures var ctx := s.running[h];
            && ctx.dst in s.peers && ctx.dst in s.timers && s.timers[ctx.dst] == h
            && var s1 := SendPunch(s, ctx);
            && Inv(s1)
            && (ctx.repeatTimes != 0 ==> TimerFired(s, h, spare) == CountDown(s1, h))
            && (ctx.repeatTimes == 0 && !ctx.wan ==> TimerFired(s, h, spare) == TryWAN(s1, ctx.dst, spare))
            && (ctx.repeatTimes == 0 && ctx.wan ==>
                  TimerFired(s, h, spare) == NeedRelay(RemoveTimer(s1, ctx.dst), ctx.dst))
  {
    var s1 := SendPunch(s, s.running[h]);
    assert CountDown(s1, h).running - {h} == s1.running - {h};
  }

  lemma FireKeeps<H>(s: State<H>, h: H, spare: H)
    requires Inv(s) && h in s.running && spare !in s.running
    ensures Inv(TimerFired(s, h, spare))
  {
    FiredParts(s, h, spare);
    var ctx := s.running[h];
    var s1 := SendPunch(s, ctx);
    hide TimerFired;
    if ctx.repeatTimes == 0 {
      hide Matched;
      if !ctx.wan {
        TryKeeps(s1, ctx.dst, spare);
      } else {
        RemoveTimerKeeps(s1, ctx.dst);
        var s2 := RemoveTimer(s1, ctx.dst);
        assert NeedRelay(s2, ctx.dst).peers.Keys == s2.peers.Keys;
      }
    }
  }

  /** Only the room changes, and no peer with a timer leaves it. */
  lemma RoomKeeps<H>(s: State<H>, peers: map<UserId, ClientCtx>)
    requires Inv(s) && s.timers.Keys <= peers.Keys
    ensures Matched(peers.Keys, s.timers, s.running)
  {
  }

  lemma StepKeeps<H>(s: State<H>, e: Event<H>)
    requires Inv(s) && Fits(s, e)
    ensures Inv(Step(s, e))
  {
    assert s.timers.Keys <= s.peers.Keys;
    match e
    case Fire(h, spare) => FireKeeps(s, h, spare);
    case AddrResponse(dst, wan, lan, spare) =>
      hide Matched;
      if dst in s.peers {
        var peers := s.peers[dst := ClientCtx(wan, lan, s.peers[dst].status)];
        RoomKeeps(s, peers);
        TryKeeps(s.(peers := peers), dst, spare);
      }
    case Ack(dst, viaWan, src) =>
      hide Matched;
      RemoveTimerKeeps(s, dst);
      var s1 := RemoveTimer(s, dst);
      RoomKeeps(s1, Step(s, e).peers);
    case Add(user) => RoomKeeps(s, Step(s, e).peers);
    case Remove(user) => RemoveNodeKeeps(s, user);
    case LeaveRoom => AllTimersStop(s);
    case SetP2P(enable) =>
  }

  lemma RemoveNodeKeeps<H>(s: State<H>, user: UserId)
    requires Inv(s)
    ensures Inv(RemoveNode(s, user))
  {
    hide Matched;
    RemoveTimerKeeps(s, user);
    assert s.timers.Keys <= s.peers.Keys by { KeysInRoom(s); }
    RoomKeeps(RemoveTimer(s, user), s.peers - {user});
  }

  lemma KeysInRoom<H>(s: State<H>)
    requires Inv(s)
    ensures s.timers.Keys <= s.peers.Keys
  {
  }

  lemma AllTimersStop<H>(s: State<H>)
    requires Inv(s)
    ensures ClearTimers(s).running == map[]
  {
    forall h | h in s.running
      ensures h in s.timers.Values
    {
      assert s.timers[s.running[h].dst] == h;
    }
  }

  lemma {:induction false} RunKeeps<H>(s: State<H>, es: seq<Event<H>>)
    requires Inv(s) && Fitting(s, es)
    ensures Inv(Run(s, es))
    decreases |es|
  {
    if es != [] {
      StepKeeps(s, es[0]);
      RunKeeps(Step(s, es[0]), es[1..]);
    }
  }

  /** Over every run: two running timers are for two peers, and each peer is in the room. */
  lemma OneTimerPerPeer<H>(es: seq<Event<H>>, g: H, h: H)
    requires Fitting(Start<H>(), es)
    ensures var s := Run(Start<H>(), es);
            g in s.running && h in s.running ==>
              && (s.running[g].dst == s.running[h].dst ==> g == h)
              && s.running[g].dst in s.peers
  {
    RunKeeps(Start<H>(), es);
  }

  // ---------- An attempt, from the address response to the relay ----------

  /** The messages that went to peer p. */
  function SentTo(p: UserId, sent: seq<Sent>): seq<Sent> {
    if sent == [] then []
    else SentTo(p, sent[..|sent| - 1]) + (if sent[|sent| - 1].dst == p then [sent[|sent| - 1]] else [])
  }

  function Times(p: UserId, users: seq<UserId>): nat {
    multiset(users)[p]
  }

  /** What the first n firings of an attempt send: five LAN messages, then WAN ones. */
  function Script(p: UserId, wan: Addr, lan: Addr, n: nat): seq<Sent> {
    if n == 0 then []
    else Script(p, wan, lan, n - 1) + [if n <= 5 then Sent(p, lan, false) else Sent(p, wan, true)]
  }

  const ALL_FIRINGS: nat := 5 + 11

  /** Where the attempt for p stands after n firings; `before` is the state it started from. */
  predicate Attempt<H(==)>(s: State<H>, p: UserId, wan: Addr, lan: Addr, n: nat, before: State<H>) {
    && n <= ALL_FIRINGS
    && p in s.peers && s.peers[p].WANAddr == wan && s.peers[p].LANAddr == lan
    && SentTo(p, s.sent) == SentTo(p, before.sent) + Script(p, wan, lan, n)
    && Times(p, s.relayed) == Times(p, before.relayed) + (if n == ALL_FIRINGS then 1 else 0)
    && (n == ALL_FIRINGS ==> p !in s.timers && s.peers[p].status == requireRelay)
    && (n < ALL_FIRINGS ==>
          && p in before.peers && s.peers[p].status == before.peers[p].status
          && p in s.timers && s.timers[p] in s.running
          && s.running[s.timers[p]] == if n <= LAN_TIMES then TimerCtx(p, false, LAN_TIMES - n)
                                       else TimerCtx(p, true, WAN_TIMES - (n - LAN_TIMES - 1)))
  }

  predicate Fires<H(==)>(s: State<H>, e: Event<H>, p: UserId) {
    e.Fire? && e.h in s.running && s.running[e.h].dst == p
  }

  /** An acknowledgement, a removal or a restart. */
  predicate Ends<H(==)>(e: Event<H>, p: UserId) {
    match e
    case Ack(dst, _, _) => dst == p
    case Remove(user) => user == p
    case LeaveRoom => true
    case AddrResponse(dst, _, _, _) => dst == p
    case _ => false
  }

  function Firings<H(==)>(s: State<H>, es: seq<Event<H>>, p: UserId): nat
    requires Fitting(s, es)
    decreases |es|
  {
    if es == [] then 0 else (if Fires(s, es[0], p) then 1 else 0) + Firings(Step(s, es[0]), es[1..], p)
  }

  lemma SentToOne(p: UserId, sent: seq<Sent>, m: Sent)
    ensures SentTo(p, sent + [m]) == SentTo(p, sent) + (if m.dst == p then [m] else [])
  {
    assert (sent + [m])[..|sent + [m]| - 1] == sent;
  }

  lemma ScriptNext(p: UserId, wan: Addr, lan: Addr, n: nat, base: seq<Sent>, m: Sent)
    requires m == if n <= LAN_TIMES then Sent(p, lan, false) else Sent(p, wan, true)
    ensures base + Script(p, wan, lan, n) + [m] == base + Script(p, wan, lan, n + 1)
  {
  }

  /** A firing of p's own timer takes the attempt one firing on. */
  lemma OwnFiring<H>(s: State<H>, h: H, spare: H, p: UserId, wan: Addr, lan: Addr, n: nat, before: State<H>)
    requires Inv(s) && Attempt(s, p, wan, lan, n, before)
    requires h in s.running && s.running[h].dst == p && spare !in s.running
    ensures n < ALL_FIRINGS && Attempt(TimerFired(s, h, spare), p, wan, lan, n + 1, before)
  {
    FiredParts(s, h, spare);
    assert n < ALL_FIRINGS;
    hide SentTo, Inv, TimerFired;
    var m := if n <= LAN_TIMES then Sent(p, lan, false) else Sent(p, wan, true);
    SentToOne(p, s.sent, m);
    ScriptNext(p, wan, lan, n, SentTo(p, before.sent), m);
    hide Script;
    var s' := TimerFired(s, h, spare);
    assert s'.sent == s.sent + [m];
    if n == LAN_TIMES {
      hide Times;
      assert s'.running[spare] == TimerCtx(p, true, WAN_TIMES) && s'.timers[p] == spare;
    } else if n + 1 == ALL_FIRINGS {
      assert s'.relayed == s.relayed + [p];
    } else {
      hide Times;
    }
  }

  /** Peer p, its timer and its messages are as before. */
  predicate Untouched<H(==)>(s: State<H>, s': State<H>, p: UserId) {
    && p in s.peers && p in s'.peers && s'.peers[p] == s.peers[p]
    && SentTo(p, s'.sent) == SentTo(p, s.sent)
    && Times(p, s'.relayed) == Times(p, s.relayed)
    && (p in s'.timers <==> p in s.timers)
    && (p in s.timers ==> s'.timers[p] == s.timers[p] && s.timers[p] in s.running && s.timers[p] in s'.running
                          && s'.running[s.timers[p]] == s.running[s.timers[p]])
  }

  lemma RemoveOther<H>(s: State<H>, k: UserId, p: UserId)
    requires Inv(s) && k != p && p in s.peers
    ensures Untouched(s, RemoveTimer(s, k), p)
  {
    hide SentTo, Times;
  }

  lemma TryOther<H>(s: State<H>, dst: UserId, h: H, p: UserId)
    requires Inv(s) && dst != p && p in s.peers && h !in s.running
    ensures Untouched(s, TryLAN(s, dst, h), p) && Untouched(s, TryWAN(s, dst, h), p)
  {
    RemoveOther(s, dst, p);
    hide Inv, SentTo, Times;
  }

  lemma PunchOther<H>(s: State<H>, ctx: TimerCtx, p: UserId)
    requires Inv(s) && ctx.dst in s.peers && ctx.dst != p && p in s.peers
    ensures Untouched(s, SendPunch(s, ctx), p)
  {
    assert p in s.timers ==> s.timers[p] in s.running;
    hide Matched, SentTo, Times;
    var peer := s.peers[ctx.dst];
    SentToOne(p, s.sent, Sent(ctx.dst, if ctx.wan then peer.WANAddr else peer.LANAddr, ctx.wan));
    assert SentTo(p, s.sent) + [] == SentTo(p, s.sent);
  }

  lemma CountOther<H>(s: State<H>, h: H, p: UserId)
    requires Inv(s) && h in s.running && s.running[h].dst != p && p in s.peers
    ensures Untouched(s, CountDown(s, h), p)
  {
    assert p in s.timers ==> s.timers[p] in s.running && s.timers[p] != h;
    hide Matched, SentTo, Times;
  }

  lemma RelayOther<H>(s: State<H>, k: UserId, p: UserId)
    requires k in s.peers && k != p && p in s.peers && (p in s.timers ==> s.timers[p] in s.running)
    ensures Untouched(s, NeedRelay(s, k), p)
  {
    hide SentTo;
  }

  lemma UntouchedTwice<H>(s: State<H>, s1: State<H>, s2: State<H>, p: UserId)
    requires Untouched(s, s1, p) && Untouched(s1, s2, p)
    ensures Untouched(s, s2, p)
  {
    hide SentTo, Times;
  }

  lemma FireOther<H>(s: State<H>, h: H, spare: H, p: UserId)
    requires Inv(s) && h in s.running && spare !in s.running && s.running[h].dst != p && p in s.peers
    ensures Untouched(s, TimerFired(s, h, spare), p)
  {
    FiredParts(s, h, spare);
    var ctx := s.running[h];
    PunchOther(s, ctx, p);
    var s1 := SendPunch(s, ctx);
    var s2 := RemoveTimer(s1, ctx.dst);
    assert s1.running == s.running && s1.peers == s.peers && s2.peers == s.peers;
    assert Untouched(s1, s2, p) ==> p in s2.timers ==> s2.timers[p] in s2.running;
    hide *;
    if ctx.repeatTimes != 0 {
      CountOther(s1, h, p);
    } else if !ctx.wan {
      TryOther(s1, ctx.dst, spare, p);
    } else {
      RemoveOther(s1, ctx.dst, p);
      RelayOther(s2, ctx.dst, p);
      UntouchedTwice(s1, s2, NeedRelay(s2, ctx.dst), p);
    }
    UntouchedTwice(s, s1, TimerFired(s, h, spare), p);
  }

  lemma AddressOther<H>(s: State<H>, dst: UserId, wan: Addr, lan: Addr, spare: H, p: UserId)
    requires Inv(s) && dst != p && p in s.peers && spare !in s.running
    ensures Untouched(s, GotAddress(s, dst, wan, lan, spare), p)
  {
    if dst in s.peers {
      var s1 := s.(peers := s.peers[dst := ClientCtx(wan, lan, s.peers[dst].status)]);
      SameRoom(s, s1);
      TryOther(s1, dst, spare, p);
      hide SentTo, Times, Inv;
    } else {
      assert p in s.timers ==> s.timers[p] in s.running;
      hide SentTo, Times, Inv;
    }
  }

  /** Only the peers change, and not p. */
  lemma PeersOther<H>(s: State<H>, s': State<H>, p: UserId)
    requires Inv(s) && p in s.peers && p in s'.peers && s'.peers[p] == s.peers[p]
    requires s'.timers == s.timers && s'.running == s.running && s'.sent == s.sent
    requires Times(p, s'.relayed) == Times(p, s.relayed)
    ensures Untouched(s, s', p)
  {
    hide SentTo, Times;
  }

  /** Nothing that happens to other peers concerns p. */
  lemma AckOther<H>(s: State<H>, dst: UserId, viaWan: bool, src: Addr, p: UserId)
    requires Inv(s) && dst != p && p in s.peers
    ensures Untouched(s, GotAck(s, dst, viaWan, src), p)
  {
    RemoveOther(s, dst, p);
    hide Inv, SentTo, Times;
  }

  lemma RemoveNodeOther<H>(s: State<H>, user: UserId, p: UserId)
    requires Inv(s) && user != p && p in s.peers
    ensures Untouched(s, RemoveNode(s, user), p)
  {
    RemoveOther(s, user, p);
    hide Inv, SentTo, Times;
  }

  lemma OtherStep<H>(s: State<H>, e: Event<H>, p: UserId)
    requires Inv(s) && Fits(s, e) && !Ends(e, p) && !Fires(s, e, p) && p in s.peers
    ensures Untouched(s, Step(s, e), p)
  {
    hide Inv, SentTo, TimerFired, GotAddress, GotAck, RemoveNode, Untouched;
    match e
    case Fire(h, spare) => FireOther(s, h, spare, p);
    case AddrResponse(dst, wan, lan, spare) => AddressOther(s, dst, wan, lan, spare, p);
    case Ack(dst, viaWan, src) => AckOther(s, dst, viaWan, src, p);
    case Remove(user) => RemoveNodeOther(s, user, p);
    case Add(user) => PeersOther(s, Step(s, e), p);
    case SetP2P(_) => PeersOther(s, Step(s, e), p);
    case LeaveRoom =>
  }

  lemma SameRoom<H>(s: State<H>, s1: State<H>)
    requires Inv(s) && s1.timers == s.timers && s1.running == s.running && s1.peers.Keys == s.peers.Keys
    ensures Inv(s1)
  {
  }

  lemma AttemptStep<H>(s: State<H>, e: Event<H>, p: UserId, wan: Addr, lan: Addr, n: nat, before: State<H>)
    requires Inv(s) && Fits(s, e) && !Ends(e, p) && Attempt(s, p, wan, lan, n, before)
    ensures Attempt(Step(s, e), p, wan, lan, if Fires(s, e, p) then n + 1 else n, before)
  {
    if Fires(s, e, p) {
      OwnFiring(s, e.h, e.spare, p, wan, lan, n, before);
    } else {
      OtherStep(s, e, p);
      hide SentTo, Script, Times, Step, Inv, Fits;
    }
  }

  lemma {:induction false} AttemptRun<H>(s: State<H>, es: seq<Event<H>>, p: UserId, wan: Addr, lan: Addr, n: nat,
                                         before: State<H>)
    requires Inv(s) && Fitting(s, es) && Attempt(s, p, wan, lan, n, before)
    requires forall e :: e in es ==> !Ends(e, p)
    ensures Attempt(Run(s, es), p, wan, lan, n + Firings(s, es, p), before)
    decreases |es|
  {
    hide Inv, Attempt, Step, Ends, Fires, Fits;
    if es != [] {
      StepKeeps(s, es[0]);
      AttemptStep(s, es[0], p, wan, lan, n, before);
      AttemptRun(Step(s, es[0]), es[1..], p, wan, lan, if Fires(s, es[0], p) then n + 1 else n, before);
    }
  }

  /** The fallback.  After an address response, and until an acknowledgement, a removal, a leave or
      another response, whatever the other peers do: exactly five LAN and eleven WAN messages can
      go out, and with the sixteenth firing, not before, p needs the relay and the server is asked
      for it exactly once. */
  lemma FallbackAfterSixteen<H>(s: State<H>, p: UserId, wan: Addr, lan: Addr, spare: H, es: seq<Event<H>>)
    requires Inv(s) && p in s.peers && spare !in s.running
    requires Fitting(GotAddress(s, p, wan, lan, spare), es)
    requires forall e :: e in es ==> !Ends(e, p)
    ensures var s1 := GotAddress(s, p, wan, lan, spare);
            var n := Firings(s1, es, p);
            var s2 := Run(s1, es);
            && n <= 16 && p in s2.peers
            && SentTo(p, s2.sent) == SentTo(p, s.sent) + Script(p, wan, lan, n)
            && Times(p, s2.relayed) == Times(p, s.relayed) + (if n == 16 then 1 else 0)
            && (n == 16 ==> p !in s2.timers && s2.peers[p].status == requireRelay)
            && (n < 16 ==> p in s2.timers && s2.peers[p].status == s.peers[p].status)
  {
    hide Inv, SentTo, Times;
    var s1 := GotAddress(s, p, wan, lan, spare);
    StepKeeps(s, AddrResponse(p, wan, lan, spare));
    assert SentTo(p, s.sent) + [] == SentTo(p, s.sent);
    assert Attempt(s1, p, wan, lan, 0, s);
    AttemptRun(s1, es, p, wan, lan, 0, s);
  }

  /** Without a timer there is silence until the next address response, and an acknowledgement, a
      removal or a leave takes the timer away. */
  lemma {:induction false} SilentWithoutTimer<H>(s: State<H>, es: seq<Event<H>>, p: UserId)
    requires Inv(s) && Fitting(s, es) && p !in s.timers
    requires forall e :: e in es ==> !(e.AddrResponse? && e.dst == p)
    ensures p !in Run(s, es).timers && SentTo(p, Run(s, es).sent) == SentTo(p, s.sent)
    decreases |es|
  {
    if es != [] {
      SilentStep(s, es[0], p);
      StepKeeps(s, es[0]);
      SilentWithoutTimer(Step(s, es[0]), es[1..], p);
    }
  }

  lemma SilentStep<H>(s: State<H>, e: Event<H>, p: UserId)
    requires Inv(s) && Fits(s, e) && p !in s.timers && !(e.AddrResponse? && e.dst == p)
    ensures p !in Step(s, e).timers && SentTo(p, Step(s, e).sent) == SentTo(p, s.sent)
  {
    hide SentTo;
    match e
    case Fire(h, spare) =>
      FiredParts(s, h, spare);
      hide Inv, TimerFired;
      var ctx := s.running[h];
      var peer := s.peers[ctx.dst];
      SentToOne(p, s.sent, Sent(ctx.dst, if ctx.wan then peer.WANAddr else peer.LANAddr, ctx.wan));
      assert SentTo(p, s.sent) + [] == SentTo(p, s.sent);
    case _ =>
      hide Inv;
  }

  lemma EndStopsTimer<H>(s: State<H>, e: Event<H>, p: UserId)
    requires Inv(s) && Fits(s, e) && Ends(e, p) && !e.AddrResponse?
    ensures p !in Step(s, e).timers
    ensures e.Ack? && p in s.peers ==>
              Step(s, e).peers[p].status == if e.viaWan then WAN_success else LAN_success
    ensures e.Ack? && p in s.peers ==>
              && Step(s, e).peers[p].WANAddr == s.peers[p].WANAddr
              && Step(s, e).peers[p].LANAddr == if e.viaWan then s.peers[p].LANAddr else e.src
    ensures !e.Ack? ==> p !in Step(s, e).peers
  {
  }

  // ---------- Adding peers, and what is asked of the server ----------

  /** A new peer waits for its address with P2P on and is relayed at once with P2P off; adding a peer that
      is there changes nothing. */
  lemma AddLaw<H>(s: State<H>, user: UserId)
    ensures var s' := Step(s, Add(user));
      && s'.timers == s.timers && s'.running == s.running && s'.sent == s.sent && s'.enableP2P == s.enableP2P
      && (user in s.peers ==> s' == s)
      && (user !in s.peers ==> s'.peers.Keys == s.peers.Keys + {user})
      && (forall k :: k in s.peers ==> s'.peers[k] == s.peers[k])
      && (user !in s.peers && s.enableP2P ==>
            s'.peers[user].status == pending && s'.asked == s.asked + [user] && s'.relayed == s.relayed)
      && (user !in s.peers && !s.enableP2P ==>
            s'.peers[user].status == requireRelay && s'.relayed == s.relayed + [user] && s'.asked == s.asked)
  {
  }

  /** Acknowledgements, address responses, removals, a leave and the switch send and ask nothing, and
      a response for an unknown peer does nothing at all. */
  lemma QuietSteps<H>(s: State<H>, e: Event<H>)
    requires Fits(s, e) && !e.Fire? && !e.Add?
    ensures var s' := Step(s, e);
      && s'.sent == s.sent && s'.relayed == s.relayed && s'.asked == s.asked
      && (e.AddrResponse? && e.dst !in s.peers ==> s' == s)
      && (e.Remove? ==> s'.peers == s.peers - {e.user})
      && (e.SetP2P? ==> s' == s.(enableP2P := e.enable))
      && (!e.SetP2P? ==> s'.enableP2P == s.enableP2P)
  {
  }

  /** The firing that ends the WAN phase for p. */
  predicate LastFiring<H(==)>(s: State<H>, e: Event<H>, p: UserId) {
    e.Fire? && e.h in s.running && s.running[e.h] == TimerCtx(p, true, 0)
  }

  /** It is the sixteenth firing of the attempt. */
  lemma SixteenthIsLast<H>(s: State<H>, e: Event<H>, p: UserId, wan: Addr, lan: Addr, n: nat, before: State<H>)
    requires Inv(s) && Attempt(s, p, wan, lan, n, before) && Fires(s, e, p)
    ensures LastFiring(s, e, p) <==> n == 15
  {
    hide SentTo, Script, Times;
  }

  function LastFirings<H(==)>(s: State<H>, es: seq<Event<H>>, p: UserId): nat
    requires Fitting(s, es)
    decreases |es|
  {
    if es == [] then 0 else (if LastFiring(s, es[0], p) then 1 else 0) + LastFirings(Step(s, es[0]), es[1..], p)
  }

  lemma RelayedStep<H>(s: State<H>, e: Event<H>, p: UserId)
    requires Inv(s) && Fits(s, e) && s.enableP2P && !(e.SetP2P? && !e.enable)
    ensures Step(s, e).enableP2P
    ensures Times(p, Step(s, e).relayed) == Times(p, s.relayed) + (if LastFiring(s, e, p) then 1 else 0)
  {
    match e
    case Fire(h, spare) => FiredParts(s, h, spare); hide Inv, TimerFired;
    case Add(user) => AddLaw(s, user);
    case _ => QuietSteps(s, e);
  }

  lemma {:induction false} RelayedCount<H>(s: State<H>, es: seq<Event<H>>, p: UserId)
    requires Inv(s) && s.enableP2P && Fitting(s, es) && forall e :: e in es ==> !(e.SetP2P? && !e.enable)
    ensures Times(p, Run(s, es).relayed) == Times(p, s.relayed) + LastFirings(s, es, p)
    decreases |es|
  {
    hide Inv, Step, Fits, LastFiring, Times;
    if es != [] {
      StepKeeps(s, es[0]);
      RelayedStep(s, es[0], p);
      RelayedCount(Step(s, es[0]), es[1..], p);
    }
  }

  /** While nobody switches P2P off, the relay is asked for only by attempts that came to their sixteenth
      firing, and once for each. */
  lemma RelayOnlyAfterAttempts<H>(es: seq<Event<H>>, p: UserId)
    requires Fitting(Start<H>(), es) && forall e :: e in es ==> !(e.SetP2P? && !e.enable)
    ensures Times(p, Run(Start<H>(), es).relayed) == LastFirings(Start<H>(), es, p)
  {
    RelayedCount(Start<H>(), es, p);
  }

  // ---------- The client ----------

  class uv_timer_t {
    const dst: UserId
    const wan: bool
    var repeatTimes: int

    constructor (ctx: TimerCtx)
      ensures dst == ctx.dst && wan == ctx.wan && repeatTimes == ctx.repeatTimes
    {
      dst, wan, repeatTimes := ctx.dst, ctx.wan, ctx.repeatTimes;
    }
  }

  /** CUDPModule together with its CTimerManager. */
  class CUDPModule {
    var m_mapPeerClientCtx: map<UserId, ClientCtx>
    var m_mapP2PTimer: map<UserId, uv_timer_t>
    var m_bEnableP2P: bool
    var sent: seq<Sent>
    var relayed: seq<UserId>
    var asked: seq<UserId>
    /** The timers libuv will call back. */
    ghost var running: set<uv_timer_t>

    ghost function Abs(): State<uv_timer_t>
      reads this, running
    {
      State(m_mapPeerClientCtx, m_mapP2PTimer,
            map t | t in running :: TimerCtx(t.dst, t.wan, t.repeatTimes),
            m_bEnableP2P, sent, relayed, asked)
    }

    constructor ()
      ensures Abs() == Start() && running == {}
    {
      m_mapPeerClientCtx, m_mapP2PTimer, m_bEnableP2P := map[], map[], true;
      sent, relayed, asked, running := [], [], [], {};
    }

    method RemoveP2PTimer(index: UserId)
      modifies `m_mapP2PTimer, `running
      ensures Abs() == RemoveTimer(old(Abs()), index)
      ensures m_mapP2PTimer == old(m_mapP2PTimer) - {index}
    {
      if index in m_mapP2PTimer {
        running := running - {m_mapP2PTimer[index]};
        m_mapP2PTimer := m_mapP2PTimer - {index};
      }
    }

    method GenerateP2PTimer(ctx: TimerCtx) returns (timer: uv_timer_t)
      modifies `m_mapP2PTimer, `running
      ensures fresh(timer) && running == old(running) + {timer}
      ensures Abs() == GenerateTimer(old(Abs()), timer, ctx)
    {
      timer := new uv_timer_t(ctx);
      m_mapP2PTimer := m_mapP2PTimer[ctx.dst := timer];
      running := running + {timer};
    }

    /** `ctx->repeatTimes--` */
    method TakeCount(timer: uv_timer_t) returns (times: int)
      requires timer in running
      modifies timer`repeatTimes
      ensures times == old(timer.repeatTimes) && Abs() == CountDown(old(Abs()), timer)
    {
      times := timer.repeatTimes;
      timer.repeatTimes := times - 1;
    }

    method Punch(timer: uv_timer_t)
      requires timer.dst in m_mapPeerClientCtx
      modifies `sent
      ensures Abs() == SendPunch(old(Abs()), TimerCtx(timer.dst, timer.wan, timer.repeatTimes))
    {
      var peer := m_mapPeerClientCtx[timer.dst];
      var addr := if timer.wan then peer.WANAddr else peer.LANAddr;
      sent := sent + [Sent(timer.dst, addr, timer.wan)];
    }

    method FallBack(user: UserId)
      requires user in m_mapPeerClientCtx
      modifies `m_mapPeerClientCtx, `relayed
      ensures Abs() == NeedRelay(old(Abs()), user)
    {
      m_mapPeerClientCtx := m_mapPeerClientCtx[user := m_mapPeerClientCtx[user].(status := requireRelay)];
      relayed := relayed + [user];
    }

    /** `started` is the new timer, when this firing starts one. */
    method P2PTimer(timer: uv_timer_t) returns (started: uv_timer_t?)
      requires timer in running
      modifies this, timer`repeatTimes
      ensures started != null ==> fresh(started)
      ensures Abs() == TimerFired(old(Abs()), timer, if started == null then timer else started)
    {
      started := null;
      var dstUserId := timer.dst;
      assert Abs().running[timer] == TimerCtx(timer.dst, timer.wan, timer.repeatTimes);
      assert Abs().peers == m_mapPeerClientCtx && timer in Abs().running;
      hide Abs, RemoveTimer, GenerateTimer, SendPunch, CountDown, NeedRelay;
      if dstUserId !in m_mapPeerClientCtx {
        RemoveP2PTimer(dstUserId);
        return;
      }
      Punch(timer);
      var times := TakeCount(timer);
      if times == 0 {
        RemoveP2PTimer(dstUserId);
        if !timer.wan {
          started := GenerateP2PTimer(TimerCtx(dstUserId, true, WAN_TIMES));
        } else {
          FallBack(dstUserId);
        }
      }
    }

    method OnAddrResponse(dst: UserId, wan: Addr, lan: Addr) returns (started: uv_timer_t?)
      modifies this
      ensures started == null <==> dst !in old(m_mapPeerClientCtx)
      ensures started == null ==> Abs() == old(Abs())
      ensures started != null ==>
                fresh(started) && Abs() == Step(old(Abs()), AddrResponse(dst, wan, lan, started))
    {
      started := null;
      if dst !in m_mapPeerClientCtx {
        return;
      }
      m_mapPeerClientCtx := m_mapPeerClientCtx[dst := ClientCtx(wan, lan, m_mapPeerClientCtx[dst].status)];
      RemoveP2PTimer(dst);
      started := GenerateP2PTimer(TimerCtx(dst, false, LAN_TIMES));
    }

    method OnRecvPunchHoleMsg2(dst: UserId, viaWan: bool, srcAddr: Addr)
      modifies this
      ensures Abs() == Step(old(Abs()), Ack(dst, viaWan, srcAddr))
    {
      RemoveP2PTimer(dst);
      if dst !in m_mapPeerClientCtx {
        return;
      }
      var peer := m_mapPeerClientCtx[dst];
      if !viaWan {
        m_mapPeerClientCtx := m_mapPeerClientCtx[dst := peer.(status := LAN_success, LANAddr := srcAddr)];
      } else {
        m_mapPeerClientCtx := m_mapPeerClientCtx[dst := peer.(status := WAN_success)];
      }
    }

    method OnAddForwardNode(user: UserId)
      modifies this
      ensures Abs() == Step(old(Abs()), Add(user))
    {
      if user in m_mapPeerClientCtx {
        return;
      }
      var status := if m_bEnableP2P then pending else requireRelay;
      m_mapPeerClientCtx := m_mapPeerClientCtx[user := ClientCtx(NO_ADDR, NO_ADDR, status)];
      if !m_bEnableP2P {
        relayed := relayed + [user];
      } else {
        asked := asked + [user];
      }
    }

    method OnRemoveForwardNode(user: UserId)
      modifies this
      ensures Abs() == Step(old(Abs()), Remove(user))
    {
      m_mapPeerClientCtx := m_mapPeerClientCtx - {user};
      RemoveP2PTimer(user);
    }

    method ClearP2PTimer()
      modifies `m_mapP2PTimer, `running
      ensures Abs() == ClearTimers(old(Abs()))
    {
      while m_mapP2PTimer != map[]
        invariant ClearTimers(Abs()) == ClearTimers(old(Abs()))
        decreases |m_mapP2PTimer.Keys|
      {
        var k :| k in m_mapP2PTimer;
        ClearOne(Abs(), k);
        assert |m_mapP2PTimer.Keys - {k}| == |m_mapP2PTimer.Keys| - 1;
        RemoveP2PTimer(k);
      }
      assert Abs().running - {} == Abs().running;
    }

    method OnLeaveRoom()
      modifies this
      ensures Abs() == Step(old(Abs()), LeaveRoom)
    {
      m_mapPeerClientCtx := map[];
      ClearP2PTimer();
    }
  }

  lemma ClearOne<H>(s: State<H>, k: UserId)
    requires k in s.timers
    ensures ClearTimers(RemoveTimer(s, k)) == ClearTimers(s)
  {
    var rest := s.timers - {k};
    forall h | h in s.timers.Values
      ensures h in rest.Values + {s.timers[k]}
    {
      var j :| j in s.timers && s.timers[j] == h;
      assert j != k ==> rest[j] == h;
    }
    forall h | h in rest.Values
      ensures h in s.timers.Values
    {
      var j :| j in rest && rest[j] == h;
      assert s.timers[j] == h;
    }
    assert s.timers.Values == rest.Values + {s.timers[k]};
    assert s.running - {s.timers[k]} - (s.timers - {k}).Values == s.running - s.timers.Values;
  }
}
