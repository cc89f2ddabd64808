/** The SASL dialogue of curl: which mechanism is tried, how the server's replies move the state, and
    what happens over a whole dialogue with cancellations. The server, the message builders and the
    network answer as they like. */
module Sasl {
  import opened Wrappers

  datatype Mech = LOGIN | PLAIN | CRAM_MD5 | DIGEST_MD5 | GSSAPI | EXTERNAL | NTLM | XOAUTH2 | OAUTHBEARER

  datatype State =
    | SASL_STOP | SASL_PLAIN | SASL_LOGIN | SASL_LOGIN_PASSWD | SASL_EXTERNAL | SASL_CRAMMD5
    | SASL_DIGESTMD5 | SASL_DIGESTMD5_RESP | SASL_NTLM | SASL_NTLM_TYPE2MSG | SASL_GSSAPI
    | SASL_GSSAPI_TOKEN | SASL_GSSAPI_NO_DATA | SASL_OAUTH2 | SASL_OAUTH2_RESP | SASL_CANCEL | SASL_FINAL

  datatype Progress = SASL_IDLE | SASL_INPROGRESS | SASL_DONE

  datatype CURLcode = CURLE_OK | CURLE_LOGIN_DENIED | CURLE_BAD_CONTENT_ENCODING
                    | CURLE_UNSUPPORTED_PROTOCOL | CURLE_OTHER

  /** What is fixed for a connection: the build, the credentials and the protocol's reply codes. */
  datatype Conn = Conn(
    useCrypto: bool, useNtlm: bool, useKerberos5: bool,
    digestSupported: bool, ntlmSupported: bool, gssapiUsable: bool,
    userPasswd: bool, passwdEmpty: bool, oauthBearer: bool,
    saslIr: bool, contCode: int, finalCode: int)

  /** The fields of struct SASL; sets stand for the bit masks. */
  datatype Vars = Vars(state: State, authmechs: set<Mech>, prefmech: set<Mech>, authused: set<Mech>,
                       mutualAuth: bool, forceIr: bool)

  /** What the outside says while a mechanism is started. */
  datatype Opening = Opening(message: CURLcode, response: bool, tooLong: bool, send: CURLcode)

  /** What the outside says while the dialogue is continued. */
  datatype Reply = Reply(code: int, message: CURLcode, response: bool, send: CURLcode, opening: Opening)

  type Outcome = (Vars, CURLcode, Progress)

  // ---------- Choosing a mechanism ----------

  predicate Usable(conn: Conn, m: Mech) {
    match m
    case EXTERNAL => conn.passwdEmpty
    case GSSAPI => conn.userPasswd && conn.useKerberos5 && conn.gssapiUsable
    case DIGEST_MD5 => conn.userPasswd && conn.useCrypto && conn.digestSupported
    case CRAM_MD5 => conn.userPasswd && conn.useCrypto
    case NTLM => conn.userPasswd && conn.useNtlm && conn.ntlmSupported
    case OAUTHBEARER => conn.userPasswd && conn.oauthBearer
    case XOAUTH2 => conn.userPasswd && conn.oauthBearer
    case LOGIN => conn.userPasswd
    case PLAIN => conn.userPasswd
  }

  /** All mechanisms by decreasing order of security. */
  function Order(): seq<Mech> {
    [EXTERNAL, GSSAPI, DIGEST_MD5, CRAM_MD5, NTLM, OAUTHBEARER, XOAUTH2, LOGIN, PLAIN]
  }

  function Filter(list: seq<Mech>, keep: set<Mech>): (r: seq<Mech>)
    ensures |r| <= |list|
    ensures forall m :: m in r <==> m in list && m in keep
  {
    if list == [] then []
    else (if list[0] in keep then [list[0]] else []) + Filter(list[1..], keep)
  }

  /** What can still be tried: the enabled mechanisms that the connection can use, best first. */
  function Plan(conn: Conn, v: Vars): seq<Mech> {
    Filter(Order(), Enabled(conn, v.authmechs, v.prefmech))
  }

  function Enabled(conn: Conn, authmechs: set<Mech>, prefmech: set<Mech>): set<Mech> {
    set m | m in authmechs && m in prefmech && Usable(conn, m)
  }

  predicate Distinct(list: seq<Mech>) {
    forall i, j :: 0 <= i < j < |list| ==> list[i] != list[j]
  }

  lemma {:induction false} FilterDistinct(list: seq<Mech>, keep: set<Mech>)
    requires Distinct(list)
    ensures Distinct(Filter(list, keep))
  {
    if list != [] {
      FilterDistinct(list[1..], keep);
      assert list[0] !in list[1..];
    }
  }

  lemma {:induction false} FilterSame(list: seq<Mech>, keep: set<Mech>, m: Mech)
    requires m !in list
    ensures Filter(list, keep - {m}) == Filter(list, keep)
  {
    if list != [] {
      assert list[0] in list && forall x :: x in list[1..] ==> x in list;
      FilterSame(list[1..], keep, m);
    }
  }

  lemma {:induction false} FilterWithoutFirst(list: seq<Mech>, keep: set<Mech>)
    requires Distinct(list) && Filter(list, keep) != []
    ensures Filter(list, keep - {Filter(list, keep)[0]}) == Filter(list, keep)[1..]
  {
    var m := Filter(list, keep)[0];
    assert list[0] !in list[1..];
    if list[0] in keep {
      FilterSame(list[1..], keep, list[0]);
    } else {
      assert m in Filter(list[1..], keep);
      FilterWithoutFirst(list[1..], keep);
    }
  }

  lemma PlanLaws(conn: Conn, v: Vars)
    ensures Distinct(Plan(conn, v)) && |Plan(conn, v)| <= 9
    ensures forall m :: m in Plan(conn, v) <==> m in v.authmechs && m in v.prefmech && Usable(conn, m)
  {
    OrderLaws();
    hide Filter, Order;
    FilterDistinct(Order(), Enabled(conn, v.authmechs, v.prefmech));
  }

  lemma OrderLaws()
    ensures |Order()| == 9 && Distinct(Order()) && forall m :: m in Order()
  {
    forall m
      ensures m in Order()
    {
      InOrder(m);
    }
  }

  lemma InOrder(m: Mech)
    ensures m in Order()
  {
    assert Order()[0] == EXTERNAL && Order()[1] == GSSAPI && Order()[2] == DIGEST_MD5 && Order()[3] == CRAM_MD5;
    assert Order()[4] == NTLM && Order()[5] == OAUTHBEARER && Order()[6] == XOAUTH2;
    assert Order()[7] == LOGIN && Order()[8] == PLAIN;
  }

  // ---------- One call ----------

  function FirstState(m: Mech): State {
    match m
    case EXTERNAL => SASL_EXTERNAL
    case GSSAPI => SASL_GSSAPI
    case DIGEST_MD5 => SASL_DIGESTMD5
    case CRAM_MD5 => SASL_CRAMMD5
    case NTLM => SASL_NTLM
    case OAUTHBEARER => SASL_OAUTH2
    case XOAUTH2 => SASL_OAUTH2
    case LOGIN => SASL_LOGIN
    case PLAIN => SASL_PLAIN
  }

  /** The state after an initial response. */
  function SecondState(m: Mech): State {
    match m
    case GSSAPI => SASL_GSSAPI_TOKEN
    case NTLM => SASL_NTLM_TYPE2MSG
    case OAUTHBEARER => SASL_OAUTH2_RESP
    case LOGIN => SASL_LOGIN_PASSWD
    case _ => SASL_FINAL
  }

  function Started(v: Vars, conn: Conn, forceIr: bool, a: Opening): Outcome {
    var plan := Plan(conn, v);
    if plan == [] then (v.(forceIr := forceIr, authused := {}), CURLE_OK, SASL_IDLE)
    else
      var m := plan[0];
      var initial := (forceIr || conn.saslIr) && m != DIGEST_MD5 && m != CRAM_MD5;
      var v1 := v.(forceIr := forceIr, authused := {m}, mutualAuth := v.mutualAuth && m != GSSAPI);
      if initial && a.message != CURLE_OK then (v1, a.message, SASL_IDLE)
      else if a.send != CURLE_OK then (v1, a.send, SASL_IDLE)
      else
        var early := initial && a.response && !a.tooLong;
        (v1.(state := if early then SecondState(m) else FirstState(m)), CURLE_OK, SASL_INPROGRESS)
  }

  function NextState(v: Vars): State {
    match v.state
    case SASL_LOGIN => SASL_LOGIN_PASSWD
    case SASL_DIGESTMD5 => SASL_DIGESTMD5_RESP
    case SASL_NTLM => SASL_NTLM_TYPE2MSG
    case SASL_GSSAPI => SASL_GSSAPI_TOKEN
    case SASL_GSSAPI_TOKEN => if v.mutualAuth then SASL_GSSAPI_NO_DATA else SASL_FINAL
    case SASL_OAUTH2 => if v.authused == {OAUTHBEARER} then SASL_OAUTH2_RESP else SASL_FINAL
    case _ => SASL_FINAL
  }

  predicate Compiled(conn: Conn, s: State) {
    match s
    case SASL_CRAMMD5 => conn.useCrypto
    case SASL_DIGESTMD5 => conn.useCrypto
    case SASL_DIGESTMD5_RESP => conn.useCrypto
    case SASL_NTLM => conn.useNtlm
    case SASL_NTLM_TYPE2MSG => conn.useNtlm
    case SASL_GSSAPI => conn.useKerberos5
    case SASL_GSSAPI_TOKEN => conn.useKerberos5
    case SASL_GSSAPI_NO_DATA => conn.useKerberos5
    case _ => true
  }

  function Settled(v: Vars, newstate: State, result: CURLcode, response: bool, send: CURLcode, p: Progress): Outcome {
    match result
    case CURLE_BAD_CONTENT_ENCODING => (v.(state := SASL_CANCEL), send, p)
    case CURLE_OK => (v.(state := newstate), if response then send else CURLE_OK, p)
    case _ => (v.(state := SASL_STOP), result, SASL_DONE)
  }

  /** The mechanisms that are left once the one in use is toggled. */
  function Toggled(v: Vars): Vars {
    v.(authmechs := (v.authmechs - v.authused) + (v.authused - v.authmechs))
  }

  function Continued(v: Vars, conn: Conn, a: Reply): Outcome {
    if v.state == SASL_FINAL then
      (v.(state := SASL_STOP), if a.code == conn.finalCode then CURLE_OK else CURLE_LOGIN_DENIED, SASL_DONE)
    else if v.state == SASL_CANCEL then
      var (v1, result, p) := Started(Toggled(v), conn, v.forceIr, a.opening);
      Settled(v1, v1.state, result, false, a.send, p)
    else if v.state == SASL_OAUTH2_RESP then
      if a.code == conn.finalCode then (v.(state := SASL_STOP), CURLE_OK, SASL_DONE)
      else if a.code == conn.contCode then Settled(v, SASL_FINAL, CURLE_OK, true, a.send, SASL_INPROGRESS)
      else (v.(state := SASL_STOP), CURLE_LOGIN_DENIED, SASL_DONE)
    else if a.code != conn.contCode then (v.(state := SASL_STOP), CURLE_LOGIN_DENIED, SASL_DONE)
    else if v.state == SASL_STOP then (v, CURLE_OK, SASL_DONE)
    else if !Compiled(conn, v.state) then
      Settled(v, SASL_FINAL, CURLE_UNSUPPORTED_PROTOCOL, false, a.send, SASL_INPROGRESS)
    else if v.state == SASL_DIGESTMD5_RESP then Settled(v, SASL_FINAL, CURLE_OK, true, a.send, SASL_INPROGRESS)
    else Settled(v, NextState(v), a.message, a.response, a.send, SASL_INPROGRESS)
  }

  // ---------- Whole dialogues ----------

  predicate Goes(o: Outcome) {
    o.1 == CURLE_OK && o.2 == SASL_INPROGRESS
  }

  predicate Owns(m: Mech, s: State) {
    || s == FirstState(m) || s == SecondState(m) || s == SASL_FINAL || s == SASL_CANCEL
    || (m == DIGEST_MD5 && s == SASL_DIGESTMD5_RESP)
  }

  /** A dialogue under way: the mechanism in use is the best one left and owns the state. */
  predicate Going(conn: Conn, v: Vars) {
    && Plan(conn, v) != []
    && v.authused == {Plan(conn, v)[0]}
    && Owns(Plan(conn, v)[0], v.state)
    && !(Plan(conn, v)[0] == GSSAPI && v.mutualAuth)
  }

  function Rank(s: State): nat {
    match s
    case SASL_GSSAPI => 3
    case SASL_LOGIN => 3
    case SASL_NTLM => 3
    case SASL_DIGESTMD5 => 3
    case SASL_OAUTH2 => 3
    case SASL_FINAL => 1
    case SASL_CANCEL => 1
    case SASL_STOP => 0
    case _ => 2
  }

  function Measure(conn: Conn, v: Vars): int {
    3 * (|Plan(conn, v)| - 1) + Rank(v.state)
  }

  lemma StartLaw(v: Vars, conn: Conn, forceIr: bool, a: Opening)
    ensures var o := Started(v, conn, forceIr, a);
      && Plan(conn, o.0) == Plan(conn, v)
      && (Goes(o) ==> Going(conn, o.0) && Rank(o.0.state) <= 3)
      && (!Goes(o) ==> o.2 == SASL_IDLE && o.0.state == v.state)
      && (a.message == CURLE_OK && a.send == CURLE_OK ==> o.1 == CURLE_OK && (Goes(o) <==> Plan(conn, v) != []))
  {
    hide Filter, Order;
  }

  /** Cancelling removes exactly the mechanism in use from what is left. */
  lemma CancelLaw(v: Vars, conn: Conn)
    requires Going(conn, v)
    ensures Plan(conn, Toggled(v)) == Plan(conn, v)[1..]
  {
    var m := Plan(conn, v)[0];
    var keep := Enabled(conn, v.authmechs, v.prefmech);
    PlanLaws(conn, v);
    assert m in keep;
    assert Enabled(conn, Toggled(v).authmechs, v.prefmech) == keep - {m};
    OrderLaws();
    hide *;
    FilterWithoutFirst(Order(), keep);
    assert Plan(conn, v) == Filter(Order(), keep) by {
      PlanIs(conn, v);
    }
    PlanIs(conn, Toggled(v));
  }

  lemma PlanIs(conn: Conn, v: Vars)
    ensures Plan(conn, v) == Filter(Order(), Enabled(conn, v.authmechs, v.prefmech))
  {
  }

  lemma CancelledLaw(v: Vars, conn: Conn, a: Reply)
    requires Going(conn, v) && v.state == SASL_CANCEL
    ensures var o := Continued(v, conn, a);
      && (Goes(o) ==> Going(conn, o.0) && Measure(conn, o.0) < Measure(conn, v))
      && (Goes(o) ==> Plan(conn, o.0) == Plan(conn, v)[1..])
      && !(o.1 == CURLE_OK && o.2 == SASL_DONE)
      && (o.2 == SASL_DONE ==> o.0.state == SASL_STOP)
      && (a.opening.message == CURLE_OK && a.opening.send == CURLE_OK ==>
            o.1 == CURLE_OK && (o.2 == SASL_IDLE <==> |Plan(conn, v)| == 1))
  {
    CancelLaw(v, conn);
    StartLaw(Toggled(v), conn, v.forceIr, a.opening);
    hide Plan, Started, Toggled;
  }

  lemma NextIsOwned(v: Vars, conn: Conn, m: Mech)
    requires Owns(m, v.state) && Usable(conn, m) && v.authused == {m} && !(m == GSSAPI && v.mutualAuth)
    requires v.state != SASL_FINAL && v.state != SASL_CANCEL
    ensures Compiled(conn, v.state) && v.state != SASL_STOP && 1 < Rank(v.state)
    ensures Owns(m, NextState(v)) && 0 < Rank(NextState(v)) < Rank(v.state)
    ensures v.state == SASL_DIGESTMD5_RESP || v.state == SASL_OAUTH2_RESP ==> NextState(v) == SASL_FINAL
  {
    match m
    case EXTERNAL =>
    case GSSAPI =>
    case DIGEST_MD5 =>
    case CRAM_MD5 =>
    case NTLM =>
    case OAUTHBEARER =>
    case XOAUTH2 =>
    case LOGIN =>
    case PLAIN =>
  }

  lemma CurrentIsUsable(v: Vars, conn: Conn)
    requires Going(conn, v)
    ensures Usable(conn, Plan(conn, v)[0])
    ensures v.state != SASL_STOP && Owns(Plan(conn, v)[0], SASL_CANCEL) && Rank(SASL_CANCEL) == 1
    ensures forall s :: Going(conn, v.(state := s)) <==> Owns(Plan(conn, v)[0], s)
    ensures forall s :: Measure(conn, v.(state := s)) == 3 * (|Plan(conn, v)| - 1) + Rank(s)
  {
    hide Filter, Order;
    PlanLaws(conn, v);
    assert Plan(conn, v)[0] in Plan(conn, v);
  }

  /** Away from the cancelled state only the state changes: to the next one, to cancelled or to stopped. */
  lemma UncancelledCases(v: Vars, conn: Conn, a: Reply)
    requires v.state != SASL_CANCEL && v.state != SASL_STOP
    requires v.state == SASL_DIGESTMD5_RESP || v.state == SASL_OAUTH2_RESP ==> NextState(v) == SASL_FINAL
    ensures var o := Continued(v, conn, a);
      && o.2 != SASL_IDLE
      && (o.2 == SASL_DONE ==> o.0.state == SASL_STOP)
      && (Goes(o) ==> v.state != SASL_FINAL && (o.0 == v.(state := NextState(v)) || o.0 == v.(state := SASL_CANCEL)))
      && (o.1 == CURLE_OK && o.2 == SASL_DONE <==>
            a.code == conn.finalCode && (v.state == SASL_FINAL || v.state == SASL_OAUTH2_RESP))
  {
    hide NextState, Compiled, Started, Toggled;
  }

  /** One reply moves a dialogue strictly forward, or ends it. It succeeds exactly on the server's final
      code where that code is awaited; it gives up a mechanism only from the cancelled state. */
  lemma ContinueLaw(v: Vars, conn: Conn, a: Reply)
    requires Going(conn, v)
    ensures var o := Continued(v, conn, a);
      && (Goes(o) ==> Going(conn, o.0) && Measure(conn, o.0) < Measure(conn, v))
      && (Goes(o) ==> Plan(conn, o.0) == if v.state == SASL_CANCEL then Plan(conn, v)[1..] else Plan(conn, v))
      && (o.1 == CURLE_OK && o.2 == SASL_DONE <==>
            a.code == conn.finalCode && (v.state == SASL_FINAL || v.state == SASL_OAUTH2_RESP))
      && (o.2 == SASL_DONE ==> o.0.state == SASL_STOP)
      && (o.2 == SASL_IDLE ==> v.state == SASL_CANCEL)
  {
    if v.state == SASL_CANCEL {
      CancelledLaw(v, conn, a);
    } else {
      CurrentIsUsable(v, conn);
      ghost var m := Plan(conn, v)[0];
      assert forall s :: Plan(conn, v.(state := s)) == Plan(conn, v);
      assert Measure(conn, v) == Measure(conn, v.(state := v.state));
      assert Owns(m, v.state) && v.authused == {m} && !(m == GSSAPI && v.mutualAuth);
      assert v.state == SASL_DIGESTMD5_RESP || v.state == SASL_OAUTH2_RESP ==> NextState(v) == SASL_FINAL;
      hide *;
      UncancelledCases(v, conn, a);
      if v.state != SASL_FINAL {
        NextIsOwned(v, conn, m);
      }
    }
  }

  /** The states in which the answer to a continuation is built from the server's challenge. */
  predicate Building(s: State) {
    s != SASL_STOP && s != SASL_FINAL && s != SASL_CANCEL && s != SASL_OAUTH2_RESP && s != SASL_DIGESTMD5_RESP
  }

  /** What becomes of a mechanism on a continuation: a challenge it cannot read cancels it and the
      dialogue goes on, an answer takes it to a later state of its own, any other error stops it. */
  lemma BuildingLaw(v: Vars, conn: Conn, a: Reply)
    requires Going(conn, v) && Building(v.state) && a.code == conn.contCode
    ensures var o := Continued(v, conn, a);
      && (a.message == CURLE_BAD_CONTENT_ENCODING ==> o == (v.(state := SASL_CANCEL), a.send, SASL_INPROGRESS))
      && (a.message == CURLE_OK ==>
            && o == (v.(state := o.0.state), if a.response then a.send else CURLE_OK, SASL_INPROGRESS)
            && Owns(Plan(conn, v)[0], o.0.state) && o.0.state != SASL_CANCEL && 0 < Rank(o.0.state) < Rank(v.state))
      && (a.message != CURLE_OK && a.message != CURLE_BAD_CONTENT_ENCODING ==>
            o == (v.(state := SASL_STOP), a.message, SASL_DONE))
  {
    CurrentIsUsable(v, conn);
    NextIsOwned(v, conn, Plan(conn, v)[0]);
    assert NextState(v) != SASL_CANCEL;
    hide Plan, NextState, Compiled, Started, Toggled, Owns;
  }

  /** An acknowledgement is sent for the two states that need no challenge, and a code that the state does
      not await ends the dialogue. */
  lemma OtherCodes(v: Vars, conn: Conn, a: Reply)
    requires Going(conn, v) && v.state != SASL_CANCEL
    ensures a.code == conn.contCode != conn.finalCode
            && (v.state == SASL_OAUTH2_RESP || v.state == SASL_DIGESTMD5_RESP) ==>
              Continued(v, conn, a) == (v.(state := SASL_FINAL), a.send, SASL_INPROGRESS)
    ensures a.code != conn.finalCode && (a.code != conn.contCode || v.state == SASL_FINAL) ==>
              Continued(v, conn, a) == (v.(state := SASL_STOP), CURLE_LOGIN_DENIED, SASL_DONE)
  {
    CurrentIsUsable(v, conn);
    if v.state != SASL_FINAL {
      NextIsOwned(v, conn, Plan(conn, v)[0]);
    }
    hide Plan, NextState, Compiled, Started, Toggled, Owns;
  }

  /** The retry: a challenge that cannot be read, and whatever the server says to the cancellation, put the
      next mechanism of the plan into use, or leave the dialogue idle when there is none. */
  lemma RetryLaw(v: Vars, conn: Conn, a: Reply, b: Reply)
    requires Going(conn, v) && Building(v.state)
    requires a.code == conn.contCode && a.message == CURLE_BAD_CONTENT_ENCODING && a.send == CURLE_OK
    requires b.opening.message == CURLE_OK && b.opening.send == CURLE_OK
    ensures var o1 := Continued(v, conn, a);
      var o2 := Continued(o1.0, conn, b);
      var plan := Plan(conn, v);
      && Goes(o1) && o1.0.authused == {plan[0]}
      && o2.1 == CURLE_OK && (Goes(o2) <==> 1 < |plan|)
      && (1 < |plan| ==> o2.0.authused == {plan[1]} && Plan(conn, o2.0) == plan[1..])
      && (|plan| == 1 ==> o2.2 == SASL_IDLE && o2.0.authused == {})
  {
    BuildingLaw(v, conn, a);
    var v1 := v.(state := SASL_CANCEL);
    assert Plan(conn, v1) == Plan(conn, v);
    CurrentIsUsable(v, conn);
    CancelledLaw(v1, conn, b);
    CancelLaw(v1, conn);
    hide Plan, Toggled;
  }

  /** Which states a mechanism starts in, without and with an initial response; the response saves exactly
      the first exchange, and the two digest mechanisms have none. */
  lemma FirstStates(v: Vars, m: Mech)
    requires v.state == FirstState(m) && v.authused == {m}
    ensures m != DIGEST_MD5 && m != CRAM_MD5 ==> NextState(v) == SecondState(m)
    ensures v.state == match m
      case EXTERNAL => SASL_EXTERNAL
      case GSSAPI => SASL_GSSAPI
      case DIGEST_MD5 => SASL_DIGESTMD5
      case CRAM_MD5 => SASL_CRAMMD5
      case NTLM => SASL_NTLM
      case LOGIN => SASL_LOGIN
      case PLAIN => SASL_PLAIN
      case _ => SASL_OAUTH2
  {
  }

  /** How many continuations a mechanism answers. */
  function Exchanges(m: Mech): nat {
    if m == PLAIN || m == EXTERNAL || m == CRAM_MD5 || m == XOAUTH2 then 1 else 2
  }

  predicate Good(conn: Conn, a: Reply) {
    a.code == conn.contCode != conn.finalCode && a.message == CURLE_OK && a.send == CURLE_OK
  }

  /** With a server and a network that do their part, a mechanism awaits the verdict after exactly that
      many answers. */
  lemma GoodDialogue(v: Vars, conn: Conn, a: Reply, b: Reply)
    requires Going(conn, v) && v.state == FirstState(Plan(conn, v)[0]) && Good(conn, a) && Good(conn, b)
    ensures var o1 := Continued(v, conn, a);
      && Goes(o1)
      && (Exchanges(Plan(conn, v)[0]) == 1 <==> o1.0.state == SASL_FINAL)
      && (Exchanges(Plan(conn, v)[0]) == 2 ==>
            Goes(Continued(o1.0, conn, b)) && Continued(o1.0, conn, b).0.state == SASL_FINAL)
  {
    CurrentIsUsable(v, conn);
    var m := Plan(conn, v)[0];
    NextIsOwned(v, conn, m);
    hide Plan, Started, Toggled;
  }

  /** The initial response is sent exactly when it is wanted, the mechanism has one, it could be built and
      it is short enough; when it is not wanted, only the sending matters. */
  lemma OpeningLaw(v: Vars, conn: Conn, forceIr: bool, a: Opening)
    requires Plan(conn, v) != []
    ensures var o := Started(v, conn, forceIr, a);
      var m := Plan(conn, v)[0];
      var wanted := (forceIr || conn.saslIr) && m != DIGEST_MD5 && m != CRAM_MD5;
      && o.0.authused == {m} && o.0.forceIr == forceIr
      && o.0.authmechs == v.authmechs && o.0.prefmech == v.prefmech
      && (m == GSSAPI ==> !o.0.mutualAuth) && (m != GSSAPI ==> o.0.mutualAuth == v.mutualAuth)
      && (Goes(o) <==> a.send == CURLE_OK && (wanted ==> a.message == CURLE_OK))
      && (Goes(o) && wanted && a.response && !a.tooLong ==> o.0.state == SecondState(m))
      && (Goes(o) && (!wanted || !a.response || a.tooLong) ==> o.0.state == FirstState(m))
      && (!Goes(o) ==> o.0.state == v.state && o.2 == SASL_IDLE)
      && (!Goes(o) ==> o.1 == if wanted && a.message != CURLE_OK then a.message else a.send)
  {
    hide Plan, FirstState, SecondState;
  }

  /** The number of replies a dialogue takes from v on. */
  function Replies(v: Vars, conn: Conn, replies: seq<Reply>): nat
    decreases |replies|
  {
    if replies == [] then 0
    else
      var o := Continued(v, conn, replies[0]);
      1 + if Goes(o) then Replies(o.0, conn, replies[1..]) else 0
  }

  /** The mechanisms started by cancellations from v on. */
  function Retried(v: Vars, conn: Conn, replies: seq<Reply>): seq<Mech>
    decreases |replies|
  {
    if replies == [] then []
    else
      var o := Continued(v, conn, replies[0]);
      var left := Plan(conn, Toggled(v));
      (if v.state == SASL_CANCEL && left != [] then [left[0]] else [])
      + if Goes(o) then Retried(o.0, conn, replies[1..]) else []
  }

  lemma {:induction false} DialogueIsShort(v: Vars, conn: Conn, replies: seq<Reply>)
    requires Going(conn, v)
    ensures Replies(v, conn, replies) <= Measure(conn, v)
    decreases |replies|
  {
    if replies != [] {
      ContinueLaw(v, conn, replies[0]);
      var o := Continued(v, conn, replies[0]);
      hide Continued, Plan;
      if Goes(o) {
        DialogueIsShort(o.0, conn, replies[1..]);
      }
    }
  }

  lemma {:induction false} RetriesFollowThePlan(v: Vars, conn: Conn, replies: seq<Reply>)
    requires Going(conn, v)
    ensures [Plan(conn, v)[0]] + Retried(v, conn, replies) <= Plan(conn, v)
    decreases |replies|
  {
    if replies != [] {
      ContinueLaw(v, conn, replies[0]);
      CancelLaw(v, conn);
      var o := Continued(v, conn, replies[0]);
      var plan := Plan(conn, v);
      var later := if Goes(o) then Retried(o.0, conn, replies[1..]) else [];
      if Goes(o) {
        RetriesFollowThePlan(o.0, conn, replies[1..]);
        assert Plan(conn, o.0) != [];
      }
      hide Continued, Plan, Toggled, Goes, Going;
      var next := if v.state == SASL_CANCEL && plan[1..] != [] then [plan[1]] else [];
      assert Retried(v, conn, replies) == next + later;
      Longer(plan, next, later, if v.state == SASL_CANCEL then plan[1..] else plan, Goes(o));
    }
  }

  lemma Longer(plan: seq<Mech>, next: seq<Mech>, later: seq<Mech>, left: seq<Mech>, goes: bool)
    requires plan != []
    requires (left == plan && next == []) || (left == plan[1..] && next == left[..if left == [] then 0 else 1])
    requires if goes then left != [] && [left[0]] + later <= left else later == []
    ensures [plan[0]] + (next + later) <= plan
  {
    if goes && left == plan[1..] && next != [] {
      assert next + later == [left[0]] + later;
      assert plan == [plan[0]] + left;
    }
  }

  /** Whatever the server replies, a dialogue takes at most three replies for each usable mechanism, and
      the mechanisms it tries are the best ones, best first and none twice. */
  lemma EveryDialogue(v: Vars, conn: Conn, forceIr: bool, a: Opening, replies: seq<Reply>)
    requires Goes(Started(v, conn, forceIr, a))
    ensures var v1 := Started(v, conn, forceIr, a).0;
      var plan := Plan(conn, v);
      && plan != [] && v1.authused == {plan[0]}
      && Replies(v1, conn, replies) <= 3 * |plan| <= 27
      && [plan[0]] + Retried(v1, conn, replies) <= plan
      && Distinct(plan)
  {
    StartLaw(v, conn, forceIr, a);
    var v1 := Started(v, conn, forceIr, a).0;
    DialogueIsShort(v1, conn, replies);
    RetriesFollowThePlan(v1, conn, replies);
    PlanLaws(conn, v);
  }

  // ---------- The structure in memory ----------

  lemma {:induction false} FilterFirst(list: seq<Mech>, keep: set<Mech>, i: nat)
    requires i < |list| && list[i] in keep && forall j :: 0 <= j < i ==> list[j] !in keep
    ensures Filter(list, keep) != [] && Filter(list, keep)[0] == list[i]
  {
    if i > 0 {
      assert list[0] !in keep;
      FilterFirst(list[1..], keep, i - 1);
    }
  }

  /** The mechanism at position i of the order is chosen when nothing before it is possible. */
  lemma PlanStarts(conn: Conn, v: Vars, i: nat)
    requires i < |Order()| && Order()[i] in Enabled(conn, v.authmechs, v.prefmech)
    requires forall j :: 0 <= j < i ==> Order()[j] !in Enabled(conn, v.authmechs, v.prefmech)
    ensures Plan(conn, v) != [] && Plan(conn, v)[0] == Order()[i]
  {
    hide Filter, Order, Enabled;
    FilterFirst(Order(), Enabled(conn, v.authmechs, v.prefmech), i);
  }

  lemma {:induction false} FilterNone(list: seq<Mech>, keep: set<Mech>)
    requires forall j :: 0 <= j < |list| ==> list[j] !in keep
    ensures Filter(list, keep) == []
  {
    if list != [] {
      assert list[0] !in keep;
      FilterNone(list[1..], keep);
    }
  }

  lemma NoPlan(conn: Conn, v: Vars)
    requires forall j :: 0 <= j < |Order()| ==> Order()[j] !in Enabled(conn, v.authmechs, v.prefmech)
    ensures Plan(conn, v) == []
  {
    hide Filter, Order, Enabled;
    FilterNone(Order(), Enabled(conn, v.authmechs, v.prefmech));
  }

  lemma EnabledIs(conn: Conn, v: Vars)
    ensures |Order()| == 9
    ensures Order()[0] == EXTERNAL && Order()[1] == GSSAPI && Order()[2] == DIGEST_MD5 && Order()[3] == CRAM_MD5
    ensures Order()[4] == NTLM && Order()[5] == OAUTHBEARER && Order()[6] == XOAUTH2 && Order()[7] == LOGIN
    ensures Order()[8] == PLAIN
    ensures var e := Enabled(conn, v.authmechs, v.prefmech);
      var both := v.authmechs * v.prefmech;
      && (EXTERNAL in e <==> EXTERNAL in both && conn.passwdEmpty)
      && (GSSAPI in e <==> conn.userPasswd && conn.useKerberos5 && GSSAPI in both && conn.gssapiUsable)
      && (DIGEST_MD5 in e <==> conn.userPasswd && conn.useCrypto && DIGEST_MD5 in both && conn.digestSupported)
      && (CRAM_MD5 in e <==> conn.userPasswd && conn.useCrypto && CRAM_MD5 in both)
      && (NTLM in e <==> conn.userPasswd && conn.useNtlm && NTLM in both && conn.ntlmSupported)
      && (OAUTHBEARER in e <==> conn.userPasswd && OAUTHBEARER in both && conn.oauthBearer)
      && (XOAUTH2 in e <==> conn.userPasswd && XOAUTH2 in both && conn.oauthBearer)
      && (LOGIN in e <==> conn.userPasswd && LOGIN in both)
      && (PLAIN in e <==> conn.userPasswd && PLAIN in both)
  {
  }

  class SASL {
    var state: State
    var authmechs: set<Mech>
    var prefmech: set<Mech>
    var authused: set<Mech>
    var mutualAuth: bool
    var forceIr: bool

    ghost function Now(): Vars
      reads this
    {
      Vars(state, authmechs, prefmech, authused, mutualAuth, forceIr)
    }

    /** The result of choosing a mechanism in state v. */
    ghost predicate Chosen(conn: Conn, v: Vars, mech: Option<Mech>, state1: State, state2: State, initial: bool)
      reads this
    {
      var plan := Plan(conn, v);
      if plan == [] then mech == None && authused == {} && mutualAuth == v.mutualAuth
      else
        && mech == Some(plan[0]) && authused == {plan[0]}
        && mutualAuth == (v.mutualAuth && plan[0] != GSSAPI)
        && state1 == FirstState(plan[0]) && state2 == SecondState(plan[0])
        && initial == (plan[0] != DIGEST_MD5 && plan[0] != CRAM_MD5)
    }

    /** The mechanism by decreasing order of security, with its states and whether it can send an
        initial response. */
    method Choose(conn: Conn) returns (mech: Option<Mech>, state1: State, state2: State, initial: bool)
      modifies `authused, `mutualAuth
      ensures Chosen(conn, old(Now()), mech, state1, state2, initial)
    {
      ghost var v := Now();
      EnabledIs(conn, v);
      var enabledmechs := authmechs * prefmech;
      mech, state1, state2, initial := None, SASL_STOP, SASL_FINAL, true;
      authused := {};
      hide Plan, Enabled, Order, Usable;
      if EXTERNAL in enabledmechs && conn.passwdEmpty {
        mech, state1, authused := Some(EXTERNAL), SASL_EXTERNAL, {EXTERNAL};
        PlanStarts(conn, v, 0);
      } else if conn.userPasswd {
        mech, state1, state2, initial := ChooseByPassword(conn);
      } else {
        NoPlan(conn, v);
      }
    }

    method ChooseByPassword(conn: Conn) returns (mech: Option<Mech>, state1: State, state2: State, initial: bool)
      requires conn.userPasswd && authused == {}
      requires Order()[0] !in Enabled(conn, authmechs, prefmech)
      modifies `authused, `mutualAuth
      ensures Chosen(conn, old(Now()), mech, state1, state2, initial)
    {
      ghost var v := Now();
      EnabledIs(conn, v);
      var enabledmechs := authmechs * prefmech;
      mech, state1, state2, initial := None, SASL_STOP, SASL_FINAL, true;
      hide Plan, Enabled, Order, Usable;
      if conn.useKerberos5 && GSSAPI in enabledmechs && conn.gssapiUsable {
        mutualAuth := false;
        mech, state1, state2, authused := Some(GSSAPI), SASL_GSSAPI, SASL_GSSAPI_TOKEN, {GSSAPI};
        PlanStarts(conn, v, 1);
      } else if conn.useCrypto && DIGEST_MD5 in enabledmechs && conn.digestSupported {
        mech, state1, authused, initial := Some(DIGEST_MD5), SASL_DIGESTMD5, {DIGEST_MD5}, false;
        PlanStarts(conn, v, 2);
      } else if conn.useCrypto && CRAM_MD5 in enabledmechs {
        mech, state1, authused, initial := Some(CRAM_MD5), SASL_CRAMMD5, {CRAM_MD5}, false;
        PlanStarts(conn, v, 3);
      } else {
        mech, state1, state2 := ChooseLater(conn);
      }
    }

    method ChooseLater(conn: Conn) returns (mech: Option<Mech>, state1: State, state2: State)
      requires conn.userPasswd && authused == {}
      requires forall j :: 0 <= j < 4 ==> Order()[j] !in Enabled(conn, authmechs, prefmech)
      modifies `authused
      ensures Chosen(conn, old(Now()), mech, state1, state2, true)
    {
      ghost var v := Now();
      EnabledIs(conn, v);
      var enabledmechs := authmechs * prefmech;
      mech, state1, state2 := None, SASL_STOP, SASL_FINAL;
      hide Plan, Enabled, Order, Usable;
      if conn.useNtlm && NTLM in enabledmechs && conn.ntlmSupported {
        mech, state1, state2, authused := Some(NTLM), SASL_NTLM, SASL_NTLM_TYPE2MSG, {NTLM};
        PlanStarts(conn, v, 4);
      } else if OAUTHBEARER in enabledmechs && conn.oauthBearer {
        mech, state1, state2, authused := Some(OAUTHBEARER), SASL_OAUTH2, SASL_OAUTH2_RESP, {OAUTHBEARER};
        PlanStarts(conn, v, 5);
      } else if XOAUTH2 in enabledmechs && conn.oauthBearer {
        mech, state1, authused := Some(XOAUTH2), SASL_OAUTH2, {XOAUTH2};
        PlanStarts(conn, v, 6);
      } else if LOGIN in enabledmechs {
        mech, state1, state2, authused := Some(LOGIN), SASL_LOGIN, SASL_LOGIN_PASSWD, {LOGIN};
        PlanStarts(conn, v, 7);
      } else if PLAIN in enabledmechs {
        mech, state1, authused := Some(PLAIN), SASL_PLAIN, {PLAIN};
        PlanStarts(conn, v, 8);
      } else {
        NoPlan(conn, v);
      }
    }

    method Start(conn: Conn, force: bool, a: Opening) returns (result: CURLcode, progress: Progress)
      modifies this
      ensures (Now(), result, progress) == Started(old(Now()), conn, force, a)
    {
      hide Plan, FirstState, SecondState;
      ghost var v := Now();
      result, progress := CURLE_OK, SASL_IDLE;
      var mech, state1, state2, initial := Choose(conn);
      forceIr := force;
      var resp := false;
      if mech.Some? && initial && (force || conn.saslIr) {
        result := a.message;
        resp := result == CURLE_OK && a.response;
      }
      if result == CURLE_OK && mech.Some? {
        if resp && a.tooLong {
          resp := false;
        }
        result := a.send;
        if result == CURLE_OK {
          progress := SASL_INPROGRESS;
          state := if resp then state2 else state1;
        }
      }
    }

    method Continue(conn: Conn, a: Reply) returns (result: CURLcode, progress: Progress)
      modifies this
      ensures (Now(), result, progress) == Continued(old(Now()), conn, a)
    {
      hide Started;
      ghost var v := Now();
      result, progress := CURLE_OK, SASL_INPROGRESS;
      var newstate, resp := SASL_FINAL, false;
      if state == SASL_FINAL {
        if a.code != conn.finalCode {
          result := CURLE_LOGIN_DENIED;
        }
        progress, state := SASL_DONE, SASL_STOP;
        return;
      }
      if state != SASL_CANCEL && state != SASL_OAUTH2_RESP && a.code != conn.contCode {
        progress, state := SASL_DONE, SASL_STOP;
        result := CURLE_LOGIN_DENIED;
        return;
      }
      match state {
      case SASL_STOP =>
        progress := SASL_DONE;
        return;
      case SASL_OAUTH2_RESP =>
        if a.code == conn.finalCode {
          progress, state := SASL_DONE, SASL_STOP;
          return;
        } else if a.code == conn.contCode {
          resp := true;
        } else {
          progress, state := SASL_DONE, SASL_STOP;
          result := CURLE_LOGIN_DENIED;
          return;
        }
      case SASL_CANCEL =>
        authmechs := (authmechs - authused) + (authused - authmechs);
        assert Now() == Toggled(v);
        result, progress := Start(conn, forceIr, a.opening);
        newstate := state;
      case _ =>
        result, newstate, resp := Respond(conn, a);
      }
      assert Continued(v, conn, a) == Settled(Now(), newstate, result, resp, a.send, progress);
      hide Continued;
      result, progress := Settle(newstate, result, resp, a.send, progress);
    }

    /** Sends what is to be sent and moves to the new state, to cancelled or to stopped. */
    method Settle(newstate: State, before: CURLcode, resp: bool, send: CURLcode, p: Progress)
        returns (result: CURLcode, progress: Progress)
      modifies `state
      ensures (Now(), result, progress) == Settled(old(Now()), newstate, before, resp, send, p)
    {
      result, progress, state := before, p, newstate;
      match result {
      case CURLE_BAD_CONTENT_ENCODING =>
        result := send;
        state := SASL_CANCEL;
      case CURLE_OK =>
        if resp {
          result := send;
        }
      case _ =>
        state := SASL_STOP;
        progress := SASL_DONE;
      }
    }

    /** The answer in the states that react to a continuation in one way. */
    method Respond(conn: Conn, a: Reply) returns (result: CURLcode, newstate: State, resp: bool)
      requires state != SASL_FINAL && state != SASL_STOP && state != SASL_OAUTH2_RESP && state != SASL_CANCEL
      ensures if !Compiled(conn, state) then result == CURLE_UNSUPPORTED_PROTOCOL
              else if state == SASL_DIGESTMD5_RESP then result == CURLE_OK && resp && newstate == SASL_FINAL
              else result == a.message && newstate == NextState(Now()) && resp == (result == CURLE_OK && a.response)
    {
      newstate, result, resp := SASL_FINAL, a.message, a.message == CURLE_OK && a.response;
      match state
      case SASL_PLAIN =>
      case SASL_LOGIN => newstate := SASL_LOGIN_PASSWD;
      case SASL_LOGIN_PASSWD =>
      case SASL_EXTERNAL =>
      case SASL_CRAMMD5 =>
        if !conn.useCrypto {
          result := CURLE_UNSUPPORTED_PROTOCOL;
        }
      case SASL_DIGESTMD5 =>
        newstate := SASL_DIGESTMD5_RESP;
        if !conn.useCrypto {
          result := CURLE_UNSUPPORTED_PROTOCOL;
        }
      case SASL_DIGESTMD5_RESP =>
        result, resp := if conn.useCrypto then CURLE_OK else CURLE_UNSUPPORTED_PROTOCOL, true;
      case SASL_NTLM =>
        newstate := SASL_NTLM_TYPE2MSG;
        if !conn.useNtlm {
          result := CURLE_UNSUPPORTED_PROTOCOL;
        }
      case SASL_NTLM_TYPE2MSG =>
        if !conn.useNtlm {
          result := CURLE_UNSUPPORTED_PROTOCOL;
        }
      case SASL_GSSAPI =>
        newstate := SASL_GSSAPI_TOKEN;
        if !conn.useKerberos5 {
          result := CURLE_UNSUPPORTED_PROTOCOL;
        }
      case SASL_GSSAPI_TOKEN =>
        if mutualAuth {
          newstate := SASL_GSSAPI_NO_DATA;
        }
        if !conn.useKerberos5 {
          result := CURLE_UNSUPPORTED_PROTOCOL;
        }
      case SASL_GSSAPI_NO_DATA =>
        if !conn.useKerberos5 {
          result := CURLE_UNSUPPORTED_PROTOCOL;
        }
      case SASL_OAUTH2 =>
        if authused == {OAUTHBEARER} {
          newstate := SASL_OAUTH2_RESP;
        }
    }
  }
}
