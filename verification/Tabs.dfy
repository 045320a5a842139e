/** Any number of tabs of one browser keeping one session fresh (web/src/api/client.ts): one flight per
    tab, one Web Lock across tabs, one cookie jar, and the server's reuse detection behind them. Every
    await is a separate step, so the interleavings of the tabs are all there. */
module Tabs {
  import opened Common
  import opened Sessions

  /** How the answer to a refresh leaves the jar. */
  datatype Reply = SetCookies(token: Token) | ClearCookies | KeepCookies

  /** Where a tab stands in refreshSession and doRefresh. */
  datatype Tab = Idle | Waiting(force: bool) | Probing | Ready | Sent(cookie: Option<Token>) | Answered(reply: Reply)

  /** arriving holds the tokens of logins answered by the server whose cookies have not landed yet. */
  datatype World = World(server: State, jar: Option<Token>, lock: Option<nat>, tabs: seq<Tab>, arriving: set<Token>)

  datatype Move =
    | Asks(tab: nat, force: bool)
    | Acquires(tab: nat)
    | Probes(tab: nat, ok: bool)
    | Sends(tab: nat)
    | Serves(tab: nat, active: bool)
    | Receives(tab: nat)
    | LogsIn(user: UserId)
    | LoginLands(token: Token)
    | SignsOut
    | Elsewhere(act: Action)
    | LosesReply(tab: nat)
    | SkipsLock(tab: nat)

  predicate InCritical(tab: Tab) {
    !tab.Idle? && !tab.Waiting?
  }

  function WithTab(w: World, t: nat, tab: Tab): World
    requires t < |w.tabs|
  {
    w.(tabs := w.tabs[t := tab])
  }

  function Release(w: World, t: nat): World
    requires t < |w.tabs|
  {
    WithTab(w, t, Idle).(lock := None)
  }

  /** The refresh handler: without a cookie nothing is looked up, and only an invalid session clears. */
  function Served(w: World, t: nat, cookie: Option<Token>, active: bool): World
    requires t < |w.tabs|
  {
    match cookie
    case None => WithTab(w, t, Answered(KeepCookies))
    case Some(token) =>
      var step := Refreshed(w.server.rows, token, active, w.server.now);
      var reply := match step.out
        case Rotated(next) => SetCookies(next)
        case Invalid => ClearCookies
        case Raced => KeepCookies;
      WithTab(w, t, Answered(reply)).(server := w.server.(rows := step.rows))
  }

  function Received(w: World, t: nat, reply: Reply): World
    requires t < |w.tabs|
  {
    Release(w, t).(jar := match reply
      case SetCookies(token) => Some(token)
      case ClearCookies => None
      case KeepCookies => w.jar)
  }

  function FamilyOf(w: World, token: Token): Option<Family> {
    if token < |w.server.rows| then Some(w.server.rows[token].family) else None
  }

  predicate Holds(w: World, tab: Tab, family: Family) {
    match tab
    case Sent(cookie) => cookie.Some? && FamilyOf(w, cookie.value) == Some(family)
    case Answered(reply) => reply.SetCookies? && FamilyOf(w, reply.token) == Some(family)
    case _ => false
  }

  /** A family this browser has a token of: in the jar, on the wire, or about to land. */
  predicate Mine(w: World, family: Family) {
    || (w.jar.Some? && FamilyOf(w, w.jar.value) == Some(family))
    || family in w.arriving
    || exists t | 0 <= t < |w.tabs| :: Holds(w, w.tabs[t], family)
  }

  /** Other devices act on their own families; an administrator may revoke anyone. */
  predicate Foreign(w: World, act: Action) {
    (act.Refreshes? || act.LogsOut?) && act.token < |w.server.rows| ==> !Mine(w, w.server.rows[act.token].family)
  }

  function Next(w: World, move: Move): World {
    match move
    case Asks(t, force) => if t < |w.tabs| && w.tabs[t].Idle? then WithTab(w, t, Waiting(force)) else w
    case Acquires(t) =>
      if t < |w.tabs| && w.tabs[t].Waiting? && w.lock.None?
      then WithTab(w, t, if w.tabs[t].force then Ready else Probing).(lock := Some(t)) else w
    case Probes(t, ok) =>
      if t < |w.tabs| && w.tabs[t].Probing? then (if ok then Release(w, t) else WithTab(w, t, Ready)) else w
    case Sends(t) => if t < |w.tabs| && w.tabs[t].Ready? then WithTab(w, t, Sent(w.jar)) else w
    case Serves(t, active) =>
      if t < |w.tabs| && w.tabs[t].Sent? then Served(w, t, w.tabs[t].cookie, active) else w
    case Receives(t) => if t < |w.tabs| && w.tabs[t].Answered? then Received(w, t, w.tabs[t].reply) else w
    case LogsIn(user) =>
      w.(server := Apply(w.server, Logs(user)), arriving := w.arriving + {|w.server.rows|})
    case LoginLands(token) =>
      if token in w.arriving then w.(jar := Some(token), arriving := w.arriving - {token}) else w
    case SignsOut =>
      w.(server := if w.jar.Some? then Apply(w.server, LogsOut(w.jar.value)) else w.server, jar := None)
    case Elsewhere(act) => if Foreign(w, act) then w.(server := Apply(w.server, act)) else w
    case LosesReply(t) => if t < |w.tabs| && w.tabs[t].Answered? then Release(w, t) else w
    case SkipsLock(t) => if t < |w.tabs| && w.tabs[t].Waiting? then WithTab(w, t, Ready) else w
  }

  function Play(w: World, moves: seq<Move>): World {
    if moves == [] then w else Next(Play(w, moves[..|moves| - 1]), moves[|moves| - 1])
  }

  function Fresh(now: Time, tabs: nat): World {
    World(State(now, []), None, None, seq(tabs, _ => Idle), {})
  }

  /** The jar holds nothing, or a token that has not been used. */
  predicate JarFresh(w: World) {
    w.jar.Some? ==> Unused(w, w.jar.value)
  }

  /** Refreshing only under the lock, and losing no reply whose cookie the jar is waiting for. */
  predicate Guarded(w: World, move: Move) {
    && !move.SkipsLock?
    && (move.LosesReply? && move.tab < |w.tabs| && w.tabs[move.tab].Answered? ==> JarFresh(w))
  }

  predicate GuardedRun(w: World, moves: seq<Move>) {
    moves == [] ||
    (GuardedRun(w, moves[..|moves| - 1]) && Guarded(Play(w, moves[..|moves| - 1]), moves[|moves| - 1]))
  }

  // ----- The invariant -----

  predicate Unused(w: World, token: Token) {
    token < |w.server.rows| && w.server.rows[token].usedAt.None?
  }

  /** An unused token of this browser, not of a login still landing. */
  predicate Good(w: World, token: Token) {
    Unused(w, token) && w.server.rows[token].family !in w.arriving
  }

  /** The jar's token has just been rotated and its successor is on the way back. */
  predicate Mending(w: World, family: Family) {
    && w.lock.Some? && w.lock.value < |w.tabs|
    && var tab := w.tabs[w.lock.value];
       tab.Answered? && tab.reply.SetCookies? && FamilyOf(w, tab.reply.token) == Some(family)
  }

  predicate TabOk(w: World, t: nat)
    requires t < |w.tabs|
  {
    && (InCritical(w.tabs[t]) ==> w.lock == Some(t))
    && (w.tabs[t].Sent? && w.tabs[t].cookie.Some? ==> Good(w, w.tabs[t].cookie.value))
    && (w.tabs[t].Answered? && w.tabs[t].reply.SetCookies? ==> Good(w, w.tabs[t].reply.token))
  }

  predicate JarOk(w: World) {
    w.jar.Some? ==>
      && w.jar.value < |w.server.rows| && w.server.rows[w.jar.value].family !in w.arriving
      && (Unused(w, w.jar.value) || Mending(w, w.server.rows[w.jar.value].family))
  }

  predicate ArrivingOk(w: World) {
    forall a | a in w.arriving :: Unused(w, a) && w.server.rows[a].family == a
  }

  predicate Inv(w: World) {
    && FamiliesOk(w.server.rows)
    && (forall t | 0 <= t < |w.tabs| :: TabOk(w, t))
    && JarOk(w)
    && ArrivingOk(w)
  }

  lemma TwoUnusedAreOne(rows: seq<Session>, i: nat, j: nat)
    requires FamiliesOk(rows) && i < |rows| && j < |rows| && SameFamily(rows, i, j)
    requires rows[i].usedAt.None? && rows[j].usedAt.None?
    ensures i == j
  {
    assert SameFamily(rows, j, i);
    assert !Succeeded(rows, i) && !Succeeded(rows, j);
  }

  /** Server steps that leave the tokens of some families as they were, revocation aside. */
  predicate Spares(before: seq<Session>, after: seq<Session>, i: nat) {
    i < |before| <= |after| && after[i].family == before[i].family && after[i].usedAt == before[i].usedAt
  }

  lemma ForeignSpares(w: World, act: Action, token: Token)
    requires FamiliesOk(w.server.rows) && Foreign(w, act) && token < |w.server.rows|
    requires Mine(w, w.server.rows[token].family)
    ensures Spares(w.server.rows, Apply(w.server, act).rows, token)
  {
  }

  lemma RevokesSpare(s: State, act: Action, token: Token)
    requires token < |s.rows| && !act.Refreshes?
    ensures Spares(s.rows, Apply(s, act).rows, token)
  {
  }

  /** The invariant through a server step that spares everything this browser holds. */
  lemma ServerStepKeeps(w: World, act: Action)
    requires Inv(w)
    requires forall i | 0 <= i < |w.server.rows| && Mine(w, w.server.rows[i].family) ::
               Spares(w.server.rows, Apply(w.server, act).rows, i)
    ensures Inv(w.(server := Apply(w.server, act)))
  {
    var w' := w.(server := Apply(w.server, act));
    ApplyKeeps(w.server, act);
    forall t | 0 <= t < |w.tabs|
      ensures TabOk(w', t)
    {
      assert TabOk(w, t);
      if w.tabs[t].Sent? && w.tabs[t].cookie.Some? {
        assert Holds(w, w.tabs[t], w.server.rows[w.tabs[t].cookie.value].family);
      }
      if w.tabs[t].Answered? && w.tabs[t].reply.SetCookies? {
        assert Holds(w, w.tabs[t], w.server.rows[w.tabs[t].reply.token].family);
      }
    }
    if w.jar.Some? {
      assert Mine(w, w.server.rows[w.jar.value].family);
      if Mending(w, w.server.rows[w.jar.value].family) {
        assert TabOk(w, w.lock.value);
        assert Mine(w, w.server.rows[w.tabs[w.lock.value].reply.token].family);
      }
    }
    forall a | a in w.arriving
      ensures Unused(w', a) && w'.server.rows[a].family == a
    {
      assert Mine(w, w.server.rows[a].family);
    }
  }

  lemma ElsewhereKeeps(w: World, act: Action)
    requires Inv(w) && Foreign(w, act)
    ensures Inv(w.(server := Apply(w.server, act)))
  {
    forall i | 0 <= i < |w.server.rows| && Mine(w, w.server.rows[i].family)
      ensures Spares(w.server.rows, Apply(w.server, act).rows, i)
    {
      ForeignSpares(w, act, i);
    }
    ServerStepKeeps(w, act);
  }

  lemma SignsOutKeeps(w: World)
    requires Inv(w)
    ensures Inv(Next(w, SignsOut))
  {
    if w.jar.Some? {
      var act := LogsOut(w.jar.value);
      forall i | 0 <= i < |w.server.rows|
        ensures Spares(w.server.rows, Apply(w.server, act).rows, i)
      {
        RevokesSpare(w.server, act, i);
      }
      ServerStepKeeps(w, act);
      var w' := w.(server := Apply(w.server, act));
      forall t | 0 <= t < |w.tabs|
        ensures TabOk(w'.(jar := None), t)
      {
        assert TabOk(w', t);
      }
    } else {
      assert Next(w, SignsOut) == w;
    }
  }

  lemma LogsInKeeps(w: World, user: UserId)
    requires Inv(w)
    ensures Inv(Next(w, LogsIn(user)))
  {
    var w' := Next(w, LogsIn(user));
    var n := |w.server.rows|;
    ApplyKeeps(w.server, Logs(user));
    assert forall i | 0 <= i < n :: w.server.rows[i].family <= i && w'.server.rows[i] == w.server.rows[i];
    forall t | 0 <= t < |w.tabs|
      ensures TabOk(w', t)
    {
      assert TabOk(w, t);
    }
    if w.jar.Some? && Mending(w, w.server.rows[w.jar.value].family) {
      assert TabOk(w, w.lock.value);
    }
  }

  lemma LoginLandsKeeps(w: World, token: Token)
    requires Inv(w)
    ensures Inv(Next(w, LoginLands(token)))
  {
    var w' := Next(w, LoginLands(token));
    forall t | 0 <= t < |w.tabs|
      ensures TabOk(w', t)
    {
      assert TabOk(w, t);
    }
  }

  /** The rotation: the token sent was its family's head, so the jar holds either that very token, now
      mending, or a token of another family. */
  lemma RotationKeepsJar(w: World, t: nat, token: Token, active: bool)
    requires Inv(w) && t < |w.tabs| && w.tabs[t] == Sent(Some(token))
    ensures JarOk(Served(w, t, Some(token), active))
  {
    assert TabOk(w, t);
    if w.jar.Some? && SameFamily(w.server.rows, w.jar.value, token) && Unused(w, w.jar.value) {
      TwoUnusedAreOne(w.server.rows, w.jar.value, token);
    }
  }

  lemma RotationKeepsRest(w: World, t: nat, token: Token, active: bool)
    requires Inv(w) && t < |w.tabs| && w.tabs[t] == Sent(Some(token))
    ensures var w' := Served(w, t, Some(token), active);
            ArrivingOk(w') && forall u | 0 <= u < |w.tabs| :: TabOk(w', u)
  {
    var w' := Served(w, t, Some(token), active);
    assert TabOk(w, t);
    forall u | 0 <= u < |w.tabs|
      ensures TabOk(w', u)
    {
      assert TabOk(w, u);
    }
    forall a | a in w.arriving
      ensures Unused(w', a) && w'.server.rows[a].family == a
    {
      assert Unused(w, a) && w.server.rows[a].family == a;
    }
  }

  lemma ServesKeeps(w: World, t: nat, active: bool)
    requires Inv(w) && t < |w.tabs| && w.tabs[t].Sent?
    ensures Inv(Next(w, Serves(t, active)))
  {
    if w.tabs[t].cookie.Some? {
      var token := w.tabs[t].cookie.value;
      ApplyKeeps(w.server, Refreshes(token, active));
      RotationKeepsJar(w, t, token, active);
      RotationKeepsRest(w, t, token, active);
    } else {
      assert TabOk(w, t);
      forall u | 0 <= u < |w.tabs|
        ensures TabOk(Next(w, Serves(t, active)), u)
      {
        assert TabOk(w, u);
      }
    }
  }

  lemma ReceivesKeeps(w: World, t: nat)
    requires Inv(w) && t < |w.tabs| && w.tabs[t].Answered?
    ensures Inv(Received(w, t, w.tabs[t].reply))
  {
    assert TabOk(w, t);
    forall u | 0 <= u < |w.tabs|
      ensures TabOk(Received(w, t, w.tabs[t].reply), u)
    {
      assert TabOk(w, u);
    }
  }

  /** Losing an answer keeps the invariant exactly when the jar was not waiting for its cookie. */
  lemma LossKeepsInvIff(w: World, t: nat)
    requires Inv(w) && t < |w.tabs| && w.tabs[t].Answered?
    ensures Inv(Next(w, LosesReply(t))) <==> JarFresh(w)
  {
    var w' := Next(w, LosesReply(t));
    assert TabOk(w, t);
    forall u | 0 <= u < |w.tabs|
      ensures TabOk(w', u)
    {
      assert TabOk(w, u);
    }
  }

  /** An answer without a cookie can always be lost. */
  lemma OnlyCookiesAreMissed(w: World, t: nat)
    requires Inv(w) && t < |w.tabs| && w.tabs[t].Answered? && !w.tabs[t].reply.SetCookies?
    ensures JarFresh(w)
  {
    assert TabOk(w, t);
  }

  lemma TabStepKeeps(w: World, move: Move)
    requires Inv(w)
    requires move.Asks? || move.Acquires? || move.Probes? || move.Sends?
    ensures Inv(Next(w, move))
  {
    if move.tab < |w.tabs| {
      assert TabOk(w, move.tab);
    }
    forall t | 0 <= t < |w.tabs|
      ensures TabOk(Next(w, move), t)
    {
      assert TabOk(w, t);
    }
  }

  lemma MoveKeeps(w: World, move: Move)
    requires Inv(w) && Guarded(w, move)
    ensures Inv(Next(w, move))
  {
    match move
    case Serves(t, active) =>
      if t < |w.tabs| && w.tabs[t].Sent? {
        ServesKeeps(w, t, active);
      }
    case LogsIn(user) => LogsInKeeps(w, user);
    case LoginLands(token) => LoginLandsKeeps(w, token);
    case SignsOut => SignsOutKeeps(w);
    case Elsewhere(act) =>
      if Foreign(w, act) {
        ElsewhereKeeps(w, act);
      }
    case Receives(t) =>
      if t < |w.tabs| && w.tabs[t].Answered? {
        ReceivesKeeps(w, t);
      }
    case LosesReply(t) =>
      if t < |w.tabs| && w.tabs[t].Answered? {
        LossKeepsInvIff(w, t);
      }
    case _ => TabStepKeeps(w, move);
  }

  lemma {:induction false} InvAlways(now: Time, tabs: nat, moves: seq<Move>)
    requires GuardedRun(Fresh(now, tabs), moves)
    ensures Inv(Play(Fresh(now, tabs), moves))
  {
    if moves != [] {
      InvAlways(now, tabs, moves[..|moves| - 1]);
      MoveKeeps(Play(Fresh(now, tabs), moves[..|moves| - 1]), moves[|moves| - 1]);
    }
  }

  // ----- The result -----

  predicate Harmless(before: seq<Session>, step: Step) {
    && step.out != Raced && |before| <= |step.rows|
    && forall i | 0 <= i < |before| :: step.rows[i].revokedAt == before[i].revokedAt
  }

  lemma UnusedIsHead(rows: seq<Session>, token: Token)
    requires FamiliesOk(rows) && token < |rows| && rows[token].usedAt.None?
    ensures Head(rows, rows[token].family) == Some(token)
  {
    HeadIsLast(rows, rows[token].family);
    assert !Succeeded(rows, token);
    var h := Head(rows, rows[token].family).value;
    assert SameFamily(rows, token, h);
  }

  lemma UnusedIsHarmless(rows: seq<Session>, token: Token, active: bool, now: Time)
    requires FamiliesOk(rows) && token < |rows| && rows[token].usedAt.None?
    ensures Harmless(rows, Refreshed(rows, token, active, now))
  {
    forall i | 0 <= i < |rows| && rows[i].family == rows[token].family
      ensures rows[i].revokedAt == rows[token].revokedAt
    {
      assert SameFamily(rows, i, token);
    }
  }

  /** Under the lock and with no awaited cookie lost, whatever the tabs, logins, sign-outs and other devices do:
      the token a tab presents is its family's unused head, the answer is never that it raced, and
      serving it revokes nothing. */
  lemma ReuseDetectionNeverFires(now: Time, tabs: nat, moves: seq<Move>, t: nat, active: bool)
    requires GuardedRun(Fresh(now, tabs), moves)
    ensures var w := Play(Fresh(now, tabs), moves);
            t < |w.tabs| && w.tabs[t].Sent? && w.tabs[t].cookie.Some? ==>
              var token := w.tabs[t].cookie.value;
              && Unused(w, token) && Head(w.server.rows, w.server.rows[token].family) == Some(token)
              && Harmless(w.server.rows, Refreshed(w.server.rows, token, active, w.server.now))
  {
    var w := Play(Fresh(now, tabs), moves);
    InvAlways(now, tabs, moves);
    if t < |w.tabs| && w.tabs[t].Sent? && w.tabs[t].cookie.Some? {
      assert TabOk(w, t);
      UnusedIsHead(w.server.rows, w.tabs[t].cookie.value);
      UnusedIsHarmless(w.server.rows, w.tabs[t].cookie.value, active, w.server.now);
    }
  }

  /** At most one tab of the browser is ever between the lock and the reply. */
  lemma OneFlightAtATime(now: Time, tabs: nat, moves: seq<Move>, t: nat, u: nat)
    requires GuardedRun(Fresh(now, tabs), moves)
    ensures var w := Play(Fresh(now, tabs), moves);
            t < |w.tabs| && u < |w.tabs| && InCritical(w.tabs[t]) && InCritical(w.tabs[u]) ==> t == u
  {
    var w := Play(Fresh(now, tabs), moves);
    InvAlways(now, tabs, moves);
    if t < |w.tabs| && u < |w.tabs| {
      assert TabOk(w, t) && TabOk(w, u);
    }
  }
}
