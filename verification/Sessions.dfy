/** Refresh-token families (server/internal/authusers/service.go): rotation on every refresh, a grace for
    tabs that race, and revocation of the whole family when a used token comes back later. */
module Sessions {
  import opened Common

  /** Microseconds. */
  type Time = int
  type UserId = nat
  /** An opaque refresh token, known by the row it hashes to; a number past the rows is unknown. */
  type Token = nat
  type Family = nat

  const SECOND: Time := 1_000_000
  const REUSE_GRACE: Time := 30 * SECOND
  const TOKEN_TTL: Time := 14 * 24 * 3600 * SECOND

  datatype Session = Session(user: UserId, family: Family, expiresAt: Time, usedAt: Option<Time>,
                             revokedAt: Option<Time>)

  datatype Outcome = Rotated(token: Token) | Raced | Invalid

  // ----- The transactions -----

  /** A fresh family id is the number of the row that opens it. */
  function LoggedIn(rows: seq<Session>, user: UserId, now: Time): seq<Session> {
    rows + [Session(user, |rows|, now + TOKEN_TTL, None, None)]
  }

  function RevokedWhere(rows: seq<Session>, hit: Session -> bool, now: Time): seq<Session> {
    seq(|rows|, i requires 0 <= i < |rows| =>
      if hit(rows[i]) && rows[i].revokedAt.None? then rows[i].(revokedAt := Some(now)) else rows[i])
  }

  function FamilyRevoked(rows: seq<Session>, family: Family, now: Time): seq<Session> {
    RevokedWhere(rows, (r: Session) => r.family == family, now)
  }

  function UserRevoked(rows: seq<Session>, user: UserId, now: Time): seq<Session> {
    RevokedWhere(rows, (r: Session) => r.user == user, now)
  }

  function Rotate(rows: seq<Session>, token: Token, now: Time): seq<Session>
    requires token < |rows|
  {
    var row := rows[token];
    rows[token := row.(usedAt := Some(now))] + [Session(row.user, row.family, now + TOKEN_TTL, None, None)]
  }

  datatype Step = Step(rows: seq<Session>, out: Outcome)

  /** active is the account's status, read from the users table. */
  function Refreshed(rows: seq<Session>, token: Token, active: bool, now: Time): Step {
    if token >= |rows| then Step(rows, Invalid)
    else
      var row := rows[token];
      if row.usedAt.Some? && row.revokedAt.None? && now - row.usedAt.value <= REUSE_GRACE then Step(rows, Raced)
      else if row.usedAt.Some? || row.revokedAt.Some? then Step(FamilyRevoked(rows, row.family, now), Invalid)
      else if now > row.expiresAt || !active then Step(rows, Invalid)
      else Step(Rotate(rows, token, now), Rotated(|rows|))
  }

  function LoggedOut(rows: seq<Session>, token: Token, now: Time): seq<Session> {
    if token < |rows| then FamilyRevoked(rows, rows[token].family, now) else rows
  }

  /** The user_sessions table and the statements on it. */
  class Table {
    var now: Time
    var rows: seq<Session>

    constructor (at: Time)
      ensures now == at && rows == []
    {
      now, rows := at, [];
    }

    /** verified and active stand for the credential check and the account status. */
    method Login(user: UserId, verified: bool, active: bool) returns (token: Option<Token>)
      modifies this`rows
      ensures verified && active ==> rows == LoggedIn(old(rows), user, now) && token == Some(|old(rows)|)
      ensures !(verified && active) ==> rows == old(rows) && token == None
    {
      if !verified {
        return None;
      }
      if !active {
        return None;
      }
      token := Some(|rows|);
      rows := rows + [Session(user, |rows|, now + TOKEN_TTL, None, None)];
    }

    /** UPDATE ... WHERE family_id = $1 AND revoked_at IS NULL, row by row. */
    method RevokeFamily(family: Family)
      modifies this`rows
      ensures rows == FamilyRevoked(old(rows), family, now)
    {
      for i := 0 to |rows|
        invariant |rows| == |old(rows)|
        invariant forall k | i <= k < |rows| :: rows[k] == old(rows)[k]
        invariant forall k | 0 <= k < i :: rows[k] == FamilyRevoked(old(rows), family, now)[k]
      {
        if rows[i].family == family && rows[i].revokedAt.None? {
          rows := rows[i := rows[i].(revokedAt := Some(now))];
        }
      }
    }

    method RevokeUser(user: UserId)
      modifies this`rows
      ensures rows == UserRevoked(old(rows), user, now)
    {
      for i := 0 to |rows|
        invariant |rows| == |old(rows)|
        invariant forall k | i <= k < |rows| :: rows[k] == old(rows)[k]
        invariant forall k | 0 <= k < i :: rows[k] == UserRevoked(old(rows), user, now)[k]
      {
        if rows[i].user == user && rows[i].revokedAt.None? {
          rows := rows[i := rows[i].(revokedAt := Some(now))];
        }
      }
    }

    method Refresh(token: Token, active: bool) returns (out: Outcome)
      modifies this`rows
      ensures Step(rows, out) == Refreshed(old(rows), token, active, now)
    {
      if token >= |rows| {
        return Invalid;
      }
      var row := rows[token];
      if row.usedAt.Some? && row.revokedAt.None? && now - row.usedAt.value <= REUSE_GRACE {
        return Raced;
      }
      if row.usedAt.Some? || row.revokedAt.Some? {
        RevokeFamily(row.family);
        return Invalid;
      }
      if now > row.expiresAt {
        return Invalid;
      }
      if !active {
        return Invalid;
      }
      rows := rows[token := row.(usedAt := Some(now))];
      rows := rows + [Session(row.user, row.family, now + TOKEN_TTL, None, None)];
      return Rotated(|rows| - 1);
    }

    method Logout(token: Token)
      modifies this`rows
      ensures rows == LoggedOut(old(rows), token, now)
    {
      if token < |rows| {
        RevokeFamily(rows[token].family);
      }
    }

    method ChangePassword(user: UserId, verified: bool) returns (changed: bool)
      modifies this`rows
      ensures changed == verified
      ensures rows == if verified then UserRevoked(old(rows), user, now) else old(rows)
    {
      if !verified {
        return false;
      }
      RevokeUser(user);
      return true;
    }
  }

  // ----- The invariant -----

  predicate SameFamily(rows: seq<Session>, i: nat, j: nat)
    requires i < |rows| && j < |rows|
  {
    rows[i].family == rows[j].family
  }

  /** Row i has been rotated into a later row of its family. */
  predicate Succeeded(rows: seq<Session>, i: nat)
    requires i < |rows|
  {
    exists j | i < j < |rows| :: SameFamily(rows, i, j)
  }

  /** A family is one user's chain of tokens, revoked all at one moment or not at all, in which a token
      is used exactly when a successor exists. */
  predicate FamiliesOk(rows: seq<Session>) {
    && (forall i | 0 <= i < |rows| :: rows[i].family <= i && SameFamily(rows, i, rows[i].family))
    && (forall i, j | 0 <= i < |rows| && 0 <= j < |rows| && SameFamily(rows, i, j) ::
          rows[i].user == rows[j].user && rows[i].revokedAt == rows[j].revokedAt)
    && (forall i | 0 <= i < |rows| :: rows[i].usedAt.Some? <==> Succeeded(rows, i))
  }

  lemma LoginKeeps(rows: seq<Session>, user: UserId, now: Time)
    requires FamiliesOk(rows)
    ensures FamiliesOk(LoggedIn(rows, user, now))
  {
    var rows' := LoggedIn(rows, user, now);
    forall i | 0 <= i < |rows|
      ensures Succeeded(rows', i) <==> Succeeded(rows, i)
    {
      if Succeeded(rows, i) {
        var j :| i < j < |rows| && SameFamily(rows, i, j);
        assert SameFamily(rows', i, j);
      }
      if Succeeded(rows', i) {
        var j :| i < j < |rows'| && SameFamily(rows', i, j);
        assert rows[i].family <= i;
        assert SameFamily(rows, i, j);
      }
    }
    assert !Succeeded(rows', |rows|);
    forall i | 0 <= i < |rows'|
      ensures rows'[i].family <= i && SameFamily(rows', i, rows'[i].family)
    {
      assert i < |rows| ==> SameFamily(rows, i, rows[i].family);
    }
    forall i, j | 0 <= i < |rows'| && 0 <= j < |rows'| && SameFamily(rows', i, j)
      ensures rows'[i].user == rows'[j].user && rows'[i].revokedAt == rows'[j].revokedAt
    {
      if i < |rows| && j < |rows| {
        assert SameFamily(rows, i, j);
      }
    }
  }

  /** Revocation by a property that families share. */
  lemma RevokeKeeps(rows: seq<Session>, hit: Session -> bool, now: Time)
    requires FamiliesOk(rows)
    requires forall i, j | 0 <= i < |rows| && 0 <= j < |rows| && SameFamily(rows, i, j) :: hit(rows[i]) == hit(rows[j])
    ensures FamiliesOk(RevokedWhere(rows, hit, now))
  {
    var rows' := RevokedWhere(rows, hit, now);
    assert forall i, j | 0 <= i < |rows| && 0 <= j < |rows| :: SameFamily(rows', i, j) == SameFamily(rows, i, j);
    forall i | 0 <= i < |rows|
      ensures Succeeded(rows', i) <==> Succeeded(rows, i)
    {
      if Succeeded(rows, i) {
        var j :| i < j < |rows| && SameFamily(rows, i, j);
        assert SameFamily(rows', i, j);
      }
      if Succeeded(rows', i) {
        var j :| i < j < |rows| && SameFamily(rows', i, j);
        assert SameFamily(rows, i, j);
      }
    }
    forall i | 0 <= i < |rows'|
      ensures rows'[i].family <= i && SameFamily(rows', i, rows'[i].family)
    {
      assert SameFamily(rows, i, rows[i].family);
    }
  }

  lemma RotateKeeps(rows: seq<Session>, token: Token, now: Time)
    requires FamiliesOk(rows) && token < |rows| && rows[token].usedAt.None? && rows[token].revokedAt.None?
    ensures FamiliesOk(Rotate(rows, token, now))
  {
    var rows', n := Rotate(rows, token, now), |rows|;
    assert SameFamily(rows', token, n) && Succeeded(rows', token);
    assert !Succeeded(rows', n);
    assert !Succeeded(rows, token);
    assert forall i | token < i < n :: !SameFamily(rows, token, i);
    forall i | 0 <= i < n && i != token
      ensures Succeeded(rows', i) <==> Succeeded(rows, i)
    {
      if Succeeded(rows, i) {
        var j :| i < j < n && SameFamily(rows, i, j);
        assert SameFamily(rows', i, j);
      }
      if Succeeded(rows', i) {
        var j :| i < j < |rows'| && SameFamily(rows', i, j);
        if j < n {
          assert SameFamily(rows, i, j);
        } else {
          assert SameFamily(rows, token, i);
          assert i < token && SameFamily(rows, i, token);
        }
      }
    }
    forall i | 0 <= i < |rows'|
      ensures rows'[i].family <= i && SameFamily(rows', i, rows'[i].family)
    {
      assert SameFamily(rows, if i < n then i else token, rows'[i].family);
    }
    forall i, j | 0 <= i < |rows'| && 0 <= j < |rows'| && SameFamily(rows', i, j)
      ensures rows'[i].user == rows'[j].user && rows'[i].revokedAt == rows'[j].revokedAt
    {
      assert SameFamily(rows, if i < n then i else token, if j < n then j else token);
    }
  }

  lemma FamilyRevokeKeeps(rows: seq<Session>, family: Family, now: Time)
    requires FamiliesOk(rows)
    ensures FamiliesOk(FamilyRevoked(rows, family, now))
  {
    RevokeKeeps(rows, (r: Session) => r.family == family, now);
  }

  lemma UserRevokeKeeps(rows: seq<Session>, user: UserId, now: Time)
    requires FamiliesOk(rows)
    ensures FamiliesOk(UserRevoked(rows, user, now))
  {
    RevokeKeeps(rows, (r: Session) => r.user == user, now);
  }

  // ----- Whole runs -----

  datatype Action =
    | Tick(elapsed: nat)
    | Logs(user: UserId)
    | Refreshes(token: Token, active: bool)
    | LogsOut(token: Token)
    | RevokesUser(user: UserId)

  datatype State = State(now: Time, rows: seq<Session>)

  function Apply(s: State, act: Action): State {
    match act
    case Tick(elapsed) => s.(now := s.now + elapsed)
    case Logs(user) => s.(rows := LoggedIn(s.rows, user, s.now))
    case Refreshes(token, active) => s.(rows := Refreshed(s.rows, token, active, s.now).rows)
    case LogsOut(token) => s.(rows := LoggedOut(s.rows, token, s.now))
    case RevokesUser(user) => s.(rows := UserRevoked(s.rows, user, s.now))
  }

  function Exec(s: State, run: seq<Action>): State {
    if run == [] then s else Apply(Exec(s, run[..|run| - 1]), run[|run| - 1])
  }

  lemma {:induction false} ApplyKeeps(s: State, act: Action)
    requires FamiliesOk(s.rows)
    ensures FamiliesOk(Apply(s, act).rows)
  {
    match act
    case Tick(elapsed) =>
    case Logs(user) => LoginKeeps(s.rows, user, s.now);
    case Refreshes(token, active) =>
      if token < |s.rows| {
        FamilyRevokeKeeps(s.rows, s.rows[token].family, s.now);
        if s.rows[token].usedAt.None? && s.rows[token].revokedAt.None? {
          RotateKeeps(s.rows, token, s.now);
        }
      }
    case LogsOut(token) =>
      if token < |s.rows| {
        FamilyRevokeKeeps(s.rows, s.rows[token].family, s.now);
      }
    case RevokesUser(user) => UserRevokeKeeps(s.rows, user, s.now);
  }

  lemma {:induction false} FamiliesOkAlways(now: Time, run: seq<Action>)
    ensures FamiliesOk(Exec(State(now, []), run).rows)
  {
    if run != [] {
      FamiliesOkAlways(now, run[..|run| - 1]);
      ApplyKeeps(Exec(State(now, []), run[..|run| - 1]), run[|run| - 1]);
    }
  }

  // ----- What the invariant says of a family -----

  /** The newest token of a row's family. */
  function Head(rows: seq<Session>, family: Family): Option<Token> {
    if rows == [] then None
    else if rows[|rows| - 1].family == family then Some(|rows| - 1)
    else Head(rows[..|rows| - 1], family)
  }

  lemma {:induction false} HeadIsLast(rows: seq<Session>, family: Family)
    ensures match Head(rows, family)
            case None => forall i | 0 <= i < |rows| :: rows[i].family != family
            case Some(h) =>
              h < |rows| && rows[h].family == family && forall i | h < i < |rows| :: rows[i].family != family
  {
    if rows != [] {
      var n := |rows| - 1;
      HeadIsLast(rows[..n], family);
      assert forall i | 0 <= i < n :: rows[..n][i] == rows[i];
    }
  }

  /** In every reachable state each family has exactly one unused token, its newest, and is revoked as a
      whole or not at all. */
  lemma OneHeadPerFamily(now: Time, run: seq<Action>, family: Family)
    ensures var rows := Exec(State(now, []), run).rows;
            match Head(rows, family)
            case None => forall i | 0 <= i < |rows| :: rows[i].family != family
            case Some(h) =>
              && h < |rows| && rows[h].family == family
              && forall i | 0 <= i < |rows| && rows[i].family == family ::
                   (rows[i].usedAt.None? <==> i == h) && rows[i].revokedAt == rows[h].revokedAt
  {
    var rows := Exec(State(now, []), run).rows;
    FamiliesOkAlways(now, run);
    HeadIsLast(rows, family);
    if Head(rows, family).Some? {
      var h := Head(rows, family).value;
      forall i | 0 <= i < |rows| && rows[i].family == family
        ensures (rows[i].usedAt.None? <==> i == h) && rows[i].revokedAt == rows[h].revokedAt
      {
        assert SameFamily(rows, i, h);
        assert i < h ==> Succeeded(rows, i);
        assert i == h ==> !Succeeded(rows, h);
      }
    }
  }

  predicate Dead(rows: seq<Session>, family: Family) {
    && (exists i | 0 <= i < |rows| :: rows[i].family == family)
    && forall i | 0 <= i < |rows| && rows[i].family == family :: rows[i].revokedAt.Some?
  }

  /** A refresh yields a token exactly when the presented one is the unexpired head of a live family of
      an active account; the token it yields becomes the head. */
  lemma RotatesIffLiveHead(now: Time, run: seq<Action>, token: Token, active: bool)
    ensures var s := Exec(State(now, []), run);
            Refreshed(s.rows, token, active, s.now).out.Rotated? <==>
              && token < |s.rows| && Head(s.rows, s.rows[token].family) == Some(token)
              && s.rows[token].revokedAt.None? && s.now <= s.rows[token].expiresAt && active
  {
    var s := Exec(State(now, []), run);
    if token < |s.rows| {
      OneHeadPerFamily(now, run, s.rows[token].family);
      HeadIsLast(s.rows, s.rows[token].family);
    }
  }

  /** The replay of a used token within the grace changes nothing; any later replay revokes the family,
      its current head included, and no other family. */
  lemma ReplayWithinGraceOrRevokes(now: Time, run: seq<Action>, token: Token, active: bool)
    ensures var s := Exec(State(now, []), run);
            var step := Refreshed(s.rows, token, active, s.now);
            token < |s.rows| && s.rows[token].usedAt.Some? ==>
              if s.rows[token].revokedAt.None? && s.now - s.rows[token].usedAt.value <= REUSE_GRACE
              then step == Step(s.rows, Raced)
              else
                && step.out == Invalid && Dead(step.rows, s.rows[token].family) && |step.rows| == |s.rows|
                && (forall h | Head(s.rows, s.rows[token].family) == Some(h) ::
                      h < |step.rows| && step.rows[h].revokedAt.Some?)
                && forall i | 0 <= i < |s.rows| && s.rows[i].family != s.rows[token].family :: step.rows[i] == s.rows[i]
  {
    var s := Exec(State(now, []), run);
    if token < |s.rows| && s.rows[token].usedAt.Some? {
      HeadIsLast(s.rows, s.rows[token].family);
      var step := Refreshed(s.rows, token, active, s.now);
      assert step.rows[token].family == s.rows[token].family;
    }
  }

  lemma DeadStep(s: State, act: Action, family: Family)
    requires FamiliesOk(s.rows) && Dead(s.rows, family)
    ensures Dead(Apply(s, act).rows, family)
    ensures |s.rows| <= |Apply(s, act).rows|
    ensures forall i | |s.rows| <= i < |Apply(s, act).rows| :: Apply(s, act).rows[i].family != family
  {
    var s' := Apply(s, act);
    var i :| 0 <= i < |s.rows| && s.rows[i].family == family;
    assert s.rows[i].family <= i;
    assert s'.rows[i].family == family;
  }

  /** Once revoked, a family never grows and never yields a token again, whatever follows. */
  lemma {:induction false} RevokedNeverYields(s: State, run: seq<Action>, family: Family)
    requires FamiliesOk(s.rows) && Dead(s.rows, family)
    ensures var s' := Exec(s, run);
            && FamiliesOk(s'.rows) && Dead(s'.rows, family) && |s.rows| <= |s'.rows|
            && (forall i | |s.rows| <= i < |s'.rows| :: s'.rows[i].family != family)
            && forall token: Token, active: bool | token < |s'.rows| && s'.rows[token].family == family ::
                 Refreshed(s'.rows, token, active, s'.now).out == Invalid
  {
    if run != [] {
      var before := Exec(s, run[..|run| - 1]);
      RevokedNeverYields(s, run[..|run| - 1], family);
      DeadStep(before, run[|run| - 1], family);
      ApplyKeeps(before, run[|run| - 1]);
    }
  }

  // ----- What each operation does to the sessions -----

  /** Rows are never removed, and keep their user and their family. */
  lemma {:induction false} RowsRemain(s: State, run: seq<Action>)
    ensures var s' := Exec(s, run);
            && |s.rows| <= |s'.rows|
            && forall i | 0 <= i < |s.rows| ::
                 s'.rows[i].family == s.rows[i].family && s'.rows[i].user == s.rows[i].user
  {
    if run != [] {
      RowsRemain(s, run[..|run| - 1]);
    }
  }

  /** A token that never yields another one, whatever happens before it is presented. */
  ghost predicate Useless(s: State, token: Token) {
    forall run: seq<Action>, active: bool ::
      Refreshed(Exec(s, run).rows, token, active, Exec(s, run).now).out == Invalid
  }

  lemma DeadTokensAreUseless(s: State, family: Family, token: Token)
    requires FamiliesOk(s.rows) && Dead(s.rows, family) && token < |s.rows| && s.rows[token].family == family
    ensures Useless(s, token)
  {
    forall run: seq<Action>, active: bool
      ensures Refreshed(Exec(s, run).rows, token, active, Exec(s, run).now).out == Invalid
    {
      RevokedNeverYields(s, run, family);
      RowsRemain(s, run);
    }
  }

  /** Every row that `hit` holds of is stamped as revoked unless it already was, and no other row changes. */
  predicate Revokes(rows: seq<Session>, rows': seq<Session>, hit: Session -> bool, now: Time) {
    && |rows'| == |rows|
    && forall i | 0 <= i < |rows| ::
         rows'[i] == if hit(rows[i]) && rows[i].revokedAt == None then rows[i].(revokedAt := Some(now)) else rows[i]
  }

  /** Logging out with any token of a family ends the whole family, on this device and on every other that
      shares it, and no other family; an unknown token changes nothing. */
  lemma LogoutEndsTheFamily(now: Time, run: seq<Action>, token: Token)
    ensures var s := Exec(State(now, []), run);
            var s' := Apply(s, LogsOut(token));
            if token < |s.rows| then
              var family := s.rows[token].family;
              && s'.now == s.now && Revokes(s.rows, s'.rows, (r: Session) => r.family == family, s.now)
              && Dead(s'.rows, family)
              && forall i | 0 <= i < |s.rows| && s.rows[i].family == family :: Useless(s', i)
            else s' == s
  {
    var s := Exec(State(now, []), run);
    var s' := Apply(s, LogsOut(token));
    if token < |s.rows| {
      FamiliesOkAlways(now, run);
      ApplyKeeps(s, LogsOut(token));
      assert s'.rows[token].family == s.rows[token].family;
      forall i | 0 <= i < |s.rows| && s.rows[i].family == s.rows[token].family
        ensures Useless(s', i)
      {
        DeadTokensAreUseless(s', s.rows[token].family, i);
      }
    }
  }

  /** A password change ends every session of the user, whichever family it belongs to, and none of anybody
      else. */
  lemma PasswordChangeEndsEverySession(now: Time, run: seq<Action>, user: UserId)
    ensures var s := Exec(State(now, []), run);
            var s' := Apply(s, RevokesUser(user));
            && s'.now == s.now && Revokes(s.rows, s'.rows, (r: Session) => r.user == user, s.now)
            && forall i | 0 <= i < |s.rows| && s.rows[i].user == user ::
                 Dead(s'.rows, s.rows[i].family) && Useless(s', i)
  {
    var s := Exec(State(now, []), run);
    var s' := Apply(s, RevokesUser(user));
    FamiliesOkAlways(now, run);
    ApplyKeeps(s, RevokesUser(user));
    forall i | 0 <= i < |s.rows| && s.rows[i].user == user
      ensures Dead(s'.rows, s.rows[i].family) && Useless(s', i)
    {
      assert forall j | 0 <= j < |s.rows| && s.rows[j].family == s.rows[i].family :: SameFamily(s.rows, i, j);
      assert s'.rows[i].family == s.rows[i].family;
      DeadTokensAreUseless(s', s.rows[i].family, i);
    }
  }

  /** A session good for fourteen days that nobody has used or revoked. */
  predicate JustIssued(row: Session, user: UserId, family: Family, now: Time) {
    row == Session(user, family, now + 1_209_600_000_000, None, None)
  }

  /** A login opens a family of its own beside the existing ones, and its token can be exchanged until it
      expires. */
  lemma LoginOpensAFamily(now: Time, run: seq<Action>, user: UserId, wait: nat)
    ensures var s := Exec(State(now, []), run);
            var s', n := Apply(s, Logs(user)), |s.rows|;
            && s'.now == s.now && |s'.rows| == n + 1 && s'.rows[..n] == s.rows
            && JustIssued(s'.rows[n], user, s'.rows[n].family, s.now)
            && (forall i | 0 <= i < n :: s.rows[i].family != s'.rows[n].family)
            && (Refreshed(s'.rows, n, true, s.now + wait).out.Rotated? <==> wait <= 1_209_600_000_000)
  {
    FamiliesOkAlways(now, run);
  }

  /** An exchange stamps the presented token as used and appends its successor, for the same user and family
      and with fourteen days of its own, as the new head. */
  ghost predicate Exchanges(rows: seq<Session>, rows': seq<Session>, token: Token, now: Time)
    requires token < |rows|
  {
    && |rows'| == |rows| + 1
    && JustIssued(rows'[|rows|], rows[token].user, rows[token].family, now)
    && rows'[token] == rows[token].(usedAt := Some(now))
    && (forall i | 0 <= i < |rows| && i != token :: rows'[i] == rows[i])
    && Head(rows', rows[token].family) == Some(|rows|)
  }

  /** What a refresh does with any token: an unknown or revoked one is refused, a used one that comes back
      within thirty seconds is a race and later revokes the family, and an unused one is exchanged unless it has
      expired or the account is inactive. Only the exchange and the revocation write. */
  lemma RefreshEffect(now: Time, run: seq<Action>, token: Token, active: bool)
    ensures var s := Exec(State(now, []), run);
            var step := Refreshed(s.rows, token, active, s.now);
            if token >= |s.rows| || s.rows[token].revokedAt.Some? then step == Step(s.rows, Invalid)
            else
              var row := s.rows[token];
              if row.usedAt.Some? then
                if s.now - row.usedAt.value <= 30_000_000 then step == Step(s.rows, Raced)
                else step.out == Invalid && Revokes(s.rows, step.rows, (r: Session) => r.family == row.family, s.now)
              else if s.now <= row.expiresAt && active then
                step.out == Rotated(|s.rows|) && Exchanges(s.rows, step.rows, token, s.now)
              else step == Step(s.rows, Invalid)
  {
    var s := Exec(State(now, []), run);
    FamiliesOkAlways(now, run);
    if token < |s.rows| && s.rows[token].revokedAt.Some? {
      forall i | 0 <= i < |s.rows| && s.rows[i].family == s.rows[token].family
        ensures s.rows[i].revokedAt.Some?
      {
        assert SameFamily(s.rows, token, i);
      }
    }
  }
}
