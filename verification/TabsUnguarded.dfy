/** What Tabs.ReuseDetectionNeverFires assumes, and what happens without it: exactly which lost replies get a
    family revoked, and exactly when two tabs that skip the lock do. */
module TabsUnguarded {
  import opened Common
  import opened Sessions
  import opened Tabs

  lemma {:induction false} Unroll(w: World, moves: seq<Move>, n: nat)
    requires n < |moves|
    ensures Play(w, moves[..n + 1]) == Next(Play(w, moves[..n]), moves[n])
    ensures Play(w, moves[..0]) == w
  {
    assert moves[..n + 1][..n] == moves[..n];
  }

  lemma {:induction false} PlayConcat(w: World, first: seq<Move>, rest: seq<Move>)
    ensures Play(w, first + rest) == Play(Play(w, first), rest)
  {
    if rest == [] {
      assert first + rest == first;
    } else {
      PlayConcat(w, first, rest[..|rest| - 1]);
      assert (first + rest)[..|first + rest| - 1] == first + rest[..|rest| - 1];
    }
  }

  // ----- Lost replies -----

  /** The reply to tab t is lost, and some time later the tab refreshes again. */
  function RetryAfterLoss(t: nat, elapsed: nat, active: bool): seq<Move> {
    [LosesReply(t), Elsewhere(Tick(elapsed)), Asks(t, true), Acquires(t), Sends(t), Serves(t, active)]
  }

  lemma {:induction false} UntilAskedAgain(w: World, t: nat, elapsed: nat, active: bool)
    requires t < |w.tabs| && w.tabs[t].Answered?
    ensures Play(w, RetryAfterLoss(t, elapsed, active)[..3])
         == WithTab(w, t, Waiting(true)).(lock := None, server := State(w.server.now + elapsed, w.server.rows))
  {
    var moves := RetryAfterLoss(t, elapsed, active);
    Unroll(w, moves, 0);
    Unroll(w, moves, 1);
    Unroll(w, moves, 2);
  }

  lemma {:induction false} UntilSentAgain(w: World, t: nat, elapsed: nat, active: bool)
    requires t < |w.tabs| && w.tabs[t].Answered?
    ensures Play(w, RetryAfterLoss(t, elapsed, active)[..5])
         == WithTab(w, t, Sent(w.jar)).(lock := Some(t), server := State(w.server.now + elapsed, w.server.rows))
  {
    var moves := RetryAfterLoss(t, elapsed, active);
    UntilAskedAgain(w, t, elapsed, active);
    Unroll(w, moves, 3);
    Unroll(w, moves, 4);
  }

  lemma {:induction false} ServedAgain(w: World, t: nat, elapsed: nat, active: bool)
    requires t < |w.tabs| && w.tabs[t].Answered? && w.jar.Some?
    ensures Play(w, RetryAfterLoss(t, elapsed, active)).server.rows
         == Refreshed(w.server.rows, w.jar.value, active, w.server.now + elapsed).rows
  {
    var moves := RetryAfterLoss(t, elapsed, active);
    UntilSentAgain(w, t, elapsed, active);
    Unroll(w, moves, 5);
    assert moves[..6] == moves;
  }

  predicate RevokesNothing(before: seq<Session>, after: seq<Session>) {
    |before| <= |after| && forall i | 0 <= i < |before| :: after[i].revokedAt == before[i].revokedAt
  }

  /** The jar was waiting for the cookie of a live family. */
  predicate Awaits(w: World) {
    w.jar.Some? && w.jar.value < |w.server.rows| && w.server.rows[w.jar.value].usedAt.Some?
    && w.server.rows[w.jar.value].revokedAt.None?
  }

  lemma NotAwaitingIsHarmless(rows: seq<Session>, token: Token, active: bool, now: Time)
    requires FamiliesOk(rows) && token < |rows| && (rows[token].usedAt.None? || rows[token].revokedAt.Some?)
    ensures RevokesNothing(rows, Refreshed(rows, token, active, now).rows)
  {
    forall i | 0 <= i < |rows| && rows[i].family == rows[token].family
      ensures rows[i].revokedAt == rows[token].revokedAt
    {
      assert SameFamily(rows, i, token);
    }
  }

  /** From any state the guarded tabs reach, losing a reply and refreshing again after a while revokes a
      session exactly when the jar was waiting for the cookie in that reply and the grace is over; and then
      the whole family is dead. Within the grace the second refresh writes nothing. */
  lemma {:induction false} LossRevokesIff(w: World, t: nat, elapsed: nat, active: bool)
    requires Inv(w) && t < |w.tabs| && w.tabs[t].Answered?
    ensures var rows, after := w.server.rows, Play(w, RetryAfterLoss(t, elapsed, active)).server.rows;
            && (!RevokesNothing(rows, after) <==>
                  Awaits(w) && w.server.now + elapsed - rows[w.jar.value].usedAt.value > REUSE_GRACE)
            && (!RevokesNothing(rows, after) ==> Dead(after, rows[w.jar.value].family))
            && (Awaits(w) && w.server.now + elapsed - rows[w.jar.value].usedAt.value <= REUSE_GRACE ==> after == rows)
  {
    UntilSentAgain(w, t, elapsed, active);
    if w.jar.None? {
      NoCookieServed(w, t, elapsed, active);
    } else {
      var token, now := w.jar.value, w.server.now + elapsed;
      ServedAgain(w, t, elapsed, active);
      if Awaits(w) {
        UsedTokenDecides(w.server.rows, token, active, now);
      } else {
        NotAwaitingIsHarmless(w.server.rows, token, active, now);
      }
    }
  }

  lemma {:induction false} NoCookieServed(w: World, t: nat, elapsed: nat, active: bool)
    requires t < |w.tabs| && w.tabs[t].Answered? && w.jar.None?
    ensures Play(w, RetryAfterLoss(t, elapsed, active)).server.rows == w.server.rows
  {
    var moves := RetryAfterLoss(t, elapsed, active);
    UntilSentAgain(w, t, elapsed, active);
    Unroll(w, moves, 5);
    assert moves[..6] == moves;
  }

  lemma UsedTokenDecides(rows: seq<Session>, token: Token, active: bool, now: Time)
    requires token < |rows| && rows[token].usedAt.Some? && rows[token].revokedAt.None?
    ensures var step := Refreshed(rows, token, active, now);
            if now - rows[token].usedAt.value <= REUSE_GRACE then step == Step(rows, Raced)
            else !RevokesNothing(rows, step.rows) && Dead(step.rows, rows[token].family)
  {
    var step := Refreshed(rows, token, active, now);
    if now - rows[token].usedAt.value > REUSE_GRACE {
      assert step.rows[token].family == rows[token].family && step.rows[token].revokedAt.Some?;
    }
  }

  // ----- Skipped locks -----

  /** Two tabs refresh without the lock, and the second request reaches the server some time after the first. */
  function SkipBoth(t: nat, u: nat, elapsed: nat): seq<Move> {
    [SkipsLock(t), SkipsLock(u), Sends(t), Sends(u), Serves(t, true), Elsewhere(Tick(elapsed)), Serves(u, true)]
  }

  /** Two tabs about to refresh the live head of a family. */
  predicate TwoWaiting(w: World, t: nat, u: nat) {
    && t < |w.tabs| && u < |w.tabs| && t != u && w.tabs[t].Waiting? && w.tabs[u].Waiting?
    && w.jar.Some? && w.jar.value < |w.server.rows|
    && var row := w.server.rows[w.jar.value];
       row.usedAt.None? && row.revokedAt.None? && w.server.now <= row.expiresAt
  }

  lemma {:induction false} UntilBothReady(w: World, t: nat, u: nat, elapsed: nat)
    requires TwoWaiting(w, t, u)
    ensures Play(w, SkipBoth(t, u, elapsed)[..2]) == WithTab(WithTab(w, t, Ready), u, Ready)
  {
    Unroll(w, SkipBoth(t, u, elapsed), 0);
    Unroll(w, SkipBoth(t, u, elapsed), 1);
  }

  lemma {:induction false} UntilBothSent(w: World, t: nat, u: nat, elapsed: nat)
    requires TwoWaiting(w, t, u)
    ensures var w' := Play(w, SkipBoth(t, u, elapsed)[..4]);
            w'.server == w.server && |w'.tabs| == |w.tabs| && w'.tabs[t] == Sent(w.jar) && w'.tabs[u] == Sent(w.jar)
  {
    UntilBothReady(w, t, u, elapsed);
    Unroll(w, SkipBoth(t, u, elapsed), 2);
    Unroll(w, SkipBoth(t, u, elapsed), 3);
  }

  lemma {:induction false} UntilOneServed(w: World, t: nat, u: nat, elapsed: nat)
    requires TwoWaiting(w, t, u)
    ensures var w' := Play(w, SkipBoth(t, u, elapsed)[..6]);
            && w'.server == State(w.server.now + elapsed, Rotate(w.server.rows, w.jar.value, w.server.now))
            && |w'.tabs| == |w.tabs| && w'.tabs[u] == Sent(w.jar)
  {
    UntilBothSent(w, t, u, elapsed);
    Unroll(w, SkipBoth(t, u, elapsed), 4);
    Unroll(w, SkipBoth(t, u, elapsed), 5);
  }

  /** Without the lock, as where navigator.locks is missing, no reply need be lost: both tabs present one
      token, and the second request revokes the family exactly when it comes after the grace. */
  lemma {:induction false} SkippedLocksRevokeIff(w: World, t: nat, u: nat, elapsed: nat)
    requires TwoWaiting(w, t, u)
    ensures var after := Play(w, SkipBoth(t, u, elapsed)).server.rows;
            && (!RevokesNothing(w.server.rows, after) <==> elapsed > REUSE_GRACE)
            && (elapsed > REUSE_GRACE ==> Dead(after, w.server.rows[w.jar.value].family))
  {
    var moves, token := SkipBoth(t, u, elapsed), w.jar.value;
    var rotated := Rotate(w.server.rows, token, w.server.now);
    UntilOneServed(w, t, u, elapsed);
    Unroll(w, moves, 6);
    assert moves[..7] == moves;
    assert rotated[token].usedAt == Some(w.server.now) && rotated[token].family == w.server.rows[token].family;
    UsedTokenDecides(rotated, token, true, w.server.now + elapsed);
  }

  // ----- A run of each from the start -----

  /** One tab that signs in and refreshes, up to the answer that is about to be lost. */
  const LOST: seq<Move> := [
    LogsIn(7), LoginLands(0), Asks(0, true), Acquires(0), Sends(0), Serves(0, true)]

  /** Two tabs that ask to refresh at once. */
  const UNLOCKED: seq<Move> := [LogsIn(7), LoginLands(0), Asks(0, true), Asks(1, true)]

  const NEW_SESSION := Session(7, 0, TOKEN_TTL, None, None)
  const ROTATED := [Session(7, 0, TOKEN_TTL, Some(0), None), NEW_SESSION]

  lemma {:induction false} SignedIn(tabs: nat, moves: seq<Move>)
    requires |moves| >= 2 && moves[0] == LogsIn(7) && moves[1] == LoginLands(0)
    ensures Play(Fresh(0, tabs), moves[..2])
         == World(State(0, [NEW_SESSION]), Some(0), None, Fresh(0, tabs).tabs, {})
  {
    var f := Fresh(0, tabs);
    Unroll(f, moves, 0);
    var w1 := Play(f, moves[..1]);
    assert w1.server.rows == [NEW_SESSION] && w1.arriving == {0};
    Unroll(f, moves, 1);
    assert w1.arriving - {0} == {};
  }

  lemma {:induction false} LostUntilSent()
    ensures Play(Fresh(0, 1), LOST[..5]) == World(State(0, [NEW_SESSION]), Some(0), Some(0), [Sent(Some(0))], {})
  {
    var f := Fresh(0, 1);
    SignedIn(1, LOST);
    assert f.tabs == [Idle];
    Unroll(f, LOST, 2);
    Unroll(f, LOST, 3);
    Unroll(f, LOST, 4);
  }

  lemma {:induction false} LostUntilAnswered()
    ensures Play(Fresh(0, 1), LOST)
         == World(State(0, ROTATED), Some(0), Some(0), [Answered(SetCookies(1))], {})
  {
    LostUntilSent();
    Unroll(Fresh(0, 1), LOST, 5);
    assert LOST[..6] == LOST;
    assert Refreshed([NEW_SESSION], 0, true, 0) == Step(ROTATED, Rotated(1));
  }

  lemma {:induction false} NothingLostIsGuarded(w: World, moves: seq<Move>)
    requires forall i | 0 <= i < |moves| :: !moves[i].LosesReply? && !moves[i].SkipsLock?
    ensures GuardedRun(w, moves)
  {
    if moves != [] {
      NothingLostIsGuarded(w, moves[..|moves| - 1]);
    }
  }

  /** With the lock, one lost reply is enough: the next refresh presents the used token, and the
      family is revoked. */
  lemma {:induction false} LostReplyRevokes()
    ensures GuardedRun(Fresh(0, 1), LOST)
    ensures Dead(Play(Fresh(0, 1), LOST + RetryAfterLoss(0, 31 * SECOND, true)).server.rows, 0)
  {
    NothingLostIsGuarded(Fresh(0, 1), LOST);
    LostUntilAnswered();
    InvAlways(0, 1, LOST);
    LossRevokesIff(Play(Fresh(0, 1), LOST), 0, 31 * SECOND, true);
    PlayConcat(Fresh(0, 1), LOST, RetryAfterLoss(0, 31 * SECOND, true));
  }

  lemma {:induction false} UnlockedUntilBothAsked()
    ensures Play(Fresh(0, 2), UNLOCKED)
         == World(State(0, [NEW_SESSION]), Some(0), None, [Waiting(true), Waiting(true)], {})
  {
    SignedIn(2, UNLOCKED);
    assert Fresh(0, 2).tabs == [Idle, Idle];
    Unroll(Fresh(0, 2), UNLOCKED, 2);
    Unroll(Fresh(0, 2), UNLOCKED, 3);
    assert UNLOCKED[..4] == UNLOCKED;
  }

  lemma {:induction false} SkippedLockRevokes()
    ensures GuardedRun(Fresh(0, 2), UNLOCKED)
    ensures Dead(Play(Fresh(0, 2), UNLOCKED + SkipBoth(0, 1, 31 * SECOND)).server.rows, 0)
  {
    NothingLostIsGuarded(Fresh(0, 2), UNLOCKED);
    UnlockedUntilBothAsked();
    SkippedLocksRevokeIff(Play(Fresh(0, 2), UNLOCKED), 0, 1, 31 * SECOND);
    PlayConcat(Fresh(0, 2), UNLOCKED, SkipBoth(0, 1, 31 * SECOND));
  }
}
