/** The realtime gateway's attempt sockets (server/internal/realtime/gateway.go): one registered socket
    per attempt, the newest, and the heartbeat latch of each socket's pump. The replaced close code,
    4001, is in the private-use range of section 7.4.2 of RFC 6455. */
module Gateway {
  import opened Common
  import opened Schema
  import opened EventLog

  /** Sockets are numbered in the order they register. */
  type Socket = nat

  // ----- The single-session registry -----

  /** accepted[s] is the attempt socket s was accepted for; closes are the sockets sent the replaced close,
      and invalidated the attempts reported with them, in order. */
  datatype Registry = Registry(active: map<AttemptId, Socket>, accepted: seq<AttemptId>, torn: set<Socket>,
                               closes: seq<Socket>, invalidated: seq<AttemptId>)

  function Replaced(r: Registry, a: AttemptId): Registry {
    var taken := r.(active := r.active[a := |r.accepted|], accepted := r.accepted + [a]);
    if a in r.active then taken.(closes := r.closes + [r.active[a]], invalidated := r.invalidated + [a]) else taken
  }

  function Cleared(r: Registry, s: Socket): Registry {
    if s >= |r.accepted| || s in r.torn then r
    else
      var gone := r.(torn := r.torn + {s});
      if r.accepted[s] in r.active && r.active[r.accepted[s]] == s
      then gone.(active := r.active - {r.accepted[s]}) else gone
  }

  class Gateway {
    var activeAttempts: map<AttemptId, Socket>
    var accepted: seq<AttemptId>
    var closes: seq<Socket>
    var invalidated: seq<AttemptId>
    ghost var torn: set<Socket>

    ghost function State(): Registry
      reads this
    {
      Registry(activeAttempts, accepted, torn, closes, invalidated)
    }

    constructor ()
      ensures State() == NOBODY
    {
      activeAttempts, accepted, closes, invalidated, torn := map[], [], [], [], {};
    }

    method ReplaceActiveAttempt(a: AttemptId) returns (c: Socket)
      modifies this
      ensures State() == Replaced(old(State()), a) && c == |old(accepted)|
    {
      c := |accepted|;
      accepted := accepted + [a];
      var prev := if a in activeAttempts then Some(activeAttempts[a]) else None;
      activeAttempts := activeAttempts[a := c];
      if prev.None? {
        return;
      }
      closes := closes + [prev.value];
      invalidated := invalidated + [a];
    }

    /** The deferred teardown of one socket's handler, which runs once. */
    method ClearActiveAttempt(a: AttemptId, c: Socket)
      requires c < |accepted| && accepted[c] == a && c !in torn
      modifies this
      ensures State() == Cleared(old(State()), c)
    {
      torn := torn + {c};
      if a in activeAttempts && activeAttempts[a] == c {
        activeAttempts := activeAttempts - {a};
      }
    }
  }

  const NOBODY := Registry(map[], [], {}, [], [])

  datatype Step = Connects(a: AttemptId) | TearsDown(s: Socket)

  function Take(r: Registry, step: Step): Registry {
    match step
    case Connects(a) => Replaced(r, a)
    case TearsDown(s) => Cleared(r, s)
  }

  function Exec(r: Registry, run: seq<Step>): Registry {
    if run == [] then r else Take(Exec(r, run[..|run| - 1]), run[|run| - 1])
  }

  predicate Newest(accepted: seq<AttemptId>, s: Socket) {
    s < |accepted| && forall t | s < t < |accepted| :: accepted[t] != accepted[s]
  }

  predicate Registered(r: Registry, s: Socket) {
    s < |r.accepted| && r.accepted[s] in r.active && r.active[r.accepted[s]] == s
  }

  predicate ActiveOk(r: Registry) {
    forall a | a in r.active ::
      var s := r.active[a];
      Newest(r.accepted, s) && r.accepted[s] == a && s !in r.torn && s !in r.closes
  }

  predicate ClosesOk(r: Registry) {
    && Distinct(r.closes) && |r.invalidated| == |r.closes|
    && (forall i | 0 <= i < |r.closes| ::
          r.closes[i] < |r.accepted| && !Newest(r.accepted, r.closes[i]) && r.invalidated[i] == r.accepted[r.closes[i]])
    && (forall s | 0 <= s < |r.accepted| :: Registered(r, s) || s in r.torn || s in r.closes)
  }

  predicate Inv(r: Registry) {
    (forall s | s in r.torn :: s < |r.accepted|) && ActiveOk(r) && ClosesOk(r)
  }

  lemma NewestAfter(accepted: seq<AttemptId>, a: AttemptId, s: Socket)
    requires s < |accepted|
    ensures Newest(accepted + [a], s) <==> Newest(accepted, s) && accepted[s] != a
    ensures Newest(accepted + [a], |accepted|)
  {
    var later := accepted + [a];
    assert later[|accepted|] == a;
    if Newest(later, s) {
      forall t | s < t < |accepted|
        ensures accepted[t] != accepted[s]
      {
        assert later[t] == accepted[t];
      }
    }
  }

  lemma ReplacedKeepsActive(r: Registry, a: AttemptId)
    requires Inv(r)
    ensures ActiveOk(Replaced(r, a))
  {
    var r', n := Replaced(r, a), |r.accepted|;
    forall b | b in r'.active
      ensures var s := r'.active[b]; Newest(r'.accepted, s) && r'.accepted[s] == b && s !in r'.torn && s !in r'.closes
    {
      if b != a {
        NewestAfter(r.accepted, a, r.active[b]);
      } else {
        assert n !in r.torn && n !in r.closes;
        assert forall t | n < t < |r'.accepted| :: r'.accepted[t] != r'.accepted[n];
      }
    }
  }

  lemma ReplacedKeepsCloses(r: Registry, a: AttemptId)
    requires Inv(r)
    ensures ClosesOk(Replaced(r, a))
  {
    var r', n := Replaced(r, a), |r.accepted|;
    forall i | 0 <= i < |r'.closes|
      ensures r'.closes[i] < |r'.accepted| && !Newest(r'.accepted, r'.closes[i])
      ensures r'.invalidated[i] == r'.accepted[r'.closes[i]]
    {
      if i < |r.closes| {
        NewestAfter(r.accepted, a, r.closes[i]);
      } else {
        NewestAfter(r.accepted, a, r.active[a]);
      }
    }
    forall s | 0 <= s < |r'.accepted|
      ensures Registered(r', s) || s in r'.torn || s in r'.closes
    {
      if s < n && Registered(r, s) && r.accepted[s] == a {
        assert r'.closes[|r.closes|] == s;
      }
    }
  }

  lemma StepKeeps(r: Registry, step: Step)
    requires Inv(r)
    ensures Inv(Take(r, step))
  {
    match step
    case Connects(a) =>
      ReplacedKeepsActive(r, a);
      ReplacedKeepsCloses(r, a);
    case TearsDown(s) =>
  }

  lemma {:induction false} InvAlways(run: seq<Step>)
    ensures Inv(Exec(NOBODY, run))
  {
    if run != [] {
      InvAlways(run[..|run| - 1]);
      StepKeeps(Exec(NOBODY, run[..|run| - 1]), run[|run| - 1]);
    }
  }

  lemma ClosedIsOld(r: Registry, s: Socket)
    requires ClosesOk(r) && s in r.closes
    ensures s < |r.accepted| && !Newest(r.accepted, s)
  {
    var i :| 0 <= i < |r.closes| && r.closes[i] == s;
  }

  /** In any interleaving of connects and teardowns an attempt's entry is its newest socket, and is there
      exactly as long as that socket is live. */
  lemma RegistryHoldsTheNewestLiveSocket(run: seq<Step>, s: Socket)
    ensures var r := Exec(NOBODY, run);
            s < |r.accepted| ==> (Registered(r, s) <==> Newest(r.accepted, s) && s !in r.torn)
  {
    var r := Exec(NOBODY, run);
    InvAlways(run);
    if s in r.closes {
      ClosedIsOld(r, s);
    }
  }

  lemma {:induction false} CountOfDistinct(xs: seq<Socket>, s: Socket)
    requires Distinct(xs)
    ensures multiset(xs)[s] == if s in xs then 1 else 0
  {
    if xs != [] {
      var init, last := xs[..|xs| - 1], xs[|xs| - 1];
      CountOfDistinct(init, s);
      assert xs == init + [last];
      assert forall i | 0 <= i < |init| :: init[i] == xs[i] && xs[i] != xs[|xs| - 1];
    }
  }

  /** A socket is sent the replaced close at most once, and only after a newer one registered for its
      attempt; every socket that is neither registered nor torn down has been sent it. */
  lemma ReplacedCloseIsSentOnce(run: seq<Step>, s: Socket)
    ensures var r := Exec(NOBODY, run);
            s < |r.accepted| ==>
              && multiset(r.closes)[s] <= 1
              && (multiset(r.closes)[s] == 1 ==> !Newest(r.accepted, s))
              && (!Registered(r, s) && s !in r.torn ==> multiset(r.closes)[s] == 1)
  {
    var r := Exec(NOBODY, run);
    InvAlways(run);
    CountOfDistinct(r.closes, s);
    if s in r.closes {
      ClosedIsOld(r, s);
    }
  }

  /** A connect closes exactly the socket it finds registered, if any; a teardown closes nothing, and a
      socket that has been replaced takes nobody's entry with it. */
  lemma DisplacementIsExact(run: seq<Step>, a: AttemptId, s: Socket)
    ensures var r := Exec(NOBODY, run);
            && Replaced(r, a).closes == r.closes + (if a in r.active then [r.active[a]] else [])
            && Registered(Replaced(r, a), |r.accepted|)
            && Cleared(r, s).closes == r.closes
            && (!Registered(r, s) ==> Cleared(r, s).active == r.active)
            && forall t | t != s && Registered(r, t) :: Registered(Cleared(r, s), t)
  {
    InvAlways(run);
  }

  // ----- The heartbeat latch -----

  const HEARTBEAT_TIMEOUT: Time := 25 * SECOND

  /** The variables of one pump loop; the timer is armed when it has a time to fire at. */
  datatype Pump = Pump(disconnected: bool, lastSeen: Time, timer: Option<Time>)

  function Opened(now: Time): Pump {
    Pump(false, now, Some(now + HEARTBEAT_TIMEOUT))
  }

  function Beat(p: Pump, now: Time): (Pump, seq<Event>) {
    (Opened(now), if p.disconnected then [Reconnected] else [])
  }

  /** The timer is one shot: once it has fired it stays quiet until a heartbeat resets it. */
  function Expire(p: Pump, now: Time): (Pump, seq<Event>) {
    if p.timer.Some? && now >= p.timer.value
    then (Pump(true, p.lastSeen, None), [Disconnected(p.lastSeen)]) else (p, [])
  }

  class PumpLoop {
    var disconnected: bool
    var lastSeen: Time
    var timer: Option<Time>
    var callbacks: seq<Event>

    function State(): Pump
      reads this
    {
      Pump(disconnected, lastSeen, timer)
    }

    constructor (now: Time)
      ensures State() == Opened(now) && callbacks == []
    {
      disconnected, lastSeen, timer, callbacks := false, now, Some(now + HEARTBEAT_TIMEOUT), [];
    }

    method Heartbeat(now: Time)
      modifies this
      ensures State() == Beat(old(State()), now).0
      ensures callbacks == old(callbacks) + Beat(old(State()), now).1
    {
      lastSeen := now;
      timer := Some(now + HEARTBEAT_TIMEOUT);
      if disconnected {
        disconnected := false;
        callbacks := callbacks + [Reconnected];
      }
    }

    method TimerFires(now: Time)
      modifies this
      ensures State() == Expire(old(State()), now).0
      ensures callbacks == old(callbacks) + Expire(old(State()), now).1
    {
      if timer.None? || now < timer.value {
        return;
      }
      timer := None;
      disconnected := true;
      callbacks := callbacks + [Disconnected(lastSeen)];
    }
  }

  datatype Input = Beats(elapsed: nat) | Expires(elapsed: nat)

  datatype Loop = Loop(now: Time, pump: Pump, callbacks: seq<Event>)

  function Feed(l: Loop, input: Input): Loop {
    var now := l.now + input.elapsed;
    var (pump, fired) := if input.Beats? then Beat(l.pump, now) else Expire(l.pump, now);
    Loop(now, pump, l.callbacks + fired)
  }

  function Pumped(l: Loop, inputs: seq<Input>): Loop {
    if inputs == [] then l else Feed(Pumped(l, inputs[..|inputs| - 1]), inputs[|inputs| - 1])
  }

  function Accepted(now: Time): Loop {
    Loop(now, Opened(now), [])
  }

  predicate LoopOk(l: Loop) {
    && (l.pump.disconnected <==> l.pump.timer.None?)
    && (l.pump.timer.Some? ==> l.pump.timer.value == l.pump.lastSeen + HEARTBEAT_TIMEOUT)
    && (l.pump.disconnected <==> |l.callbacks| % 2 == 1)
    && (forall i | 0 <= i < |l.callbacks| ::
          if i % 2 == 0 then l.callbacks[i].Disconnected? && l.callbacks[i].lastSeenAt + HEARTBEAT_TIMEOUT <= l.now
          else l.callbacks[i].Reconnected?)
  }

  /** Within one pump the callbacks alternate, starting with a disconnect, which is never reported before
      the timeout has passed since the last heartbeat; the latch is which of the two came last. */
  lemma {:induction false} CallbacksAlternate(now: Time, inputs: seq<Input>)
    ensures LoopOk(Pumped(Accepted(now), inputs))
  {
    if inputs != [] {
      CallbacksAlternate(now, inputs[..|inputs| - 1]);
    }
  }

  function Clock(start: Time, inputs: seq<Input>): Time {
    if inputs == [] then start else Clock(start, inputs[..|inputs| - 1]) + inputs[|inputs| - 1].elapsed
  }

  /** The moment of the last heartbeat; the accept counts as one. */
  function LastHeard(start: Time, inputs: seq<Input>): Time {
    if inputs == [] then start
    else if inputs[|inputs| - 1].Beats? then Clock(start, inputs) else LastHeard(start, inputs[..|inputs| - 1])
  }

  /** Whether a disconnect has been reported since the last heartbeat. */
  predicate ReportedSince(start: Time, inputs: seq<Input>) {
    inputs != [] && inputs[|inputs| - 1].Expires?
    && (Clock(start, inputs) >= LastHeard(start, inputs) + 25_000_000
        || ReportedSince(start, inputs[..|inputs| - 1]))
  }

  /** A silence of twenty-five seconds is reported once, with the moment of the last heartbeat, by the first
      timer that fires after it; the next heartbeat, and no other, reports the return. */
  lemma {:induction false} SilenceIsReportedOnce(start: Time, inputs: seq<Input>, input: Input)
    ensures var l := Pumped(Accepted(start), inputs);
            var heard, reported := LastHeard(start, inputs), ReportedSince(start, inputs);
            && l.now == Clock(start, inputs) && l.pump.lastSeen == heard && l.pump.disconnected == reported
            && Feed(l, input).callbacks == l.callbacks +
               (match input
                case Beats(_) => if reported then [Reconnected] else []
                case Expires(elapsed) =>
                  if !reported && l.now + elapsed >= heard + 25_000_000 then [Disconnected(heard)] else [])
  {
    if inputs != [] {
      SilenceIsReportedOnce(start, inputs[..|inputs| - 1], inputs[|inputs| - 1]);
      CallbacksAlternate(start, inputs);
      CallbacksAlternate(start, inputs[..|inputs| - 1]);
    }
  }

  // ----- Several sockets of one attempt -----

  /** The pumps of one attempt's sockets, in the order they accepted, and the connectivity events they have
      logged together. */
  datatype Sockets = Sockets(now: Time, pumps: seq<Pump>, log: seq<Event>)

  datatype Signal = Opens(elapsed: nat) | BeatsOn(s: nat, elapsed: nat) | ExpiresOn(s: nat, elapsed: nat)

  function Signalled(w: Sockets, signal: Signal): Sockets {
    var now := w.now + signal.elapsed;
    if signal.Opens? then Sockets(now, w.pumps + [Opened(now)], w.log)
    else if signal.s >= |w.pumps| then w.(now := now)
    else
      var (pump, fired) := if signal.BeatsOn? then Beat(w.pumps[signal.s], now) else Expire(w.pumps[signal.s], now);
      Sockets(now, w.pumps[signal.s := pump], w.log + fired)
  }

  /** What the roster shows of the attempt: its newest connectivity event is a disconnect. */
  predicate ShownAway(log: seq<Event>) {
    LastConnection(log).Some? && LastConnection(log).value.Disconnected?
  }

  lemma ShownAfter(log: seq<Event>, e: Event)
    ensures ShownAway(log + [e]) <==> if ConnectionEvent(e) then e.Disconnected? else ShownAway(log)
  {
    assert (log + [e])[..|log|] == log;
  }

  /** A heartbeat leaves the student shown as away exactly when they were, and the socket it came in on is
      not the one that reported it: a new socket's latch starts clear. */
  lemma HeartbeatLeavesAwayIff(w: Sockets, s: nat, elapsed: nat)
    requires s < |w.pumps|
    ensures ShownAway(Signalled(w, BeatsOn(s, elapsed)).log) <==> ShownAway(w.log) && !w.pumps[s].disconnected
  {
    if w.pumps[s].disconnected {
      ShownAfter(w.log, Reconnected);
    } else {
      assert w.log + [] == w.log;
    }
  }

  function Heard(w: Sockets, s: nat, beats: seq<nat>): Sockets {
    if beats == [] then w else Signalled(Heard(w, s, beats[..|beats| - 1]), BeatsOn(s, beats[|beats| - 1]))
  }

  /** So a student who comes back on a new socket stays shown as away however long that socket goes on
      beating; the first disconnect and reconnect of the new socket is what clears it. */
  lemma {:induction false} ComingBackOnANewSocketIsNotShown(w: Sockets, elapsed: nat, beats: seq<nat>)
    requires ShownAway(w.log)
    ensures var back := Heard(Signalled(w, Opens(elapsed)), |w.pumps|, beats);
            |back.pumps| == |w.pumps| + 1 && !back.pumps[|w.pumps|].disconnected && ShownAway(back.log)
  {
    if beats != [] {
      ComingBackOnANewSocketIsNotShown(w, elapsed, beats[..|beats| - 1]);
      HeartbeatLeavesAwayIff(Heard(Signalled(w, Opens(elapsed)), |w.pumps|, beats[..|beats| - 1]), |w.pumps|,
                             beats[|beats| - 1]);
    }
  }

  const SILENT := Sockets(HEARTBEAT_TIMEOUT, [Pump(true, 0, None)], [Disconnected(0)])

  /** Two sockets are enough: silence on the first, then a reconnect and a heartbeat on the second. */
  lemma BeatingStudentShownAway()
    ensures Signalled(Signalled(Sockets(0, [], []), Opens(0)), ExpiresOn(0, HEARTBEAT_TIMEOUT)) == SILENT
    ensures ShownAway(Heard(Signalled(SILENT, Opens(0)), 1, [1]).log)
  {
    assert [] + [Disconnected(0)] == SILENT.log;
    ShownAfter([], Disconnected(0));
    ComingBackOnANewSocketIsNotShown(SILENT, 0, [1]);
  }
}
