/** The progress coalescer (server/internal/attempt/coalesce.go): at most one progress relay per attempt
    and window, from a map that is swept every so often, against the record of everything it relayed. */
module Coalescer {
  import opened Common

  /** Microseconds. */
  type Time = int
  datatype Id = Id(uuid: string)

  const SECOND: Time := 1_000_000
  const WINDOW: Time := 2 * SECOND
  const SWEEP_INTERVAL := 1024

  datatype Relay = Relay(attempt: Id, progress: bool, at: Time)

  datatype Throttle = Throttle(last: map<Id, Time>, fires: nat)

  function Swept(last: map<Id, Time>, now: Time): map<Id, Time> {
    map id | id in last && now - last[id] < WINDOW :: last[id]
  }

  predicate Admits(last: map<Id, Time>, id: Id, now: Time) {
    id in last ==> now - last[id] >= WINDOW
  }

  function Admitted(t: Throttle, id: Id, now: Time): Throttle {
    var last := t.last[id := now];
    if t.fires + 1 >= SWEEP_INTERVAL then Throttle(Swept(last, now), 0) else Throttle(last, t.fires + 1)
  }

  /** relayed stands for the inner publisher: what it was handed, in order. */
  class ProgressCoalescer {
    var last: map<Id, Time>
    var fires: nat
    var relayed: seq<Relay>

    constructor ()
      ensures last == map[] && fires == 0 && relayed == []
    {
      last, fires, relayed := map[], 0, [];
    }

    method Admit(attempt: Id, now: Time) returns (ok: bool)
      modifies this`last, this`fires
      ensures ok == Admits(old(last), attempt, now)
      ensures Throttle(last, fires) == if ok then Admitted(old(Throttle(last, fires)), attempt, now)
                                       else old(Throttle(last, fires))
    {
      if attempt in last && now - last[attempt] < WINDOW {
        return false;
      }
      last := last[attempt := now];
      fires := fires + 1;
      if fires >= SWEEP_INTERVAL {
        fires := 0;
        Sweep(now);
      }
      return true;
    }

    method Sweep(now: Time)
      modifies this`last
      ensures last == Swept(old(last), now)
    {
      var left := last.Keys;
      while left != {}
        invariant left <= last.Keys
        invariant forall k | k in last :: k in old(last) && last[k] == old(last)[k]
        invariant forall k | k in old(last) :: k in last <==> k in left || now - old(last)[k] < WINDOW
        decreases left
      {
        var k :| k in left;
        left := left - {k};
        if now - last[k] >= WINDOW {
          last := last - {k};
        }
      }
    }

    method Publish(attempt: Id, progress: bool, now: Time)
      modifies this
      ensures World(now, Throttle(last, fires), relayed)
           == Published(World(now, old(Throttle(last, fires)), old(relayed)), attempt, progress, 0)
    {
      if !progress {
        relayed := relayed + [Relay(attempt, false, now)];
        return;
      }
      var ok := Admit(attempt, now);
      if !ok {
        return;
      }
      relayed := relayed + [Relay(attempt, true, now)];
    }
  }

  // ----- Runs -----

  datatype World = World(now: Time, throttle: Throttle, relayed: seq<Relay>)

  function Published(w: World, attempt: Id, progress: bool, wait: nat): World {
    var now := w.now + wait;
    if !progress then World(now, w.throttle, w.relayed + [Relay(attempt, false, now)])
    else if !Admits(w.throttle.last, attempt, now) then World(now, w.throttle, w.relayed)
    else World(now, Admitted(w.throttle, attempt, now), w.relayed + [Relay(attempt, true, now)])
  }

  datatype Arrival = Arrival(attempt: Id, progress: bool, wait: nat)

  function Run(w: World, arrivals: seq<Arrival>): World {
    if arrivals == [] then w
    else
      var last := arrivals[|arrivals| - 1];
      Published(Run(w, arrivals[..|arrivals| - 1]), last.attempt, last.progress, last.wait)
  }

  function Start(now: Time): World {
    World(now, Throttle(map[], 0), [])
  }

  /** The newest progress relay of an attempt, among everything relayed. */
  function LastRelay(relayed: seq<Relay>, id: Id): Option<Time> {
    if relayed == [] then None
    else
      var r := relayed[|relayed| - 1];
      if r.progress && r.attempt == id then Some(r.at) else LastRelay(relayed[..|relayed| - 1], id)
  }

  /** The decision of a throttle that never forgets. */
  predicate FullAdmits(relayed: seq<Relay>, id: Id, now: Time) {
    LastRelay(relayed, id).Some? ==> now - LastRelay(relayed, id).value >= WINDOW
  }

  /** What the map remembers is the newest relay; what it has forgotten no longer matters. */
  predicate Remembers(last: map<Id, Time>, relayed: seq<Relay>, id: Id, now: Time) {
    if id in last then LastRelay(relayed, id) == Some(last[id]) && last[id] <= now
    else FullAdmits(relayed, id, now)
  }

  ghost predicate Inv(w: World) {
    && w.throttle.fires < SWEEP_INTERVAL
    && forall id: Id :: Remembers(w.throttle.last, w.relayed, id, w.now)
  }

  lemma LastRelaySnoc(relayed: seq<Relay>, r: Relay, id: Id)
    ensures LastRelay(relayed + [r], id) == if r.progress && r.attempt == id then Some(r.at) else LastRelay(relayed, id)
  {
    assert (relayed + [r])[..|relayed|] == relayed;
  }

  lemma PublishedRemembers(w: World, attempt: Id, progress: bool, wait: nat, id: Id)
    requires Remembers(w.throttle.last, w.relayed, id, w.now)
    ensures var w' := Published(w, attempt, progress, wait);
            Remembers(w'.throttle.last, w'.relayed, id, w'.now)
  {
    LastRelaySnoc(w.relayed, Relay(attempt, progress, w.now + wait), id);
  }

  lemma PublishedKeeps(w: World, attempt: Id, progress: bool, wait: nat)
    requires Inv(w)
    ensures Inv(Published(w, attempt, progress, wait))
  {
    var w' := Published(w, attempt, progress, wait);
    forall id: Id
      ensures Remembers(w'.throttle.last, w'.relayed, id, w'.now)
    {
      PublishedRemembers(w, attempt, progress, wait, id);
    }
  }

  lemma {:induction false} InvAlways(now: Time, arrivals: seq<Arrival>)
    ensures Inv(Run(Start(now), arrivals))
  {
    if arrivals != [] {
      var last := arrivals[|arrivals| - 1];
      InvAlways(now, arrivals[..|arrivals| - 1]);
      PublishedKeeps(Run(Start(now), arrivals[..|arrivals| - 1]), last.attempt, last.progress, last.wait);
    }
  }

  // ----- The results -----

  /** After any publishes, the swept map decides as the record of every relay does. */
  lemma DecidesLikeFullRecord(now: Time, arrivals: seq<Arrival>, id: Id, wait: nat)
    ensures var w := Run(Start(now), arrivals);
            Admits(w.throttle.last, id, w.now + wait) <==> FullAdmits(w.relayed, id, w.now + wait)
  {
    InvAlways(now, arrivals);
    var w := Run(Start(now), arrivals);
    assert Remembers(w.throttle.last, w.relayed, id, w.now);
  }

  /** The same throttle without its memory sweep. */
  function UnsweptPublished(w: World, attempt: Id, progress: bool, wait: nat): World {
    var now := w.now + wait;
    if !progress then World(now, w.throttle, w.relayed + [Relay(attempt, false, now)])
    else if !Admits(w.throttle.last, attempt, now) then World(now, w.throttle, w.relayed)
    else World(now, w.throttle.(last := w.throttle.last[attempt := now]), w.relayed + [Relay(attempt, true, now)])
  }

  function Unswept(w: World, arrivals: seq<Arrival>): World {
    if arrivals == [] then w
    else
      var last := arrivals[|arrivals| - 1];
      UnsweptPublished(Unswept(w, arrivals[..|arrivals| - 1]), last.attempt, last.progress, last.wait)
  }

  predicate KeepsKey(w: World, id: Id) {
    LastRelay(w.relayed, id) == if id in w.throttle.last then Some(w.throttle.last[id]) else None
  }

  lemma UnsweptKeepsKey(w: World, attempt: Id, progress: bool, wait: nat, id: Id)
    requires KeepsKey(w, id)
    ensures KeepsKey(UnsweptPublished(w, attempt, progress, wait), id)
  {
    LastRelaySnoc(w.relayed, Relay(attempt, progress, w.now + wait), id);
  }

  lemma {:induction false} UnsweptKeepsAll(now: Time, arrivals: seq<Arrival>, id: Id)
    ensures KeepsKey(Unswept(Start(now), arrivals), id)
  {
    if arrivals != [] {
      var last := arrivals[|arrivals| - 1];
      UnsweptKeepsAll(now, arrivals[..|arrivals| - 1], id);
      UnsweptKeepsKey(Unswept(Start(now), arrivals[..|arrivals| - 1]), last.attempt, last.progress, last.wait, id);
    }
  }

  lemma SameRelay(swept: World, unswept: World, last: Arrival)
    requires swept.relayed == unswept.relayed && swept.now == unswept.now && KeepsKey(unswept, last.attempt)
    requires Admits(swept.throttle.last, last.attempt, swept.now + last.wait)
        <==> FullAdmits(swept.relayed, last.attempt, swept.now + last.wait)
    ensures var s, u := Published(swept, last.attempt, last.progress, last.wait),
                        UnsweptPublished(unswept, last.attempt, last.progress, last.wait);
            s.relayed == u.relayed && s.now == u.now
  {
  }

  /** The memory sweep changes no decision: the relays are those of a throttle that never sweeps. */
  lemma {:induction false} SweepingChangesNothing(now: Time, arrivals: seq<Arrival>)
    ensures Run(Start(now), arrivals).relayed == Unswept(Start(now), arrivals).relayed
    ensures Run(Start(now), arrivals).now == Unswept(Start(now), arrivals).now
  {
    if arrivals != [] {
      var init, last := arrivals[..|arrivals| - 1], arrivals[|arrivals| - 1];
      SweepingChangesNothing(now, init);
      DecidesLikeFullRecord(now, init, last.attempt, last.wait);
      UnsweptKeepsAll(now, init, last.attempt);
      SameRelay(Run(Start(now), init), Unswept(Start(now), init), last);
    }
  }

  /** Two progress relays of one attempt are at least a window apart. */
  predicate Apart(relayed: seq<Relay>, i: nat, j: nat)
    requires i < j < |relayed|
  {
    relayed[i].progress && relayed[j].progress && relayed[i].attempt == relayed[j].attempt
    ==> relayed[j].at - relayed[i].at >= WINDOW
  }

  lemma {:induction false} LastRelayIsNewest(relayed: seq<Relay>, i: nat)
    requires i < |relayed| && relayed[i].progress
    requires forall a, b | 0 <= a < b < |relayed| :: Apart(relayed, a, b)
    ensures LastRelay(relayed, relayed[i].attempt).Some?
    ensures relayed[i].at <= LastRelay(relayed, relayed[i].attempt).value
  {
    var n := |relayed| - 1;
    if i < n {
      if relayed[n].progress && relayed[n].attempt == relayed[i].attempt {
        assert Apart(relayed, i, n);
      } else {
        forall a, b | 0 <= a < b < n
          ensures Apart(relayed[..n], a, b)
        {
          assert Apart(relayed, a, b);
        }
        LastRelayIsNewest(relayed[..n], i);
      }
    }
  }

  lemma {:induction false} RelaysAreAWindowApart(now: Time, arrivals: seq<Arrival>)
    ensures var relayed := Run(Start(now), arrivals).relayed;
            forall i, j | 0 <= i < j < |relayed| :: Apart(relayed, i, j)
  {
    if arrivals != [] {
      var last := arrivals[|arrivals| - 1];
      var before, after := Run(Start(now), arrivals[..|arrivals| - 1]), Run(Start(now), arrivals);
      RelaysAreAWindowApart(now, arrivals[..|arrivals| - 1]);
      DecidesLikeFullRecord(now, arrivals[..|arrivals| - 1], last.attempt, last.wait);
      forall i, j | 0 <= i < j < |after.relayed|
        ensures Apart(after.relayed, i, j)
      {
        if j < |before.relayed| {
          assert Apart(before.relayed, i, j);
        } else if before.relayed[i].progress {
          LastRelayIsNewest(before.relayed, i);
        }
      }
    }
  }

  /** A progress is dropped only within a window of one that was relayed; every other event passes. */
  lemma DroppedOnlyAfterARelay(now: Time, arrivals: seq<Arrival>, next: Arrival)
    ensures var w := Run(Start(now), arrivals);
            var w' := Published(w, next.attempt, next.progress, next.wait);
            if w'.relayed == w.relayed + [Relay(next.attempt, next.progress, w'.now)] then true
            else
              && next.progress && w'.relayed == w.relayed
              && exists i | 0 <= i < |w.relayed| ::
                   && w.relayed[i].progress && w.relayed[i].attempt == next.attempt
                   && 0 <= w'.now - w.relayed[i].at < WINDOW
  {
    var w := Run(Start(now), arrivals);
    InvAlways(now, arrivals);
    assert Remembers(w.throttle.last, w.relayed, next.attempt, w.now);
    LastRelayIsThere(w.relayed, next.attempt);
  }

  lemma {:induction false} LastRelayIsThere(relayed: seq<Relay>, id: Id)
    ensures LastRelay(relayed, id).Some? ==>
              exists i | 0 <= i < |relayed| ::
                relayed[i].progress && relayed[i].attempt == id && relayed[i].at == LastRelay(relayed, id).value
  {
    if relayed != [] && !(relayed[|relayed| - 1].progress && relayed[|relayed| - 1].attempt == id) {
      LastRelayIsThere(relayed[..|relayed| - 1], id);
      if LastRelay(relayed, id).Some? {
        var i :| 0 <= i < |relayed| - 1 && relayed[i].progress && relayed[i].attempt == id
                 && relayed[i].at == LastRelay(relayed, id).value;
      }
    }
  }
}
