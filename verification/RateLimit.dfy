/** The in-memory sliding-window limiter (server/internal/ratelimit/ratelimit.go): hits compacted in
    place and abandoned keys dropped, against a history that keeps everything. */
module RateLimit {
  /** A moment or a duration, in any unit. */
  type Time = int
  datatype Key = Key(name: string)
  type Hits = map<Key, seq<Time>>

  const CLEANUP_SIZE := 10_000

  datatype Decision = Decision(ok: bool, retryAfter: Time)

  function Get(h: Hits, key: Key): seq<Time> {
    if key in h then h[key] else []
  }

  /** The hits still inside the window, in order. */
  function Recent(ts: seq<Time>, cutoff: Time): (r: seq<Time>)
    ensures |r| <= |ts|
    ensures r != [] ==> r[0] > cutoff
  {
    if ts == [] then []
    else
      var rest, last := Recent(ts[..|ts| - 1], cutoff), ts[|ts| - 1];
      if last > cutoff then rest + [last] else rest
  }

  predicate Abandoned(ts: seq<Time>, cutoff: Time) {
    ts == [] || ts[|ts| - 1] <= cutoff
  }

  function Cleaned(h: Hits, cutoff: Time): Hits {
    map k | k in h && !Abandoned(h[k], cutoff) :: h[k]
  }

  datatype Step = Step(hits: Hits, decision: Decision)

  function Recorded(added: Hits, cutoff: Time): Hits {
    if |added| > CLEANUP_SIZE then Cleaned(added, cutoff) else added
  }

  /** Refused while the window is full, with the time until its oldest hit leaves. */
  function Decide(h: Hits, key: Key, now: Time, limit: nat, window: Time): Decision
    requires limit >= 1
  {
    var kept := Recent(Get(h, key), now - window);
    if |kept| >= limit then Decision(false, kept[0] - (now - window)) else Decision(true, 0)
  }

  function Allowed(h: Hits, key: Key, now: Time, limit: nat, window: Time): Step
    requires limit >= 1
  {
    var kept, decision := Recent(Get(h, key), now - window), Decide(h, key, now, limit, window);
    Step(if decision.ok then Recorded(h[key := kept + [now]], now - window) else h[key := kept], decision)
  }

  // ----- The limiter itself -----

  /** kept shares the array of the slice it filters, so each kept hit is written over one already read. */
  method CompactInPlace(buf: array<Time>, cutoff: Time) returns (n: nat)
    modifies buf
    ensures n <= buf.Length && buf[..n] == Recent(old(buf[..]), cutoff)
  {
    ghost var hits := buf[..];
    n := 0;
    for i := 0 to buf.Length
      invariant n <= i && buf[..n] == Recent(hits[..i], cutoff)
      invariant forall k | i <= k < buf.Length :: buf[k] == hits[k]
    {
      assert hits[..i + 1][..i] == hits[..i];
      var t := buf[i];
      if t > cutoff {
        ghost var kept := buf[..n];
        buf[n] := t;
        n := n + 1;
        assert buf[..n] == kept + [t];
      }
    }
    assert hits[..buf.Length] == hits;
  }

  method Compact(hits: seq<Time>, cutoff: Time) returns (kept: seq<Time>)
    ensures kept == Recent(hits, cutoff)
  {
    var buf := new Time[|hits|](i requires 0 <= i < |hits| => hits[i]);
    assert buf[..] == hits;
    var n := CompactInPlace(buf, cutoff);
    kept := buf[..n];
  }

  class Limiter {
    const limit: nat
    const window: Time
    var hits: Hits

    /** A limiter of nothing would read the first of no hits, so the limit is at least one. */
    constructor (limit: nat, window: Time)
      requires limit >= 1
      ensures this.limit == limit && this.window == window && hits == map[]
    {
      this.limit, this.window, hits := limit, window, map[];
    }

    method Allow(key: Key, now: Time) returns (ok: bool, retryAfter: Time)
      requires limit >= 1
      modifies this
      ensures Step(hits, Decision(ok, retryAfter)) == Allowed(old(hits), key, now, limit, window)
    {
      var cutoff := now - window;
      var kept := Compact(Get(hits, key), cutoff);
      if |kept| >= limit {
        hits := hits[key := kept];
        return false, kept[0] - cutoff;
      }
      hits := hits[key := kept + [now]];
      if |hits| > CLEANUP_SIZE {
        DropAbandoned(cutoff);
      }
      return true, 0;
    }

    /** Every key whose last hit has left the window is deleted. */
    method DropAbandoned(cutoff: Time)
      modifies this
      ensures hits == Cleaned(old(hits), cutoff)
    {
      var left := hits.Keys;
      while left != {}
        invariant left <= hits.Keys
        invariant forall k | k in hits :: k in old(hits) && hits[k] == old(hits)[k]
        invariant forall k | k in old(hits) :: k in hits <==> k in left || !Abandoned(old(hits)[k], cutoff)
        decreases left
      {
        var k :| k in left;
        left := left - {k};
        var ts := hits[k];
        if |ts| == 0 || ts[|ts| - 1] <= cutoff {
          hits := hits - {k};
        }
      }
    }
  }

  // ----- The history that keeps everything -----

  /** In order of time, and none later than now. */
  predicate Past(ts: seq<Time>, now: Time) {
    ts == [] || (ts[|ts| - 1] <= now && Past(ts[..|ts| - 1], ts[|ts| - 1]))
  }

  lemma PastSnoc(ts: seq<Time>, now: Time)
    requires Past(ts, now)
    ensures Past(ts + [now], now)
  {
    assert (ts + [now])[..|ts|] == ts;
  }

  lemma PastLater(ts: seq<Time>, now: Time, later: Time)
    requires Past(ts, now) && now <= later
    ensures Past(ts, later)
  {
  }

  lemma {:induction false} PastOrder(ts: seq<Time>, now: Time, i: nat, j: nat)
    requires Past(ts, now) && i <= j < |ts|
    ensures ts[i] <= ts[j] <= now
  {
    var n := |ts| - 1;
    if j < n {
      PastOrder(ts[..n], ts[n], i, j);
    } else if i < n {
      PastOrder(ts[..n], ts[n], i, i);
    }
  }

  lemma RecentSnoc(ts: seq<Time>, t: Time, cutoff: Time)
    ensures Recent(ts + [t], cutoff) == Recent(ts, cutoff) + (if t > cutoff then [t] else [])
  {
    assert (ts + [t])[..|ts|] == ts;
  }

  /** Pruning by an earlier cutoff loses nothing a later one would keep. */
  lemma {:induction false} RecentTwice(ts: seq<Time>, earlier: Time, later: Time)
    requires earlier <= later
    ensures Recent(Recent(ts, earlier), later) == Recent(ts, later)
  {
    if ts != [] {
      var rest, last := ts[..|ts| - 1], ts[|ts| - 1];
      RecentTwice(rest, earlier, later);
      RecentSnoc(Recent(rest, earlier), last, later);
    }
  }

  lemma {:induction false} AbandonedHasNothingRecent(ts: seq<Time>, cutoff: Time, now: Time)
    requires Past(ts, now) && Abandoned(ts, cutoff)
    ensures Recent(ts, cutoff) == []
  {
    if ts != [] {
      AbandonedHasNothingRecent(ts[..|ts| - 1], cutoff, ts[|ts| - 1]);
    }
  }

  /** In order of time, the recent hits are the tail of the history. */
  lemma {:induction false} RecentIsTail(ts: seq<Time>, cutoff: Time, now: Time)
    requires Past(ts, now)
    ensures var n := |ts| - |Recent(ts, cutoff)|;
            Recent(ts, cutoff) == ts[n..] && forall i | 0 <= i < n :: ts[i] <= cutoff
  {
    if ts != [] {
      var rest, last := ts[..|ts| - 1], ts[|ts| - 1];
      RecentIsTail(rest, cutoff, last);
      if last > cutoff {
        var n := |rest| - |Recent(rest, cutoff)|;
        assert ts[n..] == rest[n..] + [last];
      } else {
        AbandonedHasNothingRecent(ts, cutoff, now);
        forall i | 0 <= i < |ts|
          ensures ts[i] <= cutoff
        {
          PastOrder(ts, now, i, |ts| - 1);
        }
      }
    }
  }

  predicate SpacedAt(ts: seq<Time>, j: nat, limit: nat, window: Time)
    requires limit <= j < |ts|
  {
    ts[j] - ts[j - limit] >= window
  }

  /** Accepted hits are at least one window behind the hit that is limit places later. */
  predicate Spaced(ts: seq<Time>, limit: nat, window: Time) {
    forall j | limit <= j < |ts| :: SpacedAt(ts, j, limit, window)
  }

  lemma SpacedGap(ts: seq<Time>, i: nat, limit: nat, window: Time)
    requires Spaced(ts, limit, window) && i + limit < |ts|
    ensures ts[i + limit] - ts[i] >= window
  {
    assert SpacedAt(ts, i + limit, limit, window);
  }

  /** What the pruned slice of a key and its full history have in common. */
  predicate KeyRefines(pruned: seq<Time>, full: seq<Time>, now: Time, cutoff: Time, limit: nat, window: Time) {
    && Past(pruned, now) && Past(full, now) && Spaced(full, limit, window)
    && Recent(pruned, cutoff) == Recent(full, cutoff)
  }

  datatype World = World(now: Time, hits: Hits, history: Hits)

  predicate WorldKey(w: World, key: Key, limit: nat, window: Time) {
    KeyRefines(Get(w.hits, key), Get(w.history, key), w.now, w.now - window, limit, window)
  }

  ghost predicate Refines(w: World, limit: nat, window: Time) {
    forall key: Key :: WorldKey(w, key, limit, window)
  }

  function Call(w: World, key: Key, wait: nat, limit: nat, window: Time): World
    requires limit >= 1
  {
    var now := w.now + wait;
    var step := Allowed(w.hits, key, now, limit, window);
    World(now, step.hits, if step.decision.ok then w.history[key := Get(w.history, key) + [now]] else w.history)
  }

  // ----- One key -----

  lemma Later(pruned: seq<Time>, full: seq<Time>, now: Time, later: Time, cutoff: Time, cutoff': Time, limit: nat,
              window: Time)
    requires KeyRefines(pruned, full, now, cutoff, limit, window) && now <= later && cutoff <= cutoff'
    ensures KeyRefines(pruned, full, later, cutoff', limit, window)
  {
    RecentTwice(pruned, cutoff, cutoff');
    RecentTwice(full, cutoff, cutoff');
    PastLater(pruned, now, later);
    PastLater(full, now, later);
  }

  lemma {:induction false} PastRecent(ts: seq<Time>, cutoff: Time, now: Time)
    requires Past(ts, now)
    ensures Past(Recent(ts, cutoff), now)
  {
    if ts != [] {
      var last := ts[|ts| - 1];
      PastRecent(ts[..|ts| - 1], cutoff, last);
      PastSnoc(Recent(ts[..|ts| - 1], cutoff), last);
    }
  }

  lemma SpacedSnoc(full: seq<Time>, now: Time, cutoff: Time, limit: nat, window: Time)
    requires limit >= 1 && cutoff == now - window
    requires Past(full, now) && Spaced(full, limit, window) && |Recent(full, cutoff)| < limit
    ensures Spaced(full + [now], limit, window)
  {
    RecentIsTail(full, cutoff, now);
    forall j | limit <= j < |full| + 1
      ensures SpacedAt(full + [now], j, limit, window)
    {
      if j < |full| {
        assert SpacedAt(full, j, limit, window);
      }
    }
  }

  lemma RecentAfterAccept(pruned: seq<Time>, full: seq<Time>, now: Time, cutoff: Time)
    requires Recent(pruned, cutoff) == Recent(full, cutoff)
    ensures Recent(Recent(pruned, cutoff) + [now], cutoff) == Recent(full + [now], cutoff)
  {
    RecentSnoc(Recent(pruned, cutoff), now, cutoff);
    RecentSnoc(full, now, cutoff);
    RecentTwice(pruned, cutoff, cutoff);
  }

  lemma {:induction false} AcceptedKeyRefines(pruned: seq<Time>, full: seq<Time>, now: Time, cutoff: Time, limit: nat,
                                              window: Time)
    requires limit >= 1 && cutoff == now - window
    requires KeyRefines(pruned, full, now, cutoff, limit, window) && |Recent(full, cutoff)| < limit
    ensures KeyRefines(Recent(pruned, cutoff) + [now], full + [now], now, cutoff, limit, window)
  {
    PastRecent(pruned, cutoff, now);
    PastSnoc(Recent(pruned, cutoff), now);
    PastSnoc(full, now);
    SpacedSnoc(full, now, cutoff, limit, window);
    RecentAfterAccept(pruned, full, now, cutoff);
  }

  lemma RefusedKeyRefines(pruned: seq<Time>, full: seq<Time>, now: Time, cutoff: Time, limit: nat, window: Time)
    requires KeyRefines(pruned, full, now, cutoff, limit, window)
    ensures KeyRefines(Recent(pruned, cutoff), full, now, cutoff, limit, window)
  {
    PastRecent(pruned, cutoff, now);
    RecentTwice(pruned, cutoff, cutoff);
  }

  /** Dropping an abandoned key leaves nothing recent behind. */
  lemma DroppedKeyRefines(pruned: seq<Time>, full: seq<Time>, now: Time, cutoff: Time, limit: nat, window: Time)
    requires KeyRefines(pruned, full, now, cutoff, limit, window) && Abandoned(pruned, cutoff)
    ensures KeyRefines([], full, now, cutoff, limit, window)
  {
    AbandonedHasNothingRecent(pruned, cutoff, now);
  }

  /** How a call at cutoff may leave a slice: its own key touched, any key perhaps dropped. */
  predicate KeyMoves(pruned: seq<Time>, full: seq<Time>, mine: bool, ok: bool, now: Time, cutoff: Time,
                     after: seq<Time>, extended: seq<Time>) {
    var kept := if !mine then pruned else if ok then Recent(pruned, cutoff) + [now] else Recent(pruned, cutoff);
    && extended == (if mine && ok then full + [now] else full)
    && (after == kept || (after == [] && Abandoned(kept, cutoff)))
  }

  lemma KeyStep(pruned: seq<Time>, full: seq<Time>, mine: bool, ok: bool, now: Time, cutoff: Time,
                after: seq<Time>, extended: seq<Time>, limit: nat, window: Time)
    requires limit >= 1 && cutoff == now - window && KeyRefines(pruned, full, now, cutoff, limit, window)
    requires mine && ok ==> |Recent(full, cutoff)| < limit
    requires KeyMoves(pruned, full, mine, ok, now, cutoff, after, extended)
    ensures KeyRefines(after, extended, now, cutoff, limit, window)
  {
    var kept := pruned;
    if mine && ok {
      kept := Recent(pruned, cutoff) + [now];
      AcceptedKeyRefines(pruned, full, now, cutoff, limit, window);
    } else if mine {
      kept := Recent(pruned, cutoff);
      RefusedKeyRefines(pruned, full, now, cutoff, limit, window);
    }
    if after != kept {
      DroppedKeyRefines(kept, extended, now, cutoff, limit, window);
    }
  }

  // ----- Every key, along every run of calls -----

  lemma CallMovesKey(w: World, key: Key, k: Key, wait: nat, limit: nat, window: Time)
    requires limit >= 1
    ensures var w' := Call(w, key, wait, limit, window);
            && w'.now == w.now + wait
            && KeyMoves(Get(w.hits, k), Get(w.history, k), k == key,
                        |Recent(Get(w.hits, key), w'.now - window)| < limit,
                        w'.now, w'.now - window, Get(w'.hits, k), Get(w'.history, k))
  {
  }

  lemma {:induction false} CallRefinesKey(w: World, key: Key, k: Key, wait: nat, limit: nat, window: Time)
    requires limit >= 1 && WorldKey(w, k, limit, window)
    ensures WorldKey(Call(w, key, wait, limit, window), k, limit, window)
  {
    var pruned, full, now, cutoff := Get(w.hits, k), Get(w.history, k), w.now + wait, w.now + wait - window;
    Later(pruned, full, w.now, now, w.now - window, cutoff, limit, window);
    var w' := Call(w, key, wait, limit, window);
    CallMovesKey(w, key, k, wait, limit, window);
    KeyStep(pruned, full, k == key, |Recent(Get(w.hits, key), cutoff)| < limit, now, cutoff,
            Get(w'.hits, k), Get(w'.history, k), limit, window);
  }

  lemma CallRefines(w: World, key: Key, wait: nat, limit: nat, window: Time)
    requires limit >= 1 && Refines(w, limit, window)
    ensures Refines(Call(w, key, wait, limit, window), limit, window)
  {
    forall k: Key
      ensures WorldKey(Call(w, key, wait, limit, window), k, limit, window)
    {
      CallRefinesKey(w, key, k, wait, limit, window);
    }
  }

  datatype Arrival = Arrival(key: Key, wait: nat)

  function Calls(w: World, arrivals: seq<Arrival>, limit: nat, window: Time): World
    requires limit >= 1
  {
    if arrivals == [] then w
    else
      var last := arrivals[|arrivals| - 1];
      Call(Calls(w, arrivals[..|arrivals| - 1], limit, window), last.key, last.wait, limit, window)
  }

  function Start(now: Time): World {
    World(now, map[], map[])
  }

  lemma {:induction false} RefinesAlways(now: Time, arrivals: seq<Arrival>, limit: nat, window: Time)
    requires limit >= 1
    ensures Refines(Calls(Start(now), arrivals, limit, window), limit, window)
  {
    if arrivals != [] {
      var last := arrivals[|arrivals| - 1];
      RefinesAlways(now, arrivals[..|arrivals| - 1], limit, window);
      CallRefines(Calls(Start(now), arrivals[..|arrivals| - 1], limit, window), last.key, last.wait, limit, window);
    }
  }

  // ----- The results -----

  predicate SameDecision(w: World, key: Key, wait: nat, limit: nat, window: Time)
    requires limit >= 1
  {
    Decide(w.hits, key, w.now + wait, limit, window) == Decide(w.history, key, w.now + wait, limit, window)
  }

  lemma RefinedDecides(w: World, key: Key, wait: nat, limit: nat, window: Time)
    requires limit >= 1 && Refines(w, limit, window)
    ensures SameDecision(w, key, wait, limit, window)
  {
    assert WorldKey(w, key, limit, window);
    Later(Get(w.hits, key), Get(w.history, key), w.now, w.now + wait, w.now - window, w.now + wait - window, limit,
          window);
  }

  /** After any calls, in-place compaction and cleanup included, the next decision is the one the full
      history gives. */
  lemma DecidesLikeFullHistory(now: Time, arrivals: seq<Arrival>, limit: nat, window: Time, key: Key, wait: nat)
    requires limit >= 1
    ensures SameDecision(Calls(Start(now), arrivals, limit, window), key, wait, limit, window)
  {
    RefinesAlways(now, arrivals, limit, window);
    RefinedDecides(Calls(Start(now), arrivals, limit, window), key, wait, limit, window);
  }

  /** Of any limit + 1 hits in a row, the last is at least a window after the first. */
  predicate WindowsHold(accepted: seq<Time>, limit: nat, window: Time) {
    forall i, j | 0 <= i <= j < |accepted| && accepted[j] - accepted[i] < window :: j - i + 1 <= limit
  }

  lemma SpacedBound(ts: seq<Time>, limit: nat, window: Time, now: Time)
    requires limit >= 1 && Past(ts, now) && Spaced(ts, limit, window)
    ensures WindowsHold(ts, limit, window)
  {
    forall i, j | 0 <= i && i + limit <= j < |ts|
      ensures ts[j] - ts[i] >= window
    {
      PastOrder(ts, now, i + limit, j);
      SpacedGap(ts, i, limit, window);
    }
  }

  /** No half-open window of the limiter's length ever holds more than limit accepted hits of a key. */
  lemma AtMostLimitPerWindow(now: Time, arrivals: seq<Arrival>, limit: nat, window: Time, key: Key)
    requires limit >= 1
    ensures WindowsHold(Get(Calls(Start(now), arrivals, limit, window).history, key), limit, window)
  {
    var w := Calls(Start(now), arrivals, limit, window);
    RefinesAlways(now, arrivals, limit, window);
    assert WorldKey(w, key, limit, window);
    SpacedBound(Get(w.history, key), limit, window, w.now);
  }

  /** A refused caller's window holds exactly limit hits. */
  lemma FullWindow(full: seq<Time>, now: Time, cutoff: Time, limit: nat, window: Time)
    requires limit >= 1 && cutoff == now - window && Past(full, now) && Spaced(full, limit, window)
    ensures |Recent(full, cutoff)| <= limit
  {
    RecentIsTail(full, cutoff, now);
    var n := |full| - |Recent(full, cutoff)|;
    if n + limit < |full| {
      assert full[n] == Recent(full, cutoff)[0];
      PastOrder(full, now, n, n + limit);
      SpacedGap(full, n, limit, window);
    }
  }

  lemma OldestLeaves(kept: seq<Time>, cutoff: Time, now: Time)
    requires kept != [] && Past(kept, now)
    ensures |Recent(kept, cutoff)| < |kept| <==> kept[0] <= cutoff
  {
    RecentIsTail(kept, cutoff, now);
  }

  /** A refusal's wait is positive, and a retry delay later is accepted exactly when delay covers it. */
  predicate LeastRetry(w: World, key: Key, wait: nat, delay: nat, limit: nat, window: Time)
    requires limit >= 1
  {
    var refusal := Allowed(w.hits, key, w.now + wait, limit, window);
    !refusal.decision.ok ==>
      && refusal.decision.retryAfter > 0
      && (Decide(refusal.hits, key, w.now + wait + delay, limit, window).ok <==> delay >= refusal.decision.retryAfter)
  }

  lemma OldestDecides(pruned: seq<Time>, full: seq<Time>, now: Time, cutoff: Time, later: Time, limit: nat,
                      window: Time)
    requires limit >= 1 && cutoff == now - window && KeyRefines(pruned, full, now, cutoff, limit, window)
    requires |Recent(pruned, cutoff)| >= limit
    ensures var kept := Recent(pruned, cutoff); |Recent(kept, later)| < limit <==> kept[0] <= later
  {
    FullWindow(full, now, cutoff, limit, window);
    PastRecent(pruned, cutoff, now);
    OldestLeaves(Recent(pruned, cutoff), later, now);
  }

  lemma RefinedRetries(w: World, key: Key, wait: nat, delay: nat, limit: nat, window: Time)
    requires limit >= 1 && WorldKey(w, key, limit, window)
    ensures LeastRetry(w, key, wait, delay, limit, window)
  {
    var pruned, full, now := Get(w.hits, key), Get(w.history, key), w.now + wait;
    Later(pruned, full, w.now, now, w.now - window, now - window, limit, window);
    if |Recent(pruned, now - window)| >= limit {
      OldestDecides(pruned, full, now, now - window, now + delay - window, limit, window);
    }
  }

  /** The wait a refusal reports is the least one: with no other call in between, a retry is accepted
      exactly when it comes at least that much later, on every refusal the limiter ever gives. */
  lemma RetryAfterIsLeast(now: Time, arrivals: seq<Arrival>, limit: nat, window: Time, key: Key, wait: nat)
    requires limit >= 1
    ensures forall delay: nat :: LeastRetry(Calls(Start(now), arrivals, limit, window), key, wait, delay, limit, window)
  {
    var w := Calls(Start(now), arrivals, limit, window);
    RefinesAlways(now, arrivals, limit, window);
    assert WorldKey(w, key, limit, window);
    forall delay: nat
      ensures LeastRetry(w, key, wait, delay, limit, window)
    {
      RefinedRetries(w, key, wait, delay, limit, window);
    }
  }
}
