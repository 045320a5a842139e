/** Keyset pagination of the audit log (server/internal/audit/audit.go, List): newest first, each page
    starting below the last id of the one before, while rows go on being appended. */
module AuditPages {
  import opened Common

  /** A bigserial primary key. */
  type Id = x: int | x >= 1 witness 1
  type Time = int

  datatype Row = Row(actor: string, action: string, resourceType: string, resourceId: string, at: Time)
  type Log = map<Id, Row>

  /** Empty fields do not filter; a before of zero or less reads from the newest. */
  datatype Filter = Filter(actor: string, action: string, resourceType: string, resourceId: string,
                           from: Option<Time>, to: Option<Time>)

  const DEFAULT_PAGE_SIZE := 50
  const MAX_PAGE_SIZE := 200

  function PageSize(limit: int): (n: nat)
    ensures n == if limit <= 0 then 50 else if limit <= 200 then limit else 200
  {
    if limit <= 0 then DEFAULT_PAGE_SIZE else if limit > MAX_PAGE_SIZE then MAX_PAGE_SIZE else limit
  }

  predicate Matches(f: Filter, row: Row) {
    && (f.actor != "" ==> row.actor == f.actor)
    && (f.action != "" ==> row.action == f.action)
    && (f.resourceType != "" ==> row.resourceType == f.resourceType)
    && (f.resourceId != "" ==> row.resourceId == f.resourceId)
    && (f.from.Some? ==> row.at >= f.from.value)
    && (f.to.Some? ==> row.at < f.to.value)
  }

  /** A field given narrows the rows to those that carry it, and a filter without any keeps every row. */
  lemma FieldsNarrow(f: Filter, row: Row, v: string)
    requires v != ""
    ensures Matches(f.(actor := v), row) <==> Matches(f.(actor := ""), row) && row.actor == v
    ensures Matches(f.(action := v), row) <==> Matches(f.(action := ""), row) && row.action == v
    ensures Matches(f.(resourceType := v), row) <==> Matches(f.(resourceType := ""), row) && row.resourceType == v
    ensures Matches(f.(resourceId := v), row) <==> Matches(f.(resourceId := ""), row) && row.resourceId == v
    ensures Matches(Filter("", "", "", "", None, None), row)
  {
  }

  /** The time range is half open, so a range cut in two shows each row of it in exactly one part. */
  lemma RangesSplit(f: Filter, row: Row, from: Time, cut: Time, to: Time)
    requires from <= cut <= to
    ensures Matches(f.(from := Some(from), to := Some(to)), row) <==>
            Matches(f.(from := Some(from), to := Some(cut)), row) || Matches(f.(from := Some(cut), to := Some(to)), row)
    ensures !(Matches(f.(from := Some(from), to := Some(cut)), row)
              && Matches(f.(from := Some(cut), to := Some(to)), row))
    ensures f.actor == f.action == f.resourceType == f.resourceId == "" ==>
              (Matches(f.(from := Some(from), to := Some(to)), row) <==> from <= row.at < to)
  {
  }

  /** The WHERE clause, cursor included. */
  function Selected(log: Log, f: Filter, before: int): set<Id> {
    set id | id in log && Matches(f, log[id]) && (before > 0 ==> id < before)
  }

  // ----- ORDER BY id DESC LIMIT n -----

  ghost function Newest(ids: set<Id>, n: nat): seq<Id> {
    if n == 0 || ids == {} then []
    else
      ExtremesExist(ids);
      var top :| IsMaximum(ids, top);
      [top] + Newest(ids - {top}, n - 1)
  }

  datatype Page = Page(entries: seq<Id>, next: Option<Id>)

  ghost function PageOf(log: Log, f: Filter, before: int, limit: int): Page {
    var entries := Newest(Selected(log, f, before), PageSize(limit));
    Page(entries, if |entries| == PageSize(limit) then Some(entries[|entries| - 1]) else None)
  }

  lemma NewestIs(ids: set<Id>, n: nat, top: Id)
    requires n > 0 && IsMaximum(ids, top)
    ensures Newest(ids, n) == [top] + Newest(ids - {top}, n - 1)
  {
  }

  lemma NewestSnoc(all: set<Id>, n: nat, entries: seq<Id>, left: set<Id>, top: Id)
    requires |entries| < n && IsMaximum(left, top)
    requires Newest(all, n) == entries + Newest(left, n - |entries|)
    ensures Newest(all, n) == (entries + [top]) + Newest(left - {top}, n - |entries| - 1)
  {
    NewestIs(left, n - |entries|, top);
    assert entries + ([top] + Newest(left - {top}, n - |entries| - 1))
        == (entries + [top]) + Newest(left - {top}, n - |entries| - 1);
  }

  method List(log: Log, f: Filter, before: int, limit: int) returns (page: Page)
    ensures page == PageOf(log, f, before, limit)
  {
    var size := limit;
    if size <= 0 {
      size := DEFAULT_PAGE_SIZE;
    }
    if size > MAX_PAGE_SIZE {
      size := MAX_PAGE_SIZE;
    }
    var left := Selected(log, f, before);
    ghost var all := left;
    var entries: seq<Id> := [];
    while left != {} && |entries| < size
      invariant |entries| <= size
      invariant Newest(all, size) == entries + Newest(left, size - |entries|)
      decreases left
    {
      ExtremesExist(left);
      var top :| top in left && forall k | k in left :: k <= top;
      NewestSnoc(all, size, entries, left, top);
      entries := entries + [top];
      left := left - {top};
    }
    page := Page(entries, None);
    if |entries| == size {
      page := Page(entries, Some(entries[|entries| - 1]));
    }
  }

  predicate Descending(ids: seq<Id>) {
    forall i, j | 0 <= i < j < |ids| :: ids[i] > ids[j]
  }

  predicate Above(page: seq<Id>, id: Id) {
    forall i | 0 <= i < |page| :: id < page[i]
  }

  /** A page is in strictly descending order, holds only selected rows, and what it leaves out is older
      than everything on it; it is short only when nothing is left out. */
  predicate IsTop(page: seq<Id>, ids: set<Id>, n: nat) {
    && |page| <= n && Descending(page) && (forall id | id in page :: id in ids)
    && (forall id | id in ids && id !in page :: |page| == n && Above(page, id))
  }

  lemma TopThenRest(ids: set<Id>, n: nat, top: Id, rest: seq<Id>)
    requires n > 0 && IsMaximum(ids, top) && IsTop(rest, ids - {top}, n - 1)
    ensures IsTop([top] + rest, ids, n)
  {
    assert forall i | 0 <= i < |rest| :: rest[i] in rest;
    forall id | id in ids && id !in [top] + rest
      ensures |rest| == n - 1 && Above([top] + rest, id)
    {
      assert id in ids - {top} && id !in rest;
    }
  }

  lemma {:induction false} NewestIsTheTop(ids: set<Id>, n: nat)
    ensures IsTop(Newest(ids, n), ids, n)
  {
    if n > 0 && ids != {} {
      ExtremesExist(ids);
      var top :| IsMaximum(ids, top);
      NewestIs(ids, n, top);
      NewestIsTheTop(ids - {top}, n - 1);
      TopThenRest(ids, n, top, Newest(ids - {top}, n - 1));
    }
  }

  /** A cursor is an id below the one it was reached from. */
  lemma PageIsTop(log: Log, f: Filter, before: int, limit: int)
    ensures var page := PageOf(log, f, before, limit);
            && IsTop(page.entries, Selected(log, f, before), PageSize(limit))
            && (before > 0 ==> forall id | id in page.entries :: id < before)
            && (page.next.Some? ==> page.entries != [] && page.next.value == page.entries[|page.entries| - 1]
                                    && (before > 0 ==> page.next.value < before))
            && (page.next.None? ==> |page.entries| < PageSize(limit))
  {
    NewestIsTheTop(Selected(log, f, before), PageSize(limit));
    var page := PageOf(log, f, before, limit);
    assert page.next.Some? ==> page.next.value in page.entries;
  }

  // ----- The walk -----

  /** What the table holds at the k-th request; rows are only ever added, with any fresh ids. */
  ghost predicate AppendOnly(logs: nat -> Log) {
    forall k: nat, id: Id | id in logs(k) :: id in logs(k + 1) && logs(k + 1)[id] == logs(k)[id]
  }

  /** Following the cursor from request k on, until a page has none. */
  ghost function Walk(logs: nat -> Log, k: nat, f: Filter, before: int, limit: int): seq<Id>
    decreases before <= 0, before
  {
    var page := PageOf(logs(k), f, before, limit);
    if page.next.None? then page.entries
    else
      PageIsTop(logs(k), f, before, limit);
      page.entries + Walk(logs, k + 1, f, page.next.value, limit)
  }

  /** Everything visited below the cursor, in strictly descending order. */
  lemma {:induction false} WalkDescends(logs: nat -> Log, k: nat, f: Filter, before: int, limit: int)
    ensures Descending(Walk(logs, k, f, before, limit))
    ensures before > 0 ==> forall id | id in Walk(logs, k, f, before, limit) :: id < before
    decreases before <= 0, before
  {
    var page := PageOf(logs(k), f, before, limit);
    PageIsTop(logs(k), f, before, limit);
    if page.next.Some? {
      var rest := Walk(logs, k + 1, f, page.next.value, limit);
      WalkDescends(logs, k + 1, f, page.next.value, limit);
      forall i, j | 0 <= i < |page.entries| && 0 <= j < |rest|
        ensures page.entries[i] > rest[j]
      {
        assert rest[j] in rest;
        var last := |page.entries| - 1;
        assert i < last ==> page.entries[i] > page.entries[last];
      }
    }
  }

  lemma {:induction false} StillThere(logs: nat -> Log, k: nat, j: nat, id: Id)
    requires AppendOnly(logs) && k <= j && id in logs(k)
    ensures id in logs(j) && logs(j)[id] == logs(k)[id]
  {
    if k < j {
      StillThere(logs, k, j - 1, id);
    }
  }

  lemma {:induction false} WalkFinds(logs: nat -> Log, k: nat, f: Filter, before: int, limit: int, id: Id)
    requires AppendOnly(logs) && id in logs(k) && Matches(f, logs(k)[id]) && (before > 0 ==> id < before)
    ensures id in Walk(logs, k, f, before, limit)
    decreases before <= 0, before
  {
    var page := PageOf(logs(k), f, before, limit);
    PageIsTop(logs(k), f, before, limit);
    assert id in Selected(logs(k), f, before);
    if id !in page.entries {
      assert Above(page.entries, id);
      StillThere(logs, k, k + 1, id);
      WalkFinds(logs, k + 1, f, page.next.value, limit, id);
    }
  }

  lemma {:induction false} WalkIsReal(logs: nat -> Log, k: nat, f: Filter, before: int, limit: int, id: Id)
    requires id in Walk(logs, k, f, before, limit)
    ensures exists j: nat | j >= k :: id in logs(j) && Matches(f, logs(j)[id])
    decreases before <= 0, before
  {
    var page := PageOf(logs(k), f, before, limit);
    PageIsTop(logs(k), f, before, limit);
    if id in page.entries {
      assert id in logs(k) && Matches(f, logs(k)[id]);
    } else {
      WalkIsReal(logs, k + 1, f, page.next.value, limit, id);
    }
  }

  /** From the newest page on, whatever is appended in between: finitely many pages visit every matching
      row of the first call exactly once, in strictly descending id order, and only matching rows. */
  lemma WalkVisitsEveryRowOnce(logs: nat -> Log, f: Filter, limit: int)
    requires AppendOnly(logs)
    ensures var walk := Walk(logs, 0, f, 0, limit);
            && Descending(walk)
            && (forall id | id in logs(0) && Matches(f, logs(0)[id]) :: multiset(walk)[id] == 1)
            && (forall id | id in walk :: exists j: nat :: id in logs(j) && Matches(f, logs(j)[id]))
  {
    var walk := Walk(logs, 0, f, 0, limit);
    WalkDescends(logs, 0, f, 0, limit);
    forall id | id in logs(0) && Matches(f, logs(0)[id])
      ensures multiset(walk)[id] == 1
    {
      WalkFinds(logs, 0, f, 0, limit, id);
      OnceInDescending(walk, id);
    }
    forall id | id in walk
      ensures exists j: nat :: id in logs(j) && Matches(f, logs(j)[id])
    {
      WalkIsReal(logs, 0, f, 0, limit, id);
    }
  }

  lemma {:induction false} OnceInDescending(ids: seq<Id>, id: Id)
    requires Descending(ids) && id in ids
    ensures multiset(ids)[id] == 1
  {
    var i :| 0 <= i < |ids| && ids[i] == id;
    assert ids == ids[..i] + [id] + ids[i + 1..];
    assert id !in ids[..i] && id !in ids[i + 1..];
  }
}
