/** Question positions of a draft quiz (server/internal/quiz/service.go): add, import, delete with
    re-densification by rank, and reorder by a checked permutation. */
module QuestionOrder {
  import opened Common

  type QuestionId = nat
  /** The position column of one quiz's questions. */
  type Positions = map<QuestionId, nat>

  // ----- The statements -----

  function Places(pos: Positions): set<nat> {
    set id | id in pos :: pos[id]
  }

  /** coalesce(max(position), 0). */
  ghost function Top(pos: Positions): nat {
    if pos == map[] then 0
    else
      var some :| some in pos;
      assert pos[some] in Places(pos);
      ExtremesExist(Places(pos));
      var top: nat :| IsMaximum(Places(pos), top);
      top
  }

  /** How many questions come before this one. */
  function Before(pos: Positions, id: QuestionId): set<QuestionId>
    requires id in pos
  {
    set k | k in pos && pos[k] < pos[id]
  }

  /** row_number() OVER (ORDER BY position). */
  function Densified(pos: Positions): Positions {
    map id | id in pos :: |Before(pos, id)| + 1
  }

  function IndexOf(ids: seq<QuestionId>, id: QuestionId): (i: nat)
    requires id in ids
    ensures i < |ids| && ids[i] == id
  {
    if ids[|ids| - 1] == id then |ids| - 1 else IndexOf(ids[..|ids| - 1], id)
  }

  /** WITH ORDINALITY: each id's place in the list. */
  function Numbered(ids: seq<QuestionId>, base: nat): Positions {
    map id | id in Elements(ids) :: base + IndexOf(ids, id) + 1
  }

  predicate IsPermutation(ids: seq<QuestionId>, of: set<QuestionId>) {
    Distinct(ids) && Elements(ids) == of
  }

  // ----- Density -----

  /** Positions are 1, 2, ... in the order of the list. */
  predicate Lists(pos: Positions, order: seq<QuestionId>) {
    IsPermutation(order, pos.Keys) && forall i | 0 <= i < |order| :: order[i] in pos && pos[order[i]] == i + 1
  }

  predicate Taken(pos: Positions, p: nat) {
    exists id | id in pos :: pos[id] == p
  }

  predicate Dense(pos: Positions) {
    && (forall id | id in pos :: 1 <= pos[id] <= |pos|)
    && (forall p: nat | 1 <= p <= |pos| :: Taken(pos, p))
    && (forall j, k | j in pos && k in pos && pos[j] == pos[k] :: j == k)
  }

  lemma ListsIsDense(pos: Positions, order: seq<QuestionId>)
    requires Lists(pos, order)
    ensures Dense(pos) && |pos| == |order|
  {
    DistinctCardinality(order);
    assert |pos| == |pos.Keys|;
    forall id | id in pos
      ensures 1 <= pos[id] <= |pos| && order[pos[id] - 1] == id
    {
      assert id in Elements(order);
      var i :| 0 <= i < |order| && order[i] == id;
    }
    forall p: nat | 1 <= p <= |pos|
      ensures Taken(pos, p)
    {
      assert order[p - 1] in pos && pos[order[p - 1]] == p;
    }
  }

  lemma TopOfLists(pos: Positions, order: seq<QuestionId>)
    requires Lists(pos, order)
    ensures Top(pos) == |order|
  {
    ListsIsDense(pos, order);
    if pos != map[] {
      assert pos[order[|order| - 1]] in Places(pos) && pos[order[|order| - 1]] == |order|;
      assert forall p | p in Places(pos) :: p <= |order|;
    }
  }

  // ----- Operations on the order -----

  function Without(order: seq<QuestionId>, id: QuestionId): seq<QuestionId> {
    if order == [] then []
    else
      var rest, last := Without(order[..|order| - 1], id), order[|order| - 1];
      if last == id then rest else rest + [last]
  }

  lemma {:induction false} WithoutElements(order: seq<QuestionId>, id: QuestionId)
    ensures Elements(Without(order, id)) == Elements(order) - {id}
  {
    if order != [] {
      var init, last := order[..|order| - 1], order[|order| - 1];
      WithoutElements(init, id);
      assert order == init + [last] && Elements(order) == Elements(init) + {last};
      var rest := Without(init, id);
      assert Elements(rest + [last]) == Elements(rest) + {last};
    }
  }

  predicate Increasing(order: seq<QuestionId>, pos: Positions) {
    && (forall i | 0 <= i < |order| :: order[i] in pos)
    && forall i, j | 0 <= i < j < |order| :: pos[order[i]] < pos[order[j]]
  }

  lemma {:induction false} WithoutKeepsOrder(order: seq<QuestionId>, pos: Positions, id: QuestionId)
    requires Increasing(order, pos)
    ensures Increasing(Without(order, id), pos)
    ensures forall k | k in Without(order, id) :: k in order && k != id
  {
    if order != [] {
      var init, last := order[..|order| - 1], order[|order| - 1];
      WithoutKeepsOrder(init, pos, id);
      var rest := Without(init, id);
      forall i | 0 <= i < |rest|
        ensures pos[rest[i]] < pos[last]
      {
        assert rest[i] in init;
        var j :| 0 <= j < |init| && init[j] == rest[i];
        assert order[j] == init[j];
      }
    }
  }

  lemma BeforeIsPrefix(pos: Positions, order: seq<QuestionId>, i: nat)
    requires Elements(order) == pos.Keys && Increasing(order, pos) && i < |order|
    ensures Before(pos, order[i]) == Elements(order[..i])
  {
    forall k
      ensures k in Before(pos, order[i]) <==> k in Elements(order[..i])
    {
      if k in pos {
        assert k in Elements(order);
        var j :| 0 <= j < |order| && order[j] == k;
        assert j < i ==> order[..i][j] == k;
        assert j == i ==> pos[k] == pos[order[i]];
      }
    }
  }

  lemma IncreasingIsDistinct(order: seq<QuestionId>, pos: Positions)
    requires Increasing(order, pos)
    ensures Distinct(order)
  {
    forall i, j | 0 <= i < j < |order|
      ensures order[i] != order[j]
    {
      assert pos[order[i]] < pos[order[j]];
    }
  }

  /** Ranks along any increasing listing number it from one, gaps or not. */
  lemma {:induction false} RanksNumber(pos: Positions, order: seq<QuestionId>)
    requires Elements(order) == pos.Keys && Increasing(order, pos)
    ensures Lists(Densified(pos), order)
  {
    IncreasingIsDistinct(order, pos);
    forall i | 0 <= i < |order|
      ensures |Before(pos, order[i])| == i
    {
      BeforeIsPrefix(pos, order, i);
      assert Increasing(order[..i], pos);
      IncreasingIsDistinct(order[..i], pos);
      DistinctCardinality(order[..i]);
    }
  }

  lemma AppendLists(pos: Positions, order: seq<QuestionId>, id: QuestionId)
    requires Lists(pos, order) && id !in pos
    ensures Lists(pos[id := Top(pos) + 1], order + [id])
  {
    TopOfLists(pos, order);
    assert id !in Elements(order);
    assert Elements(order + [id]) == Elements(order) + {id};
  }

  lemma DeleteLists(pos: Positions, order: seq<QuestionId>, id: QuestionId)
    requires Lists(pos, order)
    ensures Lists(Densified(pos - {id}), Without(order, id))
  {
    WithoutElements(order, id);
    WithoutKeepsOrder(order, pos, id);
    assert Increasing(Without(order, id), pos - {id});
    RanksNumber(pos - {id}, Without(order, id));
  }

  lemma NumberedLists(ids: seq<QuestionId>)
    requires Distinct(ids)
    ensures Lists(Numbered(ids, 0), ids)
  {
    forall i | 0 <= i < |ids|
      ensures ids[i] in Elements(ids) && IndexOf(ids, ids[i]) == i
    {
    }
    assert Numbered(ids, 0).Keys == Elements(ids);
  }

  /** A reorder list is accepted exactly when it is a permutation of the existing ids. */
  predicate Accepts(pos: Positions, ids: seq<QuestionId>) {
    |ids| == |pos| && Distinct(ids) && forall id | id in ids :: id in pos
  }

  lemma AcceptsIffPermutation(pos: Positions, ids: seq<QuestionId>)
    ensures Accepts(pos, ids) <==> IsPermutation(ids, pos.Keys)
  {
    DistinctCardinality(ids);
    assert |pos| == |pos.Keys|;
    if Accepts(pos, ids) {
      assert Elements(ids) <= pos.Keys;
      assert pos.Keys == Elements(ids) + (pos.Keys - Elements(ids));
      assert |pos.Keys| == |Elements(ids)| + |pos.Keys - Elements(ids)|;
    }
    if IsPermutation(ids, pos.Keys) {
      assert forall id | id in ids :: id in Elements(ids);
    }
  }

  // ----- Edits -----

  datatype Edit =
    | Adds(id: QuestionId)
    | Imports(ids: seq<QuestionId>)
    | Deletes(id: QuestionId)
    | Reorders(ids: seq<QuestionId>)

  ghost function Imported(pos: Positions, ids: seq<QuestionId>): Positions {
    if ids == [] then pos
    else
      var before := Imported(pos, ids[..|ids| - 1]);
      var id := ids[|ids| - 1];
      if id in before then before else before[id := Top(before) + 1]
  }

  ghost function Apply(pos: Positions, edit: Edit): Positions {
    match edit
    case Adds(id) => if id in pos then pos else pos[id := Top(pos) + 1]
    case Imports(ids) => Imported(pos, ids)
    case Deletes(id) => if id in pos then Densified(pos - {id}) else pos
    case Reorders(ids) => if Accepts(pos, ids) then Numbered(ids, 0) else pos
  }

  ghost function Exec(pos: Positions, edits: seq<Edit>): Positions {
    if edits == [] then pos else Apply(Exec(pos, edits[..|edits| - 1]), edits[|edits| - 1])
  }

  /** The order determines the positions. */
  lemma ListsDetermine(pos: Positions, pos': Positions, order: seq<QuestionId>)
    requires Lists(pos, order) && Lists(pos', order)
    ensures pos == pos'
  {
    assert pos.Keys == Elements(order) == pos'.Keys;
    forall id | id in pos
      ensures pos[id] == pos'[id]
    {
      assert id in Elements(order);
      var i :| 0 <= i < |order| && order[i] == id;
    }
  }

  lemma ImportedSnoc(pos: Positions, init: seq<QuestionId>, id: QuestionId)
    requires id !in Imported(pos, init)
    ensures Imported(pos, init + [id]) == Imported(pos, init)[id := Top(Imported(pos, init)) + 1]
  {
    assert (init + [id])[..|init|] == init;
  }

  lemma NotListed(pos: Positions, listed: seq<QuestionId>, id: QuestionId)
    requires Lists(pos, listed) && id !in listed
    ensures id !in pos
  {
    assert id !in Elements(listed);
  }

  lemma ImportStep(pos: Positions, listed: seq<QuestionId>, init: seq<QuestionId>, id: QuestionId)
    requires Lists(Imported(pos, init), listed) && id !in listed
    ensures Lists(Imported(pos, init + [id]), listed + [id])
  {
    NotListed(Imported(pos, init), listed, id);
    ImportedSnoc(pos, init, id);
    AppendLists(Imported(pos, init), listed, id);
  }

  lemma {:induction false} FreshImportLists(pos: Positions, order: seq<QuestionId>, ids: seq<QuestionId>)
    requires Lists(pos, order) && Distinct(order + ids)
    ensures Lists(Imported(pos, ids), order + ids)
  {
    if ids == [] {
      assert order + ids == order;
    } else {
      var init, id := ids[..|ids| - 1], ids[|ids| - 1];
      var listed := order + init;
      assert order + ids == listed + [id] && ids == init + [id];
      assert forall i | 0 <= i < |listed| :: (order + ids)[i] == listed[i] && (order + ids)[|listed|] == id;
      FreshImportLists(pos, order, init);
      ImportStep(pos, listed, init, id);
    }
  }

  lemma FreshIsDistinct(pos: Positions, order: seq<QuestionId>, ids: seq<QuestionId>)
    requires Lists(pos, order) && Distinct(ids) && forall id | id in ids :: id !in pos
    ensures Distinct(order + ids)
  {
    forall i, j | 0 <= i < |order| && 0 <= j < |ids|
      ensures order[i] != ids[j]
    {
      assert order[i] in pos && ids[j] in ids;
    }
  }

  lemma ReorderLists(pos: Positions, ids: seq<QuestionId>)
    ensures Accepts(pos, ids) <==> IsPermutation(ids, pos.Keys)
    ensures Accepts(pos, ids) ==> Lists(Apply(pos, Reorders(ids)), ids)
  {
    AcceptsIffPermutation(pos, ids);
    if Accepts(pos, ids) {
      NumberedLists(ids);
    }
  }

  // ----- The table -----

  /** order is the order the editor shows. Every method makes its edit, so any calls make their run. */
  class Questions {
    var position: Positions
    ghost var order: seq<QuestionId>

    ghost predicate Valid()
      reads this
    {
      Lists(position, order)
    }

    constructor ()
      ensures Valid() && order == []
    {
      position, order := map[], [];
    }

    method MaxPosition() returns (top: nat)
      requires Valid()
      ensures top == |order|
    {
      ListsIsDense(position, order);
      top := 0;
      var left := position.Keys;
      while left != {}
        invariant left <= position.Keys && 0 <= top <= |order|
        invariant forall id | id in position && id !in left :: position[id] <= top
        decreases left
      {
        var id :| id in left;
        left := left - {id};
        if position[id] > top {
          top := position[id];
        }
      }
      assert order != [] ==> position[order[|order| - 1]] == |order|;
    }

    /** id is the fresh key of the inserted row. */
    method AddQuestion(id: QuestionId)
      requires Valid() && id !in position
      modifies this
      ensures Valid() && order == old(order) + [id] && position == Apply(old(position), Adds(id))
    {
      var top := MaxPosition();
      TopOfLists(position, order);
      InsertAt(id, top + 1);
    }

    method InsertAt(id: QuestionId, place: nat)
      requires Valid() && id !in position && place == |order| + 1
      modifies this
      ensures Valid() && order == old(order) + [id] && position == old(position)[id := place]
    {
      AppendLists(position, order, id);
      TopOfLists(position, order);
      position := position[id := place];
      order := order + [id];
    }

    /** All rows at once, after the last existing position. */
    method CommitImport(ids: seq<QuestionId>)
      requires Valid() && Distinct(ids) && forall id | id in ids :: id !in position
      modifies this
      ensures Valid() && order == old(order) + ids && position == Apply(old(position), Imports(ids))
    {
      var basePos := MaxPosition();
      for i := 0 to |ids|
        invariant Valid() && order == old(order) + ids[..i] && |order| == basePos + i
        invariant forall k | i <= k < |ids| :: ids[k] !in position
      {
        assert ids[..i + 1] == ids[..i] + [ids[i]];
        InsertAt(ids[i], basePos + i + 1);
      }
      assert ids[..|ids|] == ids;
      FreshIsDistinct(old(position), old(order), ids);
      FreshImportLists(old(position), old(order), ids);
      ListsDetermine(position, Imported(old(position), ids), order);
    }

    /** The remaining questions keep their relative order and close the gap. */
    method DeleteQuestion(id: QuestionId) returns (found: bool)
      requires Valid()
      modifies this
      ensures Valid() && found == (id in old(position))
      ensures order == if found then Without(old(order), id) else old(order)
      ensures position == Apply(old(position), Deletes(id))
    {
      if id !in position {
        return false;
      }
      DeleteLists(position, order, id);
      position := position - {id};
      position := Densified(position);
      order := Without(order, id);
      return true;
    }

    method Matches(ids: seq<QuestionId>) returns (ok: bool)
      ensures ok == Accepts(position, ids)
    {
      if |ids| != |position| {
        return false;
      }
      var seen: map<QuestionId, bool> := map[];
      for i := 0 to |ids|
        invariant seen.Keys == Elements(ids[..i]) && Distinct(ids[..i])
        invariant forall id | id in ids[..i] :: id in position
      {
        assert ids[..i + 1] == ids[..i] + [ids[i]];
        if ids[i] !in position || ids[i] in seen {
          if ids[i] in seen {
            var j :| 0 <= j < i && ids[..i][j] == ids[i];
            assert ids[j] == ids[i];
          }
          return false;
        }
        seen := seen[ids[i] := true];
      }
      assert ids[..|ids|] == ids;
      return true;
    }

    /** Accepted exactly on a permutation of the existing ids; anything else changes nothing. */
    method ReorderQuestions(ids: seq<QuestionId>) returns (ok: bool)
      requires Valid()
      modifies this
      ensures Valid() && ok == IsPermutation(ids, old(position).Keys)
      ensures order == if ok then ids else old(order)
      ensures position == Apply(old(position), Reorders(ids))
    {
      ok := Matches(ids);
      ReorderLists(position, ids);
      if ok {
        position := Numbered(ids, 0);
        order := ids;
      }
    }
  }

  // ----- Whole runs -----

  lemma {:induction false} ImportedLists(pos: Positions, order: seq<QuestionId>, ids: seq<QuestionId>)
      returns (order': seq<QuestionId>)
    requires Lists(pos, order)
    ensures Lists(Imported(pos, ids), order') && order <= order'
  {
    order' := order;
    if ids != [] {
      order' := ImportedLists(pos, order, ids[..|ids| - 1]);
      var before, id := Imported(pos, ids[..|ids| - 1]), ids[|ids| - 1];
      if id !in before {
        AppendLists(before, order', id);
        order' := order' + [id];
      }
    }
  }

  lemma ApplyLists(pos: Positions, order: seq<QuestionId>, edit: Edit) returns (order': seq<QuestionId>)
    requires Lists(pos, order)
    ensures Lists(Apply(pos, edit), order')
  {
    order' := order;
    match edit
    case Adds(id) =>
      if id !in pos {
        AppendLists(pos, order, id);
        order' := order + [id];
      }
    case Imports(ids) => order' := ImportedLists(pos, order, ids);
    case Deletes(id) =>
      if id in pos {
        DeleteLists(pos, order, id);
        order' := Without(order, id);
      }
    case Reorders(ids) =>
      if Accepts(pos, ids) {
        NumberedLists(ids);
        order' := ids;
      }
  }

  lemma {:induction false} ListedAlways(edits: seq<Edit>) returns (order: seq<QuestionId>)
    ensures Lists(Exec(map[], edits), order)
  {
    order := [];
    if edits != [] {
      order := ListedAlways(edits[..|edits| - 1]);
      order := ApplyLists(Exec(map[], edits[..|edits| - 1]), order, edits[|edits| - 1]);
    }
  }

  /** Under any edits the positions are a permutation of 1 to n. */
  lemma PositionsStayDense(edits: seq<Edit>)
    ensures Dense(Exec(map[], edits))
  {
    var order := ListedAlways(edits);
    ListsIsDense(Exec(map[], edits), order);
  }
}
