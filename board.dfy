/**
 * The task board (`TaskCards`): category keys, in `Object.keys` order, each
 * with its ordered list of tasks, and the drag-end reassignment rule.
 */
module TaskBoard {
  import opened Wrappers
  import opened TaskList

  /** One own property of the `TaskCards` object: a category key and its list. */
  datatype Column = Column(key: string, tasks: seq<Task>)

  /** The columns in key iteration order. */
  type Board = seq<Column>

  /** The keys in iteration order. */
  function Keys(b: Board): (ks: seq<string>)
    ensures |ks| == |b| && forall i :: 0 <= i < |b| ==> ks[i] == b[i].key
  {
    seq(|b|, i requires 0 <= i < |b| => b[i].key)
  }

  /** An object never holds two own properties with the same key. */
  predicate DistinctKeys(b: Board)
  {
    forall i, j :: 0 <= i < j < |b| ==> b[i].key != b[j].key
  }

  /** The position of key `k` among the keys. */
  /** With distinct keys, no id occurring twice is the same as the table rows having pairwise-distinct ids. */
  lemma UniqueIdsPairwise(b: Board)
    ensures UniqueIds(b) <==> NoDuplicateIds(ListView(b))
  {
    if UniqueIds(b) {
      CountAtMostOneNoDuplicateIds(ListView(b));
    }
    if NoDuplicateIds(ListView(b)) {
      forall x ensures CountId(ListView(b), x) <= 1 {
        NoDuplicateIdsCountAtMostOne(ListView(b), x);
      }
    }
  }

  function IndexOf(ks: seq<string>, k: string): (i: nat)
    requires k in ks
    ensures i < |ks| && ks[i] == k
    ensures forall j :: 0 <= j < i ==> ks[j] != k
  {
    if ks[0] == k then 0 else 1 + IndexOf(ks[1..], k)
  }

  /** `board[k]` for an own key `k`. */
  function Lookup(b: Board, k: string): seq<Task>
    requires k in Keys(b)
  {
    b[IndexOf(Keys(b), k)].tasks
  }

  /** The table's rows: every task, by key order and then list order. */
  function ListView(b: Board): seq<Task>
  {
    if b == [] then [] else b[0].tasks + ListView(b[1..])
  }

  /** The table rows are exactly the records held by some column's list. */
  lemma {:induction false} ListViewMembers(b: Board, t: Task)
    ensures t in ListView(b) <==> exists i :: 0 <= i < |b| && t in b[i].tasks
  {
    if b != [] {
      ListViewMembers(b[1..], t);
      assert forall i :: 0 <= i < |b| - 1 ==> b[1..][i] == b[i + 1];
    }
  }

  /** No task id occurs twice anywhere on the board. */
  ghost predicate UniqueIds(b: Board)
  {
    forall x :: CountId(ListView(b), x) <= 1
  }

  /** The position of the first column whose list holds a task with `id`. */
  function SourceIndex(b: Board, id: string): (r: Option<nat>)
    ensures r.Some? ==> r.value < |b| && HasId(b[r.value].tasks, id)
    ensures r.Some? ==> forall j :: 0 <= j < r.value ==> !HasId(b[j].tasks, id)
    ensures r.None? ==> forall j :: 0 <= j < |b| ==> !HasId(b[j].tasks, id)
  {
    if b == [] then None
    else if HasId(b[0].tasks, id) then Some(0)
    else
      match SourceIndex(b[1..], id)
      case None => None
      case Some(i) => Some(i + 1)
  }

  /**
   * The key a search over the keys for a list holding `id` returns:
   * the first key, in key order, whose list holds the dragged task.
   */
  function SourceCategory(b: Board, id: string): (r: Option<string>)
    ensures r.None? <==> forall j :: 0 <= j < |b| ==> !HasId(b[j].tasks, id)
    ensures r.Some? ==> exists i :: 0 <= i < |b| && b[i].key == r.value && HasId(b[i].tasks, id)
                                    && forall j :: 0 <= j < i ==> !HasId(b[j].tasks, id)
    ensures r.Some? ==> r.value in Keys(b)
  {
    match SourceIndex(b, id)
    case None => None
    case Some(i) => Some(b[i].key)
  }

  /**
   * The handler gets past its early returns: a drop target was reported, the
   * target id and the source key are non-empty (both are tested for
   * falsiness), a source was found, and it differs from the target.
   */
  predicate Commits(b: Board, over: Option<string>, id: string)
    ensures Commits(b, over, id) ==>
      over.Some? && over.value != "" &&
      exists i :: 0 <= i < |b| && HasId(b[i].tasks, id) && b[i].key != over.value && b[i].key != ""
  {
    && over.Some?
    && over.value != ""
    && SourceCategory(b, id).Some?
    && SourceCategory(b, id).value != ""
    && SourceCategory(b, id).value != over.value
  }

  /**
   * A committed move spreads the target key's list into a new array; that
   * throws unless the target is one of the keys.
   */
  predicate TargetResolves(b: Board, over: Option<string>, id: string)
    ensures over.None? ==> TargetResolves(b, over, id)
    ensures over.Some? && over.value in Keys(b) ==> TargetResolves(b, over, id)
  {
    Commits(b, over, id) ==> over.value in Keys(b)
  }

  /**
   * The new snapshot: every key keeps its place; the source list loses every
   * record with `id`, the target list gains `t` at its end.
   */
  function Reassign(b: Board, src: string, dest: string, t: Task, id: string): (r: Board)
    ensures Keys(r) == Keys(b)
  {
    seq(|b|, i requires 0 <= i < |b| =>
      if b[i].key == src then Column(src, RemoveId(b[i].tasks, id))
      else if b[i].key == dest then Column(dest, b[i].tasks + [t])
      else b[i])
  }

  /** `onDragEnd`: the board after a drag of task `id` that ended over `over`. */
  function DragEnd(b: Board, over: Option<string>, id: string): (r: Board)
    requires TargetResolves(b, over, id)
    ensures Keys(r) == Keys(b)
    ensures over.None? ==> r == b
    ensures over == Some("") ==> r == b
    ensures SourceCategory(b, id).None? ==> r == b
    ensures SourceCategory(b, id) == Some("") ==> r == b
    ensures over.Some? && SourceCategory(b, id) == Some(over.value) ==> r == b
  {
    if !Commits(b, over, id) then b
    else
      var src := SourceCategory(b, id).value;
      var dest := over.value;
      match FindTask(Lookup(b, src), id)
      case None => b
      case Some(t) => Reassign(b, src, dest, t, id)
  }

  /** Under distinct keys the source key sits at the source index. */
  lemma SourceCategoryAt(b: Board, id: string)
    requires DistinctKeys(b) && SourceIndex(b, id).Some?
    ensures SourceCategory(b, id) == Some(b[SourceIndex(b, id).value].key)
    ensures IndexOf(Keys(b), b[SourceIndex(b, id).value].key) == SourceIndex(b, id).value
  {
  }

  /** The `!taskToMove` return never fires: the found source does hold the task. */
  lemma TaskToMoveFound(b: Board, over: Option<string>, id: string)
    requires DistinctKeys(b) && Commits(b, over, id)
    ensures FindTask(Lookup(b, SourceCategory(b, id).value), id).Some?
  {
    SourceCategoryAt(b, id);
  }

  /** Under distinct keys, the column holding key `k` is the one `Lookup` reads. */
  lemma LookupAt(b: Board, i: nat)
    requires DistinctKeys(b) && i < |b|
    ensures b[i].key in Keys(b) && Lookup(b, b[i].key) == b[i].tasks
  {
    assert Keys(b)[i] == b[i].key;
    var j := IndexOf(Keys(b), b[i].key);
    assert b[j].key == b[i].key;
  }

  /**
   * A committed move: the target list is its old contents followed by the
   * first source record with `id`; the source list is its old contents
   * without any record with `id`; every other key keeps its list.
   */
  lemma DragEndMoves(b: Board, over: Option<string>, id: string)
    requires DistinctKeys(b) && Commits(b, over, id) && over.value in Keys(b)
    ensures FindTask(Lookup(b, SourceCategory(b, id).value), id).Some?
    ensures
      var src, dest, r := SourceCategory(b, id).value, over.value, DragEnd(b, over, id);
      && Lookup(r, dest) == Lookup(b, dest) + [FindTask(Lookup(b, src), id).value]
      && Lookup(r, src) == RemoveId(Lookup(b, src), id)
      && forall k :: k in Keys(b) && k != src && k != dest ==> Lookup(r, k) == Lookup(b, k)
  {
    TaskToMoveFound(b, over, id);
    var src, dest := SourceCategory(b, id).value, over.value;
    var t := FindTask(Lookup(b, src), id).value;
    var r := DragEnd(b, over, id);
    assert r == Reassign(b, src, dest, t, id);
    forall k | k in Keys(b)
      ensures Lookup(r, k) == if k == src then RemoveId(Lookup(b, src), id)
                              else if k == dest then Lookup(b, dest) + [t]
                              else Lookup(b, k)
    {
      var i := IndexOf(Keys(b), k);
      assert IndexOf(Keys(r), k) == i;
      assert b[i].key == k;
    }
  }
}
