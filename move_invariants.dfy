/**
 * What a drag-end move preserves across the whole board: the list view's
 * records (a permutation), the total count and the uniqueness of task ids.
 */
module MoveInvariants {
  import opened Wrappers
  import opened TaskList
  import opened TaskBoard

  /** Flattening distributes over concatenation of boards. */
  lemma {:induction false} ListViewAppend(a: Board, c: Board)
    ensures ListView(a + c) == ListView(a) + ListView(c)
  {
    if a == [] {
      assert a + c == c;
    } else {
      assert (a + c)[0] == a[0];
      assert (a + c)[1..] == a[1..] + c;
      ListViewAppend(a[1..], c);
    }
  }

  /** The list view around column `i`. */
  lemma {:induction false} ListViewSplit(b: Board, i: nat)
    requires i < |b|
    ensures ListView(b) == ListView(b[..i]) + b[i].tasks + ListView(b[i + 1..])
  {
    var rest := [b[i]] + b[i + 1..];
    assert b == b[..i] + rest;
    ListViewAppend(b[..i], rest);
    assert rest[0] == b[i] && rest[1..] == b[i + 1..];
    assert ListView(rest) == b[i].tasks + ListView(b[i + 1..]);
  }

  /** Replacing one column's list swaps that list's records in the list view. */
  lemma ListViewReplace(b: Board, i: nat, c: Column)
    requires i < |b|
    ensures multiset(ListView(b[i := c])) + multiset(b[i].tasks) == multiset(ListView(b)) + multiset(c.tasks)
    ensures |ListView(b[i := c])| + |b[i].tasks| == |ListView(b)| + |c.tasks|
  {
    var b' := b[i := c];
    ListViewSplit(b, i);
    ListViewSplit(b', i);
    assert b'[..i] == b[..i];
    assert b'[i + 1..] == b[i + 1..];
  }

  /** Under distinct keys a committed move rewrites exactly two columns. */
  lemma ReassignTwoColumns(b: Board, si: nat, di: nat, t: Task, id: string)
    requires DistinctKeys(b) && si < |b| && di < |b| && si != di
    ensures Reassign(b, b[si].key, b[di].key, t, id)
         == b[si := Column(b[si].key, RemoveId(b[si].tasks, id))][di := Column(b[di].key, b[di].tasks + [t])]
  {
  }

  /** Under unique ids the source list holds the dragged id exactly once. */
  lemma SourceHoldsOnce(b: Board, i: nat, id: string)
    requires UniqueIds(b) && i < |b| && HasId(b[i].tasks, id)
    ensures CountId(b[i].tasks, id) == 1
  {
    ListViewSplit(b, i);
    CountIdAppend(ListView(b[..i]) + b[i].tasks, ListView(b[i + 1..]), id);
    CountIdAppend(ListView(b[..i]), b[i].tasks, id);
    assert CountId(ListView(b), id) <= 1;
  }

  /**
   * On a board with distinct keys, a committed move changes the total task
   * count by one minus the number of source records carrying the dragged id.
   */
  lemma DragEndTotal(b: Board, over: Option<string>, id: string)
    requires DistinctKeys(b) && Commits(b, over, id) && over.value in Keys(b)
    ensures |ListView(DragEnd(b, over, id))| + CountId(Lookup(b, SourceCategory(b, id).value), id)
         == |ListView(b)| + 1
  {
    var si := SourceIndex(b, id).value;
    var di := IndexOf(Keys(b), over.value);
    SourceCategoryAt(b, id);
    TaskToMoveFound(b, over, id);
    var t := FindTask(b[si].tasks, id).value;
    var c1 := Column(b[si].key, RemoveId(b[si].tasks, id));
    var c2 := Column(b[di].key, b[di].tasks + [t]);
    var b1 := b[si := c1];
    ReassignTwoColumns(b, si, di, t, id);
    ListViewReplace(b, si, c1);
    ListViewReplace(b1, di, c2);
  }

  /** Rewriting two columns so that their lists hold the same records between them permutes the list view. */
  lemma ReplaceTwoPermutes(b: Board, si: nat, di: nat, c1: Column, c2: Column)
    requires si < |b| && di < |b| && si != di
    requires multiset(c1.tasks) + multiset(c2.tasks) == multiset(b[si].tasks) + multiset(b[di].tasks)
    ensures multiset(ListView(b[si := c1][di := c2])) == multiset(ListView(b))
  {
    var b1 := b[si := c1];
    ListViewReplace(b, si, c1);
    ListViewReplace(b1, di, c2);
    assert b1[di] == b[di];
    var mb, m1, mr := multiset(ListView(b)), multiset(ListView(b1)), multiset(ListView(b1[di := c2]));
    var src, dst := multiset(b[si].tasks), multiset(b[di].tasks);
    var new1, new2 := multiset(c1.tasks), multiset(c2.tasks);
    forall x ensures mr[x] == mb[x] {
      assert (m1 + src)[x] == (mb + new1)[x];
      assert (mr + dst)[x] == (m1 + new2)[x];
      assert (new1 + new2)[x] == (src + dst)[x];
    }
  }

  /** Moving the one record with `id` from column `si` to column `di` permutes the list view. */
  lemma MovePermutes(b: Board, si: nat, di: nat, t: Task, id: string)
    requires DistinctKeys(b) && si < |b| && di < |b| && si != di
    requires CountId(b[si].tasks, id) == 1 && FindTask(b[si].tasks, id) == Some(t)
    ensures multiset(ListView(Reassign(b, b[si].key, b[di].key, t, id))) == multiset(ListView(b))
  {
    var ts := b[si].tasks;
    var c1 := Column(b[si].key, RemoveId(ts, id));
    var c2 := Column(b[di].key, b[di].tasks + [t]);
    ReassignTwoColumns(b, si, di, t, id);
    RemoveIdSingle(ts, id);
    assert multiset(c2.tasks) == multiset(b[di].tasks) + multiset{t};
    ReplaceTwoPermutes(b, si, di, c1, c2);
  }

  /**
   * When no id occurs twice, a move keeps ids unique and its list view is a
   * permutation of the one before, so the task count is unchanged.
   */
  lemma DragEndPermutes(b: Board, over: Option<string>, id: string)
    requires DistinctKeys(b) && UniqueIds(b) && TargetResolves(b, over, id)
    ensures multiset(ListView(DragEnd(b, over, id))) == multiset(ListView(b))
    ensures |ListView(DragEnd(b, over, id))| == |ListView(b)|
    ensures UniqueIds(DragEnd(b, over, id))
  {
    var r := DragEnd(b, over, id);
    if Commits(b, over, id) {
      var si := SourceIndex(b, id).value;
      var di := IndexOf(Keys(b), over.value);
      SourceCategoryAt(b, id);
      TaskToMoveFound(b, over, id);
      var t := FindTask(b[si].tasks, id).value;
      assert r == Reassign(b, b[si].key, b[di].key, t, id);
      SourceHoldsOnce(b, si, id);
      MovePermutes(b, si, di, t, id);
    }
    assert multiset(ListView(r)) == multiset(ListView(b));
    assert |ListView(r)| == |multiset(ListView(r))|;
    forall x ensures CountId(ListView(r), x) <= 1 {
      CountIdMultiset(ListView(r), ListView(b), x);
    }
  }
}
