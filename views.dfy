/**
 * The two read-only projections of the board: one column per key (board
 * view) and the flattened table (list view, `TaskBoard.ListView`), plus the
 * column title shown above each board column.
 */
module Views {
  import opened Wrappers
  import opened TaskList
  import opened TaskBoard

  predicate IsAsciiLower(c: char)
  {
    'a' <= c <= 'z'
  }

  /** Upper-casing one character, for ASCII. */
  function UpperAscii(c: char): char
  {
    if IsAsciiLower(c) then (c as int - 32) as char else c
  }

  /** The category with its first character upper-cased and the rest kept, for ASCII. */
  function ColumnTitle(category: string): (t: string)
    ensures |t| == |category|
    ensures category != [] ==> t[1..] == category[1..]
    ensures category != [] ==> !IsAsciiLower(t[0])
    ensures category != [] ==> (t[0] == category[0] <==> !IsAsciiLower(category[0]))
    ensures category != [] && IsAsciiLower(category[0]) ==> t[0] as int + 32 == category[0] as int
  {
    if category == [] then [] else [UpperAscii(category[0])] + category[1..]
  }

  /** Capitalising a title that is already capitalised changes nothing. */
  lemma ColumnTitleIdempotent(category: string)
    ensures ColumnTitle(ColumnTitle(category)) == ColumnTitle(category)
  {
  }

  /** What one `TaskColumn` shows: its key, title, task count and cards. */
  datatype ColumnView = ColumnView(category: string, title: string, count: nat, cards: seq<Task>)

  /** One column view per key, in key order. */
  function BoardView(b: Board): (v: seq<ColumnView>)
    ensures |v| == |b|
    ensures forall i :: 0 <= i < |v| ==>
      v[i].category == b[i].key && v[i].cards == b[i].tasks && v[i].count == |v[i].cards|
  {
    seq(|b|, i requires 0 <= i < |b| =>
      ColumnView(b[i].key, ColumnTitle(b[i].key), |b[i].tasks|, b[i].tasks))
  }

  /** The cards of all board columns, left to right, top to bottom. */
  function BoardCards(v: seq<ColumnView>): seq<Task>
  {
    if v == [] then [] else v[0].cards + BoardCards(v[1..])
  }

  /** The sum of the column counts. */
  function TotalCount(v: seq<ColumnView>): nat
  {
    if v == [] then 0 else v[0].count + TotalCount(v[1..])
  }

  /**
   * The board view shows the same records in the same order as the list
   * view, and its column counts add up to the number of table rows.
   */
  lemma {:induction false} BoardViewMatchesListView(b: Board)
    ensures BoardCards(BoardView(b)) == ListView(b)
    ensures TotalCount(BoardView(b)) == |ListView(b)|
  {
    if b != [] {
      BoardViewMatchesListView(b[1..]);
      assert BoardView(b)[1..] == BoardView(b[1..]);
    }
  }

  /** The board view has one column per key, in key order, each counting its own list. */
  lemma BoardViewColumns(b: Board)
    requires DistinctKeys(b)
    ensures |BoardView(b)| == |Keys(b)|
    ensures forall i :: 0 <= i < |b| ==>
      var c := BoardView(b)[i];
      c.category == Keys(b)[i] && c.cards == Lookup(b, c.category) && c.count == |Lookup(b, c.category)|
  {
    forall i | 0 <= i < |b|
      ensures BoardView(b)[i].cards == Lookup(b, Keys(b)[i])
    {
      LookupAt(b, i);
    }
  }

  /**
   * A drag never adds, drops or reorders a board column: after it the
   * columns carry the same categories and titles.
   */
  lemma DragEndKeepsColumns(b: Board, over: Option<string>, id: string)
    requires TargetResolves(b, over, id)
    ensures |BoardView(DragEnd(b, over, id))| == |BoardView(b)|
    ensures forall i :: 0 <= i < |b| ==>
      BoardView(DragEnd(b, over, id))[i].category == BoardView(b)[i].category &&
      BoardView(DragEnd(b, over, id))[i].title == BoardView(b)[i].title
  {
    var r := DragEnd(b, over, id);
    assert Keys(r) == Keys(b);
    forall i | 0 <= i < |b| ensures r[i].key == b[i].key {
      assert Keys(r)[i] == Keys(b)[i];
    }
  }
}
