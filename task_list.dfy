/**
 * Task records and the array operations DragDrop.tsx applies to one
 * category's list: `some`, `find` and `filter` on the task id.
 */
module TaskList {
  import opened Wrappers

  /** One task record (`interface Task`). The counters and chips are display-only. */
  datatype Task = Task(
    id: string,
    title: string,
    dueDate: string,
    attachments: nat,
    messages: nat,
    avatars: nat,
    chips: seq<string>)

  /** Some record of `ts` carries `id`. */
  predicate HasId(ts: seq<Task>, id: string)
  {
    exists i :: 0 <= i < |ts| && ts[i].id == id
  }

  /** `some` on a concatenation holds exactly when it holds on one of the parts. */
  lemma HasIdAppend(a: seq<Task>, b: seq<Task>, id: string)
    ensures HasId(a + b, id) <==> HasId(a, id) || HasId(b, id)
  {
    if HasId(a + b, id) {
      var i :| 0 <= i < |a + b| && (a + b)[i].id == id;
      if i < |a| {
        assert a[i] == (a + b)[i];
      } else {
        assert b[i - |a|] == (a + b)[i];
      }
    }
    if HasId(a, id) {
      var i :| 0 <= i < |a| && a[i].id == id;
      assert (a + b)[i] == a[i];
    }
    if HasId(b, id) {
      var i :| 0 <= i < |b| && b[i].id == id;
      assert (a + b)[|a| + i] == b[i];
    }
  }

  /** The number of records in `ts` that carry `id`. */
  function CountId(ts: seq<Task>, id: string): (n: nat)
    ensures n <= |ts|
    ensures n == 0 <==> !HasId(ts, id)
  {
    if ts == [] then 0
    else
      assert forall i :: 0 <= i < |ts| - 1 ==> ts[1..][i] == ts[i + 1];
      (if ts[0].id == id then 1 else 0) + CountId(ts[1..], id)
  }

  /** The first record carrying `id`, if any (a search by id). */
  function FindTask(ts: seq<Task>, id: string): (r: Option<Task>)
    ensures r.None? <==> !HasId(ts, id)
    ensures r.Some? ==> r.value.id == id && r.value in ts
    ensures r.Some? ==> exists k :: 0 <= k < |ts| && ts[k] == r.value && forall j :: 0 <= j < k ==> ts[j].id != id
  {
    if ts == [] then None
    else if ts[0].id == id then Some(ts[0])
    else
      var tail := ts[1..];
      var r := FindTask(tail, id);
      if r.Some? then
        var k :| 0 <= k < |tail| && tail[k] == r.value && forall j :: 0 <= j < k ==> tail[j].id != id;
        assert ts[k + 1] == tail[k];
        assert forall j :: 1 <= j < k + 1 ==> ts[j] == tail[j - 1];
        r
      else
        assert forall i :: 1 <= i < |ts| ==> ts[i] == tail[i - 1];
        r
  }

  /** The records of `ts` whose id is not `id`, in their order (a filter by id). */
  function RemoveId(ts: seq<Task>, id: string): (r: seq<Task>)
    ensures |r| == |ts| - CountId(ts, id)
  {
    if ts == [] then []
    else if ts[0].id == id then RemoveId(ts[1..], id)
    else [ts[0]] + RemoveId(ts[1..], id)
  }

  /** Filtering keeps exactly the records whose id differs from `id`. */
  lemma {:induction false} RemoveIdMembers(ts: seq<Task>, id: string, t: Task)
    ensures t in RemoveId(ts, id) <==> t in ts && t.id != id
  {
    if ts != [] {
      assert ts == [ts[0]] + ts[1..];
      RemoveIdMembers(ts[1..], id, t);
    }
  }

  /** No two records of `ts` carry the same id. */
  predicate NoDuplicateIds(ts: seq<Task>)
  {
    forall i, j :: 0 <= i < j < |ts| ==> ts[i].id != ts[j].id
  }

  /** Counting distributes over concatenation. */
  lemma {:induction false} CountIdAppend(a: seq<Task>, b: seq<Task>, id: string)
    ensures CountId(a + b, id) == CountId(a, id) + CountId(b, id)
  {
    if a == [] {
      assert a + b == b;
    } else {
      assert (a + b)[1..] == a[1..] + b;
      CountIdAppend(a[1..], b, id);
    }
  }

  /** Filtering distributes over concatenation, so it keeps the relative order of what it keeps. */
  lemma {:induction false} RemoveIdAppend(a: seq<Task>, b: seq<Task>, id: string)
    ensures RemoveId(a + b, id) == RemoveId(a, id) + RemoveId(b, id)
  {
    if a == [] {
      assert a + b == b;
    } else {
      assert (a + b)[0] == a[0] && (a + b)[1..] == a[1..] + b;
      RemoveIdAppend(a[1..], b, id);
      if a[0].id != id {
        assert [a[0]] + (RemoveId(a[1..], id) + RemoveId(b, id)) == [a[0]] + RemoveId(a[1..], id) + RemoveId(b, id);
      }
    }
  }

  /** Filtering out an id that no record carries changes nothing. */
  lemma {:induction false} RemoveIdAbsent(ts: seq<Task>, id: string)
    requires !HasId(ts, id)
    ensures RemoveId(ts, id) == ts
  {
    if ts != [] {
      assert forall i :: 0 <= i < |ts| - 1 ==> ts[1..][i] == ts[i + 1];
      RemoveIdAbsent(ts[1..], id);
    }
  }

  /**
   * When exactly one record carries `id`, filtering removes exactly that
   * record, the one `find` returns, and every other record stays.
   */
  lemma {:induction false} RemoveIdSingle(ts: seq<Task>, id: string)
    requires CountId(ts, id) == 1
    ensures FindTask(ts, id).Some?
    ensures multiset(RemoveId(ts, id)) + multiset{FindTask(ts, id).value} == multiset(ts)
  {
    assert ts == [ts[0]] + ts[1..];
    if ts[0].id == id {
      RemoveIdAbsent(ts[1..], id);
    } else {
      RemoveIdSingle(ts[1..], id);
    }
  }

  /** Under unique ids, filtering is deleting the one record at its index. */
  lemma {:induction false} RemoveIdAt(ts: seq<Task>, k: nat)
    requires NoDuplicateIds(ts) && k < |ts|
    ensures RemoveId(ts, ts[k].id) == ts[..k] + ts[k + 1..]
  {
    var id := ts[k].id;
    var head, one, tail := ts[..k], [ts[k]], ts[k + 1..];
    assert ts == head + (one + tail);
    assert !HasId(head, id) by {
      forall i | 0 <= i < |head| ensures head[i].id != id {
        assert head[i] == ts[i];
      }
    }
    assert !HasId(tail, id) by {
      forall i | 0 <= i < |tail| ensures tail[i].id != id {
        assert tail[i] == ts[k + 1 + i];
      }
    }
    assert one[1..] == [];
    assert RemoveId(one, id) == [];
    RemoveIdAppend(head, one + tail, id);
    RemoveIdAppend(one, tail, id);
    RemoveIdAbsent(head, id);
    RemoveIdAbsent(tail, id);
  }

  /** Filtering out `id` zeroes its count and leaves every other id's count alone. */
  lemma {:induction false} CountIdRemoveId(ts: seq<Task>, id: string, x: string)
    ensures CountId(RemoveId(ts, id), x) == if x == id then 0 else CountId(ts, x)
  {
    if ts != [] {
      CountIdRemoveId(ts[1..], id, x);
      if ts[0].id != id {
        CountIdAppend([ts[0]], RemoveId(ts[1..], id), x);
        assert [ts[0]][1..] == [];
      }
    }
  }

  /** Two lists with the same records carry every id equally often. */
  lemma {:induction false} CountIdMultiset(a: seq<Task>, b: seq<Task>, id: string)
    requires multiset(a) == multiset(b)
    ensures CountId(a, id) == CountId(b, id)
  {
    if a != [] {
      var k := IndexIn(b, a[0]);
      var rest := b[..k] + b[k + 1..];
      SameRecordsAfterDelete(a, b, k);
      CountIdMultiset(a[1..], rest, id);
      CountIdDelete(b, k, id);
      CountIdDelete(a, 0, id);
    } else {
      assert b == [];
    }
  }

  /** Deleting one copy of the same record from two lists with the same records leaves the same records. */
  lemma SameRecordsAfterDelete(a: seq<Task>, b: seq<Task>, k: nat)
    requires multiset(a) == multiset(b) && a != [] && k < |b| && b[k] == a[0]
    ensures multiset(a[1..]) == multiset(b[..k] + b[k + 1..])
  {
    assert a[..0] + a[1..] == a[1..];
    calc {
      multiset(a[1..]);
      == multiset(a[..0] + a[1..]);
      == { MultisetDelete(a, 0); }
      multiset(a) - multiset{a[0]};
      == multiset(b) - multiset{b[k]};
      == { MultisetDelete(b, k); }
      multiset(b[..k] + b[k + 1..]);
    }
  }

  /** A position at which a record of the list's records sits. */
  lemma IndexIn(ts: seq<Task>, t: Task) returns (k: nat)
    requires t in multiset(ts)
    ensures k < |ts| && ts[k] == t
  {
    assert t in ts;
    k :| 0 <= k < |ts| && ts[k] == t;
  }

  /** Deleting the record at `k` removes one copy of it from the list's records. */
  lemma MultisetDelete(ts: seq<Task>, k: nat)
    requires k < |ts|
    ensures multiset(ts[..k] + ts[k + 1..]) == multiset(ts) - multiset{ts[k]}
  {
    assert ts == ts[..k] + [ts[k]] + ts[k + 1..];
    assert multiset(ts) == multiset(ts[..k]) + multiset{ts[k]} + multiset(ts[k + 1..]);
  }

  /** Deleting the record at `k` lowers the count of its id by one and of no other id. */
  lemma CountIdDelete(ts: seq<Task>, k: nat, id: string)
    requires k < |ts|
    ensures CountId(ts, id) == CountId(ts[..k] + ts[k + 1..], id) + (if ts[k].id == id then 1 else 0)
  {
    assert ts == (ts[..k] + [ts[k]]) + ts[k + 1..];
    CountIdAppend(ts[..k] + [ts[k]], ts[k + 1..], id);
    CountIdAppend(ts[..k], [ts[k]], id);
    CountIdAppend(ts[..k], ts[k + 1..], id);
    assert [ts[k]][1..] == [];
  }

  /** Pairwise-distinct ids mean that every id occurs at most once. */
  lemma {:induction false} NoDuplicateIdsCountAtMostOne(ts: seq<Task>, x: string)
    requires NoDuplicateIds(ts)
    ensures CountId(ts, x) <= 1
  {
    if ts != [] {
      var tail := ts[1..];
      assert NoDuplicateIds(tail) by {
        forall i, j | 0 <= i < j < |tail| ensures tail[i].id != tail[j].id {
          assert tail[i] == ts[i + 1] && tail[j] == ts[j + 1];
        }
      }
      assert !HasId(tail, ts[0].id) by {
        forall i | 0 <= i < |tail| ensures tail[i].id != ts[0].id {
          assert tail[i] == ts[i + 1];
        }
      }
      NoDuplicateIdsCountAtMostOne(tail, x);
    }
  }

  /** An id occurring at most once everywhere means pairwise-distinct ids. */
  lemma {:induction false} CountAtMostOneNoDuplicateIds(ts: seq<Task>)
    requires forall x :: CountId(ts, x) <= 1
    ensures NoDuplicateIds(ts)
  {
    if ts != [] {
      var tail := ts[1..];
      assert CountId(tail, ts[0].id) == 0 by {
        assert CountId(ts, ts[0].id) <= 1;
      }
      forall x ensures CountId(tail, x) <= 1 {
        assert CountId(ts, x) <= 1;
      }
      CountAtMostOneNoDuplicateIds(tail);
      forall i, j | 0 <= i < j < |ts| ensures ts[i].id != ts[j].id {
        assert tail[j - 1] == ts[j];
        if i > 0 {
          assert tail[i - 1] == ts[i];
        }
      }
    }
  }
}
