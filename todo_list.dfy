/** The list transformations inside the handlers of frontend/src/app/page.tsx: the
    `map` that flips one task, the `filter` that drops one, the prepend of a created
    task, and the `sort` by `Number(is_completed)` that puts incomplete tasks first. */
module TodoList {
  import opened Types

  // ---------------------------------------------------------------------------
  // Groups and orders
  // ---------------------------------------------------------------------------

  /** The incomplete tasks of s, in their order in s. */
  function Incomplete(s: seq<Todo>): seq<Todo> {
    if s == [] then []
    else (if s[0].isCompleted then [] else [s[0]]) + Incomplete(s[1..])
  }

  /** The completed tasks of s, in their order in s. */
  function Completed(s: seq<Todo>): seq<Todo> {
    if s == [] then []
    else (if s[0].isCompleted then [s[0]] else []) + Completed(s[1..])
  }

  /** Every incomplete task comes before every completed one. */
  predicate IncompleteFirst(s: seq<Todo>) {
    forall i, j :: 0 <= i < j < |s| && s[i].isCompleted ==> s[j].isCompleted
  }

  /** a keeps some of the elements of b, in their order in b. */
  ghost predicate IsSubsequence(a: seq<Todo>, b: seq<Todo>)
    decreases |b|
  {
    if a == [] then true
    else if b == [] then false
    else (a[0] == b[0] && IsSubsequence(a[1..], b[1..])) || IsSubsequence(a, b[1..])
  }

  lemma GroupsConcat(a: seq<Todo>, b: seq<Todo>)
    ensures Incomplete(a + b) == Incomplete(a) + Incomplete(b)
    ensures Completed(a + b) == Completed(a) + Completed(b)
  {
    IncompleteConcat(a, b);
    CompletedConcat(a, b);
  }

  lemma {:induction false} IncompleteConcat(a: seq<Todo>, b: seq<Todo>)
    ensures Incomplete(a + b) == Incomplete(a) + Incomplete(b)
  {
    if a == [] {
      assert a + b == b;
    } else {
      var h: seq<Todo> := if a[0].isCompleted then [] else [a[0]];
      assert (a + b)[0] == a[0] && (a + b)[1..] == a[1..] + b;
      IncompleteConcat(a[1..], b);
      calc {
        Incomplete(a + b);
        h + Incomplete(a[1..] + b);
        h + (Incomplete(a[1..]) + Incomplete(b));
        (h + Incomplete(a[1..])) + Incomplete(b);
      }
    }
  }

  lemma {:induction false} CompletedConcat(a: seq<Todo>, b: seq<Todo>)
    ensures Completed(a + b) == Completed(a) + Completed(b)
  {
    if a == [] {
      assert a + b == b;
    } else {
      var h: seq<Todo> := if a[0].isCompleted then [a[0]] else [];
      assert (a + b)[0] == a[0] && (a + b)[1..] == a[1..] + b;
      CompletedConcat(a[1..], b);
      calc {
        Completed(a + b);
        h + Completed(a[1..] + b);
        h + (Completed(a[1..]) + Completed(b));
        (h + Completed(a[1..])) + Completed(b);
      }
    }
  }

  lemma {:induction false} GroupsShape(s: seq<Todo>)
    ensures forall k :: 0 <= k < |Incomplete(s)| ==> !Incomplete(s)[k].isCompleted
    ensures forall k :: 0 <= k < |Completed(s)| ==> Completed(s)[k].isCompleted
    ensures |Incomplete(s)| + |Completed(s)| == |s|
    ensures multiset(Incomplete(s)) + multiset(Completed(s)) == multiset(s)
  {
    GroupsUniform(s);
    GroupsMultiset(s);
  }

  lemma {:induction false} GroupsUniform(s: seq<Todo>)
    ensures forall k :: 0 <= k < |Incomplete(s)| ==> !Incomplete(s)[k].isCompleted
    ensures forall k :: 0 <= k < |Completed(s)| ==> Completed(s)[k].isCompleted
  {
    if s != [] {
      GroupsUniform(s[1..]);
      var hi: seq<Todo> := if s[0].isCompleted then [] else [s[0]];
      var hc: seq<Todo> := if s[0].isCompleted then [s[0]] else [];
      assert Incomplete(s) == hi + Incomplete(s[1..]);
      assert Completed(s) == hc + Completed(s[1..]);
      forall k | 0 <= k < |Incomplete(s)| ensures !Incomplete(s)[k].isCompleted {
        if k >= |hi| { assert Incomplete(s)[k] == Incomplete(s[1..])[k - |hi|]; }
      }
      forall k | 0 <= k < |Completed(s)| ensures Completed(s)[k].isCompleted {
        if k >= |hc| { assert Completed(s)[k] == Completed(s[1..])[k - |hc|]; }
      }
    }
  }

  lemma {:induction false} GroupsMultiset(s: seq<Todo>)
    ensures |Incomplete(s)| + |Completed(s)| == |s|
    ensures multiset(Incomplete(s)) + multiset(Completed(s)) == multiset(s)
  {
    if s != [] {
      GroupsMultiset(s[1..]);
      assert s == [s[0]] + s[1..];
      assert multiset(s) == multiset([s[0]]) + multiset(s[1..]);
    }
  }

  /** Taking the incomplete group of an all-incomplete or all-completed list. */
  lemma {:induction false} GroupsOfUniform(s: seq<Todo>, completed: bool)
    requires forall k :: 0 <= k < |s| ==> s[k].isCompleted == completed
    ensures Incomplete(s) == (if completed then [] else s)
    ensures Completed(s) == (if completed then s else [])
  {
    if s != [] {
      GroupsOfUniform(s[1..], completed);
      assert s == [s[0]] + s[1..];
    }
  }

  /** The tail of an incomplete-first list is incomplete-first, and a completed head is
      followed by completed tasks only. */
  lemma IncompleteFirstTail(s: seq<Todo>)
    requires s != [] && IncompleteFirst(s)
    ensures IncompleteFirst(s[1..])
    ensures s[0].isCompleted ==> forall k :: 0 <= k < |s[1..]| ==> s[1..][k].isCompleted
  {
    forall i, j | 0 <= i < j < |s[1..]| && s[1..][i].isCompleted ensures s[1..][j].isCompleted {
      assert s[1..][i] == s[i + 1] && s[1..][j] == s[j + 1];
    }
    forall k | 0 <= k < |s[1..]| && s[0].isCompleted ensures s[1..][k].isCompleted {
      assert s[1..][k] == s[k + 1];
    }
  }

  /** An incomplete-first list is its incomplete group followed by its completed group. */
  lemma {:induction false} IncompleteFirstIsPartition(s: seq<Todo>)
    requires IncompleteFirst(s)
    ensures s == Incomplete(s) + Completed(s)
  {
    if s != [] {
      var t := s[1..];
      IncompleteFirstTail(s);
      IncompleteFirstIsPartition(t);
      if s[0].isCompleted {
        GroupsOfUniform(t, true);
        assert Incomplete(s) == [] && Completed(s) == [s[0]] + t;
      } else {
        assert Incomplete(s) == [s[0]] + Incomplete(t) && Completed(s) == Completed(t);
      }
      assert s == [s[0]] + t;
    }
  }

  /** Conversely, the two groups one after the other are incomplete-first, and taking
      the groups again gives them back. */
  lemma PartitionIsIncompleteFirst(s: seq<Todo>)
    ensures IncompleteFirst(Incomplete(s) + Completed(s))
    ensures Incomplete(Incomplete(s) + Completed(s)) == Incomplete(s)
    ensures Completed(Incomplete(s) + Completed(s)) == Completed(s)
  {
    GroupsShape(s);
    GroupsConcat(Incomplete(s), Completed(s));
    GroupsOfUniform(Incomplete(s), false);
    GroupsOfUniform(Completed(s), true);
  }

  // ---------------------------------------------------------------------------
  // The sort
  // ---------------------------------------------------------------------------

  /** `Number(b)`: 1 for true, 0 for false. */
  function Number(b: bool): int {
    if b then 1 else 0
  }

  /** The comparator of the two sorts: a negative value puts a first, zero keeps the two
      in place. It puts an incomplete task before a completed one and calls two tasks
      with the same flag equal. */
  function CompareByCompletion(a: Todo, b: Todo): (r: int)
    ensures -1 <= r <= 1
    ensures r < 0 <==> !a.isCompleted && b.isCompleted
    ensures r > 0 <==> a.isCompleted && !b.isCompleted
  {
    Number(a.isCompleted) - Number(b.isCompleted)
  }

  /** What section 23.1.3.30 of ECMA-262 (2019 and later) requires of `r ==
      s.sort(CompareByCompletion)`: r is ordered by the comparator, and elements the
      comparator calls equal keep their relative order. With this comparator the
      classes of equal elements are exactly the two groups. */
  ghost predicate IsStableSortOf(r: seq<Todo>, s: seq<Todo>) {
    && (forall i, j :: 0 <= i < j < |r| ==> CompareByCompletion(r[i], r[j]) <= 0)
    && Incomplete(r) == Incomplete(s)
    && Completed(r) == Completed(s)
  }

  /** Whatever stable sort algorithm the engine uses, the outcome is determined: the
      incomplete tasks in their original order, then the completed ones in theirs. */
  lemma StableSortIsPartition(r: seq<Todo>, s: seq<Todo>)
    requires IsStableSortOf(r, s)
    ensures r == Incomplete(s) + Completed(s)
    ensures multiset(r) == multiset(s)
  {
    assert IncompleteFirst(r) by {
      forall i, j | 0 <= i < j < |r| && r[i].isCompleted ensures r[j].isCompleted {
        assert CompareByCompletion(r[i], r[j]) <= 0;
      }
    }
    IncompleteFirstIsPartition(r);
    GroupsShape(r);
    GroupsShape(s);
  }

  /** Inserting x into a list that is already ordered by the comparator: x goes after
      every element it compares greater than and before the first one it does not, so it
      stays ahead of the elements equal to it. */
  function Insert(x: Todo, ys: seq<Todo>): seq<Todo> {
    if ys == [] then [x]
    else if CompareByCompletion(x, ys[0]) > 0 then [ys[0]] + Insert(x, ys[1..])
    else [x] + ys
  }

  /** `s.sort(CompareByCompletion)`, written as an insertion sort, one of the stable
      algorithms the standard allows. */
  function SortByCompletion(s: seq<Todo>): seq<Todo> {
    if s == [] then [] else Insert(s[0], SortByCompletion(s[1..]))
  }

  /** A completed task inserted into incompletes-then-completeds lands between them. */
  lemma {:induction false} InsertCompleted(x: Todo, a: seq<Todo>, b: seq<Todo>)
    requires x.isCompleted
    requires forall k :: 0 <= k < |a| ==> !a[k].isCompleted
    requires forall k :: 0 <= k < |b| ==> b[k].isCompleted
    ensures Insert(x, a + b) == a + [x] + b
  {
    if a != [] {
      assert (a + b)[1..] == a[1..] + b;
      InsertCompleted(x, a[1..], b);
    }
  }

  /** An incomplete task never compares greater, so it is inserted at the front. */
  lemma InsertIncomplete(x: Todo, ys: seq<Todo>)
    requires !x.isCompleted
    ensures Insert(x, ys) == [x] + ys
  {
  }

  /** The insertion sort produces the two groups one after the other. */
  lemma {:induction false} SortIsPartition(s: seq<Todo>)
    ensures SortByCompletion(s) == Incomplete(s) + Completed(s)
  {
    if s != [] {
      var t := s[1..];
      SortIsPartition(t);
      if s[0].isCompleted {
        GroupsUniform(t);
        InsertCompleted(s[0], Incomplete(t), Completed(t));
      } else {
        InsertIncomplete(s[0], Incomplete(t) + Completed(t));
      }
    }
  }

  /** The sort meets the standard's requirement: it is a stable sort by the comparator,
      a permutation of its input, and incomplete-first. */
  lemma SortIsStable(s: seq<Todo>)
    ensures IsStableSortOf(SortByCompletion(s), s)
    ensures multiset(SortByCompletion(s)) == multiset(s)
    ensures IncompleteFirst(SortByCompletion(s))
  {
    SortIsPartition(s);
    PartitionIsIncompleteFirst(s);
    GroupsShape(s);
  }

  /** Sorting an incomplete-first list changes nothing, so sorting twice is sorting once. */
  lemma SortKeepsIncompleteFirst(s: seq<Todo>)
    requires IncompleteFirst(s)
    ensures SortByCompletion(s) == s
  {
    SortIsPartition(s);
    IncompleteFirstIsPartition(s);
  }

  // ---------------------------------------------------------------------------
  // Toggle: flip the completion flag of the tasks with the given id, then re-sort
  // ---------------------------------------------------------------------------

  /** One task under the toggle map: the task with the given id has its flag negated. */
  function Flip(t: Todo, id: int): Todo {
    if t.id == id then t.(isCompleted := !t.isCompleted) else t
  }

  /** The toggle map over the whole list. */
  function Toggled(s: seq<Todo>, id: int): seq<Todo> {
    if s == [] then [] else [Flip(s[0], id)] + Toggled(s[1..], id)
  }

  /** The map keeps the length and every position; at each position every field other
      than the completion flag is unchanged, and the flag changes exactly when the task's
      id is the argument. */
  lemma {:induction false} ToggledSpec(s: seq<Todo>, id: int)
    ensures |Toggled(s, id)| == |s|
    ensures forall k :: 0 <= k < |s| ==>
              && Toggled(s, id)[k].(isCompleted := s[k].isCompleted) == s[k]
              && (Toggled(s, id)[k].isCompleted != s[k].isCompleted <==> s[k].id == id)
  {
    if s != [] {
      ToggledSpec(s[1..], id);
      forall k | 0 <= k < |s|
        ensures Toggled(s, id)[k].(isCompleted := s[k].isCompleted) == s[k]
        ensures Toggled(s, id)[k].isCompleted != s[k].isCompleted <==> s[k].id == id
      {
        if k > 0 { assert Toggled(s, id)[k] == Toggled(s[1..], id)[k - 1]; }
      }
    }
  }

  /** The optimistic list of a toggle. */
  function ToggledAndSorted(s: seq<Todo>, id: int): seq<Todo> {
    SortByCompletion(Toggled(s, id))
  }

  /** After a toggle the list is a stable sort of the mapped list: a permutation of it,
      incomplete-first, each group in the mapped list's order. */
  lemma ToggledAndSortedSpec(s: seq<Todo>, id: int)
    ensures multiset(ToggledAndSorted(s, id)) == multiset(Toggled(s, id))
    ensures IncompleteFirst(ToggledAndSorted(s, id))
    ensures Incomplete(ToggledAndSorted(s, id)) == Incomplete(Toggled(s, id))
    ensures Completed(ToggledAndSorted(s, id)) == Completed(Toggled(s, id))
    ensures |ToggledAndSorted(s, id)| == |s|
  {
    SortIsStable(Toggled(s, id));
    ToggledSpec(s, id);
    assert |multiset(ToggledAndSorted(s, id))| == |multiset(Toggled(s, id))|;
  }

  // ---------------------------------------------------------------------------
  // Delete: keep the tasks whose id differs from the given one
  // ---------------------------------------------------------------------------

  function Removed(s: seq<Todo>, id: int): seq<Todo> {
    if s == [] then []
    else (if s[0].id != id then [s[0]] else []) + Removed(s[1..], id)
  }

  /** The filter keeps exactly the tasks whose id differs from the argument, each as often
      as in s, in their order in s. */
  lemma RemovedSpec(s: seq<Todo>, id: int)
    ensures forall t :: multiset(Removed(s, id))[t] == if t.id == id then 0 else multiset(s)[t]
    ensures IsSubsequence(Removed(s, id), s)
  {
    RemovedCount(s, id);
    RemovedIsSubsequence(s, id);
  }

  lemma {:induction false} RemovedCount(s: seq<Todo>, id: int)
    ensures forall t :: multiset(Removed(s, id))[t] == if t.id == id then 0 else multiset(s)[t]
  {
    if s != [] {
      RemovedCount(s[1..], id);
      assert s == [s[0]] + s[1..];
      assert multiset(s) == multiset([s[0]]) + multiset(s[1..]);
    }
  }

  lemma {:induction false} RemovedIsSubsequence(s: seq<Todo>, id: int)
    ensures IsSubsequence(Removed(s, id), s)
  {
    if s != [] {
      RemovedIsSubsequence(s[1..], id);
      if s[0].id != id {
        assert Removed(s, id)[1..] == Removed(s[1..], id);
      } else {
        assert Removed(s, id) == Removed(s[1..], id);
        SubsequenceOfTail(Removed(s, id), s);
      }
    }
  }

  lemma SubsequenceOfTail(a: seq<Todo>, b: seq<Todo>)
    requires b != [] && IsSubsequence(a, b[1..])
    ensures IsSubsequence(a, b)
  {
  }

  /** A subsequence of an incomplete-first list is incomplete-first. */
  lemma {:induction false} SubsequenceKeepsIncompleteFirst(a: seq<Todo>, b: seq<Todo>)
    requires IsSubsequence(a, b) && IncompleteFirst(b)
    ensures IncompleteFirst(a)
    decreases |b|
  {
    if a != [] && b != [] {
      assert IncompleteFirst(b[1..]) by {
        forall i, j | 0 <= i < j < |b[1..]| && b[1..][i].isCompleted ensures b[1..][j].isCompleted {
          assert b[1..][i] == b[i + 1] && b[1..][j] == b[j + 1];
        }
      }
      if a[0] == b[0] && IsSubsequence(a[1..], b[1..]) {
        SubsequenceKeepsIncompleteFirst(a[1..], b[1..]);
        if a[0].isCompleted {
          SubsequenceMembers(a[1..], b[1..]);
          forall j | 0 < j < |a| ensures a[j].isCompleted {
            assert a[j] == a[1..][j - 1];
            var k :| 0 <= k < |b[1..]| && b[1..][k] == a[j];
            assert b[k + 1] == a[j];
          }
        }
        forall i, j | 0 <= i < j < |a| && a[i].isCompleted ensures a[j].isCompleted {
          if i > 0 { assert a[i] == a[1..][i - 1] && a[j] == a[1..][j - 1]; }
        }
      } else {
        SubsequenceKeepsIncompleteFirst(a, b[1..]);
      }
    }
  }

  lemma {:induction false} SubsequenceMembers(a: seq<Todo>, b: seq<Todo>)
    requires IsSubsequence(a, b)
    ensures forall i :: 0 <= i < |a| ==> exists k :: 0 <= k < |b| && b[k] == a[i]
    decreases |b|
  {
    if a != [] {
      if a[0] == b[0] && IsSubsequence(a[1..], b[1..]) {
        SubsequenceMembers(a[1..], b[1..]);
        forall i | 0 < i < |a| ensures exists k :: 0 <= k < |b| && b[k] == a[i] {
          assert a[i] == a[1..][i - 1];
          var k :| 0 <= k < |b[1..]| && b[1..][k] == a[i];
          assert b[k + 1] == a[i];
        }
        assert b[0] == a[0];
      } else {
        SubsequenceMembers(a, b[1..]);
        forall i | 0 <= i < |a| ensures exists k :: 0 <= k < |b| && b[k] == a[i] {
          var k :| 0 <= k < |b[1..]| && b[1..][k] == a[i];
          assert b[k + 1] == a[i];
        }
      }
    }
  }

  /** Deleting from an incomplete-first list leaves it incomplete-first. */
  lemma RemovedKeepsIncompleteFirst(s: seq<Todo>, id: int)
    requires IncompleteFirst(s)
    ensures IncompleteFirst(Removed(s, id))
  {
    RemovedSpec(s, id);
    SubsequenceKeepsIncompleteFirst(Removed(s, id), s);
  }

  // ---------------------------------------------------------------------------
  // Add: the created task goes in front of the current list, with no re-sort
  // ---------------------------------------------------------------------------

  /** Prepending without a re-sort keeps the list incomplete-first exactly when the list
      was, and the new task is incomplete or the list has no incomplete task. */
  lemma PrependIncompleteFirst(t: Todo, s: seq<Todo>)
    ensures IncompleteFirst([t] + s) <==> IncompleteFirst(s) && (t.isCompleted ==> Incomplete(s) == [])
  {
    if IncompleteFirst([t] + s) {
      PrependedWasIncompleteFirst(t, s);
    }
    if IncompleteFirst(s) && (t.isCompleted ==> Incomplete(s) == []) {
      PrependKeepsIncompleteFirst(t, s);
    }
  }

  lemma PrependedWasIncompleteFirst(t: Todo, s: seq<Todo>)
    requires IncompleteFirst([t] + s)
    ensures IncompleteFirst(s) && (t.isCompleted ==> Incomplete(s) == [])
  {
    var r := [t] + s;
    IncompleteFirstTail(r);
    assert r[1..] == s && r[0] == t;
    if t.isCompleted {
      GroupsOfUniform(s, true);
    }
  }

  lemma PrependKeepsIncompleteFirst(t: Todo, s: seq<Todo>)
    requires IncompleteFirst(s) && (t.isCompleted ==> Incomplete(s) == [])
    ensures IncompleteFirst([t] + s)
  {
    var r := [t] + s;
    if t.isCompleted {
      IncompleteFirstIsPartition(s);
      GroupsUniform(s);
      assert s == Completed(s);
    }
    forall i, j | 0 <= i < j < |r| && r[i].isCompleted ensures r[j].isCompleted {
      assert r[j] == s[j - 1];
      if i > 0 { assert r[i] == s[i - 1]; }
    }
  }
}
