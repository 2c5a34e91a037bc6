/** The order in which `loadTasks` (public/js/app.js) renders the fetched tasks: the
    not-completed tasks sorted by due date, then the completed ones as the server sent
    them. */
module TaskOrder {
  import opened Tasks
  import opened TaskText

  /** `!task.completada`: 0 is the only falsy integer. */
  predicate IsPending(t: Task) {
    t.completada == 0
  }

  /** `data.filter(task => !task.completada)`. */
  function Pending(s: seq<Task>): (r: seq<Task>)
    ensures forall i :: 0 <= i < |r| ==> IsPending(r[i])
  {
    if s == [] then []
    else if IsPending(s[0]) then [s[0]] + Pending(s[1..])
    else Pending(s[1..])
  }

  /** `data.filter(task => task.completada)`. */
  function Finished(s: seq<Task>): (r: seq<Task>)
    ensures forall i :: 0 <= i < |r| ==> !IsPending(r[i])
  {
    if s == [] then []
    else if !IsPending(s[0]) then [s[0]] + Finished(s[1..])
    else Finished(s[1..])
  }

  /** The two filters split the data: every task lands in exactly one of them. */
  lemma {:induction false} SplitIsPermutation(s: seq<Task>)
    ensures multiset(Pending(s)) + multiset(Finished(s)) == multiset(s)
  {
    if s != [] {
      SplitIsPermutation(s[1..]);
      assert s == [s[0]] + s[1..];
    }
  }

  /** Filtering keeps the relative order: if the ids descend (the server's order), so do
      the ids of the completed tasks. */
  lemma {:induction false} FinishedKeepsDescendingIds(s: seq<Task>)
    requires forall i, j :: 0 <= i < j < |s| ==> s[i].id > s[j].id
    ensures var r := Finished(s); forall i, j :: 0 <= i < j < |r| ==> r[i].id > r[j].id
  {
    if s != [] {
      var rest := s[1..];
      assert forall i :: 0 <= i < |rest| ==> rest[i] == s[i + 1];
      FinishedKeepsDescendingIds(rest);
      FinishedBelow(rest, s[0].id);
      if IsPending(s[0]) {
        assert Finished(s) == Finished(rest);
      } else {
        var r := Finished(s);
        assert r == [s[0]] + Finished(rest);
        forall i, j | 0 <= i < j < |r| ensures r[i].id > r[j].id {
          assert r[j] == Finished(rest)[j - 1];
          if i > 0 {
            assert r[i] == Finished(rest)[i - 1];
          }
        }
      }
    }
  }

  /** `Finished` keeps only tasks of its input, so it keeps a bound on their ids. */
  lemma {:induction false} FinishedBelow(s: seq<Task>, bound: int)
    requires forall i :: 0 <= i < |s| ==> s[i].id < bound
    ensures forall i :: 0 <= i < |Finished(s)| ==> Finished(s)[i].id < bound
  {
    if s != [] {
      FinishedBelow(s[1..], bound);
    }
  }

  predicate SortedByDue(s: seq<Task>) {
    forall i, j :: 0 <= i < j < |s| ==> DueLeq(s[i].fechaVencimiento, s[j].fechaVencimiento)
  }

  /** Puts `t` before the first task that is not due earlier than it. */
  function InsertByDue(t: Task, s: seq<Task>): seq<Task> {
    if s == [] then [t]
    else if DueLeq(t.fechaVencimiento, s[0].fechaVencimiento) then [t] + s
    else [s[0]] + InsertByDue(t, s[1..])
  }

  lemma {:induction false} InsertByDuePermutes(t: Task, s: seq<Task>)
    ensures multiset(InsertByDue(t, s)) == multiset(s) + multiset{t}
  {
    if s != [] && !DueLeq(t.fechaVencimiento, s[0].fechaVencimiento) {
      InsertByDuePermutes(t, s[1..]);
      assert s == [s[0]] + s[1..];
    }
  }

  /** A due date no later than `t`'s and every due date in `s` is no later than any in
      the result. */
  lemma {:induction false} InsertByDueAbove(t: Task, s: seq<Task>, low: string)
    requires DueLeq(low, t.fechaVencimiento)
    requires forall i :: 0 <= i < |s| ==> DueLeq(low, s[i].fechaVencimiento)
    ensures forall i :: 0 <= i < |InsertByDue(t, s)| ==> DueLeq(low, InsertByDue(t, s)[i].fechaVencimiento)
  {
    if s != [] && !DueLeq(t.fechaVencimiento, s[0].fechaVencimiento) {
      InsertByDueAbove(t, s[1..], low);
    }
  }

  lemma {:induction false} InsertByDueSorted(t: Task, s: seq<Task>)
    requires SortedByDue(s)
    ensures SortedByDue(InsertByDue(t, s))
  {
    if s == [] {
    } else if DueLeq(t.fechaVencimiento, s[0].fechaVencimiento) {
      var r := [t] + s;
      forall j | 1 < j < |r| ensures DueLeq(t.fechaVencimiento, r[j].fechaVencimiento) {
        DueLeqTransitive(t.fechaVencimiento, s[0].fechaVencimiento, s[j - 1].fechaVencimiento);
      }
    } else {
      DueLeqTotal(t.fechaVencimiento, s[0].fechaVencimiento);
      InsertByDueSorted(t, s[1..]);
      InsertByDueAbove(t, s[1..], s[0].fechaVencimiento);
    }
  }

  /** `tareasNoCompletadas.sort(by due date)`: an insertion sort by due date. */
  function SortByDue(s: seq<Task>): seq<Task> {
    if s == [] then [] else InsertByDue(s[0], SortByDue(s[1..]))
  }

  lemma {:induction false} SortByDueSorted(s: seq<Task>)
    ensures SortedByDue(SortByDue(s))
    ensures multiset(SortByDue(s)) == multiset(s)
  {
    if s != [] {
      SortByDueSorted(s[1..]);
      InsertByDueSorted(s[0], SortByDue(s[1..]));
      InsertByDuePermutes(s[0], SortByDue(s[1..]));
      assert s == [s[0]] + s[1..];
    }
  }

  /** Not-completed tasks by due date, then the completed ones in the order received. */
  function LoadOrder(s: seq<Task>): seq<Task> {
    SortByDue(Pending(s)) + Finished(s)
  }

  /** The load order holds as many tasks as the data. */
  lemma LoadOrderLength(s: seq<Task>)
    ensures |SortByDue(Pending(s))| == |Pending(s)|
    ensures |LoadOrder(s)| == |s|
  {
    SortByDueSorted(Pending(s));
    SplitIsPermutation(s);
    assert |multiset(SortByDue(Pending(s)))| == |multiset(Pending(s))|;
    assert |multiset(Pending(s))| + |multiset(Finished(s))| == |multiset(s)|;
  }

  /** Sorting the not-completed tasks keeps them not completed. */
  lemma SortedPendingArePending(s: seq<Task>)
    ensures var sorted := SortByDue(Pending(s));
      forall i :: 0 <= i < |sorted| ==> IsPending(sorted[i])
  {
    var sorted := SortByDue(Pending(s));
    SortByDueSorted(Pending(s));
    forall i | 0 <= i < |sorted| ensures IsPending(sorted[i]) {
      assert sorted[i] in multiset(Pending(s));
    }
  }

  /** The first `|Pending(s)|` positions of the load order are exactly the not-completed tasks. */
  lemma LoadOrderBlocks(s: seq<Task>)
    ensures |LoadOrder(s)| == |s|
    ensures forall i :: 0 <= i < |s| ==> (IsPending(LoadOrder(s)[i]) <==> i < |Pending(s)|)
  {
    var sorted := SortByDue(Pending(s));
    var finished := Finished(s);
    var r := LoadOrder(s);
    assert r == sorted + finished;
    LoadOrderLength(s);
    SortedPendingArePending(s);
    forall i | 0 <= i < |s| ensures IsPending(r[i]) <==> i < |Pending(s)| {
      if i < |sorted| {
        assert r[i] == sorted[i];
      } else {
        assert r[i] == finished[i - |sorted|];
      }
    }
  }

  /** The rendered order is a permutation of the data; every not-completed task comes
      before every completed one; the not-completed block is sorted by due date; the
      completed block is the completed tasks in the order received, so descending by
      id when the data came from `GET /api/tareas`. */
  lemma LoadOrderSpec(s: seq<Task>)
    ensures var r := LoadOrder(s); var n := |SortByDue(Pending(s))|;
      && multiset(r) == multiset(s)
      && (forall i, j :: 0 <= i < j < |r| && IsPending(r[j]) ==> IsPending(r[i]))
      && n <= |r|
      && SortedByDue(r[..n])
      && r[n..] == Finished(s)
      && ((forall i, j :: 0 <= i < j < |s| ==> s[i].id > s[j].id) ==>
            forall i, j :: n <= i < j < |r| ==> r[i].id > r[j].id)
  {
    var sorted := SortByDue(Pending(s));
    var r := LoadOrder(s);
    var n := |sorted|;
    SortByDueSorted(Pending(s));
    SplitIsPermutation(s);
    assert r[..n] == sorted;
    assert r[n..] == Finished(s);
    forall i | 0 <= i < n ensures IsPending(r[i]) {
      assert r[i] in multiset(sorted);
      assert r[i] in multiset(Pending(s));
    }
    if forall i, j :: 0 <= i < j < |s| ==> s[i].id > s[j].id {
      FinishedKeepsDescendingIds(s);
    }
  }
}
