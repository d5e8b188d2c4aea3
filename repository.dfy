/** The in-memory operations on a loaded task collection: id assignment,
    lookup by a textual id, the new collections the handlers produce, status
    filtering and the stable sort by id used for display. */
module Repository {
  import opened Tasks
  import opened Text

  // ----- id assignment -----

  /** The largest id of a non-empty collection. */
  function MaxId(tasks: seq<Task>): (m: int)
    requires |tasks| > 0
    ensures forall t :: t in tasks ==> t.id <= m
    ensures exists t :: t in tasks && t.id == m
  {
    if |tasks| == 1 then tasks[0].id
    else
      var rest := MaxId(tasks[1..]);
      if tasks[0].id >= rest then tasks[0].id else rest
  }

  /** get_next_id: 1 for an empty collection, else one more than the largest id.
      The postconditions pin the result down: above every id, and (when there
      are tasks) just above one of them. */
  function NextId(tasks: seq<Task>): (r: int)
    ensures forall t :: t in tasks ==> t.id < r
    ensures |tasks| == 0 ==> r == 1
    ensures |tasks| > 0 ==> exists t :: t in tasks && t.id == r - 1
  {
    if |tasks| == 0 then 1 else MaxId(tasks) + 1
  }

  // ----- lookup -----

  /** Position of the first task whose id is k, scanning from the front. */
  function IndexOfId(tasks: seq<Task>, k: int): (r: Option<nat>)
    ensures r.Some? ==> r.value < |tasks| && tasks[r.value].id == k
    ensures r.Some? ==> forall j :: 0 <= j < r.value ==> tasks[j].id != k
    ensures r.None? ==> forall t :: t in tasks ==> t.id != k
  {
    if |tasks| == 0 then None
    else if tasks[0].id == k then Some(0)
    else
      match IndexOfId(tasks[1..], k)
      case None => None
      case Some(i) => Some(i + 1)
  }

  /** Position of the task that find_task returns for the textual id rawId:
      nothing when rawId is not an integer or no task has that id. */
  function Locate(tasks: seq<Task>, rawId: string): (r: Option<nat>)
    ensures r.Some? ==> r.value < |tasks| && ParseInt(rawId) == Some(tasks[r.value].id)
    ensures r.Some? ==> forall j :: 0 <= j < r.value ==> tasks[j].id != tasks[r.value].id
    ensures r.None? <==> forall t :: t in tasks ==> ParseInt(rawId) != Some(t.id)
  {
    match ParseInt(rawId)
    case None => None
    case Some(k) => IndexOfId(tasks, k)
  }

  /** find_task: the first task whose id equals rawId read as an integer. */
  function FindTask(tasks: seq<Task>, rawId: string): (r: Option<Task>)
    ensures r.Some? ==> r.value in tasks && ParseInt(rawId) == Some(r.value.id)
    ensures r.None? <==> forall t :: t in tasks ==> ParseInt(rawId) != Some(t.id)
    ensures r.Some? ==> exists i :: 0 <= i < |tasks| && tasks[i] == r.value
                                    && forall j :: 0 <= j < i ==> tasks[j].id != r.value.id
  {
    match Locate(tasks, rawId)
    case None => None
    case Some(i) => Some(tasks[i])
  }

  // ----- the collections the handlers produce -----

  /** add_task: the collection with a new task appended at the end. */
  function Added(tasks: seq<Task>, description: string, now: string): (r: seq<Task>)
    ensures |r| == |tasks| + 1 && r[..|tasks|] == tasks
    ensures r[|tasks|] == Task(NextId(tasks), description, Todo, now, now)
    ensures forall t :: t in tasks ==> t.id < r[|tasks|].id
    ensures UniqueIds(tasks) ==> UniqueIds(r)
  {
    tasks + [Task(NextId(tasks), description, Todo, now, now)]
  }

  /** update_task on the task at position i: only its description and its
      update time change. */
  function Described(tasks: seq<Task>, i: nat, description: string, now: string): (r: seq<Task>)
    requires i < |tasks|
    ensures |r| == |tasks|
    ensures forall j :: 0 <= j < |tasks| && j != i ==> r[j] == tasks[j]
    ensures r[i].id == tasks[i].id && r[i].status == tasks[i].status && r[i].createdAt == tasks[i].createdAt
    ensures r[i].description == description && r[i].updatedAt == now
    ensures UniqueIds(tasks) <==> UniqueIds(r)
  {
    tasks[i := tasks[i].(description := description, updatedAt := now)]
  }

  /** mark_task on the task at position i: only its status and its update
      time change. */
  function Marked(tasks: seq<Task>, i: nat, status: string, now: string): (r: seq<Task>)
    requires i < |tasks|
    ensures |r| == |tasks|
    ensures forall j :: 0 <= j < |tasks| && j != i ==> r[j] == tasks[j]
    ensures r[i].id == tasks[i].id && r[i].description == tasks[i].description && r[i].createdAt == tasks[i].createdAt
    ensures r[i].status == status && r[i].updatedAt == now
    ensures UniqueIds(tasks) <==> UniqueIds(r)
  {
    tasks[i := tasks[i].(status := status, updatedAt := now)]
  }

  /** delete_task's comprehension: the tasks whose id is not k, in their
      original order. */
  function Without(tasks: seq<Task>, k: int): (r: seq<Task>)
    ensures forall t :: t in r <==> t in tasks && t.id != k
    ensures |r| <= |tasks|
  {
    if |tasks| == 0 then []
    else (if tasks[0].id != k then [tasks[0]] else []) + Without(tasks[1..], k)
  }

  // ----- filtering and sorting for display -----

  /** The tasks with the given status, in collection order. */
  function HavingStatus(tasks: seq<Task>, status: string): (r: seq<Task>)
    ensures forall t :: t in r <==> t in tasks && t.status == status
    ensures |r| <= |tasks|
  {
    if |tasks| == 0 then []
    else (if tasks[0].status == status then [tasks[0]] else []) + HavingStatus(tasks[1..], status)
  }

  /** list_tasks' selection: only a filter naming one of the three statuses
      filters; no filter, an empty one or any other value selects everything. */
  function Selection(tasks: seq<Task>, filter: Option<string>): (r: seq<Task>)
    ensures forall t :: t in r <==> t in tasks && Passes(t, filter)
    ensures !(filter.Some? && IsStatus(filter.value)) ==> r == tasks
  {
    if filter.Some? && IsStatus(filter.value) then HavingStatus(tasks, filter.value) else tasks
  }

  /** Whether list_tasks with this filter shows task t. */
  predicate Passes(t: Task, filter: Option<string>) {
    filter.Some? && IsStatus(filter.value) ==> t.status == filter.value
  }

  /** Inserts x into s after every task whose id is at most x's id. */
  function InsertSorted(s: seq<Task>, x: Task): (r: seq<Task>)
    ensures |r| == |s| + 1
  {
    if |s| == 0 then [x]
    else if s[|s| - 1].id <= x.id then s + [x]
    else InsertSorted(s[..|s| - 1], x) + [s[|s| - 1]]
  }

  /** Stable sort by ascending id (insertion sort, taking tasks in order). */
  function SortById(s: seq<Task>): (r: seq<Task>)
    ensures |r| == |s|
  {
    if |s| == 0 then [] else InsertSorted(SortById(s[..|s| - 1]), s[|s| - 1])
  }

  /** The tasks of s with id k, in the order s has them. */
  function WithId(s: seq<Task>, k: int): seq<Task> {
    if |s| == 0 then [] else WithId(s[..|s| - 1], k) + (if s[|s| - 1].id == k then [s[|s| - 1]] else [])
  }

  // ----- properties of id assignment -----

  /** Successive adds hand out successive ids. */
  lemma NextIdAfterAdd(tasks: seq<Task>, description: string, now: string)
    ensures NextId(Added(tasks, description, now)) == NextId(tasks) + 1
  {
    var r := Added(tasks, description, now);
    var n := NextId(tasks);
    assert r[|tasks|] in r;
    var t :| t in r && t.id == NextId(r) - 1;
    if t.id != n {
      assert t in r[..|tasks|];
    }
  }

  /** Ids are reused: after deleting the task with the largest id m, the next
      id is at most m, and exactly m when some task has id m - 1. */
  lemma DeletingLargestIdFreesIt(tasks: seq<Task>)
    requires |tasks| > 0
    requires forall t :: t in tasks ==> t.id > 0
    ensures NextId(Without(tasks, MaxId(tasks))) <= MaxId(tasks)
    ensures HasId(tasks, MaxId(tasks) - 1) ==> NextId(Without(tasks, MaxId(tasks))) == MaxId(tasks)
  {
    var m := MaxId(tasks);
    var rest := Without(tasks, m);
    var n := NextId(rest);
    if |rest| > 0 {
      var t :| t in rest && t.id == n - 1;
      assert t in tasks && t.id != m;
    } else {
      assert tasks[0] in tasks;
    }
    assert n <= m;
    if HasId(tasks, m - 1) {
      var i :| 0 <= i < |tasks| && tasks[i].id == m - 1;
      assert tasks[i] in tasks;
      assert tasks[i] in rest;
    }
  }

  /** A concrete instance: add two tasks (ids 1 and 2), delete id 2, add
      again, and the new task gets id 2 once more. */
  lemma IdReusedAfterDelete(a: string, b: string, c: string, now: string)
    ensures (var two := Added(Added([], a, now), b, now);
      && two[0].id == 1 && two[1].id == 2
      && Added(Without(two, 2), c, now)[1].id == 2)
  {
    var one := Added([], a, now);
    var two := Added(one, b, now);
    NextIdAfterAdd(one, b, now);
    assert Without(two, 2) == one by {
      assert two[1..] == [two[1]];
      WithoutAbsent(one[1..], 2);
    }
  }

  // ----- properties of delete -----

  /** Deleting distributes over concatenation, so the surviving tasks keep
      their relative order. */
  lemma {:induction false} WithoutConcat(a: seq<Task>, b: seq<Task>, k: int)
    ensures Without(a + b, k) == Without(a, k) + Without(b, k)
  {
    if |a| == 0 {
      assert a + b == b;
    } else {
      assert (a + b)[1..] == a[1..] + b;
      WithoutConcat(a[1..], b, k);
    }
  }

  /** Deleting an id that no task has changes nothing. */
  lemma {:induction false} WithoutAbsent(tasks: seq<Task>, k: int)
    requires forall t :: t in tasks ==> t.id != k
    ensures Without(tasks, k) == tasks
  {
    if |tasks| > 0 {
      var rest := tasks[1..];
      forall t | t in rest ensures t.id != k {
        assert t in tasks;
      }
      WithoutAbsent(rest, k);
      assert tasks[0] in tasks;
      assert tasks == [tasks[0]] + rest;
    }
  }

  /** With unique ids, deleting an id that is present removes exactly one task. */
  lemma {:induction false} WithoutRemovesOne(tasks: seq<Task>, k: int)
    requires UniqueIds(tasks) && HasId(tasks, k)
    ensures |Without(tasks, k)| == |tasks| - 1
  {
    var rest := tasks[1..];
    if tasks[0].id == k {
      forall t | t in rest ensures t.id != k {
        var j :| 0 <= j < |rest| && rest[j] == t;
        assert tasks[j + 1] == t;
      }
      WithoutAbsent(rest, k);
    } else {
      var i :| 0 <= i < |tasks| && tasks[i].id == k;
      assert rest[i - 1].id == k;
      WithoutRemovesOne(rest, k);
    }
  }

  /** Deleting keeps ids unique. */
  lemma {:induction false} WithoutKeepsUnique(tasks: seq<Task>, k: int)
    requires UniqueIds(tasks)
    ensures UniqueIds(Without(tasks, k))
  {
    if |tasks| > 0 {
      var rest := tasks[1..];
      WithoutKeepsUnique(rest, k);
      var tail := Without(rest, k);
      if tasks[0].id != k {
        var r := [tasks[0]] + tail;
        forall j | 0 < j < |r| ensures r[0].id != r[j].id {
          assert r[j] in tail;
          var m :| 0 <= m < |rest| && rest[m] == r[j];
          assert tasks[m + 1] == r[j];
        }
        assert Without(tasks, k) == r;
      }
    }
  }

  // ----- properties of the status filter -----

  /** Filtering distributes over concatenation, so the selected tasks keep
      their relative order. */
  lemma {:induction false} HavingStatusConcat(a: seq<Task>, b: seq<Task>, status: string)
    ensures HavingStatus(a + b, status) == HavingStatus(a, status) + HavingStatus(b, status)
  {
    if |a| == 0 {
      assert a + b == b;
    } else {
      assert (a + b)[1..] == a[1..] + b;
      HavingStatusConcat(a[1..], b, status);
    }
  }

  /** Filtering keeps every task of that status as often as the collection
      has it, and no other task. */
  lemma {:induction false} HavingStatusCount(tasks: seq<Task>, status: string, t: Task)
    ensures multiset(HavingStatus(tasks, status))[t] == if t.status == status then multiset(tasks)[t] else 0
  {
    if |tasks| > 0 {
      HavingStatusCount(tasks[1..], status, t);
      assert tasks == [tasks[0]] + tasks[1..];
      assert multiset(tasks) == multiset{tasks[0]} + multiset(tasks[1..]);
    }
  }

  // ----- properties of the sort -----

  lemma {:induction false} InsertSortedPermutes(s: seq<Task>, x: Task)
    ensures multiset(InsertSorted(s, x)) == multiset(s) + multiset{x}
  {
    if |s| > 0 && s[|s| - 1].id > x.id {
      var init := s[..|s| - 1];
      InsertSortedPermutes(init, x);
      assert s == init + [s[|s| - 1]];
    }
  }

  lemma {:induction false} InsertSortedSorted(s: seq<Task>, x: Task)
    requires SortedById(s)
    ensures SortedById(InsertSorted(s, x))
  {
    if |s| > 0 && s[|s| - 1].id > x.id {
      var init := s[..|s| - 1];
      var last := s[|s| - 1];
      InsertSortedSorted(init, x);
      InsertSortedPermutes(init, x);
      var front := InsertSorted(init, x);
      forall j | 0 <= j < |front| ensures front[j].id <= last.id {
        assert front[j] in multiset(init) + multiset{x};
        if front[j] != x {
          assert front[j] in init;
        }
      }
    }
  }

  /** Inserting x leaves the order among the tasks of any one id unchanged and
      puts x after the tasks that share its id. */
  lemma {:induction false} InsertSortedStable(s: seq<Task>, x: Task, k: int)
    requires SortedById(s)
    ensures WithId(InsertSorted(s, x), k) == WithId(s, k) + (if x.id == k then [x] else [])
  {
    if |s| == 0 {
      assert WithId([x], k) == WithId([], k) + (if x.id == k then [x] else []);
    } else if s[|s| - 1].id <= x.id {
      assert (s + [x])[..|s|] == s;
    } else {
      var init := s[..|s| - 1];
      var last := s[|s| - 1];
      InsertSortedStable(init, x, k);
      var r := InsertSorted(init, x) + [last];
      assert r[..|r| - 1] == InsertSorted(init, x);
    }
  }

  /** SortById orders by id. */
  lemma {:induction false} SortByIdSorted(s: seq<Task>)
    ensures SortedById(SortById(s))
  {
    if |s| > 0 {
      SortByIdSorted(s[..|s| - 1]);
      InsertSortedSorted(SortById(s[..|s| - 1]), s[|s| - 1]);
    }
  }

  /** SortById is a permutation. */
  lemma {:induction false} SortByIdPermutes(s: seq<Task>)
    ensures multiset(SortById(s)) == multiset(s)
  {
    if |s| > 0 {
      var init := s[..|s| - 1];
      var last := s[|s| - 1];
      SortByIdPermutes(init);
      InsertSortedPermutes(SortById(init), last);
      calc {
        multiset(SortById(s));
        multiset(InsertSorted(SortById(init), last));
        multiset(SortById(init)) + multiset{last};
        multiset(init) + multiset{last};
        { MultisetOfInitLast(s); }
        multiset(s);
      }
    }
  }

  lemma MultisetOfInitLast(s: seq<Task>)
    requires |s| > 0
    ensures multiset(s) == multiset(s[..|s| - 1]) + multiset{s[|s| - 1]}
  {
    assert s == s[..|s| - 1] + [s[|s| - 1]];
  }

  /** SortById is stable: tasks sharing an id keep their relative order. */
  lemma {:induction false} SortByIdStable(s: seq<Task>, k: int)
    ensures WithId(SortById(s), k) == WithId(s, k)
  {
    if |s| > 0 {
      var init := s[..|s| - 1];
      SortByIdStable(init, k);
      SortByIdSorted(init);
      InsertSortedStable(SortById(init), s[|s| - 1], k);
    }
  }

  /** What list_tasks shows: exactly the tasks of the collection that pass the
      filter (all of them for no or an unknown filter), each as often as in
      the collection, ordered by id, and tasks of equal id in collection order. */
  lemma ListedTasks(tasks: seq<Task>, filter: Option<string>)
    ensures SortedById(SortById(Selection(tasks, filter)))
    ensures forall t :: multiset(SortById(Selection(tasks, filter)))[t]
                        == if Passes(t, filter) then multiset(tasks)[t] else 0
    ensures forall t :: t in SortById(Selection(tasks, filter)) <==> t in tasks && Passes(t, filter)
    ensures forall k :: WithId(SortById(Selection(tasks, filter)), k) == WithId(Selection(tasks, filter), k)
  {
    var sel := Selection(tasks, filter);
    SortByIdSorted(sel);
    SortByIdPermutes(sel);
    forall t ensures multiset(SortById(sel))[t] == if Passes(t, filter) then multiset(tasks)[t] else 0 {
      if filter.Some? && IsStatus(filter.value) {
        HavingStatusCount(tasks, filter.value, t);
      }
    }
    forall t ensures t in SortById(sel) <==> t in sel {
      assert t in SortById(sel) <==> t in multiset(SortById(sel));
      assert t in sel <==> t in multiset(sel);
    }
    forall k ensures WithId(SortById(sel), k) == WithId(sel, k) {
      SortByIdStable(sel, k);
    }
  }
}
