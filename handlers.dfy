/** The command handlers with loading and saving stripped away. A handler
    works on the list that load_tasks returned; what it hands to save_tasks
    is returned as `saved` (None when the handler does not save). The current
    time is a parameter. */
module Handlers {
  import opened Tasks
  import opened Text
  import opened Repository

  /** The loaded list of task records, which the handlers change in place. */
  class TaskList {
    var tasks: seq<Task>

    constructor (loaded: seq<Task>)
      ensures tasks == loaded
    {
      tasks := loaded;
    }

    /** add_task: appends a new task with the next id; always saves. */
    method Add(description: string, now: string) returns (newId: int, saved: Option<seq<Task>>)
      modifies this
      ensures newId == NextId(old(tasks))
      ensures tasks == Added(old(tasks), description, now)
      ensures saved == Some(tasks)
    {
      newId := NextId(tasks);
      var newTask := Task(newId, description, Todo, now, now);
      tasks := tasks + [newTask];
      saved := Some(tasks);
    }

    /** update_task: rewrites the description of the task rawId names and
      stamps its update time, then saves; changes and saves nothing when no
      task matches. */
    method Update(rawId: string, newDescription: string, now: string) returns (saved: Option<seq<Task>>)
      modifies this
      ensures (match Locate(old(tasks), rawId)
        case None => tasks == old(tasks) && saved == None
        case Some(i) => tasks == Described(old(tasks), i, newDescription, now) && saved == Some(tasks))
    {
      var found := Locate(tasks, rawId);
      if found.Some? {
        var i := found.value;
        tasks := tasks[i := tasks[i].(description := newDescription)];
        tasks := tasks[i := tasks[i].(updatedAt := now)];
        saved := Some(tasks);
      } else {
        saved := None;
      }
    }

    /** mark_task: sets the status of the task rawId names and stamps its
      update time, then saves; changes and saves nothing when no task matches. */
    method Mark(rawId: string, newStatus: string, now: string) returns (saved: Option<seq<Task>>)
      modifies this
      ensures (match Locate(old(tasks), rawId)
        case None => tasks == old(tasks) && saved == None
        case Some(i) => tasks == Marked(old(tasks), i, newStatus, now) && saved == Some(tasks))
    {
      var found := Locate(tasks, rawId);
      if found.Some? {
        var i := found.value;
        tasks := tasks[i := tasks[i].(status := newStatus)];
        tasks := tasks[i := tasks[i].(updatedAt := now)];
        saved := Some(tasks);
      } else {
        saved := None;
      }
    }

    /** delete_task: saves a new list without every task of that id; the
      loaded list itself is left as it is. Saves nothing when no task matches. */
    method Delete(rawId: string) returns (saved: Option<seq<Task>>)
      ensures Locate(tasks, rawId).None? ==> saved == None
      ensures Locate(tasks, rawId).Some? ==> saved == Some(Without(tasks, ParseInt(rawId).value))
      ensures saved.Some? ==> forall t :: t in saved.value <==> t in tasks && Some(t.id) != ParseInt(rawId)
      ensures saved.Some? && UniqueIds(tasks) ==> |saved.value| == |tasks| - 1 && UniqueIds(saved.value)
    {
      var found := Locate(tasks, rawId);
      if found.Some? {
        var k := ParseInt(rawId).value;
        var kept := Without(tasks, k);
        if UniqueIds(tasks) {
          assert HasId(tasks, k) by { assert tasks[found.value].id == k; }
          WithoutRemovesOne(tasks, k);
          WithoutKeepsUnique(tasks, k);
        }
        saved := Some(kept);
      } else {
        saved := None;
      }
    }

    /** list_tasks: the tasks to display, selected by the filter and sorted
      by id; never saves. Without a valid filter the list that gets sorted is
      the loaded list itself, so the loaded list ends up sorted too. */
    method List(filter: Option<string>) returns (shown: seq<Task>)
      modifies this
      ensures shown == SortById(Selection(old(tasks), filter))
      ensures tasks == (if filter.Some? && IsStatus(filter.value) then old(tasks) else shown)
    {
      var selected: seq<Task>;
      if filter.Some? && IsStatus(filter.value) {
        selected := HavingStatus(tasks, filter.value);
      } else {
        selected := tasks;
      }
      if |selected| == 0 {
        assert selected == [];
        return [];
      }
      var a := new Task[|selected|](i requires 0 <= i < |selected| => selected[i]);
      assert a[..] == selected;
      SortInPlace(a);
      shown := a[..];
      if !(filter.Some? && IsStatus(filter.value)) {
        tasks := shown;
      }
    }
  }

  /** list.sort(key=id) on an array: a stable sort by id, done in place. */
  method SortInPlace(a: array<Task>)
    modifies a
    ensures a[..] == SortById(old(a[..]))
  {
    ghost var original := a[..];
    var i := 0;
    while i < a.Length
      invariant 0 <= i <= a.Length
      invariant a[..i] == SortById(original[..i])
      invariant a[i..] == original[i..]
    {
      assert a[i] == original[i] && a[i + 1..] == original[i + 1..] by {
        assert a[i..] == [a[i]] + a[i + 1..] && original[i..] == [original[i]] + original[i + 1..];
      }
      InsertInto(a, i);
      SortByIdSnoc(original, i);
      i := i + 1;
    }
    assert original[..a.Length] == original;
  }

  lemma SortByIdSnoc(s: seq<Task>, i: nat)
    requires i < |s|
    ensures SortById(s[..i + 1]) == InsertSorted(SortById(s[..i]), s[i])
  {
    assert s[..i + 1][..i] == s[..i];
  }

  /** Moves a[i] left past every element of the prefix a[..i] that has a
      larger id. */
  method InsertInto(a: array<Task>, i: nat)
    requires i < a.Length
    modifies a
    ensures a[..i + 1] == InsertSorted(old(a[..i]), old(a[i]))
    ensures a[i + 1..] == old(a[i + 1..])
  {
    var x := a[i];
    ghost var prefix := a[..i];
    var j := ShiftLarger(a, i, x);
    a[j] := x;
    InsertSortedSplit(prefix, j, x);
    SpliceAt(prefix, j, x);
    assert a[..i + 1] == prefix[..j] + [x] + prefix[j..];
  }

  /** The inner loop of the insertion: shifts the elements of a[..i] whose id
      exceeds x's one place to the right, from the back, and returns the gap
      left behind. */
  method ShiftLarger(a: array<Task>, i: nat, x: Task) returns (j: nat)
    requires i < a.Length
    modifies a
    ensures j <= i
    ensures forall k :: 0 <= k < j ==> a[k] == old(a[k])
    ensures forall k :: j < k <= i ==> a[k] == old(a[k - 1])
    ensures forall k :: i < k < a.Length ==> a[k] == old(a[k])
    ensures forall k :: j <= k < i ==> old(a[k]).id > x.id
    ensures j == 0 || old(a[j - 1]).id <= x.id
  {
    j := i;
    while j > 0 && a[j - 1].id > x.id
      invariant 0 <= j <= i
      invariant forall k :: 0 <= k < j ==> a[k] == old(a[k])
      invariant forall k :: j < k <= i ==> a[k] == old(a[k - 1])
      invariant forall k :: i < k < a.Length ==> a[k] == old(a[k])
      invariant forall k :: j <= k < i ==> old(a[k]).id > x.id
    {
      a[j] := a[j - 1];
      j := j - 1;
    }
  }

  /** Element positions of a sequence with x spliced in at position j. */
  lemma SpliceAt(p: seq<Task>, j: nat, x: Task)
    requires j <= |p|
    ensures (var s := p[..j] + [x] + p[j..];
      && |s| == |p| + 1 && s[j] == x
      && (forall k :: 0 <= k < j ==> s[k] == p[k])
      && (forall k :: j < k <= |p| ==> s[k] == p[k - 1]))
  {
    var s := p[..j] + [x] + p[j..];
    forall k | j < k <= |p| ensures s[k] == p[k - 1] {
      assert s[k] == p[j..][k - j - 1];
    }
  }

  /** Inserting x places it right after position j - 1 when every task from
      position j on has a larger id and the one before does not. */
  lemma {:induction false} InsertSortedSplit(p: seq<Task>, j: nat, x: Task)
    requires j <= |p|
    requires forall k :: j <= k < |p| ==> p[k].id > x.id
    requires j == 0 || p[j - 1].id <= x.id
    ensures InsertSorted(p, x) == p[..j] + [x] + p[j..]
  {
    if j == |p| {
      assert p[..j] == p && p[j..] == [];
    } else {
      var init := p[..|p| - 1];
      InsertSortedSplit(init, j, x);
      assert init[..j] == p[..j];
      assert init[j..] + [p[|p| - 1]] == p[j..];
    }
  }
}
