/** One run of the program: route the arguments, run the chosen handler on
    the collection that was loaded, and report the exit status, what gets
    saved and what gets listed. */
module Cli {
  import opened Tasks
  import opened Text
  import opened Repository
  import opened Router
  import Handlers

  method Execute(argv: seq<string>, loaded: seq<Task>, now: string)
    returns (exitCode: int, saved: Option<seq<Task>>, shown: seq<Task>)
    ensures exitCode == ExitCode(Route(argv))
    ensures exitCode != 0 ==> saved == None
    ensures saved.Some? && UniqueIds(loaded) ==> UniqueIds(saved.value)
    ensures Route(argv).Run? && Route(argv).command.Add? ==>
      saved == Some(Added(loaded, Route(argv).command.description, now))
    ensures Route(argv).Run? && (Route(argv).command.Update? || Route(argv).command.Delete? || Route(argv).command.Mark?) ==>
      (saved.Some? <==> Locate(loaded, Route(argv).command.id).Some?)
    ensures Route(argv).Run? && Route(argv).command.Update? && Locate(loaded, Route(argv).command.id).Some? ==>
      saved == Some(Described(loaded, Locate(loaded, Route(argv).command.id).value, Route(argv).command.description, now))
    ensures Route(argv).Run? && Route(argv).command.Delete? && Locate(loaded, Route(argv).command.id).Some? ==>
      saved == Some(Without(loaded, ParseInt(Route(argv).command.id).value))
    ensures Route(argv).Run? && Route(argv).command.Mark? && Locate(loaded, Route(argv).command.id).Some? ==>
      saved == Some(Marked(loaded, Locate(loaded, Route(argv).command.id).value, Route(argv).command.status, now))
    ensures Route(argv).Run? && Route(argv).command.List? ==>
      saved == None && shown == SortById(Selection(loaded, Route(argv).command.filter))
    ensures Route(argv).Run? && Route(argv).command.Help? ==> saved == None
    ensures !(Route(argv).Run? && Route(argv).command.List?) ==> shown == []
  {
    var invocation := Route(argv);
    exitCode := ExitCode(invocation);
    saved, shown := None, [];
    if invocation.Run? {
      var store := new Handlers.TaskList(loaded);
      match invocation.command {
        case Add(description) =>
          var _, s := store.Add(description, now);
          saved := s;
        case Update(id, description) =>
          saved := store.Update(id, description, now);
        case Delete(id) =>
          saved := store.Delete(id);
        case Mark(id, status) =>
          saved := store.Mark(id, status, now);
        case List(filter) =>
          shown := store.List(filter);
        case Help =>
      }
    }
  }

  /** A walk-through checked against the contracts: two adds into an empty
      list, then marking the first task done. */
  method Walkthrough(t1: string, t2: string, t3: string)
  {
    assert Lower("add") == "add" && Lower("mark-done") == "mark-done";
    assert ParseInt("1") == Some(1) by { assert IsIntegerText("1"); }
    assert Route(["task-cli", "add", "Buy milk"]) == Run(Add("Buy milk"));
    assert Route(["task-cli", "add", "Pay rent"]) == Run(Add("Pay rent"));
    assert Route(["task-cli", "mark-done", "1"]) == Run(Mark("1", Done));
    var code, saved, shown := Execute(["task-cli", "add", "Buy milk"], [], t1);
    assert saved == Some([Task(1, "Buy milk", Todo, t1, t1)]);
    var s1 := saved.value;
    code, saved, shown := Execute(["task-cli", "add", "Pay rent"], s1, t2);
    NextIdAfterAdd([], "Buy milk", t1);
    assert saved.value[1].id == 2;
    var s2 := saved.value;
    code, saved, shown := Execute(["task-cli", "mark-done", "1"], s2, t3);
    assert code == 0;
    assert saved.value == [Task(1, "Buy milk", Done, t1, t3), Task(2, "Pay rent", Todo, t2, t2)];
  }

  /** The rest of the walk-through: listing the open tasks shows only task 2. */
  method WalkthroughListTodo(t1: string, t2: string, t3: string)
  {
    var s3 := [Task(1, "Buy milk", Done, t1, t3), Task(2, "Pay rent", Todo, t2, t2)];
    var argv := ["task-cli"] + Words(List(Some(Todo)));
    assert argv == ["task-cli", "list", "todo"];
    RouteListWords("task-cli", Some(Todo));
    assert HavingStatus(s3, Todo) == [s3[1]];
    assert SortById([s3[1]]) == InsertSorted([], s3[1]);
    var code, saved, shown := Execute(argv, s3, t3);
    assert saved == None && shown == [s3[1]];
  }

  /** Deleting task 2 saves a list holding only task 1. */
  method WalkthroughDelete(t1: string, t2: string, t3: string)
  {
    var s3 := [Task(1, "Buy milk", Done, t1, t3), Task(2, "Pay rent", Todo, t2, t2)];
    assert ParseInt("2") == Some(2) by { assert IsIntegerText("2"); }
    assert Locate(s3, "2") == Some(1);
    assert Lower("delete") == "delete";
    var code, saved, shown := Execute(["task-cli", "delete", "2"], s3, t3);
    assert Without(s3, 2) == [s3[0]];
    assert saved == Some([s3[0]]);
  }

  /** The full listing of the remaining list shows task 1 alone. */
  method WalkthroughListAll(t1: string, t3: string)
  {
    var s4 := [Task(1, "Buy milk", Done, t1, t3)];
    assert Lower("list") == "list";
    assert Route(["task-cli", "list"]) == Run(List(None));
    assert SortById(s4) == InsertSorted([], s4[0]);
    var code, saved, shown := Execute(["task-cli", "list"], s4, t3);
    assert code == 0 && saved == None && shown == s4;
  }
}
