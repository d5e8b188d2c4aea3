/** main's argument routing: from the argument vector to the command to run,
    or to the error that ends the process, and the resulting exit code. */
module Router {
  import opened Tasks
  import opened Text

  datatype Command =
    | Add(description: string)
    | Update(id: string, description: string)
    | Delete(id: string)
    | Mark(id: string, status: string)
    | List(filter: Option<string>)
    | Help

  /** The two argument errors (a ValueError caught by main). */
  datatype ArgProblem = WrongCount(command: string) | InvalidFilter(value: string)

  /** The outcome of routing an argument vector whose first element is the
      program name. */
  datatype Invocation =
    | Usage                             // no command given: help text, exit status 1
    | Run(command: Command)
    | ArgumentError(problem: ArgProblem)
    | UnknownCommand(name: string)

  predicate IsCommandName(c: string) {
    c == "add" || c == "update" || c == "delete" || c == "mark-in-progress"
    || c == "mark-done" || c == "list" || c == "help"
  }

  /** The number of arguments after the command name that each command takes;
      help ignores whatever follows it. */
  predicate ArgCountOk(c: string, n: nat) {
    ((c == "add" || c == "delete" || c == "mark-in-progress" || c == "mark-done") && n == 1)
    || (c == "update" && n == 2)
    || (c == "list" && n <= 1)
    || c == "help"
  }

  /** arg is a spelling of the lower-case word w: character by character
      either w's own character, its ASCII capital, or '_' where w has '-'. */
  predicate SpelledAs(arg: string, w: string) {
    |arg| == |w| && forall i :: 0 <= i < |w| ==> LowerChar(arg[i]) == w[i] || (arg[i] == '_' && w[i] == '-')
  }

  /** Lower-casing and reading '_' as '-' yields w exactly for the spellings of w. */
  lemma CanonicalIs(arg: string, w: string)
    requires forall i :: 0 <= i < |w| ==> w[i] != '_'
    ensures Replace(Lower(arg), '_', '-') == w <==> SpelledAs(arg, w)
  {
    var s := Replace(Lower(arg), '_', '-');
    if SpelledAs(arg, w) {
      forall i | 0 <= i < |w| ensures s[i] == w[i] {
        assert LowerChar(arg[i]) == Lower(arg)[i];
      }
    }
    if s == w {
      forall i | 0 <= i < |w| ensures LowerChar(arg[i]) == w[i] || (arg[i] == '_' && w[i] == '-') {
        assert LowerChar(arg[i]) == Lower(arg)[i];
      }
    }
  }

  /** The status filter of `list` as typed, brought to canonical form:
      lower-cased, '_' read as '-', and the synonyms "todotask" and
      "not-done" read as "todo". */
  function NormaliseFilter(arg: string): (r: string)
    ensures forall i :: 0 <= i < |r| ==> r[i] != '_' && !('A' <= r[i] <= 'Z')
    ensures |r| == |arg| || r == Todo
    ensures r == Todo <==> SpelledAs(arg, "todo") || SpelledAs(arg, "todotask") || SpelledAs(arg, "not-done")
    ensures r == InProgress <==> SpelledAs(arg, "in-progress")
    ensures r == Done <==> SpelledAs(arg, "done")
  {
    CanonicalIs(arg, "todo");
    CanonicalIs(arg, "todotask");
    CanonicalIs(arg, "not-done");
    CanonicalIs(arg, "in-progress");
    CanonicalIs(arg, "done");
    var s := Replace(Lower(arg), '_', '-');
    if s == "todotask" || s == "not-done" then Todo else s
  }

  /** main's dispatch on sys.argv. */
  function Route(argv: seq<string>): (r: Invocation)
    ensures |argv| < 2 <==> r == Usage
    ensures r.Run? ==> IsCommandName(Lower(argv[1])) && ArgCountOk(Lower(argv[1]), |argv| - 2)
    ensures r.UnknownCommand? ==> !IsCommandName(r.name)
    ensures r.Run? && r.command.List? && r.command.filter.Some? ==> IsStatus(r.command.filter.value)
    ensures r.Run? && r.command.Mark? ==> r.command.status == InProgress || r.command.status == Done
    ensures |argv| >= 2 && !IsCommandName(Lower(argv[1])) ==> r == UnknownCommand(Lower(argv[1]))
    ensures |argv| >= 2 && IsCommandName(Lower(argv[1])) && !ArgCountOk(Lower(argv[1]), |argv| - 2) ==>
      r == ArgumentError(WrongCount(Lower(argv[1])))
    ensures |argv| == 3 && Lower(argv[1]) == "add" ==> r == Run(Add(argv[2]))
    ensures |argv| == 4 && Lower(argv[1]) == "update" ==> r == Run(Update(argv[2], argv[3]))
    ensures |argv| == 3 && Lower(argv[1]) == "delete" ==> r == Run(Delete(argv[2]))
    ensures |argv| == 3 && Lower(argv[1]) == "mark-in-progress" ==> r == Run(Mark(argv[2], InProgress))
    ensures |argv| == 3 && Lower(argv[1]) == "mark-done" ==> r == Run(Mark(argv[2], Done))
    ensures |argv| == 2 && Lower(argv[1]) == "list" ==> r == Run(List(None))
    ensures |argv| == 3 && Lower(argv[1]) == "list" && IsStatus(NormaliseFilter(argv[2])) ==>
      r == Run(List(Some(NormaliseFilter(argv[2]))))
    ensures |argv| == 3 && Lower(argv[1]) == "list" && !IsStatus(NormaliseFilter(argv[2])) ==>
      r == ArgumentError(InvalidFilter(argv[2]))
    ensures |argv| >= 2 && Lower(argv[1]) == "help" ==> r == Run(Help)
  {
    if |argv| < 2 then Usage
    else
      var command := Lower(argv[1]);
      if command == "add" then
        if |argv| != 3 then ArgumentError(WrongCount(command)) else Run(Add(argv[2]))
      else if command == "update" then
        if |argv| != 4 then ArgumentError(WrongCount(command)) else Run(Update(argv[2], argv[3]))
      else if command == "delete" then
        if |argv| != 3 then ArgumentError(WrongCount(command)) else Run(Delete(argv[2]))
      else if command == "mark-in-progress" then
        if |argv| != 3 then ArgumentError(WrongCount(command)) else Run(Mark(argv[2], InProgress))
      else if command == "mark-done" then
        if |argv| != 3 then ArgumentError(WrongCount(command)) else Run(Mark(argv[2], Done))
      else if command == "list" then
        if |argv| == 2 then Run(List(None))
        else if |argv| == 3 then
          var status := NormaliseFilter(argv[2]);
          if IsStatus(status) then Run(List(Some(status))) else ArgumentError(InvalidFilter(argv[2]))
        else ArgumentError(WrongCount(command))
      else if command == "help" then Run(Help)
      else UnknownCommand(command)
  }

  /** The process exit status: 1 for a missing command, an argument error or
      an unknown command, 0 once a handler has run (a task that is not found
      does not change it). */
  function ExitCode(r: Invocation): (code: int)
    ensures code == 0 <==> r.Run?
    ensures code == 0 || code == 1
  {
    if r.Run? then 0 else 1
  }

  /** The exit status is 0 exactly for a known command with the argument
      count it takes and, for `list` with a filter, a filter that normalises
      to one of the three statuses. */
  lemma ExitCodeZeroIff(argv: seq<string>)
    ensures ExitCode(Route(argv)) == 0 <==>
      |argv| >= 2 && IsCommandName(Lower(argv[1])) && ArgCountOk(Lower(argv[1]), |argv| - 2)
      && (Lower(argv[1]) == "list" && |argv| == 3 ==> IsStatus(NormaliseFilter(argv[2])))
  {
  }

  /** Normalising a filter that is already normalised changes nothing. */
  lemma NormaliseFilterIdempotent(arg: string)
    ensures NormaliseFilter(NormaliseFilter(arg)) == NormaliseFilter(arg)
  {
    var n := NormaliseFilter(arg);
    assert Lower(n) == n;
    assert Replace(Lower(n), '_', '-') == n;
    var s := Replace(Lower(arg), '_', '-');
    if s == "todotask" || s == "not-done" {
      assert n == Todo;
    }
  }

  /** The command name is case-insensitive. */
  lemma RouteIgnoresCommandCase(argv: seq<string>)
    requires |argv| >= 2
    ensures Route(argv[1 := Lower(argv[1])]) == Route(argv)
  {
    LowerIdempotent(argv[1]);
  }

  /** The command words that select c, without the program name. */
  function Words(c: Command): seq<string> {
    match c
    case Add(description) => ["add", description]
    case Update(id, description) => ["update", id, description]
    case Delete(id) => ["delete", id]
    case Mark(id, status) => [if status == InProgress then "mark-in-progress" else "mark-done", id]
    case List(filter) => if filter.Some? then ["list", filter.value] else ["list"]
    case Help => ["help"]
  }

  /** The commands the router can produce: mark sets in-progress or done, and
      a list filter is one of the three statuses. */
  predicate WellFormed(c: Command) {
    (c.Mark? ==> c.status == InProgress || c.status == Done)
    && (c.List? && c.filter.Some? ==> IsStatus(c.filter.value))
  }

  /** Every command the router can produce is reached by its own words:
      routing them gives back exactly that command. */
  lemma RouteWords(program: string, c: Command)
    requires WellFormed(c)
    ensures Route([program] + Words(c)) == Run(c)
  {
    match c {
      case Add(d) =>
        assert Lower("add") == "add";
        assert [program] + Words(c) == [program, "add", d];
      case Update(id, d) =>
        assert Lower("update") == "update";
        assert [program] + Words(c) == [program, "update", id, d];
      case Delete(id) =>
        assert Lower("delete") == "delete";
        assert [program] + Words(c) == [program, "delete", id];
      case Mark(id, status) =>
        RouteMarkWords(program, id, status);
      case List(filter) =>
        RouteListWords(program, filter);
      case Help =>
        assert Lower("help") == "help";
        assert [program] + Words(c) == [program, "help"];
    }
  }

  lemma RouteMarkWords(program: string, id: string, status: string)
    requires status == InProgress || status == Done
    ensures Route([program] + Words(Mark(id, status))) == Run(Mark(id, status))
  {
    if status == InProgress {
      assert Lower("mark-in-progress") == "mark-in-progress";
      assert [program] + Words(Mark(id, status)) == [program, "mark-in-progress", id];
    } else {
      assert Lower("mark-done") == "mark-done";
      assert [program] + Words(Mark(id, status)) == [program, "mark-done", id];
    }
  }

  lemma RouteListWords(program: string, filter: Option<string>)
    requires filter.Some? ==> IsStatus(filter.value)
    ensures Route([program] + Words(List(filter))) == Run(List(filter))
  {
    assert Lower("list") == "list";
    if filter.Some? {
      var f := filter.value;
      assert SpelledAs(f, f) by {
        assert SpelledAs(Todo, Todo) && SpelledAs(InProgress, InProgress) && SpelledAs(Done, Done);
      }
      assert NormaliseFilter(f) == f;
      assert [program] + Words(List(filter)) == [program, "list", f];
    } else {
      assert [program] + Words(List(filter)) == [program, "list"];
    }
  }

  /** Case and separator variants of the status names are accepted. */
  lemma SeparatorSpellings()
    ensures NormaliseFilter("IN_PROGRESS") == InProgress
    ensures NormaliseFilter("In-Progress") == InProgress
    ensures NormaliseFilter("DONE") == Done
  {
    assert SpelledAs("IN_PROGRESS", "in-progress");
    assert SpelledAs("In-Progress", "in-progress");
    assert SpelledAs("DONE", "done");
  }

  /** The synonyms of todo are accepted; other words are not. */
  lemma SynonymSpellings()
    ensures NormaliseFilter("TodoTask") == Todo
    ensures NormaliseFilter("not_done") == Todo
    ensures !IsStatus(NormaliseFilter("pending"))
  {
    assert SpelledAs("TodoTask", "todotask");
    assert SpelledAs("not_done", "not-done");
  }
}
