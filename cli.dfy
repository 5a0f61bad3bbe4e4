/** The command layer of src/main.c: the argument vector decides one action
    and the process exit status, and `Run` carries the action out on the task
    store. `atoi` is a parameter: its parse of a number is not modelled. */
module Cli {
  import opened Tasks
  import opened Store
  import opened TodoList

  /** What `main` does for an argument vector. */
  datatype Action =
    | MissingCommand                  // fewer than 2 arguments: usage
    | Help                            // usage
    | List
    | Add(request: Request)
    | AddMissingArguments             // error message and usage
    | MarkDone(id: Int32)
    | DoneMissingId                   // error message and usage
    | Overdue
    | Upcoming
    | UnknownCommand(verb: Bytes)     // error message and usage

  /** The verbs `main` knows. */
  const VerbHelp: Bytes := Ascii("help")
  const VerbList: Bytes := Ascii("list")
  const VerbAdd: Bytes := Ascii("add")
  const VerbDone: Bytes := Ascii("done")
  const VerbOverdue: Bytes := Ascii("overdue")
  const VerbUpcoming: Bytes := Ascii("upcoming")
  const Verbs: set<Bytes> := {VerbHelp, VerbList, VerbAdd, VerbDone, VerbOverdue, VerbUpcoming}

  /** No two verbs are spelled alike. */
  lemma VerbsDistinct()
    ensures VerbHelp != VerbList && VerbHelp != VerbAdd && VerbHelp != VerbDone
    ensures VerbHelp != VerbOverdue && VerbHelp != VerbUpcoming
    ensures VerbList != VerbAdd && VerbList != VerbDone && VerbList != VerbOverdue
    ensures VerbList != VerbUpcoming && VerbAdd != VerbDone && VerbAdd != VerbOverdue
    ensures VerbAdd != VerbUpcoming && VerbDone != VerbOverdue && VerbDone != VerbUpcoming
    ensures VerbOverdue != VerbUpcoming
  {
    assert VerbHelp[0] as int == 'h' as int;
    assert VerbList[0] as int == 'l' as int;
    assert VerbDone[0] as int == 'd' as int;
    assert |VerbAdd| == 3 && |VerbOverdue| == 7 && |VerbUpcoming| == 8;
  }

  /** The verb is the second argument; `add` takes four more arguments in the
      order name, due date, estimate, description, and `done` takes an id. */
  function Dispatch(argv: seq<Bytes>, atoi: Bytes -> Int32): (action: Action)
    ensures action.MissingCommand? <==> |argv| < 2
    ensures action.UnknownCommand? <==> |argv| >= 2 && argv[1] !in Verbs
    ensures action.UnknownCommand? ==> action.verb == argv[1]
  {
    if |argv| < 2 then MissingCommand
    else if argv[1] == VerbHelp then Help
    else if argv[1] == VerbList then List
    else if argv[1] == VerbAdd then
      if |argv| < 6 then AddMissingArguments
      else Add(Request(argv[2], argv[5], argv[3], atoi(argv[4])))
    else if argv[1] == VerbDone then
      if |argv| < 3 then DoneMissingId
      else MarkDone(atoi(argv[2]))
    else if argv[1] == VerbOverdue then Overdue
    else if argv[1] == VerbUpcoming then Upcoming
    else UnknownCommand(argv[1])
  }

  /** The exit status of `main`; `found` is what `mark_task_done` returned and
      only matters for a `done` command that reached it. */
  function ExitCode(action: Action, found: bool): (code: int)
    ensures code == 0 || code == 1
    ensures action.MarkDone? ==> (code == 0 <==> found)
    ensures action.UnknownCommand? || action.MissingCommand? ==> code == 1
  {
    match action
    case Help => 0
    case List => 0
    case Add(_) => 0
    case Overdue => 0
    case Upcoming => 0
    case MarkDone(_) => if found then 0 else 1
    case _ => 1
  }

  /** The actions that print the usage text. */
  predicate PrintsUsage(action: Action) {
    || action.MissingCommand?
    || action.Help?
    || action.AddMissingArguments?
    || action.DoneMissingId?
    || action.UnknownCommand?
  }

  /** The actions that load the task store. */
  predicate LoadsStore(action: Action) {
    action.List? || action.Add? || action.MarkDone? || action.Overdue? || action.Upcoming?
  }

  /** The process succeeds exactly for `help`, `list`, `overdue`, `upcoming`,
      `add` with at least four arguments after the verb, and `done` with an
      id that was found; otherwise it exits with 1. */
  lemma ExitCodeZeroIff(argv: seq<Bytes>, atoi: Bytes -> Int32, found: bool)
    ensures var code := ExitCode(Dispatch(argv, atoi), found);
      && (code == 0 || code == 1)
      && (code == 0 <==>
           |argv| >= 2 &&
           (|| argv[1] == VerbHelp
            || argv[1] == VerbList
            || argv[1] == VerbOverdue
            || argv[1] == VerbUpcoming
            || (argv[1] == VerbAdd && |argv| >= 6)
            || (argv[1] == VerbDone && |argv| >= 3 && found)))
  {
    VerbsDistinct();
  }

  /** A task is added exactly for `add` with enough arguments, and then with
      the name from the 2nd, the due date from the 3rd, the estimate parsed
      from the 4th and the description from the 5th argument after the
      program name. */
  lemma AddTakesItsArguments(argv: seq<Bytes>, atoi: Bytes -> Int32)
    ensures Dispatch(argv, atoi).Add? <==> |argv| >= 6 && argv[1] == VerbAdd
    ensures Dispatch(argv, atoi).Add? ==>
      Dispatch(argv, atoi).request == Request(argv[2], argv[5], argv[3], atoi(argv[4]))
  {
    VerbsDistinct();
  }

  /** A task is marked exactly for `done` with an id argument, parsed from the
      argument after the verb. */
  lemma DoneTakesItsArgument(argv: seq<Bytes>, atoi: Bytes -> Int32)
    ensures Dispatch(argv, atoi).MarkDone? <==> |argv| >= 3 && argv[1] == VerbDone
    ensures Dispatch(argv, atoi).MarkDone? ==> Dispatch(argv, atoi).id == atoi(argv[2])
  {
    VerbsDistinct();
  }

  /** The usage text is printed for `help` and for every failure except a
      `done` whose id was not found. */
  lemma UsageOnFailure(argv: seq<Bytes>, atoi: Bytes -> Int32)
    ensures var action := Dispatch(argv, atoi);
      PrintsUsage(action) <==> action.Help? || ExitCode(action, true) == 1
  {
    VerbsDistinct();
  }

  /** Arguments past the ones a verb uses do not change what is done. */
  lemma TrailingArgumentsIgnored(argv: seq<Bytes>, extra: seq<Bytes>, atoi: Bytes -> Int32)
    requires |argv| >= 6
    ensures Dispatch(argv + extra, atoi) == Dispatch(argv, atoi)
  {
    assert (argv + extra)[..6] == argv[..6];
  }

  /** What `main` printed besides one-line messages: the usage text, or the
      listing of `list`. */
  datatype Output = Nothing | Usage | Listed(listing: Listing)

  /** `main`: dispatches on the arguments and runs the action on the store. */
  method Run(store: TaskStore, argv: seq<Bytes>, atoi: Bytes -> Int32)
    returns (exitCode: int, output: Output)
    requires forall arg <- argv :: CString(arg)
    requires LoadsStore(Dispatch(argv, atoi)) ==> Loadable(store.file)
    requires Dispatch(argv, atoi).Add? ==> CanAdd(Loaded(store.file))
    modifies store`file
    ensures var action := Dispatch(argv, atoi);
      exitCode == ExitCode(action, action.MarkDone? && HasId(old(Loaded(store.file)), action.id))
    ensures var action := Dispatch(argv, atoi);
      store.file == match action
        case Add(req) =>
          if store.writable then Saved(Added(old(Loaded(store.file)), req)) else old(store.file)
        case MarkDone(id) =>
          if store.writable && HasId(old(Loaded(store.file)), id)
          then Saved(MarkedDone(old(Loaded(store.file)), id))
          else old(store.file)
        case _ => old(store.file)
    ensures var action := Dispatch(argv, atoi);
      output == if PrintsUsage(action) then Usage
        else if !action.List? then Nothing
        else if old(Loaded(store.file)) == [] then Listed(NoTasksFound)
        else Listed(Entries(old(Loaded(store.file))))
  {
    output := Nothing;
    var action := Dispatch(argv, atoi);
    match action
    case List =>
      var tasks, count := store.LoadTasks();
      var listing := ListTasks(tasks, count);
      output := Listed(listing);
      exitCode := 0;
    case Add(req) =>
      assert req.name in argv && req.description in argv && req.dueDate in argv;
      store.AddTask(req.name, req.description, req.dueDate, req.estimatedMinutes);
      exitCode := 0;
    case MarkDone(id) =>
      var found := store.MarkTaskDone(id);
      exitCode := if found then 0 else 1;
    case Overdue =>
      // the overdue listing is a stub that prints a fixed message
      var _, _ := store.LoadTasks();
      exitCode := 0;
    case Upcoming =>
      var _, _ := store.LoadTasks();
      exitCode := 0;
    case Help =>
      output := Usage;
      exitCode := 0;
    case _ =>
      output := Usage;
      exitCode := 1;
  }
}
