/** The task store operations of src/todolist.c: each one loads the whole
    document into a heap array, works on the array in place and, when it
    changes something, writes the whole list back. */
module TodoList {
  import opened Tasks
  import opened Store

  /** What `list_tasks` prints: "No tasks found." or one entry per task, in
      list order (the text of an entry is not modelled). */
  datatype Listing = NoTasksFound | Entries(shown: seq<Task>)

  /** The backing document and whether it can be opened for writing. */
  class TaskStore {
    var file: StoreFile
    const writable: bool

    constructor (file: StoreFile, writable: bool)
      ensures this.file == file && this.writable == writable
    {
      this.file := file;
      this.writable := writable;
    }

    /** `load_tasks`: a fresh array holding the stored tasks in document
        order, or null with a count of 0 when there is no readable array. */
    method LoadTasks() returns (tasks: array?<Task>, count: nat)
      requires Loadable(file)
      ensures tasks == null <==> !file.Array?
      ensures tasks != null ==> fresh(tasks) && tasks.Length == count && tasks[..] == Loaded(file)
      ensures count == |Loaded(file)|
    {
      count := 0;
      if !file.Array? {
        return null, 0;
      }
      var records := file.records;
      var n := |records|;
      tasks := new Task[n];
      for i := 0 to n
        invariant forall j :: 0 <= j < i ==> tasks[j] == FromRecord(records[j])
      {
        tasks[i] := FromRecord(records[i]);
      }
      count := n;
      assert tasks[..] == Decode(records);
    }

    /** `save_tasks`: overwrites the document with the first `count` tasks of
        the array; when the file cannot be opened for writing, reports 0 and
        leaves the document as it was. */
    method SaveTasks(tasks: array<Task>, count: nat) returns (ok: bool)
      requires count <= tasks.Length
      modifies this`file
      ensures ok == writable
      ensures file == if writable then Saved(tasks[..count]) else old(file)
    {
      var records: seq<Record> := [];
      for i := 0 to count
        invariant |records| == i
        invariant forall j :: 0 <= j < i ==> records[j] == ToRecord(tasks[j])
      {
        records := records + [ToRecord(tasks[i])];
      }
      if !writable {
        return false;
      }
      assert records == Encode(tasks[..count]);
      file := Array(records);
      ok := true;
    }

    /** `add_task`: loads the list, grows it by one, appends the new task and
        writes the list back. A save that fails is not reported. */
    method AddTask(name: Bytes, description: Bytes, dueDate: Bytes, estimatedMinutes: Int32)
      requires Loadable(file) && CanAdd(Loaded(file))
      requires CString(name) && CString(description) && CString(dueDate)
      modifies this`file
      ensures file == if writable
        then Saved(Added(old(Loaded(file)), Request(name, description, dueDate, estimatedMinutes)))
        else old(file)
    {
      var tasks, count := LoadTasks();
      ghost var loaded := Loaded(file);
      // realloc: a block of count + 1 tasks whose first count are the loaded ones
      var grown := new Task[count + 1];
      for i := 0 to count
        modifies grown
        invariant forall j :: 0 <= j < i ==> grown[j] == loaded[j]
      {
        grown[i] := tasks[i];
      }
      var id: Int32 := if count == 0 then 1 else grown[count - 1].id + 1;
      var t := Task(id,
                    Truncate(name, NameCap),
                    Truncate(description, DescriptionCap),
                    Truncate(dueDate, DueDateCap),
                    estimatedMinutes,
                    0);
      grown[count] := t;
      assert grown[..count + 1] == Added(loaded, Request(name, description, dueDate, estimatedMinutes));
      // the result of the save is not looked at
      var _ := SaveTasks(grown, count + 1);
    }

    /** `mark_task_done`: sets `done` on the first task with the id and writes
        the list back; returns whether such a task was found. When none is,
        or nothing could be loaded, the document is not written. */
    method MarkTaskDone(id: Int32) returns (found: bool)
      requires Loadable(file)
      modifies this`file
      ensures found <==> HasId(old(Loaded(file)), id)
      ensures file == if found && writable
        then Saved(MarkedDone(old(Loaded(file)), id))
        else old(file)
    {
      ghost var loaded := Loaded(file);
      IndexOfIdFinds(loaded, id);
      var tasks, count := LoadTasks();
      if tasks == null {
        return false;
      }
      found := false;
      var i := 0;
      while i < count
        invariant 0 <= i <= count
        invariant forall j :: 0 <= j < i ==> tasks[j].id != id
        invariant tasks[..] == loaded
      {
        if tasks[i].id == id {
          tasks[i] := tasks[i].(done := 1);
          found := true;
          break;
        }
        i := i + 1;
      }
      if found {
        assert IndexOfId(loaded, id) == i;
        assert tasks[..count] == MarkedDone(loaded, id);
        var _ := SaveTasks(tasks, count);
      } else {
        assert IndexOfId(loaded, id) == count;
      }
    }
  }

  /** `list_tasks`: "No tasks found." for a null or empty list, otherwise an
      entry for each of the first `count` tasks, in order. */
  method ListTasks(tasks: array?<Task>, count: nat) returns (listing: Listing)
    requires tasks != null ==> count <= tasks.Length
    ensures listing == NoTasksFound <==> tasks == null || count == 0
    ensures tasks != null && count > 0 ==> listing == Entries(tasks[..count])
  {
    if tasks == null || count == 0 {
      return NoTasksFound;
    }
    var shown: seq<Task> := [];
    for i := 0 to count
      invariant shown == tasks[..i]
    {
      shown := shown + [tasks[i]];
    }
    listing := Entries(shown);
  }

  /** The two tasks tests/test_todolist.c adds, in this order. */
  const FirstRequest: Request := Request(Ascii("Test1"), Ascii("Desc1"), Ascii("2025-01-01 10:00"), 30)
  const SecondRequest: Request := Request(Ascii("Test2"), Ascii("Desc2"), Ascii("2025-01-02 11:30"), 45)

  /** The tasks the two adds create: ids 1 and 2, texts unchanged, to do. */
  function Expected(req: Request, id: Int32): Task {
    Task(id, req.name, req.description, req.dueDate, req.estimatedMinutes, 0)
  }

  /** The documents the test's calls write, and what loading them gives. */
  lemma ScenarioDocuments()
    ensures Loadable(Saved(Added([], FirstRequest)))
    ensures Loaded(Saved(Added([], FirstRequest))) == [Expected(FirstRequest, 1)]
    ensures var two := [Expected(FirstRequest, 1), Expected(SecondRequest, 2)];
      && CanAdd([Expected(FirstRequest, 1)])
      && Loadable(Saved(Added([Expected(FirstRequest, 1)], SecondRequest)))
      && Loaded(Saved(Added([Expected(FirstRequest, 1)], SecondRequest))) == two
      && HasId(two, 1) && !HasId(two, 9999)
      && Loadable(Saved(MarkedDone(two, 1)))
      && Loaded(Saved(MarkedDone(two, 1))) == [Expected(FirstRequest, 1).(done := 1), Expected(SecondRequest, 2)]
  {
    var one := [Expected(FirstRequest, 1)];
    var two := [Expected(FirstRequest, 1), Expected(SecondRequest, 2)];
    assert |FirstRequest.name| == 5 && |FirstRequest.description| == 5 && |FirstRequest.dueDate| == 16;
    assert |SecondRequest.name| == 5 && |SecondRequest.description| == 5 && |SecondRequest.dueDate| == 16;
    assert Added([], FirstRequest) == one;
    LoadAfterSave(one);
    assert Added(one, SecondRequest) == two;
    LoadAfterSave(two);
    assert two[0].id == 1;
    assert IndexOfId(two, 1) == 0;
    MarkedDonePreserves(two, 1);
    LoadAfterSave(MarkedDone(two, 1));
  }

  /** The scenarios of tests/test_todolist.c, run against a store with no
      file yet: two adds and a reload, marking task 1 done and reloading,
      then marking an unknown id. */
  method Scenario() returns (added: seq<Task>, markedOne: bool, marked: seq<Task>, markedUnknown: bool)
    ensures added == [Expected(FirstRequest, 1), Expected(SecondRequest, 2)]
    ensures markedOne && |marked| == 2 && marked[0].done == 1 && marked[1].done == 0
    ensures !markedUnknown
  {
    ScenarioDocuments();
    var store := new TaskStore(Missing, true);
    store.AddTask(FirstRequest.name, FirstRequest.description, FirstRequest.dueDate, 30);
    store.AddTask(SecondRequest.name, SecondRequest.description, SecondRequest.dueDate, 45);
    var tasks, count := store.LoadTasks();
    added := tasks[..];
    markedOne := store.MarkTaskDone(1);
    tasks, count := store.LoadTasks();
    marked := tasks[..];
    markedUnknown := store.MarkTaskDone(9999);
  }
}
