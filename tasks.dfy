/** The in-memory task record of the to-do list (src/todolist.h) and the pure
    rules that `add_task` and `mark_task_done` apply to a loaded task list:
    the id of a new task, the silent truncation of its text fields, and which
    task a mark-done call changes. */
module Tasks {

  /** A C `int`: every integer field of a task is one. */
  newtype Int32 = x: int | -0x8000_0000 <= x < 0x8000_0000

  const Int32Min: Int32 := -0x8000_0000
  const Int32Max: Int32 := 0x7FFF_FFFF

  /** A C `char`: text is held, measured and cut as bytes (UTF-8 for
      anything beyond ASCII), not as characters. */
  newtype Byte = b: int | 0 <= b < 0x100

  type Bytes = seq<Byte>

  /** Sizes in bytes of the fixed character buffers of a task, terminating
      NUL included. */
  const NameCap: nat := 128
  const DescriptionCap: nat := 256
  const DueDateCap: nat := 20

  /** The bytes of a C string: everything before its terminating NUL. */
  predicate CString(s: Bytes) {
    0 !in s
  }

  /** `s` can be held, with its terminating NUL, by a buffer of `cap` bytes. */
  predicate Fits(s: Bytes, cap: nat) {
    CString(s) && |s| < cap
  }

  /** The bytes of a text made of ASCII characters other than NUL, one byte
      per character; used to write the program's fixed words and test data. */
  function Ascii(s: string): (b: Bytes)
    requires forall i :: 0 <= i < |s| ==> 0 < s[i] as int < 0x80
    ensures CString(b)
  {
    seq(|s|, i requires 0 <= i < |s| => s[i] as int as Byte)
  }

  function Min(a: nat, b: nat): nat {
    if a < b then a else b
  }

  /** What `strncpy(buf, s, cap - 1)` followed by `buf[cap - 1] = '\0'` leaves
      in a buffer of `cap` bytes: the longest prefix of `s` that fits. */
  function Truncate(s: Bytes, cap: nat): (r: Bytes)
    requires cap > 0
    ensures r <= s
    ensures |r| == Min(|s|, cap - 1)
    ensures CString(s) ==> Fits(r, cap)
    ensures Fits(s, cap) ==> r == s
  {
    if |s| < cap then s else s[..cap - 1]
  }

  /** One task as the program holds it in memory. `done` is an `int` flag:
      0 when the task is to do, anything else when it is done. */
  datatype Task = Task(
    id: Int32,
    name: Bytes,
    description: Bytes,
    dueDate: Bytes,
    estimatedMinutes: Int32,
    done: Int32)

  /** Every text field fits its buffer: true of every task a C `Task` can hold. */
  predicate WellFormed(t: Task) {
    && Fits(t.name, NameCap)
    && Fits(t.description, DescriptionCap)
    && Fits(t.dueDate, DueDateCap)
  }

  predicate AllWellFormed(tasks: seq<Task>) {
    forall t <- tasks :: WellFormed(t)
  }

  /** The arguments of one `add_task` call. */
  datatype Request = Request(
    name: Bytes,
    description: Bytes,
    dueDate: Bytes,
    estimatedMinutes: Int32)

  predicate ValidRequest(req: Request) {
    CString(req.name) && CString(req.description) && CString(req.dueDate)
  }

  // ---------------------------------------------------------------------
  // Adding a task

  /** The new id `tasks[count - 1].id + 1` does not overflow an `int`. */
  predicate CanAdd(tasks: seq<Task>) {
    tasks == [] || tasks[|tasks| - 1].id < Int32Max
  }

  /** Ids strictly increase along the list, as they do in a list built only by
      `add_task`. */
  predicate IdsIncreasing(tasks: seq<Task>) {
    forall i, j :: 0 <= i < j < |tasks| ==> tasks[i].id < tasks[j].id
  }

  /** The id `add_task` gives a new task: 1 for an empty list, otherwise one
      more than the id of the LAST task (not the largest one). */
  function NextId(tasks: seq<Task>): (id: Int32)
    requires CanAdd(tasks)
    ensures IdsIncreasing(tasks) ==> forall t <- tasks :: t.id < id
  {
    if |tasks| == 0 then 1 else tasks[|tasks| - 1].id + 1
  }

  /** The task `add_task` builds from a request against the loaded list. */
  function NewTask(tasks: seq<Task>, req: Request): (t: Task)
    requires CanAdd(tasks)
    ensures ValidRequest(req) ==> WellFormed(t)
  {
    Task(NextId(tasks),
         Truncate(req.name, NameCap),
         Truncate(req.description, DescriptionCap),
         Truncate(req.dueDate, DueDateCap),
         req.estimatedMinutes,
         0)
  }

  /** The list `add_task` writes back: the loaded list with the new task appended. */
  function Added(tasks: seq<Task>, req: Request): (r: seq<Task>)
    requires CanAdd(tasks)
    ensures AllWellFormed(tasks) && ValidRequest(req) ==> AllWellFormed(r)
    ensures IdsIncreasing(tasks) ==> IdsIncreasing(r)
  {
    tasks + [NewTask(tasks, req)]
  }

  /** The new task is last, is to do, keeps the estimate as passed and holds
      each text argument cut to at most 127, 255 and 19 bytes. */
  lemma NewTaskFields(tasks: seq<Task>, req: Request)
    requires CanAdd(tasks)
    ensures var t := NewTask(tasks, req);
      && (tasks == [] ==> t.id == 1)
      && (tasks != [] ==> t.id as int == tasks[|tasks| - 1].id as int + 1)
      && t.done == 0
      && t.estimatedMinutes == req.estimatedMinutes
      && t.name <= req.name && |t.name| == Min(|req.name|, 127)
      && t.description <= req.description && |t.description| == Min(|req.description|, 255)
      && t.dueDate <= req.dueDate && |t.dueDate| == Min(|req.dueDate|, 19)
  {
  }

  /** Appending keeps every earlier task, in place and unchanged. */
  lemma AddedKeepsPrefix(tasks: seq<Task>, req: Request)
    requires CanAdd(tasks)
    ensures |Added(tasks, req)| == |tasks| + 1
    ensures forall i :: 0 <= i < |tasks| ==> Added(tasks, req)[i] == tasks[i]
    ensures Added(tasks, req)[|tasks|] == NewTask(tasks, req)
  {
  }

  /** Deriving the id from the last task rather than the largest one gives a
      duplicate id once the list is not in increasing order (e.g. after an
      edit of the file by hand). */
  lemma LastIdRuleCanRepeatAnId()
    ensures exists tasks: seq<Task> ::
      (CanAdd(tasks) && exists t <- tasks :: t.id == NextId(tasks))
  {
    var tasks := [Task(2, [], [], [], 0, 0), Task(1, [], [], [], 0, 0)];
    assert tasks[0].id == NextId(tasks);
  }

  /** The list obtained by calling `add_task` with each request in turn,
      starting from an empty store: ids 1, 2, ... in order of addition, all to do. */
  function AddAll(requests: seq<Request>): (tasks: seq<Task>)
    requires |requests| < Int32Max as int
    ensures |tasks| == |requests|
    ensures forall i :: 0 <= i < |tasks| ==> tasks[i].id as int == i + 1 && tasks[i].done == 0
    ensures forall i :: 0 <= i < |tasks| ==>
      && tasks[i].estimatedMinutes == requests[i].estimatedMinutes
      && tasks[i].name == Truncate(requests[i].name, NameCap)
      && tasks[i].description == Truncate(requests[i].description, DescriptionCap)
      && tasks[i].dueDate == Truncate(requests[i].dueDate, DueDateCap)
  {
    if requests == [] then []
    else
      var prior := AddAll(requests[..|requests| - 1]);
      Added(prior, requests[|requests| - 1])
  }

  // ---------------------------------------------------------------------
  // Marking a task done

  /** Index of the first task with the given id, or `|tasks|` when none has it. */
  function IndexOfId(tasks: seq<Task>, id: Int32): (k: nat)
    ensures k <= |tasks|
    ensures forall j :: 0 <= j < k ==> tasks[j].id != id
    ensures k < |tasks| ==> tasks[k].id == id
  {
    if tasks == [] then 0
    else if tasks[0].id == id then 0
    else 1 + IndexOfId(tasks[1..], id)
  }

  predicate HasId(tasks: seq<Task>, id: Int32) {
    exists t <- tasks :: t.id == id
  }

  /** The list `mark_task_done(id)` writes back: the first task with that id
      gets `done = 1`; a list without the id is returned as it is. */
  function MarkedDone(tasks: seq<Task>, id: Int32): (r: seq<Task>)
    ensures |r| == |tasks|
    ensures forall j :: 0 <= j < |r| ==> r[j].id == tasks[j].id
    ensures HasId(tasks, id) ==> exists j :: 0 <= j < |r| && r[j].id == id && r[j].done == 1
  {
    var k := IndexOfId(tasks, id);
    if k < |tasks| then tasks[k := tasks[k].(done := 1)] else tasks
  }

  /** The search finds a task exactly when some task has the id. */
  lemma IndexOfIdFinds(tasks: seq<Task>, id: Int32)
    ensures IndexOfId(tasks, id) < |tasks| <==> HasId(tasks, id)
  {
  }

  /** Only the first task with the id changes, and of it only `done`, which
      becomes 1; every other task and field is left as it was. */
  lemma MarkedDoneChangesOnlyFirstMatch(tasks: seq<Task>, id: Int32)
    ensures |MarkedDone(tasks, id)| == |tasks|
    ensures HasId(tasks, id) ==> exists k :: (
      && 0 <= k < |tasks|
      && tasks[k].id == id
      && (forall j :: 0 <= j < k ==> tasks[j].id != id)
      && MarkedDone(tasks, id)[k] == tasks[k].(done := 1)
      && (forall j :: 0 <= j < |tasks| && j != k ==> MarkedDone(tasks, id)[j] == tasks[j]))
    ensures !HasId(tasks, id) ==> MarkedDone(tasks, id) == tasks
  {
  }

  /** Marking keeps well-formedness, the increasing order of ids and, for
      every id, whether some task has it. */
  lemma MarkedDonePreserves(tasks: seq<Task>, id: Int32)
    ensures AllWellFormed(tasks) ==> AllWellFormed(MarkedDone(tasks, id))
    ensures IdsIncreasing(tasks) ==> IdsIncreasing(MarkedDone(tasks, id))
    ensures forall x :: HasId(MarkedDone(tasks, id), x) == HasId(tasks, x)
  {
    var r := MarkedDone(tasks, id);
    forall x ensures HasId(r, x) == HasId(tasks, x) {
      if HasId(tasks, x) {
        var j :| 0 <= j < |tasks| && tasks[j].id == x;
        assert r[j] in r;
      }
      if HasId(r, x) {
        var j :| 0 <= j < |r| && r[j].id == x;
        assert tasks[j] in tasks;
      }
    }
    if AllWellFormed(tasks) {
      forall t | t in r ensures WellFormed(t) {
        var j :| 0 <= j < |r| && r[j] == t;
        assert tasks[j] in tasks;
        assert t.name == tasks[j].name && t.description == tasks[j].description
          && t.dueDate == tasks[j].dueDate;
      }
    }
  }

  /** Marking the same id a second time changes nothing. */
  lemma MarkedDoneIdempotent(tasks: seq<Task>, id: Int32)
    ensures MarkedDone(MarkedDone(tasks, id), id) == MarkedDone(tasks, id)
  {
  }
}
