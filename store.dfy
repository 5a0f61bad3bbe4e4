/** The backing document `tasks.json` as abstract state, and the mapping that
    `save_tasks` and `load_tasks` apply between a task and one JSON object of
    the document's top-level array. The text form of the document (parsing
    and printing) is not modelled: a parsed document is one of the values of
    `StoreFile`. */
module Store {
  import opened Tasks

  /** A member value of a task object. Strings are held as their bytes. */
  datatype Field =
    | Number(n: int)
    | Text(s: Bytes)
    | Bool(b: bool)
    | Null
    | Compound                       // a nested array or object

  /** The six keys of a task object. */
  const Keys: set<string> := {"id", "name", "description", "due_date", "estimated_minutes", "done"}

  /** One JSON object: its keys and their values. */
  type Record = map<string, Field>

  /** What `load_tasks` finds at the path of the backing document. */
  datatype StoreFile =
    | Missing                        // no file: the first run
    | Unparseable                    // the text is not JSON
    | NotAnArray                     // JSON, but the root is not an array
    | Array(records: seq<Record>)    // a root array of task objects

  /** The object `save_tasks` builds for one task: exactly the six keys. */
  function ToRecord(t: Task): (r: Record)
    ensures r.Keys == Keys
    ensures r["id"] == Number(t.id as int) && r["done"] == Number(t.done as int)
  {
    map[
      "id" := Number(t.id as int),
      "name" := Text(t.name),
      "description" := Text(t.description),
      "due_date" := Text(t.dueDate),
      "estimated_minutes" := Number(t.estimatedMinutes as int),
      "done" := Number(t.done as int)]
  }

  /** The `valueint` that cJSON gives a member: a number is capped to the
      `int` range, `true` reads as 1, and every other value as 0. */
  function ValueInt(f: Field): (v: Int32)
    ensures f.Number? && Int32Min as int <= f.n <= Int32Max as int ==> v as int == f.n
    ensures f.Number? && f.n > Int32Max as int ==> v == Int32Max
    ensures f.Number? && f.n < Int32Min as int ==> v == Int32Min
    ensures !f.Number? ==> (v == 1 <==> f == Bool(true)) && (v == 0 <==> f != Bool(true))
  {
    match f
    case Number(n) =>
      if n >= Int32Max as int then Int32Max
      else if n <= Int32Min as int then Int32Min
      else n as Int32
    case Bool(b) => if b then 1 else 0
    case _ => 0
  }

  predicate TextField(r: Record, key: string, cap: nat) {
    key in r && r[key].Text? && Fits(r[key].s, cap)
  }

  /** An object `load_tasks` can read without undefined behaviour: all six
      keys are present, and each text key holds a string that fits the buffer
      it is copied into. The value of a numeric key may be of any kind. */
  predicate Readable(r: Record) {
    && "id" in r
    && TextField(r, "name", NameCap)
    && TextField(r, "description", DescriptionCap)
    && TextField(r, "due_date", DueDateCap)
    && "estimated_minutes" in r
    && "done" in r
  }

  /** The task `load_tasks` fills in from one object; keys it does not ask for
      are ignored. */
  function FromRecord(r: Record): (t: Task)
    requires Readable(r)
    ensures WellFormed(t)
  {
    Task(ValueInt(r["id"]),
         r["name"].s,
         r["description"].s,
         r["due_date"].s,
         ValueInt(r["estimated_minutes"]),
         ValueInt(r["done"]))
  }

  /** An object written for a task can be read back exactly when the task's
      strings fit their buffers, and then reading gives the task back. */
  lemma RecordRoundTrip(t: Task)
    ensures Readable(ToRecord(t)) <==> WellFormed(t)
    ensures WellFormed(t) ==> FromRecord(ToRecord(t)) == t
  {
  }

  /** The root array `save_tasks` builds: one object per task, in list order. */
  function Encode(tasks: seq<Task>): (records: seq<Record>)
  {
    seq(|tasks|, i requires 0 <= i < |tasks| => ToRecord(tasks[i]))
  }

  function Decode(records: seq<Record>): (tasks: seq<Task>)
    requires forall r <- records :: Readable(r)
  {
    seq(|records|, i requires 0 <= i < |records| => FromRecord(records[i]))
  }

  /** A document `load_tasks` can read without undefined behaviour. */
  predicate Loadable(f: StoreFile) {
    f.Array? ==> forall r <- f.records :: Readable(r)
  }

  /** The list `load_tasks` returns: empty when the file is missing, is not
      JSON or has a root that is not an array; otherwise one task per object,
      in document order. */
  function Loaded(f: StoreFile): (tasks: seq<Task>)
    requires Loadable(f)
    ensures AllWellFormed(tasks)
    ensures |tasks| == if f.Array? then |f.records| else 0
  {
    if f.Array? then Decode(f.records) else []
  }

  /** The document `save_tasks` writes for a list: an array with one
      six-key object per task, in list order. */
  function Saved(tasks: seq<Task>): (f: StoreFile)
    ensures f.Array? && |f.records| == |tasks|
    ensures forall i :: 0 <= i < |tasks| ==>
      f.records[i].Keys == Keys && f.records[i]["id"] == Number(tasks[i].id as int)
  {
    Array(Encode(tasks))
  }

  /** Saving a list of tasks whose strings fit their buffers and loading the
      document back gives the same tasks, with the same fields, in the same
      order; and every saved document is loadable. */
  lemma LoadAfterSave(tasks: seq<Task>)
    requires AllWellFormed(tasks)
    ensures Loadable(Saved(tasks))
    ensures Loaded(Saved(tasks)) == tasks
  {
    var records := Encode(tasks);
    forall r | r in records ensures Readable(r) {
      var i :| 0 <= i < |records| && records[i] == r;
      assert WellFormed(tasks[i]);
      RecordRoundTrip(tasks[i]);
    }
    var back := Loaded(Saved(tasks));
    forall i | 0 <= i < |tasks| ensures back[i] == tasks[i] {
      assert WellFormed(tasks[i]);
      RecordRoundTrip(tasks[i]);
    }
  }

  /** A `"done": true` member, which the program never writes itself, reads
      as a done flag of 1. */
  lemma DoneTrueReadsAsOne(r: Record)
    requires Readable(r) && r["done"] == Bool(true)
    ensures FromRecord(r).done == 1
  {
  }

  /** After `add_task` has written the store, loading it again gives the
      earlier tasks unchanged and in order, then the new task last. */
  lemma ReloadAfterAdd(f: StoreFile, req: Request)
    requires Loadable(f) && CanAdd(Loaded(f)) && ValidRequest(req)
    ensures var before := Loaded(f);
      var after := Saved(Added(before, req));
      && Loadable(after)
      && |Loaded(after)| == |before| + 1
      && Loaded(after)[..|before|] == before
      && Loaded(after)[|before|] == NewTask(before, req)
  {
    var before := Loaded(f);
    var added := Added(before, req);
    assert AllWellFormed(added) by {
      forall t | t in added ensures WellFormed(t) {
        if t != NewTask(before, req) {
          assert t in before;
        }
      }
    }
    LoadAfterSave(added);
  }

  /** After `mark_task_done` has written the store, loading it again gives
      the marked list. */
  lemma ReloadAfterMark(f: StoreFile, id: Int32)
    requires Loadable(f)
    ensures Loadable(Saved(MarkedDone(Loaded(f), id)))
    ensures Loaded(Saved(MarkedDone(Loaded(f), id))) == MarkedDone(Loaded(f), id)
  {
    MarkedDonePreserves(Loaded(f), id);
    LoadAfterSave(MarkedDone(Loaded(f), id));
  }

  /** Marking a task done a second time, against the store the first call
      wrote, finds the task again and writes the very same document. */
  lemma MarkAgainSameStore(f: StoreFile, id: Int32)
    requires Loadable(f) && HasId(Loaded(f), id)
    ensures var g := Saved(MarkedDone(Loaded(f), id));
      && Loadable(g)
      && HasId(Loaded(g), id)
      && Saved(MarkedDone(Loaded(g), id)) == g
  {
    ReloadAfterMark(f, id);
    MarkedDonePreserves(Loaded(f), id);
    MarkedDoneIdempotent(Loaded(f), id);
  }
}
