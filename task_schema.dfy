/** The task record: its fields, their defaults, the priority enumeration,
    and what a record must satisfy to be stored; and the operations on a
    list of records by identifier (find the position, remove) that the
    delete route and the list view share. */
module TaskSchema {
  import opened Wrappers
  import opened Sequences

  /** The text form of a store-assigned identifier (`_id`). */
  type Id = string

  /** A `Date`, as milliseconds since the epoch. */
  type Timestamp = int

  const LOW: string := "low"
  const MEDIUM: string := "medium"
  const HIGH: string := "high"
  const DEFAULT_PRIORITY: string := MEDIUM
  const DEFAULT_CATEGORY: string := "general"

  /** A stored task. `priority` is kept as the string the schema stores;
      `ValidTask` says it is one of the enumeration's values. */
  datatype Task = Task(
    id: Id,
    task: string,
    completed: bool,
    priority: string,
    dueDate: Option<Timestamp>,
    category: string,
    createdAt: Timestamp,
    completedAt: Option<Timestamp>)

  /** The keys a request body (or a client-side `updates` object) may carry.
      `None` is an absent key; for the nullable dates, `Some(None)` is an
      explicit `null`. */
  datatype TaskFields = TaskFields(
    task: Option<string>,
    completed: Option<bool>,
    priority: Option<string>,
    dueDate: Option<Option<Timestamp>>,
    category: Option<string>,
    createdAt: Option<Timestamp>,
    completedAt: Option<Option<Timestamp>>)

  /** The empty body `{}`. */
  const NoFields: TaskFields := TaskFields(None, None, None, None, None, None, None)

  /** Why a record was refused by the schema. */
  datatype SchemaError = TaskRequired | PriorityNotInEnum(value: string)

  /** The priority enumeration. */
  predicate IsPriority(p: string) {
    p == LOW || p == MEDIUM || p == HIGH
  }

  /** A record the schema accepts: the required text is present and not
      empty, and the priority is one of the enumeration. */
  predicate ValidTask(t: Task) {
    t.task != "" && IsPriority(t.priority)
  }

  /** A task that is not completed carries no completion time. */
  predicate CompletionConsistent(t: Task) {
    !t.completed ==> t.completedAt == None
  }

  /** The record with every key the body carries written over `t`'s
      (object spread, and what an update `$set` does). */
  function Merge(t: Task, f: TaskFields): (r: Task)
    ensures r.id == t.id
  {
    Task(
      t.id,
      f.task.GetOr(t.task),
      f.completed.GetOr(t.completed),
      f.priority.GetOr(t.priority),
      f.dueDate.GetOr(t.dueDate),
      f.category.GetOr(t.category),
      f.createdAt.GetOr(t.createdAt),
      f.completedAt.GetOr(t.completedAt))
  }

  /** The keys that describe `t` completely (all but the identifier). */
  function FieldsOf(t: Task): TaskFields {
    TaskFields(Some(t.task), Some(t.completed), Some(t.priority), Some(t.dueDate),
               Some(t.category), Some(t.createdAt), Some(t.completedAt))
  }

  /** Merging writes exactly the keys of the body: merging all of a
      record's keys yields that record whatever it is merged into, the
      empty body changes nothing, and merging the same body twice is
      merging it once. */
  lemma MergeLaws(t: Task, u: Task, f: TaskFields)
    ensures Merge(u, FieldsOf(t)) == t.(id := u.id)
    ensures Merge(t, NoFields) == t
    ensures Merge(Merge(t, f), f) == Merge(t, f)
  {
  }

  /** The error a body's supplied keys earn under the schema's validators:
      a supplied `task` must not be empty (a `required` string), a supplied
      `priority` must be in the enumeration. */
  function CheckFields(f: TaskFields): (e: Option<SchemaError>)
    ensures e.None? <==>
      (f.task.Some? ==> f.task.value != "") && (f.priority.Some? ==> IsPriority(f.priority.value))
  {
    if f.task.Some? && f.task.value == "" then Some(TaskRequired)
    else if f.priority.Some? && !IsPriority(f.priority.value) then Some(PriorityNotInEnum(f.priority.value))
    else None
  }

  /** The record every key starts from before the body is applied: the
      schema's defaults, `createdAt` at the time of creation. */
  function Defaults(id: Id, now: Timestamp): Task {
    Task(id, "", false, DEFAULT_PRIORITY, None, DEFAULT_CATEGORY, now, None)
  }

  /** `new Task(body)` followed by validation on save. */
  function NewTask(body: TaskFields, id: Id, now: Timestamp): (r: Result<Task, SchemaError>)
    ensures r.Ok? <==>
      body.task.Some? && body.task.value != "" && (body.priority.Some? ==> IsPriority(body.priority.value))
    ensures body.task.None? ==> r == Err(TaskRequired)
    ensures r.Ok? ==> ValidTask(r.value) && r.value.id == id && r.value.task == body.task.value
  {
    if body.task.None? then Err(TaskRequired)
    else
      match CheckFields(body)
      case Some(e) => Err(e)
      case None => Ok(Merge(Defaults(id, now), body))
  }

  /** A task created from its text alone takes every default: not
      completed, medium priority, no due date, category "general", created
      now and never completed; so it is consistent. */
  lemma NewTaskDefaults(text: string, id: Id, now: Timestamp)
    requires text != ""
    ensures NewTask(NoFields.(task := Some(text)), id, now)
            == Ok(Task(id, text, false, MEDIUM, None, "general", now, None))
    ensures CompletionConsistent(NewTask(NoFields.(task := Some(text)), id, now).value)
  {
  }

  /** Every key the body supplies is stored as given (the category is free
      text, not an enumeration), and every key it leaves out takes the
      schema's default. */
  lemma NewTaskKeepsSupplied(body: TaskFields, id: Id, now: Timestamp)
    requires NewTask(body, id, now).Ok?
    ensures var t := NewTask(body, id, now).value;
      && (body.completed.Some? ==> t.completed == body.completed.value)
      && (body.priority.Some? ==> t.priority == body.priority.value)
      && (body.category.Some? ==> t.category == body.category.value)
      && (body.dueDate.Some? ==> t.dueDate == body.dueDate.value)
      && (body.createdAt.Some? ==> t.createdAt == body.createdAt.value)
      && (body.completedAt.Some? ==> t.completedAt == body.completedAt.value)
    ensures var t := NewTask(body, id, now).value;
      && (body.completed.None? ==> !t.completed)
      && (body.priority.None? ==> t.priority == MEDIUM)
      && (body.category.None? ==> t.category == "general")
      && (body.dueDate.None? ==> t.dueDate == None)
      && (body.createdAt.None? ==> t.createdAt == now)
      && (body.completedAt.None? ==> t.completedAt == None)
  {
  }

  /** Valid records stay valid under a body the validators accept. */
  lemma MergePreservesValidity(t: Task, f: TaskFields)
    requires ValidTask(t) && CheckFields(f).None?
    ensures ValidTask(Merge(t, f))
  {
  }

  /** The identifiers of a list of tasks, in order. */
  function Ids(ts: seq<Task>): (r: seq<Id>)
    ensures |r| == |ts|
    ensures forall i :: 0 <= i < |ts| ==> r[i] == ts[i].id
  {
    if ts == [] then [] else [ts[0].id] + Ids(ts[1..])
  }

  /** No identifier occurs twice (guaranteed by the store). */
  predicate DistinctIds(ts: seq<Task>) {
    forall i, j :: 0 <= i < j < |ts| ==> ts[i].id != ts[j].id
  }

  /** `findIndex` by identifier: the first position holding `id`, or -1. */
  function FindIndex(ts: seq<Task>, id: Id): (r: int)
    ensures -1 <= r < |ts|
    ensures r == -1 <==> id !in Ids(ts)
    ensures r >= 0 ==> ts[r].id == id && forall k :: 0 <= k < r ==> ts[k].id != id
  {
    if ts == [] then -1
    else if ts[0].id == id then 0
    else
      var k := FindIndex(ts[1..], id);
      assert Ids(ts) == [ts[0].id] + Ids(ts[1..]);
      if k == -1 then -1 else k + 1
  }

  /** With distinct identifiers, the position `FindIndex` gives is the only
      one holding `id`. */
  lemma FindIndexUnique(ts: seq<Task>, id: Id, i: int)
    requires DistinctIds(ts) && 0 <= i < |ts| && ts[i].id == id
    ensures FindIndex(ts, id) == i
  {
  }

  /** Keeps the records whose identifier is not `id`. */
  function HasOtherId(id: Id): Task -> bool {
    (t: Task) => t.id != id
  }

  /** The list without the records of `id`, in order. */
  function WithoutId(ts: seq<Task>, id: Id): (r: seq<Task>)
    ensures forall i :: 0 <= i < |r| ==> r[i].id != id
  {
    Filter(ts, HasOtherId(id))
  }

  /** A list that does not hold `id` is left as it is. */
  lemma {:induction false} WithoutAbsentId(ts: seq<Task>, id: Id)
    requires id !in Ids(ts)
    ensures WithoutId(ts, id) == ts
  {
    if ts != [] {
      assert Ids(ts) == [ts[0].id] + Ids(ts[1..]);
      WithoutAbsentId(ts[1..], id);
      assert ts == [ts[0]] + ts[1..];
    }
  }

  /** With distinct identifiers, no record before or after the one holding
      `id` holds it too. */
  lemma IdOnlyAt(ts: seq<Task>, id: Id, i: nat)
    requires DistinctIds(ts) && i < |ts| && ts[i].id == id
    ensures id !in Ids(ts[..i]) && id !in Ids(ts[i + 1..])
  {
    var before, after := ts[..i], ts[i + 1..];
    forall k | 0 <= k < |before| ensures Ids(before)[k] != id {
      assert before[k] == ts[k];
    }
    forall k | 0 <= k < |after| ensures Ids(after)[k] != id {
      assert after[k] == ts[i + 1 + k];
    }
  }

  /** Removing `id` from a list that holds it once removes that record. */
  lemma WithoutIdSplit(before: seq<Task>, t: Task, after: seq<Task>, id: Id)
    requires id !in Ids(before) && id !in Ids(after) && t.id == id
    ensures WithoutId(before + [t] + after, id) == before + after
  {
    WithoutAbsentId(before, id);
    WithoutAbsentId(after, id);
    assert before + [t] + after == before + ([t] + after);
    FilterConcat(before, [t] + after, HasOtherId(id));
    FilterConcat([t], after, HasOtherId(id));
    assert WithoutId([t], id) == [];
  }

  /** With distinct identifiers, removing `id` removes exactly the one
      position that holds it. */
  lemma WithoutIdAt(ts: seq<Task>, id: Id, i: nat)
    requires DistinctIds(ts) && i < |ts| && ts[i].id == id
    ensures WithoutId(ts, id) == ts[..i] + ts[i + 1..]
  {
    IdOnlyAt(ts, id, i);
    assert ts == ts[..i] + [ts[i]] + ts[i + 1..];
    WithoutIdSplit(ts[..i], ts[i], ts[i + 1..], id);
  }
}
