/** The client's state controller: the list view's state, the handlers that
    change it, and the small display helpers. Replies of the data service
    are parameters: `Some`/`true` is a request that succeeded, `None`/`false`
    one that failed. */
module TasksComponent {
  import opened Wrappers
  import opened Sequences
  import opened TaskSchema
  import opened TaskQuery
  import opened TaskStats
  import opened TaskRoutes
  import opened TaskServices

  const LOAD_TASKS_ERROR: string := "Failed to load tasks"
  const ADD_TASK_ERROR: string := "Failed to add task"
  const UPDATE_TASK_ERROR: string := "Failed to update task"
  const DELETE_TASK_ERROR: string := "Failed to delete task"

  /** The values of the status select. */
  const STATUS_ALL: string := "all"

  // ---------------------------------------------------------------------
  // Filters

  /** The status select's value as the `completed` filter:
      `"all"` is unset, `"true"` is true, anything else (also a missing
      value) is false. */
  function DecodeCompleted(value: Option<string>): (c: Option<bool>)
    ensures c.None? <==> value == Some(STATUS_ALL)
    ensures c == Some(true) <==> value == Some("true")
    ensures c == Some(false) <==> value != Some(STATUS_ALL) && value != Some("true")
  {
    if value == Some(STATUS_ALL) then None else Some(value == Some("true"))
  }

  /** The status select's value for the current `completed` filter. */
  function EncodeCompleted(c: Option<bool>): (value: string)
    ensures value == STATUS_ALL || value == "true" || value == "false"
  {
    if c.None? then STATUS_ALL else BoolText(c.value)
  }

  /** Decoding inverts the select's encoding, and the select's three values
      survive a decode and re-encode. */
  lemma CompletedRoundTrip(c: Option<bool>, value: string)
    ensures DecodeCompleted(Some(EncodeCompleted(c))) == c
    ensures value == STATUS_ALL || value == "true" || value == "false" ==>
      EncodeCompleted(DecodeCompleted(Some(value))) == value
  {
  }

  /** The filter record after choosing `value` for `key`: `completed` is
      decoded, the text keys take `value || ""`. A key the record does not
      have leaves it as it is. */
  function WithFilter(f: Filters, key: string, value: Option<string>): (g: Filters)
    ensures key == "completed" ==> g.completed == DecodeCompleted(value)
    ensures key == "priority" ==> g.priority == value.GetOr("")
    ensures key == "category" ==> g.category == value.GetOr("")
    ensures key == "search" ==> g.search == value.GetOr("")
    ensures key == "sortBy" ==> g.sortBy == value.GetOr("")
    ensures key == "sortOrder" ==> g.sortOrder == value.GetOr("")
    ensures key != "completed" ==> g.completed == f.completed
    ensures key != "priority" ==> g.priority == f.priority
    ensures key != "category" ==> g.category == f.category
    ensures key != "search" ==> g.search == f.search
    ensures key != "sortBy" ==> g.sortBy == f.sortBy
    ensures key != "sortOrder" ==> g.sortOrder == f.sortOrder
  {
    var text := value.GetOr("");
    match key
    case "completed" => f.(completed := DecodeCompleted(value))
    case "priority" => f.(priority := text)
    case "category" => f.(category := text)
    case "search" => f.(search := text)
    case "sortBy" => f.(sortBy := text)
    case "sortOrder" => f.(sortOrder := text)
    case _ => f
  }

  /** A filter change alters what is sent for the chosen key only: the
      decoded status for `completed`, `value || ""` (nothing when empty) for
      a text key. */
  lemma FilterChangeSends(f: Filters, key: string, value: Option<string>, n: nat)
    requires n < |PARAM_KEYS|
    ensures PARAM_KEYS[n] != key ==> Sent(WithFilter(f, key, value), n) == Sent(f, n)
    ensures PARAM_KEYS[n] == key == "completed" ==>
      Sent(WithFilter(f, key, value), n) == (if value == Some(STATUS_ALL) then None else Some(BoolText(value == Some("true"))))
    ensures PARAM_KEYS[n] == key != "completed" ==> Sent(WithFilter(f, key, value), n) == TextParam(value.GetOr(""))
  {
  }

  /** After a filter change, the reload's query string carries the chosen
      value for that key and every other key as the previous one did. */
  lemma FilterChangeIsSent(f: Filters, key: string, value: Option<string>, before: seq<Param>, after: seq<Param>, n: nat)
    requires n < |PARAM_KEYS|
    requires ParamsFor(f, before) && ParamsFor(WithFilter(f, key, value), after)
    ensures PARAM_KEYS[n] != key ==> Lookup(after, PARAM_KEYS[n]) == Lookup(before, PARAM_KEYS[n])
    ensures PARAM_KEYS[n] == key == "completed" ==>
      Lookup(after, key) == (if value == Some(STATUS_ALL) then None else Some(BoolText(value == Some("true"))))
    ensures PARAM_KEYS[n] == key != "completed" ==> Lookup(after, key) == TextParam(value.GetOr(""))
  {
    SentLookup(f, before, n);
    SentLookup(WithFilter(f, key, value), after, n);
    FilterChangeSends(f, key, value, n);
  }

  // ---------------------------------------------------------------------
  // Blank input

  /** A character `String.prototype.trim` removes: white space and line
      terminators. */
  predicate IsJsSpace(c: char) {
    || c == '\t' || c == '\n' || c == '\U{000B}' || c == '\U{000C}' || c == '\r' || c == ' '
    || c == '\U{00A0}' || c == '\U{1680}' || ('\U{2000}' <= c <= '\U{200A}')
    || c == '\U{2028}' || c == '\U{2029}' || c == '\U{202F}' || c == '\U{205F}'
    || c == '\U{3000}' || c == '\U{FEFF}'
  }

  /** `s` without its leading white space. */
  function TrimStart(s: string): (r: string)
    ensures |r| <= |s| && r == s[|s| - |r|..]
    ensures r == [] || !IsJsSpace(r[0])
    ensures forall i :: 0 <= i < |s| - |r| ==> IsJsSpace(s[i])
  {
    if s != [] && IsJsSpace(s[0]) then TrimStart(s[1..]) else s
  }

  /** `s` without its trailing white space. */
  function TrimEnd(s: string): (r: string)
    ensures |r| <= |s| && r == s[..|r|]
    ensures r == [] || !IsJsSpace(r[|r| - 1])
    ensures forall i :: |r| <= i < |s| ==> IsJsSpace(s[i])
  {
    if s != [] && IsJsSpace(s[|s| - 1]) then TrimEnd(s[..|s| - 1]) else s
  }

  /** `s.trim()`. */
  function Trim(s: string): string {
    TrimEnd(TrimStart(s))
  }

  /** `s.trim()` is empty exactly when every character of `s` is white
      space. */
  lemma TrimEmptyIffBlank(s: string)
    ensures Trim(s) == "" <==> forall i :: 0 <= i < |s| ==> IsJsSpace(s[i])
  {
    var start := TrimStart(s);
    if start != [] {
      assert start[0] == s[|s| - |start|];
    }
  }

  /** `!s.trim()`. */
  predicate IsBlank(s: string) {
    Trim(s) == ""
  }

  // ---------------------------------------------------------------------
  // Display helpers

  /** `isOverdue(task)`: a task with a due date that is not completed and
      whose due date has passed. */
  function IsOverdue(t: Task, now: Timestamp): (b: bool)
    ensures t.dueDate.None? || t.completed ==> !b
  {
    if t.dueDate.None? || t.completed then false else t.dueDate.value < now
  }

  /** The tasks the list marks overdue are the ones the statistics count as
      overdue. */
  lemma OverdueAgreesWithStats(store: seq<Task>, now: Timestamp)
    ensures ComputeStats(store, now).overdue == Count(store, (t: Task) => IsOverdue(t, now))
  {
    CountAgree(store, (t: Task) => OverdueAt(t, now), (t: Task) => IsOverdue(t, now));
  }

  const HIGH_COLOR: string := "#f44336"
  const MEDIUM_COLOR: string := "#ff9800"
  const LOW_COLOR: string := "#4caf50"
  const OTHER_COLOR: string := "#9e9e9e"

  /** The chip colour of a priority; grey for anything outside the
      enumeration. */
  function GetPriorityColor(p: string): (c: string)
    ensures c == OTHER_COLOR <==> !IsPriority(p)
  {
    match p
    case "high" => HIGH_COLOR
    case "medium" => MEDIUM_COLOR
    case "low" => LOW_COLOR
    case _ => OTHER_COLOR
  }

  /** Different priorities of the enumeration get different colours. */
  lemma ColorsDistinguishPriorities(p: string, q: string)
    requires IsPriority(p) && IsPriority(q)
    ensures GetPriorityColor(p) == GetPriorityColor(q) <==> p == q
  {
  }

  /** `c.toUpperCase()` on ASCII letters. */
  function UpperChar(c: char): (r: char)
    ensures LowerChar(r) == LowerChar(c)
    ensures !('a' <= r <= 'z')
  {
    if 'a' <= c <= 'z' then (c as int - 32) as char else c
  }

  /** The chip label: the priority with its first letter upper-cased, or
      `"Medium"` for an empty priority. */
  function GetPriorityLabel(p: string): (l: string)
    ensures p == "" ==> l == "Medium"
    ensures p != "" ==> |l| == |p| && l[1..] == p[1..] && Lower(l) == Lower(p) && !('a' <= l[0] <= 'z')
  {
    if p == "" then "Medium" else [UpperChar(p[0])] + p[1..]
  }

  /** The labels of the enumeration, and a missing priority shown as the
      schema's default. */
  lemma PriorityLabels()
    ensures GetPriorityLabel(LOW) == "Low"
    ensures GetPriorityLabel(MEDIUM) == "Medium"
    ensures GetPriorityLabel(HIGH) == "High"
    ensures GetPriorityLabel("") == GetPriorityLabel(DEFAULT_PRIORITY)
  {
  }

  // ---------------------------------------------------------------------
  // Requests and local edits

  /** The body `handleSubmit` sends; an empty due date is sent as `null`. */
  function SubmitBody(text: string, priority: string, category: string, due: Option<Timestamp>): (body: TaskFields)
    ensures body.task == Some(text) && body.priority == Some(priority) && body.category == Some(category)
    ensures body.dueDate == Some(due) && body.completed.None? && body.createdAt.None? && body.completedAt.None?
  {
    TaskFields(Some(text), None, Some(priority), Some(due), Some(category), None, None)
  }

  /** A non-blank submission is created by the server exactly when its
      priority is in the enumeration, and the record carries what the form
      held, not completed. */
  lemma SubmitIsAccepted(text: string, priority: string, category: string, due: Option<Timestamp>, id: Id, now: Timestamp)
    requires !IsBlank(text)
    ensures var r := NewTask(SubmitBody(text, priority, category, due), id, now);
      && (r.Ok? <==> IsPriority(priority))
      && (r.Ok? ==> r.value == Task(id, text, false, priority, due, category, now, None))
  {
  }

  /** The element `handleUpdate` puts in place of `t` before the server
      answers: a status change sets `completed` and stamps or clears
      `completedAt` (and drops the other keys); anything else is merged. */
  function OptimisticEdit(t: Task, updates: TaskFields, now: Timestamp): (r: Task)
    ensures r.id == t.id
    ensures updates.completed.Some? ==> CompletionConsistent(r) && r.completed == updates.completed.value
    ensures updates.completed.Some? ==> r.(completed := t.completed, completedAt := t.completedAt) == t
    ensures updates.completed == Some(true) ==> r.completedAt == Some(now)
    ensures updates.completed.None? ==> r == Merge(t, updates)
  {
    if updates.completed.Some? then
      t.(completed := updates.completed.value, completedAt := if updates.completed.value then Some(now) else None)
    else
      Merge(t, updates)
  }

  /** For the updates the client sends (a status change alone, or keys
      without a status), the local edit and what the server stores differ
      at most in `completedAt`, which each side reads from its own clock:
      a completion is stamped on both sides, a reopening clears it on
      both, and on one clock they are equal. */
  lemma ClientEditMatchesServer(t: Task, updates: TaskFields, clientNow: Timestamp, serverNow: Timestamp)
    requires updates.completed.None? || updates == NoFields.(completed := updates.completed)
    ensures var local, stored := OptimisticEdit(t, updates, clientNow), Merge(t, StampCompletedAt(updates, serverNow));
      && local.(completedAt := stored.completedAt) == stored
      && (updates.completed == Some(true) ==> local.completedAt == Some(clientNow) && stored.completedAt == Some(serverNow))
      && (updates.completed != Some(true) ==> local == stored)
      && (clientNow == serverNow ==> local == stored)
  {
  }

  /** The list after the local edit: the first element with id `id` is
      edited, every other element stays; without such an element nothing
      changes. */
  function EditList(ts: seq<Task>, id: Id, updates: TaskFields, now: Timestamp): (r: seq<Task>)
    ensures |r| == |ts|
    ensures forall i :: 0 <= i < |ts| && i != FindIndex(ts, id) ==> r[i] == ts[i]
    ensures id in Ids(ts) ==> r[FindIndex(ts, id)] == OptimisticEdit(ts[FindIndex(ts, id)], updates, now)
    ensures Ids(r) == Ids(ts)
  {
    var index := FindIndex(ts, id);
    if index < 0 then ts
    else
      var r := ts[index := OptimisticEdit(ts[index], updates, now)];
      assert Ids(r) == Ids(ts) by {
        forall i | 0 <= i < |ts| ensures Ids(r)[i] == Ids(ts)[i] { }
      }
      r
  }

  /** When the client's list is the collection, a successful update leaves
      the client's list equal to the collection after the server's update,
      except for the edited element's `completedAt` when it is stamped by
      the two clocks. */
  lemma EditListMatchesServer(ts: seq<Task>, id: Id, updates: TaskFields, clientNow: Timestamp, serverNow: Timestamp)
    requires id in Ids(ts)
    requires updates.completed.None? || updates == NoFields.(completed := updates.completed)
    ensures var i := FindIndex(ts, id);
      var local, stored := EditList(ts, id, updates, clientNow), ts[i := Merge(ts[i], StampCompletedAt(updates, serverNow))];
      && local == stored[i := local[i]]
      && local[i].(completedAt := stored[i].completedAt) == stored[i]
      && (updates.completed != Some(true) || clientNow == serverNow ==> local == stored)
  {
    ClientEditMatchesServer(ts[FindIndex(ts, id)], updates, clientNow, serverNow);
  }

  /** The component's `state` object, the record `setState` merges into. */
  datatype TasksState = TasksState(
    tasks: seq<Task>,
    currentTask: string,
    currentPriority: string,
    currentCategory: string,
    currentDueDate: Option<Timestamp>,
    editingTaskId: Option<Id>,
    editTaskText: string,
    filters: Filters,
    stats: Option<Stats>,
    loading: bool,
    error: Option<string>)

  /** The filters before any choice: nothing is sent. */
  const INITIAL_FILTERS: Filters := Filters(None, "", "", "", "", "")

  /** The state a new component starts with. */
  const INITIAL_STATE: TasksState :=
    TasksState([], "", MEDIUM, DEFAULT_CATEGORY, None, None, "", INITIAL_FILTERS, None, false, None)

  /** The statistics after `loadStats` with `reply`: a reply replaces them,
      a failure keeps them. */
  function StatsAfter(stats: Option<Stats>, reply: Option<Stats>): (r: Option<Stats>)
    ensures reply.Some? ==> r == reply
    ensures reply.None? ==> r == stats
  {
    if reply.Some? then reply else stats
  }

  /** The list view. `state` is the rendered state; `searchTimeout` is the
      handle of the last scheduled search reload, `pendingReloads` the
      handles of scheduled reloads that have neither run nor been cleared,
      and `nextTimer` the next handle the timer service hands out. */
  class Tasks {
    var state: TasksState
    var searchTimeout: Option<nat>
    var pendingReloads: set<nat>
    var nextTimer: nat

    /** The timer bookkeeping, as one value. */
    ghost function Timers(): (Option<nat>, set<nat>, nat)
      reads this
    {
      (searchTimeout, pendingReloads, nextTimer)
    }

    /** Only the last scheduled search reload can still be pending, and
        handles are never reused. */
    ghost predicate Valid()
      reads this
    {
      && (searchTimeout.None? ==> pendingReloads == {})
      && (searchTimeout.Some? ==> pendingReloads <= {searchTimeout.value} && searchTimeout.value < nextTimer)
    }

    /** At most one reload is ever pending. */
    lemma AtMostOneReloadPending()
      requires Valid()
      ensures |pendingReloads| <= 1
    {
      if searchTimeout.Some? {
        assert |{searchTimeout.value}| == 1;
        SubsetSize(pendingReloads, {searchTimeout.value});
      }
    }

    /** The initial state; no reload is scheduled. */
    constructor ()
      ensures Valid()
      ensures state == INITIAL_STATE
      ensures searchTimeout.None? && pendingReloads == {}
    {
      state := INITIAL_STATE;
      searchTimeout := None;
      pendingReloads := {};
      nextTimer := 0;
    }

    /** `loadTasks`, up to the request: loading, the error cleared; returns
        the filters the request carries. */
    method BeginLoadTasks() returns (sent: Filters)
      requires Valid()
      modifies this
      ensures Valid() && Timers() == old(Timers())
      ensures sent == state.filters
      ensures state == old(state).(loading := true, error := None)
    {
      state := state.(loading := true, error := None);
      sent := state.filters;
    }

    /** `loadTasks`, once the request is answered: the reply replaces the
        list, or the error is set and the list kept. */
    method EndLoadTasks(reply: Option<seq<Task>>)
      requires Valid()
      modifies this
      ensures Valid() && Timers() == old(Timers())
      ensures reply.Some? ==> state == old(state).(tasks := reply.value, loading := false)
      ensures reply.None? ==> state == old(state).(error := Some(LOAD_TASKS_ERROR), loading := false)
    {
      if reply.Some? {
        state := state.(tasks := reply.value, loading := false);
      } else {
        state := state.(error := Some(LOAD_TASKS_ERROR), loading := false);
      }
    }

    /** `loadStats`. */
    method LoadStats(reply: Option<Stats>)
      requires Valid()
      modifies this
      ensures Valid() && Timers() == old(Timers())
      ensures state == old(state).(stats := StatsAfter(old(state).stats, reply))
    {
      if reply.Some? {
        state := state.(stats := reply);
      }
    }

    /** `handleChange`. */
    method HandleChange(value: string)
      requires Valid()
      modifies this
      ensures Valid() && Timers() == old(Timers())
      ensures state == old(state).(currentTask := value)
    {
      state := state.(currentTask := value);
    }

    /** `handlePriorityChange`. */
    method HandlePriorityChange(priority: string)
      requires Valid()
      modifies this
      ensures Valid() && Timers() == old(Timers())
      ensures state == old(state).(currentPriority := priority)
    {
      state := state.(currentPriority := priority);
    }

    /** `handleCategoryChange`. */
    method HandleCategoryChange(category: string)
      requires Valid()
      modifies this
      ensures Valid() && Timers() == old(Timers())
      ensures state == old(state).(currentCategory := category)
    {
      state := state.(currentCategory := category);
    }

    /** `handleDueDateChange`; `None` is the empty input. */
    method HandleDueDateChange(due: Option<Timestamp>)
      requires Valid()
      modifies this
      ensures Valid() && Timers() == old(Timers())
      ensures state == old(state).(currentDueDate := due)
    {
      state := state.(currentDueDate := due);
    }

    /** `handleEditTextChange`. */
    method HandleEditTextChange(text: string)
      requires Valid()
      modifies this
      ensures Valid() && Timers() == old(Timers())
      ensures state == old(state).(editTaskText := text)
    {
      state := state.(editTaskText := text);
    }

    /** `handleFilterChange`: the one filter changes and a reload starts
        with the new filters. */
    method HandleFilterChange(key: string, value: Option<string>) returns (sent: Filters)
      requires Valid()
      modifies this
      ensures Valid() && Timers() == old(Timers())
      ensures sent == WithFilter(old(state).filters, key, value)
      ensures state == old(state).(filters := sent, loading := true, error := None)
    {
      state := state.(filters := WithFilter(state.filters, key, value));
      sent := BeginLoadTasks();
    }

    /** `handleSearchChange`: the search text changes at once; the reload
        scheduled before, if any, is cleared and a new one scheduled, so the
        new one is the only one pending. */
    method HandleSearchChange(text: string)
      requires Valid()
      modifies this
      ensures Valid()
      ensures state == old(state).(filters := old(state).filters.(search := text))
      ensures searchTimeout == Some(old(nextTimer)) && pendingReloads == {old(nextTimer)}
      ensures nextTimer == old(nextTimer) + 1
    {
      state := state.(filters := state.filters.(search := text));
      if searchTimeout.Some? {
        pendingReloads := pendingReloads - {searchTimeout.value};
      }
      searchTimeout := Some(nextTimer);
      pendingReloads := pendingReloads + {nextTimer};
      nextTimer := nextTimer + 1;
    }

    /** A scheduled search reload runs: it is no longer pending and a reload
        starts with the filters as they are then. */
    method SearchTimerFires(handle: nat) returns (sent: Filters)
      requires Valid() && handle in pendingReloads
      modifies this
      ensures Valid()
      ensures sent == state.filters
      ensures state == old(state).(loading := true, error := None)
      ensures searchTimeout == old(searchTimeout) && pendingReloads == {} && nextTimer == old(nextTimer)
    {
      pendingReloads := pendingReloads - {handle};
      sent := BeginLoadTasks();
    }

    /** `handleSubmit`: a blank input sends nothing and changes nothing.
        Otherwise the form is sent; the created record is appended and the
        form reset, or the error is set and the list kept. Returns the body
        sent. */
    method HandleSubmit(reply: Option<Task>, statsReply: Option<Stats>) returns (sent: Option<TaskFields>)
      requires Valid()
      modifies this
      ensures Valid() && Timers() == old(Timers())
      ensures IsBlank(old(state).currentTask) <==> sent.None?
      ensures sent.None? ==> state == old(state)
      ensures sent.Some? ==> sent.value == SubmitBody(old(state).currentTask, old(state).currentPriority,
        old(state).currentCategory, old(state).currentDueDate)
      ensures sent.Some? && reply.Some? ==> state == old(state).(tasks := old(state).tasks + [reply.value],
        currentTask := "", currentPriority := MEDIUM, currentCategory := DEFAULT_CATEGORY, currentDueDate := None,
        stats := StatsAfter(old(state).stats, statsReply))
      ensures sent.Some? && reply.None? ==> state == old(state).(error := Some(ADD_TASK_ERROR))
    {
      if IsBlank(state.currentTask) {
        sent := None;
        return;
      }
      var originalTasks := state.tasks;
      sent := Some(SubmitBody(state.currentTask, state.currentPriority, state.currentCategory, state.currentDueDate));
      if reply.Some? {
        state := state.(tasks := originalTasks + [reply.value], currentTask := "", currentPriority := MEDIUM,
          currentCategory := DEFAULT_CATEGORY, currentDueDate := None);
        LoadStats(statsReply);
      } else {
        state := state.(error := Some(ADD_TASK_ERROR));
      }
    }

    /** `handleUpdate`: the list is edited at once; if the server refuses,
        the list returns to the snapshot taken before and the error is set. */
    method HandleUpdate(taskId: Id, updates: TaskFields, ok: bool, statsReply: Option<Stats>, now: Timestamp)
      requires Valid()
      modifies this
      ensures Valid() && Timers() == old(Timers())
      ensures ok ==> state == old(state).(tasks := EditList(old(state).tasks, taskId, updates, now),
        stats := StatsAfter(old(state).stats, statsReply))
      ensures !ok ==> state == old(state).(error := Some(UPDATE_TASK_ERROR))
    {
      var originalTasks := state.tasks;
      var tasks := originalTasks;
      var index := FindIndex(tasks, taskId);
      if index >= 0 {
        tasks := tasks[index := OptimisticEdit(tasks[index], updates, now)];
      }
      state := state.(tasks := tasks);
      if ok {
        LoadStats(statsReply);
      } else {
        state := state.(tasks := originalTasks, error := Some(UPDATE_TASK_ERROR));
      }
    }

    /** `handleToggleComplete`: an update with the negated status. */
    method HandleToggleComplete(taskId: Id, currentStatus: bool, ok: bool, statsReply: Option<Stats>, now: Timestamp)
      requires Valid()
      modifies this
      ensures Valid() && Timers() == old(Timers())
      ensures ok ==> state == old(state).(
        tasks := EditList(old(state).tasks, taskId, NoFields.(completed := Some(!currentStatus)), now),
        stats := StatsAfter(old(state).stats, statsReply))
      ensures !ok ==> state == old(state).(error := Some(UPDATE_TASK_ERROR))
    {
      HandleUpdate(taskId, NoFields.(completed := Some(!currentStatus)), ok, statsReply, now);
    }

    /** `handleStartEdit`: edit mode for `t`, with its text. */
    method HandleStartEdit(t: Task)
      requires Valid()
      modifies this
      ensures Valid() && Timers() == old(Timers())
      ensures state == old(state).(editingTaskId := Some(t.id), editTaskText := t.task)
    {
      state := state.(editingTaskId := Some(t.id), editTaskText := t.task);
    }

    /** `handleCancelEdit`: edit mode off, the edit text cleared. */
    method HandleCancelEdit()
      requires Valid()
      modifies this
      ensures Valid() && Timers() == old(Timers())
      ensures state == old(state).(editingTaskId := None, editTaskText := "")
    {
      state := state.(editingTaskId := None, editTaskText := "");
    }

    /** `handleSaveEdit`: a blank text cancels the edit; otherwise the text
        is sent as an update of `task`, and edit mode ends whether or not the
        update succeeded. */
    method HandleSaveEdit(taskId: Id, ok: bool, statsReply: Option<Stats>, now: Timestamp)
      requires Valid()
      modifies this
      ensures Valid() && Timers() == old(Timers())
      ensures IsBlank(old(state).editTaskText) ==> state == old(state).(editingTaskId := None, editTaskText := "")
      ensures !IsBlank(old(state).editTaskText) && ok ==> state == old(state).(
        tasks := EditList(old(state).tasks, taskId, NoFields.(task := Some(old(state).editTaskText)), now),
        stats := StatsAfter(old(state).stats, statsReply), editingTaskId := None, editTaskText := "")
      ensures !IsBlank(old(state).editTaskText) && !ok ==> state == old(state).(
        error := Some(UPDATE_TASK_ERROR), editingTaskId := None, editTaskText := "")
    {
      if IsBlank(state.editTaskText) {
        HandleCancelEdit();
        return;
      }
      HandleUpdate(taskId, NoFields.(task := Some(state.editTaskText)), ok, statsReply, now);
      state := state.(editingTaskId := None, editTaskText := "");
    }

    /** `handleDelete`: nothing happens unless the user confirms; then the
        tasks with id `taskId` leave the list at once, and the whole snapshot
        comes back with the error set if the server refuses. */
    method HandleDelete(taskId: Id, confirmed: bool, ok: bool, statsReply: Option<Stats>)
      requires Valid()
      modifies this
      ensures Valid() && Timers() == old(Timers())
      ensures !confirmed ==> state == old(state)
      ensures confirmed && ok ==> state == old(state).(tasks := WithoutId(old(state).tasks, taskId),
        stats := StatsAfter(old(state).stats, statsReply))
      ensures confirmed && !ok ==> state == old(state).(error := Some(DELETE_TASK_ERROR))
    {
      if !confirmed {
        return;
      }
      var originalTasks := state.tasks;
      state := state.(tasks := WithoutId(originalTasks, taskId));
      if ok {
        LoadStats(statsReply);
      } else {
        state := state.(tasks := originalTasks, error := Some(DELETE_TASK_ERROR));
      }
    }
  }

  /** A subset of a finite set is no larger. */
  lemma SubsetSize<T>(a: set<T>, b: set<T>)
    requires a <= b
    ensures |a| <= |b|
  {
    assert b == a + (b - a);
  }
}
