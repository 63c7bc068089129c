/** The task collection behind the create, update and delete routes. */
module TaskRoutes {
  import opened Wrappers
  import opened TaskSchema

  /** Why a request failed. */
  datatype ApiError = ValidationFailed(reason: SchemaError) | NotFound

  /** The response status that reports the error. */
  function Status(e: ApiError): (code: nat)
    ensures code == 404 <==> e == NotFound
    ensures code == 400 <==> e.ValidationFailed?
  {
    match e
    case ValidationFailed(_) => 400
    case NotFound => 404
  }

  /** A supplied, truthy date (not absent, not null). */
  predicate HasDate(d: Option<Option<Timestamp>>) {
    d.Some? && d.value.Some?
  }

  /** The body after the update route's completion rule: marking a task
      completed stamps `completedAt` unless the body already carries one,
      marking it not completed clears it. Nothing else changes. */
  function StampCompletedAt(body: TaskFields, now: Timestamp): (r: TaskFields)
    ensures r == body.(completedAt := r.completedAt)
    ensures body.completed == Some(true) ==> HasDate(r.completedAt)
    ensures body.completed == Some(false) ==> r.completedAt == Some(None)
    ensures body.completed.None? ==> r == body
  {
    if body.completed == Some(true) && !HasDate(body.completedAt) then body.(completedAt := Some(Some(now)))
    else if body.completed == Some(false) then body.(completedAt := Some(None))
    else body
  }

  /** The four cases of the completion rule, on the stored record. */
  lemma CompletedAtRule(t: Task, body: TaskFields, now: Timestamp)
    ensures var u := Merge(t, StampCompletedAt(body, now));
      && (body.completed == Some(true) && !HasDate(body.completedAt) ==> u.completedAt == Some(now))
      && (body.completed == Some(true) && HasDate(body.completedAt) ==> u.completedAt == body.completedAt.value)
      && (body.completed == Some(false) ==> u.completedAt == None)
      && (body.completed.None? ==> u.completedAt == body.completedAt.GetOr(t.completedAt))
  {
  }

  /** An update keeps "not completed implies no completion time" unless its
      body sets `completedAt` without saying whether the task is completed. */
  lemma UpdateKeepsConsistency(t: Task, body: TaskFields, now: Timestamp)
    requires CompletionConsistent(t)
    requires body.completed.Some? || body.completedAt.None?
    ensures CompletionConsistent(Merge(t, StampCompletedAt(body, now)))
  {
  }

  /** The exception: a body carrying only a completion time stores it on a
      task that is not completed. */
  lemma CompletedAtAloneIsStored(t: Task, when: Timestamp, now: Timestamp)
    requires !t.completed
    ensures !CompletionConsistent(Merge(t, StampCompletedAt(NoFields.(completedAt := Some(Some(when))), now)))
  {
  }

  /** Completing a task and then reopening it gives back the task, not
      completed and without a completion time. */
  lemma CompleteThenReopen(t: Task, now1: Timestamp, now2: Timestamp)
    ensures var done := Merge(t, StampCompletedAt(NoFields.(completed := Some(true)), now1));
      && done.completed && done.completedAt == Some(now1)
      && Merge(done, StampCompletedAt(NoFields.(completed := Some(false)), now2))
         == t.(completed := false, completedAt := None)
  {
  }

  /** The stored tasks, in insertion order. */
  class TaskCollection {
    var tasks: seq<Task>

    /** The store's guarantees: identifiers are unique, and every record
        passed the schema's validation. */
    ghost predicate Valid()
      reads this
    {
      DistinctIds(tasks) && forall i :: 0 <= i < |tasks| ==> ValidTask(tasks[i])
    }

    constructor ()
      ensures Valid() && tasks == []
    {
      tasks := [];
    }

    /** `POST /`: validates and stores `new Task(body)` under the fresh
        identifier `id`. */
    method Create(body: TaskFields, id: Id, now: Timestamp) returns (r: Result<Task, ApiError>)
      requires Valid() && id !in Ids(tasks)
      modifies this
      ensures Valid()
      ensures NewTask(body, id, now).Err? ==>
        r == Err(ValidationFailed(NewTask(body, id, now).error)) && tasks == old(tasks)
      ensures NewTask(body, id, now).Ok? ==>
        r == Ok(NewTask(body, id, now).value) && tasks == old(tasks) + [r.value]
    {
      var created := NewTask(body, id, now);
      if created.Err? {
        return Err(ValidationFailed(created.error));
      }
      tasks := tasks + [created.value];
      r := Ok(created.value);
    }

    /** `PUT /:id`: applies the completion rule to the body, validates the
        keys it supplies, and merges it into the record with identifier
        `id`. */
    method Update(id: Id, body: TaskFields, now: Timestamp) returns (r: Result<Task, ApiError>)
      requires Valid()
      modifies this
      ensures Valid()
      ensures CheckFields(body).Some? ==>
        r == Err(ValidationFailed(CheckFields(body).value)) && tasks == old(tasks)
      ensures CheckFields(body).None? && id !in Ids(old(tasks)) ==>
        r == Err(NotFound) && tasks == old(tasks)
      ensures CheckFields(body).None? && id in Ids(old(tasks)) ==>
        var i := FindIndex(old(tasks), id);
        && r == Ok(Merge(old(tasks)[i], StampCompletedAt(body, now)))
        && tasks == old(tasks)[i := r.value]
    {
      var request := body;
      if request.completed == Some(true) && !HasDate(request.completedAt) {
        request := request.(completedAt := Some(Some(now)));
      } else if request.completed == Some(false) {
        request := request.(completedAt := Some(None));
      }
      var problem := CheckFields(request);
      if problem.Some? {
        return Err(ValidationFailed(problem.value));
      }
      var i := FindIndex(tasks, id);
      if i < 0 {
        return Err(NotFound);
      }
      var updated := Merge(tasks[i], request);
      MergePreservesValidity(tasks[i], request);
      tasks := tasks[i := updated];
      r := Ok(updated);
    }

    /** `DELETE /:id`: removes the record with identifier `id` and returns it. */
    method Delete(id: Id) returns (r: Result<Task, ApiError>)
      requires Valid()
      modifies this
      ensures Valid()
      ensures id !in Ids(old(tasks)) ==> r == Err(NotFound) && tasks == old(tasks)
      ensures id in Ids(old(tasks)) ==> r == Ok(old(tasks)[FindIndex(old(tasks), id)])
      ensures tasks == WithoutId(old(tasks), id)
    {
      var i := FindIndex(tasks, id);
      if i < 0 {
        WithoutAbsentId(tasks, id);
        return Err(NotFound);
      }
      WithoutIdAt(tasks, id, i);
      r := Ok(tasks[i]);
      tasks := tasks[..i] + tasks[i + 1..];
    }
  }
}
