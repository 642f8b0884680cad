/** The task mutation routes of routes/taskRoutes.js: POST /tasks, PUT /:id
    and DELETE /:id, over an in-memory Task collection that shares the
    Notification collection with the other routes. */
module TaskRoutes {
  import opened Base
  import opened NotificationStore
  import opened TaskModel

  /** Store-generated task keys; the counter never hands out a key twice. */
  type TaskId = nat

  /** The body of POST /tasks. An absent field and any falsy value (an empty
      string, a missing deadline) are both `None` or `Some("")`. */
  datatype CreateBody = CreateBody(name: Option<string>, description: Option<string>,
                                   category: Option<string>, priority: Option<string>,
                                   deadline: Option<int>, userId: Option<Id>)

  /** The guard at the top of the create handler: every field is truthy. */
  predicate AllFieldsGiven(b: CreateBody)
  {
    Given(b.name) && Given(b.description) && Given(b.category) && Given(b.priority)
    && b.deadline.Some? && Given(b.userId)
  }

  /** The document the create handler builds from its body (no status). */
  function DraftOf(b: CreateBody): TaskDraft
  {
    TaskDraft(b.userId, b.name, b.description, b.category, b.priority, b.deadline, None)
  }

  /** The body of PUT /:id: any subset of the task's paths. */
  datatype TaskPatch = TaskPatch(userId: Option<Id>, name: Option<string>, description: Option<string>,
                                 category: Option<string>, priority: Option<string>,
                                 deadline: Option<int>, status: Option<string>)

  const EmptyPatch: TaskPatch := TaskPatch(None, None, None, None, None, None, None)

  function Pick<T>(given: Option<T>, current: T): T
  {
    if given.Some? then given.value else current
  }

  /** `findByIdAndUpdate(id, body)`: every path present in the body replaces
      the stored one, every other path keeps its value. Update validators are
      off, so enumerations are not re-checked. */
  function Merge(t: Task, p: TaskPatch): (r: Task)
    ensures p.name.Some? ==> r.name == p.name.value
    ensures p.name.None? ==> r.name == t.name
    ensures p.userId.Some? ==> r.userId == p.userId.value
    ensures p.userId.None? ==> r.userId == t.userId
    ensures p.description.Some? ==> r.description == p.description.value
    ensures p.description.None? ==> r.description == t.description
    ensures p.category.Some? ==> r.category == p.category.value
    ensures p.category.None? ==> r.category == t.category
    ensures p.priority.Some? ==> r.priority == p.priority.value
    ensures p.priority.None? ==> r.priority == t.priority
    ensures p.deadline.Some? ==> r.deadline == p.deadline.value
    ensures p.deadline.None? ==> r.deadline == t.deadline
    ensures p.status.Some? ==> r.status == p.status.value
    ensures p.status.None? ==> r.status == t.status
  {
    Task(Pick(p.userId, t.userId), Pick(p.name, t.name), Pick(p.description, t.description),
         Pick(p.category, t.category), Pick(p.priority, t.priority),
         Pick(p.deadline, t.deadline), Pick(p.status, t.status))
  }

  /** An empty body changes nothing, and repeating an update changes nothing more. */
  lemma MergeIdentityAndIdempotent(t: Task, p: TaskPatch)
    ensures Merge(t, EmptyPatch) == t
    ensures Merge(Merge(t, p), p) == Merge(t, p)
  {
  }

  /** An update may store a priority outside the schema's enumeration, which
      save() would have refused. */
  lemma UpdateBypassesPriorityEnum(t: Task)
    ensures !SchemaValid(Merge(t, EmptyPatch.(priority := Some("Urgent"))))
  {
  }

  /** The record an update persists: addressed to the updated task's owner
      and naming the task as it is after the update. */
  function TaskUpdatedNote(t: Task, now: int): (r: Notification)
    ensures r.userId == t.userId && r.kind == "task-updated" && r.date == now
    ensures r.message == "Task updated: " + t.name
  {
    Notification(t.userId, "Task updated: " + t.name, "task-updated", now)
  }

  /** The record a delete persists: addressed to the removed task's owner
      and naming the task as it was before the delete. */
  function TaskDeletedNote(t: Task, now: int): (r: Notification)
    ensures r.userId == t.userId && r.kind == "task-delete" && r.date == now
    ensures r.message == "Task Deleted: " + t.name
  {
    Notification(t.userId, "Task Deleted: " + t.name, "task-delete", now)
  }

  /** The Task collection together with the Notification collection it writes to. */
  class TaskService {
    var tasks: map<TaskId, Task>
    var nextId: TaskId
    const log: NotificationLog
    /** `mongoose.Types.ObjectId.isValid`, supplied by the environment. */
    const isValidId: Id -> bool

    ghost predicate Valid()
      reads this
    {
      forall k :: k in tasks ==> k < nextId
    }

    constructor (log: NotificationLog, isValidId: Id -> bool)
      ensures Valid() && tasks == map[]
      ensures this.log == log && this.isValidId == isValidId
    {
      tasks := map[];
      nextId := 0;
      this.log := log;
      this.isValidId := isValidId;
    }

    /** `save()` of a new document: schema validation, insertion under a fresh
        key, then the post-save hook. A validation error stores nothing and
        runs no hook. */
    method Save(d: TaskDraft, now: int, fault: HookFault) returns (id: Option<TaskId>)
      requires Valid()
      modifies this, log
      ensures Valid()
      ensures id.Some? <==> Validate(d).Some?
      ensures Validate(d).None? ==> tasks == old(tasks) && nextId == old(nextId)
                                    && log.records == old(log.records)
      ensures Validate(d).Some? ==>
                && id.value == old(nextId) && id.value !in old(tasks)
                && tasks == old(tasks)[id.value := Validate(d).value]
                && log.records == old(log.records)
                                  + (if fault == CreateFails then [] else [TaskAddedNote(Validate(d).value, now)])
    {
      var doc := Validate(d);
      if doc.None? {
        return None;
      }
      id := Some(nextId);
      tasks := tasks[nextId := doc.value];
      nextId := nextId + 1;
      PostSave(log, doc.value, now, fault);
    }

    /** POST /tasks. 400 when a field is missing or the user id is malformed,
        500 when the schema rejects the document (a priority outside
        Low/Medium/High), otherwise 201 with the new task's key. */
    method Create(body: CreateBody, now: int, fault: HookFault) returns (status: int, id: Option<TaskId>)
      requires Valid()
      modifies this, log
      ensures Valid()
      ensures status == BadRequest <==> !AllFieldsGiven(body) || !isValidId(body.userId.value)
      ensures status == ServerError <==>
                AllFieldsGiven(body) && isValidId(body.userId.value) && !ValidPriority(body.priority.value)
      ensures status == BadRequest || status == ServerError || status == Created
      ensures status != Created ==> && id.None? && tasks == old(tasks) && nextId == old(nextId)
                                    && log.records == old(log.records)
      ensures status == Created ==>
                && id == Some(old(nextId)) && old(nextId) !in old(tasks)
                && tasks.Keys == old(tasks).Keys + {old(nextId)}
                && tasks == old(tasks)[old(nextId) := tasks[old(nextId)]]
                && SchemaValid(tasks[old(nextId)])
                && tasks[old(nextId)] == Task(body.userId.value, body.name.value, body.description.value,
                                              body.category.value, body.priority.value,
                                              body.deadline.value, "Pending")
                && log.records == old(log.records)
                                  + (if fault == CreateFails then [] else [TaskAddedNote(tasks[old(nextId)], now)])
    {
      if !AllFieldsGiven(body) {
        return BadRequest, None;
      }
      if !isValidId(body.userId.value) {
        return BadRequest, None;
      }
      id := Save(DraftOf(body), now, fault);
      status := if id.Some? then Created else ServerError;
    }

    /** PUT /:id. 404 and no change when no task has the key; otherwise the
        body is merged in and one "task-updated" notification naming the
        updated task goes to its (possibly new) owner. */
    method Update(id: TaskId, patch: TaskPatch, now: int) returns (status: int, updated: Option<Task>)
      requires Valid()
      modifies this, log
      ensures Valid() && nextId == old(nextId)
      ensures id !in old(tasks) ==> && status == NotFound && updated.None?
                                    && tasks == old(tasks) && log.records == old(log.records)
      ensures id in old(tasks) ==> && status == Ok
                                   && updated == Some(Merge(old(tasks)[id], patch))
                                   && tasks == old(tasks)[id := updated.value]
                                   && log.records == old(log.records) + [TaskUpdatedNote(updated.value, now)]
    {
      if id !in tasks {
        return NotFound, None;
      }
      var t := Merge(tasks[id], patch);
      tasks := tasks[id := t];
      var note := TaskUpdatedNote(t, now);
      log.Create(note.userId, note.message, note.kind, note.date);
      return Ok, Some(t);
    }

    /** DELETE /:id. 404 and no change when no task has the key; otherwise
        the task is removed and one "task-delete" notification naming it goes
        to its owner. */
    method Delete(id: TaskId, now: int) returns (status: int)
      requires Valid()
      modifies this, log
      ensures Valid() && nextId == old(nextId)
      ensures id !in old(tasks) ==> && status == NotFound
                                    && tasks == old(tasks) && log.records == old(log.records)
      ensures id in old(tasks) ==> && status == Ok
                                   && tasks == old(tasks) - {id}
                                   && log.records == old(log.records) + [TaskDeletedNote(old(tasks)[id], now)]
    {
      var task := if id in tasks then Some(tasks[id]) else None;
      if task.None? {
        return NotFound;
      }
      tasks := tasks - {id};
      var note := TaskDeletedNote(task.value, now);
      log.Create(note.userId, note.message, note.kind, note.date);
      return Ok;
    }
  }

  /** Deleting the same task twice: the second call finds nothing, and only
      one "task-delete" notification is recorded. */
  method DeleteTwice(svc: TaskService, id: TaskId, now: int) returns (first: int, second: int)
    requires svc.Valid() && id in svc.tasks
    modifies svc, svc.log
    ensures svc.Valid()
    ensures first == Ok && second == NotFound
    ensures svc.tasks == old(svc.tasks) - {id}
    ensures svc.log.records == old(svc.log.records) + [TaskDeletedNote(old(svc.tasks)[id], now)]
  {
    first := svc.Delete(id, now);
    second := svc.Delete(id, now);
  }

  /** Creating a task and then updating it records a "task" notification and
      then a "task-updated" one: the update does not go through `save()`, so
      it never adds a "task" record. */
  method CreateThenUpdate(svc: TaskService, body: CreateBody, patch: TaskPatch, now: int)
    returns (created: int, updated: int)
    requires svc.Valid()
    modifies svc, svc.log
    ensures created == Created ==> updated == Ok
    ensures created == Created ==>
              |svc.log.records| == |old(svc.log.records)| + 2
              && svc.log.records[|svc.log.records| - 1].kind == "task-updated"
              && svc.log.records[|svc.log.records| - 2].kind == "task"
  {
    var id;
    created, id := svc.Create(body, now, NoFault);
    updated := NotFound;
    if created == Created {
      var task;
      updated, task := svc.Update(id.value, patch, now);
    }
  }
}
