/** The Task schema (models/Task.js): required paths, the priority and status
    enumerations, the status default, and the post-save hook that records a
    "task" notification for every saved task. */
module TaskModel {
  import opened Base
  import opened NotificationStore

  /** A stored task document. `deadline` is a UTC timestamp in milliseconds. */
  datatype Task = Task(userId: Id, name: string, description: string, category: string,
                       priority: string, deadline: int, status: string)

  predicate ValidPriority(p: string)
  {
    p == "Low" || p == "Medium" || p == "High"
  }

  predicate ValidStatus(s: string)
  {
    s == "Pending" || s == "In Progress" || s == "Completed"
  }

  const DefaultStatus: string := "Pending"

  /** Every rule of TaskSchema holds of the document. */
  predicate SchemaValid(t: Task)
  {
    && t.userId != "" && t.name != "" && t.description != "" && t.category != ""
    && ValidPriority(t.priority) && ValidStatus(t.status)
  }

  /** A task document as built before `save()`: any path may be unset. */
  datatype TaskDraft = TaskDraft(userId: Option<Id>, name: Option<string>, description: Option<string>,
                                 category: Option<string>, priority: Option<string>,
                                 deadline: Option<int>, status: Option<string>)

  /** The `required: true` paths are all set (a required string may not be empty). */
  predicate RequiredSet(d: TaskDraft)
  {
    Given(d.userId) && Given(d.name) && Given(d.description) && Given(d.category)
    && Given(d.priority) && d.deadline.Some?
  }

  /** Schema validation performed by `save()`: the document that is stored,
      with the status default applied, or None for a validation error. */
  function Validate(d: TaskDraft): (r: Option<Task>)
    ensures r.Some? <==> RequiredSet(d) && ValidPriority(d.priority.value)
                         && (d.status.Some? ==> ValidStatus(d.status.value))
    ensures r.Some? ==> SchemaValid(r.value)
    ensures r.Some? ==> && r.value.userId == d.userId.value && r.value.name == d.name.value
                        && r.value.description == d.description.value
                        && r.value.category == d.category.value
                        && r.value.priority == d.priority.value
                        && r.value.deadline == d.deadline.value
    ensures r.Some? && d.status.None? ==> r.value.status == "Pending"
    ensures r.Some? && d.status.Some? ==> r.value.status == d.status.value
  {
    if !RequiredSet(d) || !ValidPriority(d.priority.value) then None
    else
      var status := if d.status.Some? then d.status.value else DefaultStatus;
      if !ValidStatus(status) then None
      else Some(Task(d.userId.value, d.name.value, d.description.value, d.category.value,
                     d.priority.value, d.deadline.value, status))
  }

  /** The record the post-save hook persists for a saved task. */
  function TaskAddedNote(doc: Task, now: int): (r: Notification)
    ensures r.userId == doc.userId && r.kind == "task" && r.date == now
    ensures r.message == "New Task Added: " + doc.name
  {
    Notification(doc.userId, "New Task Added: " + doc.name, "task", now)
  }

  /** How the hook's body ends: normally, with `Notification.create` throwing,
      or with the real-time `emit` throwing after the record was persisted. */
  datatype HookFault = NoFault | CreateFails | EmitFails

  /** `post("save")`: persists one "task" notification addressed to the task's
      owner. A failure inside the hook is caught and logged, so it never turns
      the save into a failure; only a failing `create` loses the record. */
  method PostSave(log: NotificationLog, doc: Task, now: int, fault: HookFault)
    modifies log
    ensures log.records == old(log.records) + (if fault == CreateFails then [] else [TaskAddedNote(doc, now)])
  {
    if fault != CreateFails {
      var note := TaskAddedNote(doc, now);
      log.Create(note.userId, note.message, note.kind, note.date);
    }
  }
}
