// The record types shared by the task list, the input form and the task card.

module TaskModel {

  datatype Option<T> = None | Some(value: T)

  datatype Priority = High | Medium | Low

  datatype Category = Work | Study | Personal

  /** A calendar instant: a day number and a time of day in local time.
      Seconds and milliseconds are not modelled. */
  datatype DateTime = DateTime(day: int, hours: int, minutes: int)

  /** The time of day is a real clock reading. */
  predicate ValidTime(d: DateTime)
  {
    0 <= d.hours < 24 && 0 <= d.minutes < 60
  }

  /** Minutes since the start of day 0; the instant's position on the time line. */
  function MinutesOf(d: DateTime): int
  {
    d.day * 1440 + d.hours * 60 + d.minutes
  }

  /** `a` lies strictly before `b` on the time line (JavaScript's `<` on dates). */
  predicate Before(a: DateTime, b: DateTime)
  {
    MinutesOf(a) < MinutesOf(b)
  }

  /** For valid clock readings, "before" is the calendar order: day first, then hours, then minutes. */
  lemma BeforeIsCalendarOrder(a: DateTime, b: DateTime)
    requires ValidTime(a) && ValidTime(b)
    ensures Before(a, b) <==>
      a.day < b.day ||
      (a.day == b.day && (a.hours < b.hours || (a.hours == b.hours && a.minutes < b.minutes)))
  {
    var ta := a.hours * 60 + a.minutes;
    var tb := b.hours * 60 + b.minutes;
    assert 0 <= ta < 1440 && 0 <= tb < 1440;
    assert MinutesOf(a) == a.day * 1440 + ta;
    assert MinutesOf(b) == b.day * 1440 + tb;
    if a.day < b.day {
      assert a.day * 1440 + 1440 <= b.day * 1440;
    } else if a.day > b.day {
      assert b.day * 1440 + 1440 <= a.day * 1440;
    } else if a.hours < b.hours {
      assert a.hours * 60 + 60 <= b.hours * 60;
    } else if a.hours > b.hours {
      assert b.hours * 60 + 60 <= a.hours * 60;
    }
  }

  type Id = string

  /** One to-do item. */
  datatype Task = Task(
    id: Id,
    text: string,
    completed: bool,
    priority: Priority,
    category: Category,
    dueDate: Option<DateTime>,
    createdAt: DateTime)

  /** A task without the two fields the list assigns on insertion (`Omit<Task, "id" | "createdAt">`). */
  datatype TaskDraft = TaskDraft(
    text: string,
    completed: bool,
    priority: Priority,
    category: Category,
    dueDate: Option<DateTime>)

  /** `Partial<Task>`: a field is either absent (None) or present with a value.
      A present `dueDate` may itself be `undefined`, hence the nested option. */
  datatype TaskUpdate = TaskUpdate(
    id: Option<Id>,
    text: Option<string>,
    completed: Option<bool>,
    priority: Option<Priority>,
    category: Option<Category>,
    dueDate: Option<Option<DateTime>>,
    createdAt: Option<DateTime>)

  /** The empty patch `{}`. */
  const NoUpdate := TaskUpdate(None, None, None, None, None, None, None)

  function Pick<T>(present: Option<T>, current: T): T
  {
    match present
    case Some(v) => v
    case None => current
  }

  /** `{ ...task, ...updates }`: every field present in the patch wins, the others are kept. */
  function Merge(t: Task, u: TaskUpdate): (r: Task)
    ensures u.id.None? ==> r.id == t.id
    ensures u.id.Some? ==> r.id == u.id.value
    ensures u.text.None? ==> r.text == t.text
    ensures u.text.Some? ==> r.text == u.text.value
    ensures u.completed.None? ==> r.completed == t.completed
    ensures u.completed.Some? ==> r.completed == u.completed.value
    ensures u.priority.None? ==> r.priority == t.priority
    ensures u.priority.Some? ==> r.priority == u.priority.value
    ensures u.category.None? ==> r.category == t.category
    ensures u.category.Some? ==> r.category == u.category.value
    ensures u.dueDate.None? ==> r.dueDate == t.dueDate
    ensures u.dueDate.Some? ==> r.dueDate == u.dueDate.value
    ensures u.createdAt.None? ==> r.createdAt == t.createdAt
    ensures u.createdAt.Some? ==> r.createdAt == u.createdAt.value
    ensures u == NoUpdate ==> r == t
  {
    Task(
      Pick(u.id, t.id),
      Pick(u.text, t.text),
      Pick(u.completed, t.completed),
      Pick(u.priority, t.priority),
      Pick(u.category, t.category),
      Pick(u.dueDate, t.dueDate),
      Pick(u.createdAt, t.createdAt))
  }

  /** Merging the same patch a second time changes nothing. */
  lemma MergeIdempotent(t: Task, u: TaskUpdate)
    ensures Merge(Merge(t, u), u) == Merge(t, u)
  {
  }

  /** `{ ...taskData, id, createdAt }`. */
  function FromDraft(d: TaskDraft, id: Id, createdAt: DateTime): (t: Task)
    ensures t.id == id && t.createdAt == createdAt
    ensures t.text == d.text && t.completed == d.completed && t.priority == d.priority
    ensures t.category == d.category && t.dueDate == d.dueDate
  {
    Task(id, d.text, d.completed, d.priority, d.category, d.dueDate, createdAt)
  }

  /** The status filter (`FilterType`). */
  datatype StatusFilter = AnyStatus | CompletedOnly | PendingOnly

  /** The category filter (`CategoryType`): "all" or one category. */
  datatype CategoryFilter = AnyCategory | OfCategory(category: Category)

  /** The priority filter (`PriorityFilter`): "all" or one priority. */
  datatype PriorityFilter = AnyPriority | OfPriority(priority: Priority)
}
