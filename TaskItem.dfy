// One task card: the colour and icon it shows, the due-date label and overdue flag, and the edit
// buffers behind its edit, save and cancel buttons.

module TaskItem {
  import opened TaskModel
  import opened JsText

  /** The string value a priority has in the task record. */
  function PriorityName(p: Priority): string
  {
    match p
    case High => "high"
    case Medium => "medium"
    case Low => "low"
  }

  /** The string value a category has in the task record. */
  function CategoryName(c: Category): string
  {
    match c
    case Work => "work"
    case Study => "study"
    case Personal => "personal"
  }

  const DefaultColor := "bg-gray-500 text-white"
  const DefaultIcon := "\U{1F4DD}"

  /** `getPriorityColor`: the badge class for a priority string. */
  function PriorityColor(priority: string): string
  {
    if priority == "high" then "bg-red-500 text-white"
    else if priority == "medium" then "bg-yellow-500 text-white"
    else if priority == "low" then "bg-green-500 text-white"
    else DefaultColor
  }

  /** `getCategoryIcon`: the emoji for a category string. */
  function CategoryIcon(category: string): string
  {
    if category == "work" then "\U{1F4BC}"
    else if category == "study" then "\U{1F4DA}"
    else if category == "personal" then "\U{1F3E0}"
    else DefaultIcon
  }

  /** The three priorities get three different colours, none of them the grey default, and every
      other string gets the default. */
  lemma PriorityColorSpec(p: Priority, q: Priority, s: string)
    ensures PriorityColor(PriorityName(p)) == PriorityColor(PriorityName(q)) <==> p == q
    ensures PriorityColor(PriorityName(p)) != DefaultColor
    ensures PriorityColor(s) == DefaultColor <==> s !in {"high", "medium", "low"}
  {
  }

  /** The three categories get three different icons, none of them the default, and every other
      string gets the default. */
  lemma CategoryIconSpec(c: Category, d: Category, s: string)
    ensures CategoryIcon(CategoryName(c)) == CategoryIcon(CategoryName(d)) <==> c == d
    ensures CategoryIcon(CategoryName(c)) != DefaultIcon
    ensures CategoryIcon(s) == DefaultIcon <==> s !in {"work", "study", "personal"}
  {
  }

  /** `isDueDateOverdue`: the task has a due date, it lies before `now`, and the task is open. */
  predicate IsOverdue(t: Task, now: DateTime)
  {
    t.dueDate.Some? && Before(t.dueDate.value, now) && !t.completed
  }

  /** A done task is never overdue; an overdue task stays overdue as time goes on; completing it
      clears the flag. */
  lemma OverdueSpec(t: Task, now: DateTime, later: DateTime)
    ensures t.completed ==> !IsOverdue(t, now)
    ensures t.dueDate.None? ==> !IsOverdue(t, now)
    ensures IsOverdue(t, now) && !Before(later, now) ==> IsOverdue(t, later)
    ensures IsOverdue(t, now) ==> !IsOverdue(t.(completed := true), now)
  {
  }

  /** The label `formatDueDate` puts on a due date: "Today", "Tomorrow", or the date itself. */
  datatype DueLabel = Today | Tomorrow | OnDate(date: DateTime)

  /** `formatDueDate`, with `isToday`/`isTomorrow` read against `now`'s calendar day. */
  function FormatDueDate(date: DateTime, now: DateTime): DueLabel
  {
    if date.day == now.day then Today
    else if date.day == now.day + 1 then Tomorrow
    else OnDate(date)
  }

  /** A task due tomorrow is not overdue, and an open task due on an earlier day is. */
  lemma DueLabelAndOverdue(t: Task, now: DateTime)
    requires t.dueDate.Some? && ValidTime(t.dueDate.value) && ValidTime(now)
    ensures FormatDueDate(t.dueDate.value, now) == Tomorrow ==> !IsOverdue(t, now)
    ensures t.dueDate.value.day < now.day && !t.completed ==> IsOverdue(t, now)
  {
    BeforeIsCalendarOrder(t.dueDate.value, now);
  }

  /** The patch `handleSaveEdit` hands to `onUpdate`: the trimmed text and the three other
      buffers. There is no check for empty text. */
  function SaveUpdate(text: string, priority: Priority, category: Category,
                      dueDate: Option<DateTime>): TaskUpdate
  {
    TaskUpdate(None, Some(Trim(text)), None, Some(priority), Some(category), Some(dueDate), None)
  }

  /** Saving sets the text to the trimmed buffer (empty for a blank buffer), the priority,
      category and due date (clearing it when the buffer has none) to the buffers, and leaves
      id, completion and creation time alone. */
  lemma SaveUpdateSpec(t: Task, text: string, priority: Priority, category: Category,
                       dueDate: Option<DateTime>)
    ensures var r := Merge(t, SaveUpdate(text, priority, category, dueDate));
      r.id == t.id && r.completed == t.completed && r.createdAt == t.createdAt &&
      r.text == Trim(text) && r.priority == priority && r.category == category &&
      r.dueDate == dueDate
    ensures IsBlank(text) ==> Merge(t, SaveUpdate(text, priority, category, dueDate)).text == ""
  {
    TrimEmptyIffBlank(text);
  }

  /** Saving buffers that still hold the task's own values changes nothing, provided the
      task's text is already trimmed (as the input form leaves it). */
  lemma SaveUneditedIsNoOp(t: Task)
    requires Trim(t.text) == t.text
    ensures Merge(t, SaveUpdate(t.text, t.priority, t.category, t.dueDate)) == t
  {
  }

  /** The card's state: the task it shows (a prop) and its `useState` cells. */
  class TaskCard {
    var task: Task
    var isEditing: bool
    var editText: string
    var editPriority: Priority
    var editCategory: Category
    var editDueDate: Option<DateTime>

    /** The four buffers hold the task's current values. */
    predicate BuffersMatchTask()
      reads this
    {
      editText == task.text && editPriority == task.priority &&
      editCategory == task.category && editDueDate == task.dueDate
    }

    /** `draggable={!isEditing}`. */
    predicate Draggable()
      reads this
    {
      !isEditing
    }

    constructor (t: Task)
      ensures task == t && !isEditing && BuffersMatchTask() && Draggable()
    {
      task := t;
      isEditing := false;
      editText := t.text;
      editPriority := t.priority;
      editCategory := t.category;
      editDueDate := t.dueDate;
    }

    /** A new render with another task value; the buffers keep what they hold. */
    method ReceiveTask(t: Task)
      modifies this`task
      ensures task == t
    {
      task := t;
    }

    /** The edit button. */
    method StartEditing()
      modifies this`isEditing
      ensures isEditing && !Draggable()
    {
      isEditing := true;
    }

    method SetEditText(s: string)
      modifies this`editText
      ensures editText == s
    {
      editText := s;
    }

    method SetEditPriority(p: Priority)
      modifies this`editPriority
      ensures editPriority == p
    {
      editPriority := p;
    }

    method SetEditCategory(c: Category)
      modifies this`editCategory
      ensures editCategory == c
    {
      editCategory := c;
    }

    method SetEditDueDate(d: Option<DateTime>)
      modifies this`editDueDate
      ensures editDueDate == d
    {
      editDueDate := d;
    }

    /** `handleSaveEdit`: one `onUpdate(task.id, patch)` call, returned here, then edit mode ends;
        the buffers are left as they are. */
    method HandleSaveEdit() returns (id: Id, updates: TaskUpdate)
      modifies this`isEditing
      ensures id == task.id
      ensures updates == SaveUpdate(editText, editPriority, editCategory, editDueDate)
      ensures !isEditing && Draggable()
    {
      id := task.id;
      updates := SaveUpdate(editText, editPriority, editCategory, editDueDate);
      isEditing := false;
    }

    /** `handleCancelEdit`: the buffers go back to the task's current values and edit mode ends;
        no callback is made. */
    method HandleCancelEdit()
      modifies this`isEditing, this`editText, this`editPriority, this`editCategory, this`editDueDate
      ensures BuffersMatchTask() && !isEditing && Draggable()
    {
      editText := task.text;
      editPriority := task.priority;
      editCategory := task.category;
      editDueDate := task.dueDate;
      isEditing := false;
    }
  }
}
