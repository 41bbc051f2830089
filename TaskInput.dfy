// The form that creates tasks: it validates the text, builds the draft, merges the chosen time
// of day into the chosen date, hands the draft on and resets itself.

module TaskInput {
  import opened TaskModel
  import opened JsText

  /** A time of day as read from the time field. */
  datatype Clock = Clock(hours: nat, minutes: nat)

  /** `const [hours, minutes] = dueTime.split(':').map(Number)`: the fields before the first and
      the second colon, each read as a decimal number (an empty field reads as 0). A string
      without a colon or with a non-digit in either field gives no clock reading. */
  function ParseTime(s: string): Option<Clock>
  {
    var h := FieldBeforeColon(s);
    if |h| == |s| then None
    else
      var m := FieldBeforeColon(s[|h| + 1..]);
      if AllDigits(h) && AllDigits(m) then Some(Clock(DigitsValue(h), DigitsValue(m))) else None
  }

  /** The value an `<input type="time">` holds for a clock reading: "HH:MM". */
  function FormatTime(c: Clock): (s: string)
    requires c.hours < 24 && c.minutes < 60
    ensures |s| == 5 && s[2] == ':'
  {
    TwoDigits(c.hours) + ":" + TwoDigits(c.minutes)
  }

  /** Reading back what the time field shows gives the clock reading it was made from. */
  lemma ParseFormatRoundTrip(c: Clock)
    requires c.hours < 24 && c.minutes < 60
    ensures ParseTime(FormatTime(c)) == Some(c)
  {
    var s := FormatTime(c);
    var hh, mm := TwoDigits(c.hours), TwoDigits(c.minutes);
    assert s == hh + [':'] + mm;
    assert ':' !in hh && ':' !in mm;
    FieldBeforeColonStops(hh, [':'] + mm);
    assert s[3..] == mm;
    assert FieldBeforeColon(mm) == mm by {
      FieldBeforeColonStops(mm, []);
      assert mm + [] == mm;
    }
  }

  /** The first field of `a + b`, where `a` holds no colon and `b` is empty or starts with one. */
  lemma {:induction false} FieldBeforeColonStops(a: string, b: string)
    requires ':' !in a && (b == [] || b[0] == ':')
    ensures FieldBeforeColon(a + b) == a
  {
    if a != [] {
      assert (a + b)[1..] == a[1..] + b;
      FieldBeforeColonStops(a[1..], b);
      assert [a[0]] + a[1..] == a;
    }
  }

  /** `date.setHours(hours, minutes)` on a copy of `date`: the same day at the given time;
      readings past 23:59 carry into the following days, as JavaScript's `Date` does. */
  function SetHours(d: DateTime, hours: nat, minutes: nat): (r: DateTime)
    ensures ValidTime(r)
    ensures MinutesOf(r) == d.day * 1440 + hours * 60 + minutes
  {
    var total := hours * 60 + minutes;
    var r := DateTime(d.day + total / 1440, (total % 1440) / 60, total % 60);
    assert total % 1440 == (total % 1440) / 60 * 60 + total % 60;
    r
  }

  /** A real clock reading keeps the day and sets exactly that time. */
  lemma SetHoursSameDay(d: DateTime, hours: nat, minutes: nat)
    requires hours < 24 && minutes < 60
    ensures SetHours(d, hours, minutes) == DateTime(d.day, hours, minutes)
  {
    var total := hours * 60 + minutes;
    assert total < 1440;
    assert total / 60 == hours;
  }

  /** The due date the form submits: the chosen date, with the time field applied when both are
      set. */
  function FinalDueDate(dueDate: Option<DateTime>, dueTime: string): Option<DateTime>
  {
    if dueDate.Some? && dueTime != "" then
      match ParseTime(dueTime)
      case Some(c) => Some(SetHours(dueDate.value, c.hours, c.minutes))
      case None => dueDate
    else dueDate
  }

  /** With no time the date passes through unchanged (possibly undefined); with no date the time is
      ignored; with both, the time field's "HH:MM" sets the time on the chosen day. */
  lemma FinalDueDateCases(dueDate: Option<DateTime>, dueTime: string)
    ensures dueTime == "" ==> FinalDueDate(dueDate, dueTime) == dueDate
    ensures dueDate.None? ==> FinalDueDate(dueDate, dueTime) == None
    ensures forall c: Clock ::
      (c.hours < 24 && c.minutes < 60 && dueDate.Some? && dueTime == FormatTime(c)) ==>
      FinalDueDate(dueDate, dueTime) == Some(DateTime(dueDate.value.day, c.hours, c.minutes))
  {
    forall c: Clock | c.hours < 24 && c.minutes < 60 && dueDate.Some? && dueTime == FormatTime(c)
      ensures FinalDueDate(dueDate, dueTime) == Some(DateTime(dueDate.value.day, c.hours, c.minutes))
    {
      ParseFormatRoundTrip(c);
      SetHoursSameDay(dueDate.value, c.hours, c.minutes);
    }
  }

  /** What `handleSubmit` passes to `onAddTask`, or None when it returns early. */
  function SubmitDraft(text: string, priority: Priority, category: Category,
                       dueDate: Option<DateTime>, dueTime: string): Option<TaskDraft>
  {
    if Trim(text) == "" then None
    else Some(TaskDraft(Trim(text), false, priority, category, FinalDueDate(dueDate, dueTime)))
  }

  /** A submit is rejected exactly when the text is white space only; an accepted draft carries
      the trimmed text (non-empty, no white space at either end), is not completed, and has the
      selected priority, category and due date. */
  lemma SubmitDraftSpec(text: string, priority: Priority, category: Category,
                        dueDate: Option<DateTime>, dueTime: string)
    ensures var r := SubmitDraft(text, priority, category, dueDate, dueTime);
      (r.None? <==> IsBlank(text)) &&
      (r.Some? ==>
        r.value.text == Trim(text) && r.value.text != [] &&
        !IsWhiteSpace(r.value.text[0]) && !IsWhiteSpace(r.value.text[|r.value.text| - 1]) &&
        !r.value.completed && r.value.priority == priority && r.value.category == category &&
        r.value.dueDate == FinalDueDate(dueDate, dueTime))
  {
    TrimEmptyIffBlank(text);
    TrimEnds(text);
  }

  /** The five state cells of the `TaskInput` component. */
  class TaskInputForm {
    var text: string
    var priority: Priority
    var category: Category
    var dueDate: Option<DateTime>
    var dueTime: string

    /** The state the form starts in and returns to after a submit. */
    predicate IsReset()
      reads this
    {
      text == "" && priority == Medium && category == Personal && dueDate == None && dueTime == ""
    }

    constructor ()
      ensures IsReset()
    {
      text := "";
      priority := Medium;
      category := Personal;
      dueDate := None;
      dueTime := "";
    }

    method SetText(t: string)
      modifies this`text
      ensures text == t
    {
      text := t;
    }

    method SetPriority(p: Priority)
      modifies this`priority
      ensures priority == p
    {
      priority := p;
    }

    method SetCategory(c: Category)
      modifies this`category
      ensures category == c
    {
      category := c;
    }

    /** Picking a date in the calendar, or clearing it. */
    method SetDueDate(d: Option<DateTime>)
      modifies this`dueDate
      ensures dueDate == d
    {
      dueDate := d;
    }

    /** Typing in the time field, which is disabled while no date is chosen. */
    method SetDueTime(t: string)
      modifies this`dueTime
      ensures dueTime == if dueDate.Some? then t else old(dueTime)
    {
      if dueDate.Some? {
        dueTime := t;
      }
    }

    /** `handleSubmit`; the draft handed to `onAddTask` is returned. */
    method HandleSubmit() returns (submitted: Option<TaskDraft>)
      modifies this
      ensures submitted == SubmitDraft(old(text), old(priority), old(category), old(dueDate), old(dueTime))
      ensures submitted.None? ==> unchanged(this)
      ensures submitted.Some? ==> IsReset()
    {
      if Trim(text) == "" {
        return None;
      }
      var finalDueDate := dueDate;
      if dueDate.Some? && dueTime != "" {
        var parsed := ParseTime(dueTime);
        if parsed.Some? {
          finalDueDate := Some(SetHours(dueDate.value, parsed.value.hours, parsed.value.minutes));
        }
      }
      submitted := Some(TaskDraft(Trim(text), false, priority, category, finalDueDate));
      text := "";
      priority := Medium;
      category := Personal;
      dueDate := None;
      dueTime := "";
    }
  }
}
