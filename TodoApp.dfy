// The task list of the to-do application: its operations as functions on the ordered list,
// the properties they keep, and the component that holds the list and the view settings.

module TodoApp {
  import opened TaskModel
  import opened JsText
  import opened Seqs
  import TaskInput
  import TaskItem

  // ---------------------------------------------------------------- identifiers

  /** No two tasks in the list share an id. */
  ghost predicate UniqueIds(tasks: seq<Task>)
  {
    forall i, j :: 0 <= i < j < |tasks| ==> tasks[i].id != tasks[j].id
  }

  ghost predicate HasId(tasks: seq<Task>, id: Id)
  {
    exists i :: 0 <= i < |tasks| && tasks[i].id == id
  }

  /** `tasks.findIndex(t => t.id === id)`: the first index holding `id`, or -1 when there is none. */
  function FindIndex(tasks: seq<Task>, id: Id): (r: int)
    ensures -1 <= r < |tasks|
    ensures r == -1 <==> !HasId(tasks, id)
    ensures 0 <= r ==> tasks[r].id == id && forall j :: 0 <= j < r ==> tasks[j].id != id
  {
    if tasks == [] then -1
    else if tasks[0].id == id then 0
    else
      var k := FindIndex(tasks[1..], id);
      assert forall i :: 1 <= i < |tasks| ==> tasks[i] == tasks[1..][i - 1];
      if k == -1 then -1 else k + 1
  }

  /** In a list with unique ids, the index holding `id` is the one `FindIndex` returns. */
  lemma FindIndexUnique(tasks: seq<Task>, id: Id, k: nat)
    requires UniqueIds(tasks) && k < |tasks| && tasks[k].id == id
    ensures FindIndex(tasks, id) == k
  {
    assert HasId(tasks, id);
  }

  /** `tasks.find(t => t.id === id)`. */
  function Find(tasks: seq<Task>, id: Id): (r: Option<Task>)
    ensures r.None? <==> !HasId(tasks, id)
    ensures r.Some? ==> r.value in tasks && r.value.id == id
    ensures r.Some? ==> r.value == tasks[FindIndex(tasks, id)]
  {
    var k := FindIndex(tasks, id);
    if k == -1 then None else Some(tasks[k])
  }

  // ---------------------------------------------------------------- add

  /** `[newTask, ...prev]`: the new task goes in front. */
  function Added(tasks: seq<Task>, draft: TaskDraft, id: Id, createdAt: DateTime): seq<Task>
  {
    [FromDraft(draft, id, createdAt)] + tasks
  }

  /** Adding grows the list by one; the head carries the draft's fields with the given id and
      creation time; the rest is the old list, untouched. A fresh id keeps ids unique. */
  lemma AddedShape(tasks: seq<Task>, draft: TaskDraft, id: Id, createdAt: DateTime)
    ensures |Added(tasks, draft, id, createdAt)| == |tasks| + 1
    ensures Added(tasks, draft, id, createdAt)[0] ==
      Task(id, draft.text, draft.completed, draft.priority, draft.category, draft.dueDate, createdAt)
    ensures Added(tasks, draft, id, createdAt)[1..] == tasks
    ensures UniqueIds(tasks) && !HasId(tasks, id) ==> UniqueIds(Added(tasks, draft, id, createdAt))
  {
    var r := Added(tasks, draft, id, createdAt);
    if UniqueIds(tasks) && !HasId(tasks, id) {
      forall i, j | 0 <= i < j < |r| ensures r[i].id != r[j].id {
        if i > 0 {
          assert r[i] == tasks[i - 1] && r[j] == tasks[j - 1];
        } else {
          assert r[j] == tasks[j - 1];
        }
      }
    }
  }

  // ---------------------------------------------------------------- update

  /** `prev.map(task => task.id === id ? { ...task, ...updates } : task)`. */
  function Updated(tasks: seq<Task>, id: Id, updates: TaskUpdate): (r: seq<Task>)
    ensures |r| == |tasks|
    ensures forall i :: 0 <= i < |tasks| && tasks[i].id != id ==> r[i] == tasks[i]
  {
    seq(|tasks|, i requires 0 <= i < |tasks| =>
      if tasks[i].id == id then Merge(tasks[i], updates) else tasks[i])
  }

  /** Updating keeps the length and the positions; a task with another id is untouched; in a
      matching task every field the patch leaves out keeps its value and every field it holds
      takes the patch's value (`id` and `createdAt` included: the spread does not shield them). */
  lemma UpdatedFields(tasks: seq<Task>, id: Id, updates: TaskUpdate, i: nat)
    requires i < |tasks|
    ensures |Updated(tasks, id, updates)| == |tasks|
    ensures tasks[i].id != id ==> Updated(tasks, id, updates)[i] == tasks[i]
    ensures tasks[i].id == id ==>
      var t, r := tasks[i], Updated(tasks, id, updates)[i];
      r.id == Pick(updates.id, t.id) &&
      r.text == Pick(updates.text, t.text) &&
      r.completed == Pick(updates.completed, t.completed) &&
      r.priority == Pick(updates.priority, t.priority) &&
      r.category == Pick(updates.category, t.category) &&
      r.dueDate == Pick(updates.dueDate, t.dueDate) &&
      r.createdAt == Pick(updates.createdAt, t.createdAt)
  {
  }

  /** With unique ids, updating the id of the task at `k` rewrites that task alone. */
  lemma UpdatedAt(tasks: seq<Task>, k: nat, updates: TaskUpdate)
    requires UniqueIds(tasks) && k < |tasks|
    ensures var r := Updated(tasks, tasks[k].id, updates);
      |r| == |tasks| && r[k] == Merge(tasks[k], updates) &&
      forall i :: 0 <= i < |tasks| && i != k ==> r[i] == tasks[i]
  {
    var r := Updated(tasks, tasks[k].id, updates);
    forall i | 0 <= i < |tasks| && i != k ensures r[i] == tasks[i] {
      assert tasks[i].id != tasks[k].id;
    }
  }

  /** An id that is not in the list matches nothing: the list is unchanged. */
  lemma UpdatedMissing(tasks: seq<Task>, id: Id, updates: TaskUpdate)
    requires !HasId(tasks, id)
    ensures Updated(tasks, id, updates) == tasks
  {
  }

  /** Applying the same patch twice is applying it once. */
  lemma UpdatedIdempotent(tasks: seq<Task>, id: Id, updates: TaskUpdate)
    ensures Updated(Updated(tasks, id, updates), id, updates) == Updated(tasks, id, updates)
  {
    var once := Updated(tasks, id, updates);
    forall i | 0 <= i < |tasks|
      ensures Updated(once, id, updates)[i] == once[i]
    {
      MergeIdempotent(tasks[i], updates);
    }
  }

  /** A patch without an `id` field keeps the ids unique. */
  lemma UpdatedKeepsIds(tasks: seq<Task>, id: Id, updates: TaskUpdate)
    requires updates.id.None?
    ensures forall i :: 0 <= i < |tasks| ==> Updated(tasks, id, updates)[i].id == tasks[i].id
    ensures UniqueIds(tasks) ==> UniqueIds(Updated(tasks, id, updates))
  {
  }

  // ---------------------------------------------------------------- delete and clear

  /** `prev.filter(task => task.id !== id)`. */
  function Deleted(tasks: seq<Task>, id: Id): (r: seq<Task>)
    ensures |r| <= |tasks|
    ensures forall i :: 0 <= i < |r| ==> r[i].id != id
  {
    Filter(tasks, (t: Task) => t.id != id)
  }

  /** Deleting drops every task with the id, keeps every other task, and keeps the survivors
      in their original relative order. */
  lemma DeletedSpec(tasks: seq<Task>, id: Id)
    ensures !HasId(Deleted(tasks, id), id)
    ensures forall i :: 0 <= i < |tasks| && tasks[i].id != id ==> tasks[i] in Deleted(tasks, id)
    ensures forall t :: t in Deleted(tasks, id) ==> t in tasks
    ensures IsSubsequence(Deleted(tasks, id), tasks)
  {
    FilterIsSubsequence(tasks, (t: Task) => t.id != id);
    FilterMembers(tasks, (t: Task) => t.id != id);
  }

  /** Deleting the same id twice is deleting it once. */
  lemma DeletedIdempotent(tasks: seq<Task>, id: Id)
    ensures Deleted(Deleted(tasks, id), id) == Deleted(tasks, id)
  {
    FilterIdempotent(tasks, (t: Task) => t.id != id);
  }

  /** With unique ids, deleting a present id removes exactly its one task, and deleting an
      absent id changes nothing. */
  lemma DeletedExactlyOne(tasks: seq<Task>, id: Id)
    requires UniqueIds(tasks)
    ensures HasId(tasks, id) ==> Deleted(tasks, id) == RemoveAt(tasks, FindIndex(tasks, id))
    ensures HasId(tasks, id) ==> |Deleted(tasks, id)| == |tasks| - 1
    ensures !HasId(tasks, id) ==> Deleted(tasks, id) == tasks
  {
    var p := (t: Task) => t.id != id;
    if HasId(tasks, id) {
      var k := FindIndex(tasks, id);
      FilterDropsOne(tasks, p, k);
    } else {
      FilterKeepsAll(tasks, p);
    }
  }

  /** A filtered list keeps the ids unique. */
  lemma {:induction false} FilterKeepsUniqueIds(tasks: seq<Task>, p: Task -> bool)
    requires UniqueIds(tasks)
    ensures UniqueIds(Filter(tasks, p))
  {
    if tasks != [] {
      var rest := tasks[1..];
      assert UniqueIds(rest) by {
        forall i, j | 0 <= i < j < |rest| ensures rest[i].id != rest[j].id {
          assert rest[i] == tasks[i + 1] && rest[j] == tasks[j + 1];
        }
      }
      FilterKeepsUniqueIds(rest, p);
      FilterMembers(rest, p);
      var fr := Filter(rest, p);
      if p(tasks[0]) {
        var r := [tasks[0]] + fr;
        forall i, j | 0 <= i < j < |r| ensures r[i].id != r[j].id {
          if i == 0 {
            assert r[j] == fr[j - 1];
            assert fr[j - 1] in rest;
            var m :| 0 <= m < |rest| && rest[m] == fr[j - 1];
            assert tasks[m + 1] == rest[m];
          } else {
            assert r[i] == fr[i - 1] && r[j] == fr[j - 1];
          }
        }
      }
    }
  }

  /** Adding a task with a fresh id and then deleting that id gives back the original list. */
  lemma DeleteUndoesAdd(tasks: seq<Task>, draft: TaskDraft, id: Id, createdAt: DateTime)
    requires !HasId(tasks, id)
    ensures Deleted(Added(tasks, draft, id, createdAt), id) == tasks
  {
    var p := (t: Task) => t.id != id;
    FilterKeepsAll(tasks, p);
    assert Added(tasks, draft, id, createdAt)[1..] == tasks;
  }

  // ---------------------------------------------------------------- toggle

  /** `updateTask(id, { completed: !tasks.find(t => t.id === id)?.completed })`: the patch
      negates the first matching task's flag, and is `true` when no task matches
      (`!undefined`). */
  function ToggleUpdate(tasks: seq<Task>, id: Id): (u: TaskUpdate)
    ensures u == NoUpdate.(completed := u.completed) && u.completed.Some?
    ensures !HasId(tasks, id) ==> u.completed == Some(true)
  {
    var flag := match Find(tasks, id)
      case None => true
      case Some(t) => !t.completed;
    NoUpdate.(completed := Some(flag))
  }

  /** `toggleTask`: the toggle patch applied through `updateTask`. */
  function Toggled(tasks: seq<Task>, id: Id): (r: seq<Task>)
    ensures |r| == |tasks|
    ensures forall i :: 0 <= i < |tasks| ==>
      r[i].id == tasks[i].id && (tasks[i].id != id ==> r[i] == tasks[i])
  {
    Updated(tasks, id, ToggleUpdate(tasks, id))
  }

  /** Toggling an id that is not in the list changes nothing. */
  lemma ToggledMissing(tasks: seq<Task>, id: Id)
    requires !HasId(tasks, id)
    ensures Toggled(tasks, id) == tasks
  {
  }

  /** With unique ids, toggling flips `completed` of the matching task and of nothing else. */
  lemma ToggledFlips(tasks: seq<Task>, id: Id)
    requires UniqueIds(tasks)
    ensures |Toggled(tasks, id)| == |tasks|
    ensures forall i :: 0 <= i < |tasks| ==>
      Toggled(tasks, id)[i] ==
        if tasks[i].id == id then tasks[i].(completed := !tasks[i].completed) else tasks[i]
  {
    var r := Toggled(tasks, id);
    forall i | 0 <= i < |tasks| && tasks[i].id == id
      ensures r[i] == tasks[i].(completed := !tasks[i].completed)
    {
      FindIndexUnique(tasks, id, i);
    }
  }

  /** Toggling twice restores the list (ids unique). */
  lemma ToggleInvolution(tasks: seq<Task>, id: Id)
    requires UniqueIds(tasks)
    ensures Toggled(Toggled(tasks, id), id) == tasks
  {
    ToggledFlips(tasks, id);
    var once := Toggled(tasks, id);
    UpdatedKeepsIds(tasks, id, ToggleUpdate(tasks, id));
    ToggledFlips(once, id);
  }

  // ---------------------------------------------------------------- reorder

  /** The two `splice` calls of a drop: take the task out at `from`, then insert it at `to`
      in the shortened copy. */
  function Moved(tasks: seq<Task>, from: nat, to: nat): (r: seq<Task>)
    requires from < |tasks| && to < |tasks|
    ensures |r| == |tasks| && r[to] == tasks[from]
  {
    InsertAt(RemoveAt(tasks, from), to, tasks[from])
  }

  /** A move keeps the length and the elements, puts the moved task at index `to`, and keeps
      all other tasks in their relative order. */
  lemma MovedSpec(tasks: seq<Task>, from: nat, to: nat)
    requires from < |tasks| && to < |tasks|
    ensures |Moved(tasks, from, to)| == |tasks|
    ensures multiset(Moved(tasks, from, to)) == multiset(tasks)
    ensures Moved(tasks, from, to)[to] == tasks[from]
    ensures RemoveAt(Moved(tasks, from, to), to) == RemoveAt(tasks, from)
  {
    RemoveInsertPermutes(tasks, from, to);
    RemoveInsertInverse(RemoveAt(tasks, from), to, tasks[from]);
  }

  /** Dragging the task back to where it came from undoes a move. */
  lemma MoveUndo(tasks: seq<Task>, from: nat, to: nat)
    requires from < |tasks| && to < |tasks|
    ensures Moved(Moved(tasks, from, to), to, from) == tasks
  {
    MovedSpec(tasks, from, to);
    InsertRemoveInverse(tasks, from);
  }

  /** Taking a task out of a list with unique ids keeps them unique, and no remaining task has
      the removed task's id. */
  lemma RemovedKeepsUniqueIds(tasks: seq<Task>, from: nat)
    requires from < |tasks| && UniqueIds(tasks)
    ensures UniqueIds(RemoveAt(tasks, from)) && !HasId(RemoveAt(tasks, from), tasks[from].id)
  {
    var q := RemoveAt(tasks, from);
    forall i, j | 0 <= i < j < |q| ensures q[i].id != q[j].id {
      var si, sj := if i < from then i else i + 1, if j < from then j else j + 1;
      assert q[i] == tasks[si] && q[j] == tasks[sj];
    }
    forall i | 0 <= i < |q| ensures q[i].id != tasks[from].id {
      var si := if i < from then i else i + 1;
      assert q[i] == tasks[si];
    }
  }

  /** Inserting a task whose id is absent keeps the ids unique. */
  lemma InsertedKeepsUniqueIds(q: seq<Task>, to: nat, x: Task)
    requires to <= |q| && UniqueIds(q) && !HasId(q, x.id)
    ensures UniqueIds(InsertAt(q, to, x))
  {
    var r := InsertAt(q, to, x);
    forall i, j | 0 <= i < j < |r| ensures r[i].id != r[j].id {
      if i == to {
        assert r[j] == q[j - 1];
      } else if j == to {
        assert r[i] == q[i];
      } else {
        var si, sj := if i < to then i else i - 1, if j < to then j else j - 1;
        assert r[i] == q[si] && r[j] == q[sj];
      }
    }
  }

  /** A move keeps the ids unique. */
  lemma MovedKeepsUniqueIds(tasks: seq<Task>, from: nat, to: nat)
    requires from < |tasks| && to < |tasks| && UniqueIds(tasks)
    ensures UniqueIds(Moved(tasks, from, to))
  {
    RemovedKeepsUniqueIds(tasks, from);
    InsertedKeepsUniqueIds(RemoveAt(tasks, from), to, tasks[from]);
  }

  /** `handleDrop`: nothing happens unless a drag is in progress (`!draggedTask` is also true
      for the empty id), the dragged and target ids differ, and both are in the list;
      otherwise the dragged task moves to the target's index. */
  function DropResult(tasks: seq<Task>, dragged: Option<Id>, targetId: Id): (r: seq<Task>)
    ensures |r| == |tasks|
  {
    if dragged.None? || dragged.value == "" || dragged.value == targetId then tasks
    else
      var draggedIndex := FindIndex(tasks, dragged.value);
      var targetIndex := FindIndex(tasks, targetId);
      if draggedIndex == -1 || targetIndex == -1 then tasks
      else Moved(tasks, draggedIndex, targetIndex)
  }

  /** The cases in which a drop leaves the list unchanged. */
  lemma DropNoOp(tasks: seq<Task>, dragged: Option<Id>, targetId: Id)
    requires dragged.None? || dragged.value == "" || dragged.value == targetId ||
      !HasId(tasks, dragged.value) || !HasId(tasks, targetId)
    ensures DropResult(tasks, dragged, targetId) == tasks
  {
  }

  /** A real drop is a permutation of the same length: the dragged task ends at the target's
      former index, and every other task keeps its relative order. */
  lemma DropMoves(tasks: seq<Task>, draggedId: Id, targetId: Id)
    requires draggedId != "" && draggedId != targetId
    requires HasId(tasks, draggedId) && HasId(tasks, targetId)
    ensures var r, di, ti := DropResult(tasks, Some(draggedId), targetId),
      FindIndex(tasks, draggedId), FindIndex(tasks, targetId);
      |r| == |tasks| && multiset(r) == multiset(tasks) &&
      r[ti] == tasks[di] && r[ti].id == draggedId &&
      RemoveAt(r, ti) == RemoveAt(tasks, di)
  {
    MovedSpec(tasks, FindIndex(tasks, draggedId), FindIndex(tasks, targetId));
  }

  /** A drop, real or not, keeps the same tasks. */
  lemma DropPermutes(tasks: seq<Task>, dragged: Option<Id>, targetId: Id)
    ensures multiset(DropResult(tasks, dragged, targetId)) == multiset(tasks)
  {
    if !(dragged.None? || dragged.value == "" || dragged.value == targetId) {
      var di := FindIndex(tasks, dragged.value);
      var ti := FindIndex(tasks, targetId);
      if di != -1 && ti != -1 {
        RemoveInsertPermutes(tasks, di, ti);
      }
    }
  }

  /** A drop keeps the ids unique. */
  lemma DropKeepsUniqueIds(tasks: seq<Task>, dragged: Option<Id>, targetId: Id)
    requires UniqueIds(tasks)
    ensures UniqueIds(DropResult(tasks, dragged, targetId))
  {
    if !(dragged.None? || dragged.value == "" || dragged.value == targetId) {
      var di := FindIndex(tasks, dragged.value);
      var ti := FindIndex(tasks, targetId);
      if di != -1 && ti != -1 {
        MovedKeepsUniqueIds(tasks, di, ti);
      }
    }
  }

  // ---------------------------------------------------------------- filtered view

  predicate MatchesStatus(filter: StatusFilter, t: Task)
  {
    filter == AnyStatus || (filter == CompletedOnly && t.completed) ||
    (filter == PendingOnly && !t.completed)
  }

  predicate MatchesCategory(filter: CategoryFilter, t: Task)
  {
    filter == AnyCategory || t.category == filter.category
  }

  predicate MatchesPriority(filter: PriorityFilter, t: Task)
  {
    filter == AnyPriority || t.priority == filter.priority
  }

  /** `searchQuery === "" || task.text.toLowerCase().includes(searchQuery.toLowerCase())`. */
  predicate MatchesSearch(query: string, t: Task)
  {
    query == "" || Includes(Lower(t.text), Lower(query))
  }

  predicate Matches(status: StatusFilter, category: CategoryFilter, priority: PriorityFilter,
                    query: string, t: Task)
  {
    MatchesStatus(status, t) && MatchesCategory(category, t) &&
    MatchesPriority(priority, t) && MatchesSearch(query, t)
  }

  /** `filteredTasks`: the tasks passing all four tests, in list order. */
  function FilteredTasks(tasks: seq<Task>, status: StatusFilter, category: CategoryFilter,
                         priority: PriorityFilter, query: string): (r: seq<Task>)
    ensures |r| <= |tasks|
    ensures forall i :: 0 <= i < |r| ==> Matches(status, category, priority, query, r[i])
  {
    Filter(tasks, (t: Task) => Matches(status, category, priority, query, t))
  }

  /** The view is a subsequence of the list; each of its tasks has the selected status,
      category and priority and contains the query, ignoring ASCII case; and every task of the
      list that passes all four is in the view. */
  lemma FilteredView(tasks: seq<Task>, status: StatusFilter, category: CategoryFilter,
                     priority: PriorityFilter, query: string)
    ensures IsSubsequence(FilteredTasks(tasks, status, category, priority, query), tasks)
    ensures forall t :: t in FilteredTasks(tasks, status, category, priority, query) ==>
      (status == CompletedOnly ==> t.completed) &&
      (status == PendingOnly ==> !t.completed) &&
      (category.OfCategory? ==> t.category == category.category) &&
      (priority.OfPriority? ==> t.priority == priority.priority) &&
      (query != "" ==> exists k :: OccursAt(Lower(t.text), Lower(query), k))
    ensures forall i :: 0 <= i < |tasks| && Matches(status, category, priority, query, tasks[i]) ==>
      tasks[i] in FilteredTasks(tasks, status, category, priority, query)
  {
    var p := (t: Task) => Matches(status, category, priority, query, t);
    FilterIsSubsequence(tasks, p);
    FilterMembers(tasks, p);
    var r := FilteredTasks(tasks, status, category, priority, query);
    forall t | t in r
      ensures (status == CompletedOnly ==> t.completed) &&
        (status == PendingOnly ==> !t.completed) &&
        (category.OfCategory? ==> t.category == category.category) &&
        (priority.OfPriority? ==> t.priority == priority.priority) &&
        (query != "" ==> exists k :: OccursAt(Lower(t.text), Lower(query), k))
    {
      var i :| 0 <= i < |r| && r[i] == t;
      assert p(r[i]);
      assert Matches(status, category, priority, query, t);
    }
  }

  /** With every filter at "all" and an empty search, the view is the whole list in order. */
  lemma FilteredAllIsIdentity(tasks: seq<Task>)
    ensures FilteredTasks(tasks, AnyStatus, AnyCategory, AnyPriority, "") == tasks
  {
    FilterKeepsAll(tasks, (t: Task) => Matches(AnyStatus, AnyCategory, AnyPriority, "", t));
  }

  /** The search folds case on both sides: "MEET" finds "Team meeting". */
  lemma SearchIgnoresCase(t: Task)
    requires t.text == "Team meeting"
    ensures MatchesSearch("MEET", t)
  {
    assert OccursAt(Lower(t.text), Lower("MEET"), 5) by {
      assert Lower(t.text)[5..9] == "meet";
      assert Lower("MEET") == "meet";
    }
  }

  // ---------------------------------------------------------------- progress

  /** `tasks.filter(task => task.completed).length`. */
  function CompletedCount(tasks: seq<Task>): (n: nat)
    ensures n <= |tasks|
  {
    |Filter(tasks, (t: Task) => t.completed)|
  }

  /** `totalTasks > 0 ? (completedTasks / totalTasks) * 100 : 0`, in exact arithmetic. */
  function Progress(tasks: seq<Task>): real
  {
    if |tasks| > 0 then (CompletedCount(tasks) as real / |tasks| as real) * 100.0 else 0.0
  }

  /** No more tasks are done than exist; progress is 0 for an empty list and lies in [0, 100]. */
  lemma ProgressBounds(tasks: seq<Task>)
    ensures CompletedCount(tasks) <= |tasks|
    ensures tasks == [] ==> Progress(tasks) == 0.0
    ensures 0.0 <= Progress(tasks) <= 100.0
  {
    if tasks != [] {
      RatioAtMostOne(CompletedCount(tasks) as real, |tasks| as real);
    }
  }

  /** Progress of a non-empty list is 100 exactly when every task is done. */
  lemma ProgressFullIffAllDone(tasks: seq<Task>)
    requires tasks != []
    ensures Progress(tasks) == 100.0 <==> forall i :: 0 <= i < |tasks| ==> tasks[i].completed
  {
    var p := (t: Task) => t.completed;
    var c, n := CompletedCount(tasks) as real, |tasks| as real;
    RatioIsOne(c, n);
    if forall i :: 0 <= i < |tasks| ==> tasks[i].completed {
      FilterKeepsAll(tasks, p);
    }
    if c == n {
      CountAllMeansAll(tasks, p);
    }
  }

  lemma RatioAtMostOne(a: real, b: real)
    requires 0.0 <= a <= b && 0.0 < b
    ensures 0.0 <= a / b <= 1.0
  {
    var q := a / b;
    assert q * b == a;
    assert (1.0 - q) * b == b - a;
  }

  lemma RatioIsOne(a: real, b: real)
    requires 0.0 < b
    ensures (a / b) * 100.0 == 100.0 <==> a == b
  {
    var q := a / b;
    assert q * b == a;
  }

  /** When as many elements pass as there are, every element passes. */
  lemma {:induction false} CountAllMeansAll(tasks: seq<Task>, p: Task -> bool)
    requires |Filter(tasks, p)| == |tasks|
    ensures forall i :: 0 <= i < |tasks| ==> p(tasks[i])
  {
    if tasks != [] {
      if !p(tasks[0]) {
        assert |Filter(tasks[1..], p)| <= |tasks| - 1;
      } else {
        CountAllMeansAll(tasks[1..], p);
        assert forall i :: 1 <= i < |tasks| ==> tasks[i] == tasks[1..][i - 1];
      }
    }
  }

  // ---------------------------------------------------------------- wiring to the form and the card

  /** A task created from a submitted form (`onAddTask={addTask}`) heads the list and has
      non-empty text with no white space at either end. */
  lemma SubmittedTaskHasText(tasks: seq<Task>, text: string, priority: Priority,
                             category: Category, dueDate: Option<DateTime>, dueTime: string,
                             id: Id, createdAt: DateTime)
    requires TaskInput.SubmitDraft(text, priority, category, dueDate, dueTime).Some?
    ensures var d := TaskInput.SubmitDraft(text, priority, category, dueDate, dueTime).value;
      var r := Added(tasks, d, id, createdAt)[0];
      r.text != [] && !IsWhiteSpace(r.text[0]) && !IsWhiteSpace(r.text[|r.text| - 1]) &&
      !r.completed && r.id == id && r.createdAt == createdAt
  {
    TaskInput.SubmitDraftSpec(text, priority, category, dueDate, dueTime);
  }

  /** A card's save (`onUpdate={updateTask}`) on a list with unique ids rewrites the card's own
      task with the buffers, leaves every other task alone, and keeps the ids unique. */
  lemma SaveEditInList(tasks: seq<Task>, k: nat, text: string, priority: Priority,
                       category: Category, dueDate: Option<DateTime>)
    requires UniqueIds(tasks) && k < |tasks|
    ensures var r := Updated(tasks, tasks[k].id, TaskItem.SaveUpdate(text, priority, category, dueDate));
      |r| == |tasks| && UniqueIds(r) &&
      r[k] == tasks[k].(text := Trim(text), priority := priority, category := category,
                        dueDate := dueDate) &&
      (forall i :: 0 <= i < |tasks| && i != k ==> r[i] == tasks[i])
  {
    var u := TaskItem.SaveUpdate(text, priority, category, dueDate);
    UpdatedAt(tasks, k, u);
    UpdatedKeepsIds(tasks, tasks[k].id, u);
    assert Merge(tasks[k], u) == tasks[k].(text := Trim(text), priority := priority,
                                           category := category, dueDate := dueDate);
  }

  /** Toggling the second of two tasks with different ids flips that task alone. */
  lemma ToggledSecond(x: Task, y: Task)
    requires x.id != y.id
    ensures Toggled([x, y], y.id) == [x, y.(completed := !y.completed)]
  {
    assert UniqueIds([x, y]);
    ToggledFlips([x, y], y.id);
  }

  /** The walk-through: add "Buy milk" (low, personal), then "Finish report" (high, work, with a
      due date), which goes in front; complete "Buy milk"; the "completed" view shows just that
      task, and one of two tasks is done, which is 50%. */
  lemma TwoTaskScenario(a: Id, b: Id, c1: DateTime, c2: DateTime, due: DateTime)
    requires a != b
    ensures
      var milk := TaskDraft("Buy milk", false, Low, Personal, None);
      var report := TaskDraft("Finish report", false, High, Work, Some(due));
      var s2 := Added(Added([], milk, a, c1), report, b, c2);
      var s3 := Toggled(s2, a);
      s2 == [FromDraft(report, b, c2), FromDraft(milk, a, c1)] &&
      FilteredTasks(s3, CompletedOnly, AnyCategory, AnyPriority, "") ==
        [FromDraft(milk, a, c1).(completed := true)] &&
      CompletedCount(s3) == 1 && Progress(s3) == 50.0
  {
    var milk := TaskDraft("Buy milk", false, Low, Personal, None);
    var report := TaskDraft("Finish report", false, High, Work, Some(due));
    var tm, tr := FromDraft(milk, a, c1), FromDraft(report, b, c2);
    assert Added(Added([], milk, a, c1), report, b, c2) == [tr, tm];
    ToggledSecond(tr, tm);
    var done := tm.(completed := true);
    FilterPair(tr, done, (t: Task) => Matches(CompletedOnly, AnyCategory, AnyPriority, "", t));
    FilterPair(tr, done, (t: Task) => t.completed);
  }

  // ---------------------------------------------------------------- the component

  /** The state of the `TodoApp` component: the list, the four filter settings and the id of the
      task being dragged. */
  class TodoApp {
    var tasks: seq<Task>
    var filter: StatusFilter
    var categoryFilter: CategoryFilter
    var priorityFilter: PriorityFilter
    var searchQuery: string
    var draggedTask: Option<Id>

    /** The list's invariant: ids are unique. */
    ghost predicate Valid()
      reads this
    {
      UniqueIds(tasks)
    }

    /** The initial state of every `useState` cell. */
    constructor ()
      ensures tasks == [] && draggedTask == None
      ensures filter == AnyStatus && categoryFilter == AnyCategory
      ensures priorityFilter == AnyPriority && searchQuery == ""
      ensures Valid()
    {
      tasks := [];
      filter := AnyStatus;
      categoryFilter := AnyCategory;
      priorityFilter := AnyPriority;
      searchQuery := "";
      draggedTask := None;
    }

    /** `addTask`; `id` and `createdAt` stand for `crypto.randomUUID()` and `new Date()`, and the id
        is fresh. */
    method AddTask(draft: TaskDraft, id: Id, createdAt: DateTime)
      requires !HasId(tasks, id)
      modifies this`tasks
      ensures tasks == Added(old(tasks), draft, id, createdAt)
      ensures |tasks| == |old(tasks)| + 1 && tasks[0].id == id && tasks[1..] == old(tasks)
      ensures old(Valid()) ==> Valid()
    {
      AddedShape(tasks, draft, id, createdAt);
      tasks := [FromDraft(draft, id, createdAt)] + tasks;
    }

    method UpdateTask(id: Id, updates: TaskUpdate)
      modifies this`tasks
      ensures tasks == Updated(old(tasks), id, updates)
      ensures old(Valid()) && updates.id.None? ==> Valid()
    {
      if updates.id.None? {
        UpdatedKeepsIds(tasks, id, updates);
      }
      tasks := Updated(tasks, id, updates);
    }

    method DeleteTask(id: Id)
      modifies this`tasks
      ensures tasks == Deleted(old(tasks), id)
      ensures !HasId(tasks, id)
      ensures old(Valid()) ==> Valid()
    {
      DeletedSpec(tasks, id);
      if Valid() {
        FilterKeepsUniqueIds(tasks, (t: Task) => t.id != id);
      }
      tasks := Deleted(tasks, id);
    }

    method ClearAllTasks()
      modifies this`tasks
      ensures tasks == [] && Valid()
      ensures Progress(tasks) == 0.0
    {
      tasks := [];
    }

    /** `toggleTask`: reads the current flag with `find`, then patches through `updateTask`. */
    method ToggleTask(id: Id)
      modifies this`tasks
      ensures tasks == Toggled(old(tasks), id)
      ensures old(Valid()) ==> Valid()
      ensures old(Valid()) ==> forall i :: 0 <= i < |tasks| ==>
        tasks[i] == if old(tasks)[i].id == id
          then old(tasks)[i].(completed := !old(tasks)[i].completed) else old(tasks)[i]
    {
      if Valid() {
        ToggledFlips(tasks, id);
      }
      var found := Find(tasks, id);
      var flag := if found.None? then true else !found.value.completed;
      UpdateTask(id, NoUpdate.(completed := Some(flag)));
    }

    method HandleDragStart(id: Id)
      modifies this`draggedTask
      ensures draggedTask == Some(id)
    {
      draggedTask := Some(id);
    }

    method HandleDragEnd()
      modifies this`draggedTask
      ensures draggedTask == None
    {
      draggedTask := None;
    }

    /** `handleDrop`: copies the list, takes the dragged task out with one `splice` and puts it
        back at the target's index with a second. */
    method HandleDrop(targetId: Id)
      modifies this`tasks
      ensures tasks == DropResult(old(tasks), draggedTask, targetId)
      ensures multiset(tasks) == multiset(old(tasks))
      ensures old(Valid()) ==> Valid()
    {
      if Valid() {
        DropKeepsUniqueIds(tasks, draggedTask, targetId);
      }
      DropPermutes(tasks, draggedTask, targetId);
      if draggedTask.None? || draggedTask.value == "" || draggedTask.value == targetId {
        return;
      }
      var draggedIndex := FindIndex(tasks, draggedTask.value);
      var targetIndex := FindIndex(tasks, targetId);
      if draggedIndex == -1 || targetIndex == -1 {
        return;
      }
      var newTasks := tasks;
      var draggedItem := newTasks[draggedIndex];
      newTasks := RemoveAt(newTasks, draggedIndex);
      newTasks := InsertAt(newTasks, targetIndex, draggedItem);
      tasks := newTasks;
    }

    method SetFilter(f: StatusFilter)
      modifies this`filter
      ensures filter == f
    {
      filter := f;
    }

    method SetCategoryFilter(f: CategoryFilter)
      modifies this`categoryFilter
      ensures categoryFilter == f
    {
      categoryFilter := f;
    }

    method SetPriorityFilter(f: PriorityFilter)
      modifies this`priorityFilter
      ensures priorityFilter == f
    {
      priorityFilter := f;
    }

    method SetSearchQuery(q: string)
      modifies this`searchQuery
      ensures searchQuery == q
    {
      searchQuery := q;
    }

    /** The list as the current filter settings show it. */
    function Visible(): (r: seq<Task>)
      reads this
      ensures |r| <= |tasks|
      ensures forall i :: 0 <= i < |r| ==>
        Matches(filter, categoryFilter, priorityFilter, searchQuery, r[i])
    {
      FilteredTasks(tasks, filter, categoryFilter, priorityFilter, searchQuery)
    }

    /** `totalTasks`, `completedTasks` and `progress`. */
    function TotalTasks(): nat
      reads this
    {
      |tasks|
    }

    function CompletedTasks(): (n: nat)
      reads this
      ensures n <= TotalTasks()
    {
      CompletedCount(tasks)
    }

    function ProgressPercent(): (r: real)
      reads this
      ensures 0.0 <= r <= 100.0
    {
      ProgressBounds(tasks);
      Progress(tasks)
    }
  }
}
