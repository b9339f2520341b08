/**
 * The `tasks` table and the queries and updates of
 * src/repository/TaskRepository.php.  The table is a map from task id to row.
 * A deadline is held as the timestamp (in seconds) of its `deadlinedate`.
 */
module TaskRepository {
  import opened Wrappers
  import opened Sorting
  import opened Tables

  /** A row of `tasks`; the four task attributes are nullable columns. */
  datatype TaskRow = TaskRow(
    taskId: int,
    userId: int,
    categoryId: Option<int>,
    deadline: Option<int>,
    description: string,
    fun: Option<int>,
    difficulty: Option<int>,
    importance: Option<int>,
    time: Option<int>,
    isFinished: bool)

  /** `ORDER BY deadlinedate ASC`: earlier deadlines first, rows without a deadline last. */
  predicate DeadlineAsc(a: TaskRow, b: TaskRow) {
    match (a.deadline, b.deadline)
    case (Some(x), Some(y)) => x <= y
    case (_, None) => true
    case (None, Some(_)) => false
  }

  /** `ORDER BY deadlinedate DESC`: later deadlines first, rows without a deadline first of all. */
  predicate DeadlineDesc(a: TaskRow, b: TaskRow) {
    DeadlineAsc(b, a)
  }

  lemma DeadlineOrders()
    ensures TotalPreorder(DeadlineAsc) && TotalPreorder(DeadlineDesc)
  {
  }

  function OwnedBy(userId: int): TaskRow -> bool {
    (t: TaskRow) => t.userId == userId
  }

  function InCategory(categoryId: int): TaskRow -> bool {
    (t: TaskRow) => t.categoryId == Some(categoryId)
  }

  function UnfinishedOf(userId: int): TaskRow -> bool {
    (t: TaskRow) => t.userId == userId && !t.isFinished
  }

  function FinishedOf(userId: int): TaskRow -> bool {
    (t: TaskRow) => t.userId == userId && t.isFinished
  }

  function AnyRow(): TaskRow -> bool {
    (t: TaskRow) => true
  }

  /** PHP's `$rows ?: null`: an empty result becomes null. */
  function NullIfEmpty(rows: seq<TaskRow>): (r: Option<seq<TaskRow>>)
    ensures r.None? <==> rows == []
    ensures r.Some? ==> r.value == rows
  {
    if rows == [] then None else Some(rows)
  }

  /** The table after `UPDATE tasks SET isfinished = b WHERE taskid = id`. */
  function WithFinished(m: map<int, TaskRow>, id: int, b: bool): (r: map<int, TaskRow>)
    ensures r.Keys == m.Keys
    ensures forall k | k in m :: r[k] == if k == id then m[k].(isFinished := b) else m[k]
  {
    if id in m then m[id := m[id].(isFinished := b)] else m
  }

  /** Setting the flag twice is the same as setting it once. */
  lemma WithFinishedIdempotent(m: map<int, TaskRow>, id: int, b: bool)
    ensures WithFinished(WithFinished(m, id, b), id, b) == WithFinished(m, id, b)
  {
  }

  /** The table after the `UPDATE` of `updateTask` on task `id`. */
  function WithEdit(m: map<int, TaskRow>, id: int, categoryId: Option<int>, deadline: Option<int>,
                    description: string, fun: int, difficulty: int, importance: int, time: int)
    : (r: map<int, TaskRow>)
    ensures r.Keys == m.Keys
    ensures forall k | k in m && k != id :: r[k] == m[k]
    ensures id in m ==>
      && r[id].taskId == m[id].taskId && r[id].userId == m[id].userId
      && r[id].isFinished == m[id].isFinished
      && r[id].categoryId == categoryId && r[id].deadline == deadline
      && r[id].description == description
      && r[id].fun == Some(fun) && r[id].difficulty == Some(difficulty)
      && r[id].importance == Some(importance) && r[id].time == Some(time)
  {
    if id in m then
      m[id := m[id].(categoryId := categoryId, deadline := deadline, description := description,
                     fun := Some(fun), difficulty := Some(difficulty),
                     importance := Some(importance), time := Some(time))]
    else m
  }

  /** The table after `DELETE FROM tasks WHERE userid = u AND isfinished = TRUE`. */
  function WithoutFinishedOf(m: map<int, TaskRow>, userId: int): (r: map<int, TaskRow>)
    ensures forall k :: k in r <==> k in m && !(m[k].userId == userId && m[k].isFinished)
    ensures forall k | k in r :: r[k] == m[k]
  {
    map k | k in m && !(m[k].userId == userId && m[k].isFinished) :: m[k]
  }

  class TaskRepository {
    var tasks: map<int, TaskRow>
    /** The next value of the table's serial id. */
    var nextId: int

    /** Every row is stored under its own id, and ids are below the serial counter. */
    ghost predicate Valid()
      reads this
    {
      forall id | id in tasks :: tasks[id].taskId == id && id < nextId
    }

    constructor ()
      ensures Valid() && tasks == map[]
    {
      tasks := map[];
      nextId := 1;
    }

    /** `getTasks`: every row; an empty table gives an empty list, not null. */
    function GetTasks(): (r: seq<TaskRow>)
      reads this
      ensures forall t :: t in r <==> t in tasks.Values
      ensures |r| == |tasks|
    {
      SelectMembersAll(tasks);
      Select(tasks, AnyRow())
    }

    /** `getTasksByUserId`: the user's tasks by ascending deadline, or null when there are none. */
    function GetTasksByUserId(userId: int): (r: Option<seq<TaskRow>>)
      reads this
      ensures r.None? <==> forall id | id in tasks :: tasks[id].userId != userId
      ensures r.Some? ==> SortedBy(r.value, DeadlineAsc)
      ensures r.Some? ==> forall t :: t in r.value <==> t in tasks.Values && t.userId == userId
      ensures r.Some? ==> multiset(r.value) == multiset(Select(tasks, OwnedBy(userId)))
    {
      DeadlineOrders();
      NullIfEmpty(OrderedSelect(tasks, OwnedBy(userId), DeadlineAsc))
    }

    /** `getTask`: the row with that id, or null. */
    function GetTask(taskId: int): (r: Option<TaskRow>)
      reads this
      ensures r.None? <==> taskId !in tasks
      ensures r.Some? ==> r.value == tasks[taskId]
    {
      if taskId in tasks then Some(tasks[taskId]) else None
    }

    /** `getTasksByCategory`: the category's tasks by ascending deadline, or null. */
    function GetTasksByCategory(categoryId: int): (r: Option<seq<TaskRow>>)
      reads this
      ensures r.None? <==> forall id | id in tasks :: tasks[id].categoryId != Some(categoryId)
      ensures r.Some? ==> SortedBy(r.value, DeadlineAsc)
      ensures r.Some? ==> forall t :: t in r.value <==> t in tasks.Values && t.categoryId == Some(categoryId)
      ensures r.Some? ==> multiset(r.value) == multiset(Select(tasks, InCategory(categoryId)))
    {
      DeadlineOrders();
      NullIfEmpty(OrderedSelect(tasks, InCategory(categoryId), DeadlineAsc))
    }

    /** `getUnfinishedTasks`: the user's unfinished tasks by ascending deadline, or null. */
    function GetUnfinishedTasks(userId: int): (r: Option<seq<TaskRow>>)
      reads this
      ensures r.None? <==> forall id | id in tasks :: !(tasks[id].userId == userId && !tasks[id].isFinished)
      ensures r.Some? ==> SortedBy(r.value, DeadlineAsc)
      ensures r.Some? ==> forall t :: t in r.value <==> t in tasks.Values && t.userId == userId && !t.isFinished
      ensures r.Some? ==> multiset(r.value) == multiset(Select(tasks, UnfinishedOf(userId)))
    {
      DeadlineOrders();
      NullIfEmpty(OrderedSelect(tasks, UnfinishedOf(userId), DeadlineAsc))
    }

    /** `getFinishedTasks`: the user's finished tasks by descending deadline, or null. */
    function GetFinishedTasks(userId: int): (r: Option<seq<TaskRow>>)
      reads this
      ensures r.None? <==> forall id | id in tasks :: !(tasks[id].userId == userId && tasks[id].isFinished)
      ensures r.Some? ==> SortedBy(r.value, DeadlineDesc)
      ensures r.Some? ==> forall t :: t in r.value <==> t in tasks.Values && t.userId == userId && t.isFinished
      ensures r.Some? ==> multiset(r.value) == multiset(Select(tasks, FinishedOf(userId)))
    {
      DeadlineOrders();
      NullIfEmpty(OrderedSelect(tasks, FinishedOf(userId), DeadlineDesc))
    }

    /** `createTask`: inserts one unfinished row under the next serial id. */
    method CreateTask(userId: int, categoryId: Option<int>, deadline: Option<int>, description: string,
                      fun: int, difficulty: int, importance: int, time: int)
      requires Valid()
      modifies this
      ensures Valid()
      ensures old(nextId) !in old(tasks)
      ensures tasks == old(tasks)[old(nextId) := TaskRow(old(nextId), userId, categoryId, deadline, description,
                                   Some(fun), Some(difficulty), Some(importance), Some(time), false)]
    {
      tasks := tasks[nextId := TaskRow(nextId, userId, categoryId, deadline, description,
                                       Some(fun), Some(difficulty), Some(importance), Some(time), false)];
      nextId := nextId + 1;
    }

    /** `updateTask`: rewrites the editable columns of one task; owner and flag stay. */
    method UpdateTask(taskId: int, categoryId: Option<int>, deadline: Option<int>, description: string,
                      fun: int, difficulty: int, importance: int, time: int)
      requires Valid()
      modifies this
      ensures Valid() && nextId == old(nextId)
      ensures tasks == WithEdit(old(tasks), taskId, categoryId, deadline, description,
                                fun, difficulty, importance, time)
    {
      tasks := WithEdit(tasks, taskId, categoryId, deadline, description, fun, difficulty, importance, time);
    }

    /** `markTaskAsFinished`. */
    method MarkTaskAsFinished(taskId: int)
      requires Valid()
      modifies this
      ensures Valid() && nextId == old(nextId)
      ensures tasks == WithFinished(old(tasks), taskId, true)
    {
      tasks := WithFinished(tasks, taskId, true);
    }

    /** `markTaskAsUnfinished`. */
    method MarkTaskAsUnfinished(taskId: int)
      requires Valid()
      modifies this
      ensures Valid() && nextId == old(nextId)
      ensures tasks == WithFinished(old(tasks), taskId, false)
    {
      tasks := WithFinished(tasks, taskId, false);
    }

    /** `deleteTask`: removes that one row. */
    method DeleteTask(taskId: int)
      requires Valid()
      modifies this
      ensures Valid() && nextId == old(nextId)
      ensures tasks == old(tasks) - {taskId}
    {
      tasks := tasks - {taskId};
    }

    /** `deleteFinishedTasksByUserId`. */
    method DeleteFinishedTasksByUserId(userId: int)
      requires Valid()
      modifies this
      ensures Valid() && nextId == old(nextId)
      ensures tasks == WithoutFinishedOf(old(tasks), userId)
    {
      tasks := WithoutFinishedOf(tasks, userId);
    }
  }

  /** Selecting every row yields each row of the table once. */
  lemma SelectMembersAll(m: map<int, TaskRow>)
    ensures forall t :: t in Select(m, AnyRow()) <==> t in m.Values
    ensures |Select(m, AnyRow())| == |m|
  {
    forall t ensures t in Select(m, AnyRow()) <==> t in m.Values {
      SelectMembers(m, AnyRow(), t);
    }
    SelectEveryRow(m, AnyRow());
  }

  /**
   * Marking a task finished moves it from its owner's unfinished list to the
   * finished one; marking it unfinished moves it back.
   */
  lemma {:induction false} MarkingMovesBetweenLists(m: map<int, TaskRow>, id: int, b: bool)
    requires id in m
    ensures var t := WithFinished(m, id, b)[id];
      && (t in Select(WithFinished(m, id, b), UnfinishedOf(t.userId)) <==> !b)
      && (t in Select(WithFinished(m, id, b), FinishedOf(t.userId)) <==> b)
  {
    var m' := WithFinished(m, id, b);
    var t := m'[id];
    SelectMembers(m', UnfinishedOf(t.userId), t);
    SelectMembers(m', FinishedOf(t.userId), t);
  }
}
