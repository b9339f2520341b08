/**
 * The `Task` record of src/models/Task.php.  A task's id and its owner's id
 * have no setters, so they are constant fields here; every other field has a
 * setter that changes that field alone.
 */
module TaskModel {
  import opened Wrappers

  /** The value held by a `Task` object, field by field. */
  datatype TaskRecord = TaskRecord(
    taskID: int,
    userID: int,
    categoryID: Option<int>,
    deadlineDate: Option<string>,
    taskDescription: string,
    fun: int,
    difficulty: int,
    importance: int,
    time: int,
    isFinished: bool)

  class Task {
    const taskID: int
    const userID: int
    var categoryID: Option<int>
    var deadlineDate: Option<string>
    var taskDescription: string
    var fun: int
    var difficulty: int
    var importance: int
    var time: int
    var finished: bool

    /** Stores every argument; a new task is unfinished unless told otherwise. */
    constructor (
      taskID: int,
      userID: int,
      categoryID: Option<int>,
      deadlineDate: Option<string>,
      taskDescription: string,
      fun: int,
      difficulty: int,
      importance: int,
      time: int,
      isFinished: bool := false)
      ensures Record() == TaskRecord(taskID, userID, categoryID, deadlineDate, taskDescription,
                                     fun, difficulty, importance, time, isFinished)
    {
      this.taskID := taskID;
      this.userID := userID;
      this.categoryID := categoryID;
      this.deadlineDate := deadlineDate;
      this.taskDescription := taskDescription;
      this.fun := fun;
      this.difficulty := difficulty;
      this.importance := importance;
      this.time := time;
      this.finished := isFinished;
    }

    /** The object's whole state as a value. */
    function Record(): TaskRecord
      reads this
    {
      TaskRecord(taskID, userID, categoryID, deadlineDate, taskDescription,
                 fun, difficulty, importance, time, finished)
    }

    function GetTaskID(): int { taskID }
    function GetUserID(): int { userID }
    function GetCategoryID(): Option<int> reads this { categoryID }
    function GetDeadlineDate(): Option<string> reads this { deadlineDate }
    function GetTaskDescription(): string reads this { taskDescription }
    function GetFun(): int reads this { fun }
    function GetDifficulty(): int reads this { difficulty }
    function GetImportance(): int reads this { importance }
    function GetTime(): int reads this { time }
    function IsFinished(): bool reads this { finished }

    method SetCategoryID(categoryID: Option<int>)
      modifies this
      ensures GetCategoryID() == categoryID
      ensures Record() == old(Record()).(categoryID := categoryID)
    {
      this.categoryID := categoryID;
    }

    method SetDeadlineDate(deadlineDate: Option<string>)
      modifies this
      ensures GetDeadlineDate() == deadlineDate
      ensures Record() == old(Record()).(deadlineDate := deadlineDate)
    {
      this.deadlineDate := deadlineDate;
    }

    method SetTaskDescription(taskDescription: string)
      modifies this
      ensures GetTaskDescription() == taskDescription
      ensures Record() == old(Record()).(taskDescription := taskDescription)
    {
      this.taskDescription := taskDescription;
    }

    method SetFun(fun: int)
      modifies this
      ensures GetFun() == fun
      ensures Record() == old(Record()).(fun := fun)
    {
      this.fun := fun;
    }

    method SetDifficulty(difficulty: int)
      modifies this
      ensures GetDifficulty() == difficulty
      ensures Record() == old(Record()).(difficulty := difficulty)
    {
      this.difficulty := difficulty;
    }

    method SetImportance(importance: int)
      modifies this
      ensures GetImportance() == importance
      ensures Record() == old(Record()).(importance := importance)
    {
      this.importance := importance;
    }

    method SetTime(time: int)
      modifies this
      ensures GetTime() == time
      ensures Record() == old(Record()).(time := time)
    {
      this.time := time;
    }

    method SetFinished(isFinished: bool)
      modifies this
      ensures IsFinished() == isFinished
      ensures Record() == old(Record()).(isFinished := isFinished)
    {
      this.finished := isFinished;
    }
  }

  /**
   * A client of the class: setters change only their own field, and the ids
   * stay as the constructor stored them.
   */
  method SettersKeepIds(t: Task, b: bool, f: int)
    modifies t
  {
    var id, owner, description := t.GetTaskID(), t.GetUserID(), t.GetTaskDescription();
    t.SetFinished(b);
    t.SetFun(f);
    assert t.IsFinished() == b && t.GetFun() == f;
    assert t.GetTaskID() == id && t.GetUserID() == owner && t.GetTaskDescription() == description;
  }
}
