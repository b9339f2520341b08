/**
 * The `Preferences` record of src/models/Preferences.php: a user's bio, the
 * "delete finished tasks" flag and the five influence weights that scale the
 * factors of a task's priority score.
 */
module PreferencesModel {
  import opened Wrappers

  /** The five influence weights, under their names. */
  datatype Influences = Influences(fun: real, difficulty: real, importance: real, time: real, deadline: real)

  /** Every weight at its default of 1.0. */
  const DefaultInfluences := Influences(1.0, 1.0, 1.0, 1.0, 1.0)

  /** Whether every weight lies in the accepted range [0, 2], bounds included. */
  predicate InRange(w: Influences) {
    && 0.0 <= w.fun <= 2.0
    && 0.0 <= w.difficulty <= 2.0
    && 0.0 <= w.importance <= 2.0
    && 0.0 <= w.time <= 2.0
    && 0.0 <= w.deadline <= 2.0
  }

  /** The value held by a `Preferences` object, field by field. */
  datatype PreferencesRecord = PreferencesRecord(
    userID: int,
    bio: Option<string>,
    deleteFinishedTasks: bool,
    influences: Influences)

  class Preferences {
    const userID: int
    var bio: Option<string>
    var deleteFinishedTasks: bool
    var funInfluence: real
    var difficultyInfluence: real
    var importanceInfluence: real
    var timeInfluence: real
    var deadlineInfluence: real

    /** Every argument after the user id has the source's default. */
    constructor (
      userID: int,
      bio: Option<string> := None,
      deleteFinishedTasks: bool := false,
      funInfluence: real := 1.0,
      difficultyInfluence: real := 1.0,
      importanceInfluence: real := 1.0,
      timeInfluence: real := 1.0,
      deadlineInfluence: real := 1.0)
      ensures Record() == PreferencesRecord(userID, bio, deleteFinishedTasks,
        Influences(funInfluence, difficultyInfluence, importanceInfluence, timeInfluence, deadlineInfluence))
    {
      this.userID := userID;
      this.bio := bio;
      this.deleteFinishedTasks := deleteFinishedTasks;
      this.funInfluence := funInfluence;
      this.difficultyInfluence := difficultyInfluence;
      this.importanceInfluence := importanceInfluence;
      this.timeInfluence := timeInfluence;
      this.deadlineInfluence := deadlineInfluence;
    }

    /** The object's whole state as a value. */
    function Record(): PreferencesRecord
      reads this
    {
      PreferencesRecord(userID, bio, deleteFinishedTasks, GetInfluences())
    }

    function GetUserID(): int { userID }
    function GetBio(): Option<string> reads this { bio }
    function GetDeleteFinishedTasks(): bool reads this { deleteFinishedTasks }
    function GetFunInfluence(): real reads this { funInfluence }
    function GetDifficultyInfluence(): real reads this { difficultyInfluence }
    function GetImportanceInfluence(): real reads this { importanceInfluence }
    function GetTimeInfluence(): real reads this { timeInfluence }
    function GetDeadlineInfluence(): real reads this { deadlineInfluence }

    method SetBio(bio: Option<string>)
      modifies this
      ensures GetBio() == bio
      ensures Record() == old(Record()).(bio := bio)
    {
      this.bio := bio;
    }

    method SetDeleteFinishedTasks(deleteFinishedTasks: bool)
      modifies this
      ensures GetDeleteFinishedTasks() == deleteFinishedTasks
      ensures Record() == old(Record()).(deleteFinishedTasks := deleteFinishedTasks)
    {
      this.deleteFinishedTasks := deleteFinishedTasks;
    }

    method SetFunInfluence(funInfluence: real)
      modifies this
      ensures GetFunInfluence() == funInfluence
      ensures Record() == old(Record()).(influences := old(GetInfluences()).(fun := funInfluence))
    {
      this.funInfluence := funInfluence;
    }

    method SetDifficultyInfluence(difficultyInfluence: real)
      modifies this
      ensures GetDifficultyInfluence() == difficultyInfluence
      ensures Record() == old(Record()).(influences := old(GetInfluences()).(difficulty := difficultyInfluence))
    {
      this.difficultyInfluence := difficultyInfluence;
    }

    method SetImportanceInfluence(importanceInfluence: real)
      modifies this
      ensures GetImportanceInfluence() == importanceInfluence
      ensures Record() == old(Record()).(influences := old(GetInfluences()).(importance := importanceInfluence))
    {
      this.importanceInfluence := importanceInfluence;
    }

    method SetTimeInfluence(timeInfluence: real)
      modifies this
      ensures GetTimeInfluence() == timeInfluence
      ensures Record() == old(Record()).(influences := old(GetInfluences()).(time := timeInfluence))
    {
      this.timeInfluence := timeInfluence;
    }

    method SetDeadlineInfluence(deadlineInfluence: real)
      modifies this
      ensures GetDeadlineInfluence() == deadlineInfluence
      ensures Record() == old(Record()).(influences := old(GetInfluences()).(deadline := deadlineInfluence))
    {
      this.deadlineInfluence := deadlineInfluence;
    }

    /** The five influence fields under their names, and nothing else. */
    function GetInfluences(): (w: Influences)
      reads this
      ensures w.fun == GetFunInfluence() && w.difficulty == GetDifficultyInfluence()
      ensures w.importance == GetImportanceInfluence() && w.time == GetTimeInfluence()
      ensures w.deadline == GetDeadlineInfluence()
    {
      Influences(funInfluence, difficultyInfluence, importanceInfluence, timeInfluence, deadlineInfluence)
    }
  }

  /**
   * A client of the class: a value stored by the constructor or by a setter is
   * what the matching getter returns afterwards, and the user id never changes.
   */
  method GetterReturnsLastStored(id: int, w: real, b: Option<string>)
  {
    var p := new Preferences(id);
    assert p.GetBio() == None && !p.GetDeleteFinishedTasks();
    assert p.GetInfluences() == DefaultInfluences;
    p.SetFunInfluence(w);
    p.SetBio(b);
    assert p.GetFunInfluence() == w && p.GetBio() == b;
    assert p.GetDifficultyInfluence() == 1.0 && p.GetUserID() == id;
  }
}
