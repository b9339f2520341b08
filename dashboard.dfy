/**
 * Priority scoring and ranking of src/controllers/DashboardController.php.
 * Every unfinished task of the user gets a weighted score from its four
 * attributes and, when it has a deadline, a banded urgency; the scores are
 * rounded to hundredths and the list is sorted stably, highest score first.
 * "Now" and deadlines are whole seconds; weights and scores are exact reals.
 */
module Dashboard {
  import opened Wrappers
  import opened Sorting
  import opened Tables
  import opened PreferencesModel
  import opened TaskRepository
  import opened UserRepository
  import AppSession
  import SecurityController

  const SecondsPerDay: int := 86400

  /** `$task[attr] ?? 50`: a null attribute counts as 50, any stored value (0 included) as itself. */
  function Level(v: Option<int>): int {
    v.GetOr(50)
  }

  /** The four attribute terms: fun, 100 - difficulty, importance, 100 - time, each times its weight. */
  function BaseScore(t: TaskRow, w: Influences): real {
    Level(t.fun) as real * w.fun
    + (100 - Level(t.difficulty)) as real * w.difficulty
    + Level(t.importance) as real * w.importance
    + (100 - Level(t.time)) as real * w.time
  }

  /** `(deadline - now) / (60 * 60 * 24)`, a fractional number of days. */
  function DaysUntil(deadline: int, now: int): real {
    (deadline - now) as real / SecondsPerDay as real
  }

  /** The urgency band of a deadline, compared in fractional days as the controller does. */
  function Urgency(deadline: int, now: int): (u: int)
    ensures u == 100 || u == 90 || u == 70 || u == 50 || u == 30 || u == 10
  {
    var days := DaysUntil(deadline, now);
    if days < 0.0 then 100
    else if days < 1.0 then 90
    else if days < 3.0 then 70
    else if days < 7.0 then 50
    else if days < 14.0 then 30
    else 10
  }

  /** The same bands stated on whole seconds: "fewer than k days" is "fewer than k * 86400 seconds". */
  function UrgencyOfSeconds(d: int): int {
    if d < 0 then 100
    else if d < SecondsPerDay then 90
    else if d < 3 * SecondsPerDay then 70
    else if d < 7 * SecondsPerDay then 50
    else if d < 14 * SecondsPerDay then 30
    else 10
  }

  lemma DaysBelow(d: int, k: int)
    ensures d as real / SecondsPerDay as real < k as real <==> d < k * SecondsPerDay
  {
  }

  /** The fractional-day bands are exactly the half-open second intervals. */
  lemma UrgencyInSeconds(deadline: int, now: int)
    ensures Urgency(deadline, now) == UrgencyOfSeconds(deadline - now)
  {
    var d := deadline - now;
    DaysBelow(d, 0);
    DaysBelow(d, 1);
    DaysBelow(d, 3);
    DaysBelow(d, 7);
    DaysBelow(d, 14);
  }

  /** A later deadline never gets a higher urgency. */
  lemma UrgencyNonIncreasing(d1: int, d2: int, now: int)
    requires d1 <= d2
    ensures Urgency(d2, now) <= Urgency(d1, now)
  {
    UrgencyInSeconds(d1, now);
    UrgencyInSeconds(d2, now);
  }

  /** Band edges: overdue by a second is 100, due exactly now is 90, a day ahead is 70, two weeks ahead 10. */
  lemma UrgencyEdges(now: int)
    ensures Urgency(now - 1, now) == 100
    ensures Urgency(now, now) == 90
    ensures Urgency(now + SecondsPerDay - 1, now) == 90
    ensures Urgency(now + SecondsPerDay, now) == 70
    ensures Urgency(now + 3 * SecondsPerDay, now) == 50
    ensures Urgency(now + 7 * SecondsPerDay, now) == 30
    ensures Urgency(now + 14 * SecondsPerDay, now) == 10
  {
    UrgencyInSeconds(now - 1, now);
    UrgencyInSeconds(now, now);
    UrgencyInSeconds(now + SecondsPerDay - 1, now);
    UrgencyInSeconds(now + SecondsPerDay, now);
    UrgencyInSeconds(now + 3 * SecondsPerDay, now);
    UrgencyInSeconds(now + 7 * SecondsPerDay, now);
    UrgencyInSeconds(now + 14 * SecondsPerDay, now);
  }

  /** The unrounded score: the attribute terms plus, for a task with a deadline, urgency times its weight. */
  function Score(t: TaskRow, w: Influences, now: int): real {
    BaseScore(t, w)
    + match t.deadline
      case None => 0.0
      case Some(d) => Urgency(d, now) as real * w.deadline
  }

  /** PHP's `round(x, 2)`: to the nearest hundredth, halves away from zero. */
  function Round2(x: real): (r: real)
    ensures (r * 100.0).Floor as real == r * 100.0
    ensures x >= 0.0 ==> x - 0.005 < r <= x + 0.005
    ensures x < 0.0 ==> x - 0.005 <= r < x + 0.005
  {
    if x >= 0.0 then
      var n := (x * 100.0 + 0.5).Floor;
      HundredthsBounds(x * 100.0 + 0.5, n);
      n as real / 100.0
    else
      var n := (-x * 100.0 + 0.5).Floor;
      HundredthsBounds(-x * 100.0 + 0.5, n);
      -(n as real) / 100.0
  }

  lemma HundredthsBounds(y: real, n: int)
    requires n == y.Floor
    ensures y - 1.0 < n as real <= y
    ensures (n as real / 100.0 * 100.0).Floor as real == n as real / 100.0 * 100.0
    ensures (-(n as real) / 100.0 * 100.0).Floor as real == -(n as real) / 100.0 * 100.0
  {
    assert n as real / 100.0 * 100.0 == n as real;
    assert -(n as real) / 100.0 * 100.0 == (-n) as real;
  }

  /** Rounding keeps order. */
  lemma Round2Monotone(x: real, y: real)
    requires x <= y
    ensures Round2(x) <= Round2(y)
  {
    if x >= 0.0 {
      assert (x * 100.0 + 0.5).Floor <= (y * 100.0 + 0.5).Floor;
    } else if y < 0.0 {
      assert (-y * 100.0 + 0.5).Floor <= (-x * 100.0 + 0.5).Floor;
    }
  }

  /** A value already in hundredths is its own rounding. */
  lemma Round2Idempotent(x: real)
    ensures Round2(Round2(x)) == Round2(x)
  {
    var r := Round2(x);
    var n := (r * 100.0).Floor;
    assert r == n as real / 100.0;
    if r >= 0.0 {
      assert (r * 100.0 + 0.5).Floor == n;
    } else {
      assert (-r * 100.0 + 0.5).Floor == -n;
    }
  }

  /** `getUserPreferences` returns the constant default weights whatever the user. */
  function UserPreferences(userId: int): (w: Influences)
    ensures w.fun == 1.0 && w.difficulty == 1.0 && w.importance == 1.0
    ensures w.time == 1.0 && w.deadline == 1.0
    ensures InRange(w)
  {
    DefaultInfluences
  }

  /** With the default weights and no deadline the score is 200 + fun - difficulty + importance - time. */
  lemma DefaultWeightsScore(t: TaskRow, userId: int, now: int)
    requires t.deadline.None?
    ensures Score(t, UserPreferences(userId), now)
         == (200 + Level(t.fun) - Level(t.difficulty) + Level(t.importance) - Level(t.time)) as real
  {
  }

  /** A null attribute scores as a stored 50; a stored value, 0 included, contributes itself. */
  lemma MissingAttributeCountsAsFifty(t: TaskRow, w: Influences, now: int, v: int)
    ensures Score(t.(fun := None), w, now) == Score(t.(fun := Some(50)), w, now)
    ensures Score(t.(difficulty := None), w, now) == Score(t.(difficulty := Some(50)), w, now)
    ensures Score(t.(importance := None), w, now) == Score(t.(importance := Some(50)), w, now)
    ensures Score(t.(time := None), w, now) == Score(t.(time := Some(50)), w, now)
    ensures Score(t.(fun := Some(v)), w, now) == Score(t.(fun := Some(0)), w, now) + v as real * w.fun
  {
  }

  /** Without a deadline the score does not depend on the time of the call. */
  lemma NoDeadlineNoTimeDependence(t: TaskRow, w: Influences, now1: int, now2: int)
    requires t.deadline.None?
    ensures Score(t, w, now1) == Score(t, w, now2) == BaseScore(t, w)
  {
  }

  /** With a non-negative deadline weight, moving a task's deadline later never raises its priority. */
  lemma LaterDeadlineNeverRanksHigher(t: TaskRow, w: Influences, now: int, d1: int, d2: int)
    requires w.deadline >= 0.0
    requires d1 <= d2
    ensures Round2(Score(t.(deadline := Some(d2)), w, now)) <= Round2(Score(t.(deadline := Some(d1)), w, now))
  {
    UrgencyNonIncreasing(d1, d2, now);
    var u1, u2 := Urgency(d1, now), Urgency(d2, now);
    assert (u1 - u2) as real * w.deadline >= 0.0;
    assert u2 as real * w.deadline <= u1 as real * w.deadline;
    Round2Monotone(Score(t.(deadline := Some(d2)), w, now), Score(t.(deadline := Some(d1)), w, now));
  }

  /** Two worked cases: attributes 100/33/66/66 score 267.00; overdue with deadline weight 0.5, 317.00. */
  lemma WorkedScores(t: TaskRow, now: int)
    requires t.fun == Some(100) && t.difficulty == Some(33)
    requires t.importance == Some(66) && t.time == Some(66)
    ensures Round2(Score(t.(deadline := None), UserPreferences(0), now)) == 267.0
    ensures Round2(Score(t.(deadline := Some(now - 2 * SecondsPerDay)),
                         UserPreferences(0).(deadline := 0.5), now)) == 317.0
  {
    UrgencyInSeconds(now - 2 * SecondsPerDay, now);
    assert Score(t.(deadline := None), UserPreferences(0), now) == 267.0;
    assert Score(t.(deadline := Some(now - 2 * SecondsPerDay)),
                 UserPreferences(0).(deadline := 0.5), now) == 317.0;
  }

  /** A task row with its computed `priorityScore`. */
  datatype ScoredTask = ScoredTask(task: TaskRow, priorityScore: real)

  /** The scored list: one entry per task, in input order, the row unchanged. */
  function ScoreTasks(tasks: seq<TaskRow>, w: Influences, now: int): (r: seq<ScoredTask>)
    ensures |r| == |tasks|
    ensures forall i :: 0 <= i < |r| ==> r[i].task == tasks[i]
  {
    seq(|tasks|, i requires 0 <= i < |tasks| => ScoredTask(tasks[i], Round2(Score(tasks[i], w, now))))
  }

  /** `calculateTaskPriorities`: accumulates each task's score term by term and appends the rounded result. */
  method CalculateTaskPriorities(tasks: seq<TaskRow>, userId: int, now: int) returns (r: seq<ScoredTask>)
    ensures r == ScoreTasks(tasks, UserPreferences(userId), now)
    ensures |r| == |tasks|
    ensures forall i :: 0 <= i < |r| ==> r[i].task == tasks[i]
    ensures forall i :: 0 <= i < |r| ==> (r[i].priorityScore * 100.0).Floor as real == r[i].priorityScore * 100.0
  {
    var preferences := UserPreferences(userId);
    r := [];
    var i := 0;
    while i < |tasks|
      invariant 0 <= i <= |tasks|
      invariant |r| == i
      invariant forall j :: 0 <= j < i ==> r[j] == ScoredTask(tasks[j], Round2(Score(tasks[j], preferences, now)))
    {
      var task := tasks[i];
      var score := 0.0;
      score := score + Level(task.fun) as real * preferences.fun;
      score := score + (100 - Level(task.difficulty)) as real * preferences.difficulty;
      score := score + Level(task.importance) as real * preferences.importance;
      score := score + (100 - Level(task.time)) as real * preferences.time;
      if task.deadline.Some? {
        var urgencyScore := Urgency(task.deadline.value, now);
        score := score + urgencyScore as real * preferences.deadline;
      }
      r := r + [ScoredTask(task, Round2(score))];
      i := i + 1;
    }
  }

  /** The `usort` comparator `$b['priorityScore'] <=> $a['priorityScore']` as an ordering: higher first. */
  predicate HigherFirst(a: ScoredTask, b: ScoredTask) {
    a.priorityScore >= b.priorityScore
  }

  lemma HigherFirstIsPreorder()
    ensures TotalPreorder(HigherFirst)
  {
  }

  /** The sort of `getTasks`: a permutation with non-increasing scores. */
  function RankByScore(s: seq<ScoredTask>): (r: seq<ScoredTask>)
    ensures multiset(r) == multiset(s)
    ensures forall i, j :: 0 <= i < j < |r| ==> r[i].priorityScore >= r[j].priorityScore
  {
    HigherFirstIsPreorder();
    SortByOrdered(s, HigherFirst);
    SortBy(s, HigherFirst)
  }

  /** The sort is stable: tasks of equal score keep their repository order. */
  lemma RankByScoreStable(s: seq<ScoredTask>, x: ScoredTask)
    ensures TiedWith(RankByScore(s), x, HigherFirst) == TiedWith(s, x, HigherFirst)
  {
    HigherFirstIsPreorder();
    SortByStable(s, x, HigherFirst);
  }

  /** The JSON answer of `getTasks` and its HTTP status. */
  datatype TasksResponse =
    | Unauthorized
    | UserNotFound
    | Listed(tasks: seq<ScoredTask>)
    | ServerError

  function StatusCode(r: TasksResponse): int {
    match r
    case Unauthorized => 401
    case UserNotFound => 404
    case Listed(_) => 200
    case ServerError => 500
  }

  /** The ranking `getTasks` answers with for a user: unfinished tasks, scored, highest first. */
  function RankedTasks(repo: TaskRepository, userId: int, now: int): seq<ScoredTask>
    reads repo
  {
    RankByScore(ScoreTasks(repo.GetUnfinishedTasks(userId).GetOr([]), UserPreferences(userId), now))
  }

  /**
   * `getTasks` as written.  The row of `getUserByUsername` has no `userid`
   * column, so `$user['userid']` is null, and null passed to the `int`
   * parameter of `getUnfinishedTasks` throws a TypeError: every user that is
   * found gets a server error.
   */
  method GetTasksAsWritten(sessionUsername: Option<string>, users: UserRepository, repo: TaskRepository, now: int)
    returns (resp: TasksResponse)
    ensures sessionUsername.None? ==> resp == Unauthorized
    ensures sessionUsername.Some? && users.GetUserByUsername(sessionUsername.value).None? ==> resp == UserNotFound
    ensures sessionUsername.Some? && users.GetUserByUsername(sessionUsername.value).Some? ==> resp == ServerError
  {
    if sessionUsername.None? {
      return Unauthorized;
    }
    var user := users.GetUserByUsername(sessionUsername.value);
    if user.None? {
      return UserNotFound;
    }
    resp := ServerError;
  }

  /** `getTasks` with the user id taken from the user's whole row. */
  method GetTasks(sessionUsername: Option<string>, users: UserRepository, repo: TaskRepository, now: int)
    returns (resp: TasksResponse)
    ensures sessionUsername.None? <==> resp == Unauthorized
    ensures sessionUsername.Some? ==>
      (users.FindUserByUsername(sessionUsername.value).None? <==> resp == UserNotFound)
    ensures sessionUsername.Some? && users.FindUserByUsername(sessionUsername.value).Some? ==>
      resp == Listed(RankedTasks(repo, users.FindUserByUsername(sessionUsername.value).value.userId, now))
    ensures resp.Listed? ==> forall i, j :: 0 <= i < j < |resp.tasks| ==>
      resp.tasks[i].priorityScore >= resp.tasks[j].priorityScore
    ensures resp != ServerError
  {
    if sessionUsername.None? {
      return Unauthorized;
    }
    var user := users.FindUserByUsername(sessionUsername.value);
    if user.None? {
      return UserNotFound;
    }
    var userId := user.value.userId;
    var tasks := repo.GetUnfinishedTasks(userId);
    if tasks.None? {
      assert ScoreTasks([], UserPreferences(userId), now) == [];
      return Listed([]);
    }
    var tasksWithScore := CalculateTaskPriorities(tasks.value, userId, now);
    resp := Listed(RankByScore(tasksWithScore));
  }

  /**
   * `login` on a fresh session, then `getTasks` as written.  `login` stores
   * the user under the `user` key only, so the `username` key `getTasks`
   * checks is never set: the answer is 401 even after a successful login.
   */
  method LoginThenGetTasksAsWritten(users: UserRepository, repo: TaskRepository, fields: map<string, string>,
                                    validEmail: string -> bool, verify: (string, string) -> bool,
                                    token: string, now: int)
    returns (login: SecurityController.SecurityResponse, resp: TasksResponse)
    ensures resp == Unauthorized
  {
    var session := new AppSession.Session();
    login := SecurityController.Login(session, users, SecurityController.Post(fields), validEmail, verify, token);
    resp := GetTasksAsWritten(session.username, users, repo, now);
  }

  /** `getTasks` taking the username from the user array that `login` stores. */
  method GetTasksForSession(session: AppSession.Session, users: UserRepository, repo: TaskRepository, now: int)
    returns (resp: TasksResponse)
    ensures !session.IsAuthenticated() <==> resp == Unauthorized
    ensures session.IsAuthenticated() ==>
      var name := session.user.value.username;
      && (users.FindUserByUsername(name).None? <==> resp == UserNotFound)
      && (users.FindUserByUsername(name).Some? ==>
            resp == Listed(RankedTasks(repo, users.FindUserByUsername(name).value.userId, now)))
  {
    var name := if session.IsAuthenticated() then Some(session.GetUserCookie().value.username) else None;
    resp := GetTasks(name, users, repo, now);
  }

  /**
   * `login` on a fresh session, then the corrected `getTasks`: a user who has
   * just logged in is listed their tasks, and anyone else gets 401.
   */
  method LoginThenGetTasks(users: UserRepository, repo: TaskRepository, fields: map<string, string>,
                           validEmail: string -> bool, verify: (string, string) -> bool,
                           token: string, now: int)
    returns (login: SecurityController.SecurityResponse, resp: TasksResponse)
    ensures login == SecurityController.Redirect("/dashboard") ==> resp.Listed?
    ensures login != SecurityController.Redirect("/dashboard") ==> resp == Unauthorized
  {
    var session := new AppSession.Session();
    login := SecurityController.Login(session, users, SecurityController.Post(fields), validEmail, verify, token);
    if login == SecurityController.Redirect("/dashboard") {
      var u := session.user.value;
      var email := SecurityController.Trim(SecurityController.Field(fields, "email"));
      var row := users.GetUserByEmail(email).value;
      assert u.username == row.username;
      var id :| id in users.users && users.users[id] == row;
      assert users.users[id].username == u.username;
    }
    resp := GetTasksForSession(session, users, repo, now);
  }

  /** A scored entry carries one of the scored rows. */
  lemma ScoredTaskFrom(tasks: seq<TaskRow>, w: Influences, now: int, x: ScoredTask)
    requires x in ScoreTasks(tasks, w, now)
    ensures x.task in tasks
  {
    var scored := ScoreTasks(tasks, w, now);
    var i :| 0 <= i < |scored| && scored[i] == x;
    assert tasks[i] in tasks;
  }

  /** Every task a user is shown is one of their own unfinished tasks. */
  lemma RankedTasksAreUnfinished(repo: TaskRepository, userId: int, now: int)
    ensures forall x :: x in RankedTasks(repo, userId, now) ==>
      x.task in repo.tasks.Values && x.task.userId == userId && !x.task.isFinished
  {
    var found := repo.GetUnfinishedTasks(userId);
    var rows := found.GetOr([]);
    var scored := ScoreTasks(rows, UserPreferences(userId), now);
    var ranked := RankedTasks(repo, userId, now);
    assert ranked == RankByScore(scored);
    forall x | x in ranked
      ensures x.task in repo.tasks.Values && x.task.userId == userId && !x.task.isFinished
    {
      assert x in multiset(ranked);
      ScoredTaskFrom(rows, UserPreferences(userId), now, x);
      assert found.Some?;
      assert x.task in found.value;
    }
  }

  /** A user is shown one entry per unfinished row of theirs. */
  lemma RankedTasksOnePerRow(repo: TaskRepository, userId: int, now: int)
    ensures |RankedTasks(repo, userId, now)| == |Select(repo.tasks, UnfinishedOf(userId))|
  {
    var rows := repo.GetUnfinishedTasks(userId).GetOr([]);
    var scored := ScoreTasks(rows, UserPreferences(userId), now);
    var ranked := RankedTasks(repo, userId, now);
    assert |ranked| == |multiset(ranked)| == |multiset(scored)| == |scored|;
    if repo.GetUnfinishedTasks(userId).Some? {
      assert |multiset(rows)| == |multiset(Select(repo.tasks, UnfinishedOf(userId)))|;
    } else {
      assert forall id | id in repo.tasks :: !UnfinishedOf(userId)(repo.tasks[id]);
      assert MatchingKeys(repo.tasks, UnfinishedOf(userId)) == [];
    }
  }

  /** A user is shown nothing exactly when they have no unfinished task. */
  lemma RankedTasksEmpty(repo: TaskRepository, userId: int, now: int)
    ensures RankedTasks(repo, userId, now) == [] <==>
      forall id | id in repo.tasks :: !(repo.tasks[id].userId == userId && !repo.tasks[id].isFinished)
  {
    var rows := repo.GetUnfinishedTasks(userId).GetOr([]);
    var scored := ScoreTasks(rows, UserPreferences(userId), now);
    var ranked := RankedTasks(repo, userId, now);
    assert |ranked| == |multiset(ranked)| == |multiset(scored)| == |scored| == |rows|;
  }
}
