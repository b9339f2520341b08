# Task prioritisation app — a Dafny model

The system is a small PHP web application for personal task lists. A user
registers and logs in, keeps tasks (fun, difficulty, importance and time
levels from 0 to 100, an optional deadline, an optional category) and
categories, and tunes five influence weights in [0, 2]. The dashboard
answers with the user's unfinished tasks ranked by a priority score: a
weighted sum of fun, 100 − difficulty, importance and 100 − time (a null
level counts as 50), plus, for a task with a deadline, a banded urgency
(100 overdue, 90 within a day, 70 within three, 50 within seven, 30 within
fourteen, 10 beyond) times the deadline weight; the score is rounded to
hundredths and the list is sorted stably, highest first. Browser scripts
label deadlines ("Dzisiaj", "Jutro", "Za n dni", …) and filter the list
by category.

The model has one module per source file, plus three helper modules:

- `Wrappers` — `Option`.
- `Sorting` — a stable insertion sort `SortBy` over any total preorder, proved
  ordered, a permutation and stable. It stands for PHP 8's stable `usort` and
  for SQL `ORDER BY`.
- `Tables` — a table is a map from primary key to row; `SELECT … WHERE`
  yields matching rows in ascending key order and `OrderedSelect` adds the
  `ORDER BY`.

The repositories are classes holding their table as a `map` field (and the
serial counter as `nextId`); their reads are functions, their writes methods
whose `ensures` state the whole new table, through pure `With…` functions
where the change is worth stating on its own. `Preferences` and `Task` are
classes with one field per property and a `Record()` value view, so that
each setter can promise to change only its own field. The controllers become
methods over these objects and a `Session` object for `$_SESSION`; the
scripts' task list is a class whose hidden flags are an array.

Deadlines and "now" are whole seconds on the server and whole milliseconds
in the browser. Weights and scores are exact reals. `time()`, `strtotime`,
`Date` parsing, `toLocaleDateString`, `filter_var`, `password_hash`,
`password_verify` and the CSRF token generator are parameters.

## Model

| member | source | states |
|---|---|---|
| Sorting.SortBy | src/controllers/DashboardController.php:67-69 | the sorted list is a permutation of the input |
| Sorting.SortByOrdered | src/controllers/DashboardController.php:67-69 | for a total preorder the result is ordered |
| Sorting.SortByStable | src/controllers/DashboardController.php:67-69 | elements tied under the order keep their input order (PHP 8 `usort` is stable) |
| Dashboard.Urgency | src/controllers/DashboardController.php:101-122 | the urgency is always one of 100, 90, 70, 50, 30, 10 |
| Dashboard.UrgencyInSeconds | src/controllers/DashboardController.php:103-119 | the fractional-day bands are the half-open intervals [0, 86400), [86400, 3·86400), … of seconds to the deadline |
| Dashboard.UrgencyNonIncreasing | src/controllers/DashboardController.php:106-119 | a later deadline never gets a higher urgency |
| Dashboard.UrgencyEdges | src/controllers/DashboardController.php:106-119 | one second overdue is 100, a deadline exactly now is 90, each band starts at its own edge |
| Dashboard.Round2 | src/controllers/DashboardController.php:124 | the result is a whole number of hundredths within half a hundredth of the input, halves going away from zero |
| Dashboard.Round2Monotone | src/controllers/DashboardController.php:124 | rounding keeps the order of scores |
| Dashboard.Round2Idempotent | src/controllers/DashboardController.php:124 | rounding a rounded score changes nothing |
| Dashboard.UserPreferences | src/controllers/DashboardController.php:131-141 | every user gets all five weights 1.0 |
| Dashboard.DefaultWeightsScore | src/controllers/DashboardController.php:88-98 | with the default weights and no deadline the score is 200 + fun − difficulty + importance − time |
| Dashboard.MissingAttributeCountsAsFifty | src/controllers/DashboardController.php:89-98 | a null level scores as 50, and a stored level (0 included) contributes itself times its weight |
| Dashboard.NoDeadlineNoTimeDependence | src/controllers/DashboardController.php:101-122 | a task without a deadline gets no deadline term, so its score does not depend on the time |
| Dashboard.LaterDeadlineNeverRanksHigher | src/controllers/DashboardController.php:100-124 | with a non-negative deadline weight, moving a deadline later never raises the rounded score |
| Dashboard.WorkedScores | src/controllers/DashboardController.php:88-124 | levels 100/33/66/66 give 267.00; overdue with deadline weight 0.5 gives 317.00 |
| Dashboard.CalculateTaskPriorities | src/controllers/DashboardController.php:78-129 | one entry per task in input order, the row unchanged, with the rounded score of its weighted sum and urgency |
| Dashboard.RankByScore | src/controllers/DashboardController.php:67-69 | the ranking is a permutation of the scored tasks with non-increasing scores |
| Dashboard.RankByScoreStable | src/controllers/DashboardController.php:67-69 | tasks with equal scores keep their repository order |
| Dashboard.GetTasksAsWritten | src/controllers/DashboardController.php:27-76 | no session username gives 401, an unknown username 404, and every known user a server error |
| Dashboard.GetTasks | src/controllers/DashboardController.php:27-76 | 401 without a session username, 404 exactly when the user is unknown, else the user's unfinished tasks scored and ranked, never a server error |
| Dashboard.LoginThenGetTasksAsWritten | src/controllers/DashboardController.php:27-37 | after `login` on a fresh session the `username` key is still unset, so `getTasks` as written answers 401 whatever the login's outcome |
| Dashboard.GetTasksForSession | src/controllers/DashboardController.php:27-76 | the corrected `getTasks` reading the username of the session's user array: 401 exactly without a user, 404 exactly when that username is unknown, else that user's ranked tasks |
| Dashboard.LoginThenGetTasks | src/controllers/SecurityController.php:50-58 | after a successful `login` the corrected `getTasks` lists tasks; after any other outcome it answers 401 |
| Dashboard.RankedTasksAreUnfinished | src/controllers/DashboardController.php:53-62 | every ranked entry carries a stored task of the user that is not finished |
| Dashboard.RankedTasksOnePerRow | src/controllers/DashboardController.php:53-62 | the ranking has one entry per unfinished row of the user |
| Dashboard.RankedTasksEmpty | src/controllers/DashboardController.php:53-62 | the ranking is empty exactly when the user has no unfinished row |
| AccountController.InRangeIsEachWeight | src/controllers/AccountController.php:55-68 | the weights are in range exactly when each of the five listed values lies in [0, 2] |
| AccountController.AccountInfluences | src/controllers/AccountController.php:25-31 | five entries with the form keys in fixed order, each the stored weight or 1.0 when the user has no row |
| AccountController.Account | src/controllers/AccountController.php:14-37 | the login page without a session user, else the influence list of that user's row |
| AccountController.FormInfluences | src/controllers/AccountController.php:48-52 | a missing form field stands for 1.0 |
| AccountController.BoolAsString | src/controllers/AccountController.php:71-73 | the `finished` flag reaches the bio parameter as "1" when set and "" when not |
| AccountController.ValidateInfluences | src/controllers/AccountController.php:63-68 | accepts exactly when every weight lies in [0, 2] |
| AccountController.UpdatePrefs | src/controllers/AccountController.php:39-85 | no session user: login page, no change; a weight out of range: 400 "Invalid values", no change; else the user's row gets the five weights in order and the flag as bio, and the browser goes back to /account |
| AccountController.InclusiveBounds | src/controllers/AccountController.php:64 | weights of exactly 0 and 2 pass, 2.01 and −0.01 fail |
| AccountController.ResubmitKeepsWeights | src/controllers/AccountController.php:25-31 | submitting the values the page shows stores the weights already stored, or the defaults |
| AccountController.UpdateThenViewShowsWeights | src/controllers/AccountController.php:25-31 | for a user who already has a preferences row, after an update the page lists exactly the submitted weights |
| AccountController.RowOf | src/controllers/AccountController.php:20 | the row `account` looks up: null exactly when the user has none |
| AccountController.UpdateWithoutRowIsLost | src/controllers/AccountController.php:70-79 | for a user without a preferences row the UPDATE leaves the table unchanged and the page keeps listing the 1.0 defaults |
| AccountController.UpdatePrefsEnsured | src/controllers/AccountController.php:39-85 | the corrected `updatePrefs`: same guards, and on success the user's row is first ensured (src/repository/PreferencesRepository.php:162-167) and then holds the submitted weights |
| AccountController.EnsuredUpdateThenViewShowsWeights | src/controllers/AccountController.php:39-85 | with the row ensured first, every user is shown exactly the submitted weights after the update |
| AppSession.Session.IsAuthenticated | src/controllers/AppController.php:16-19 | logged in exactly when the session holds a user array |
| PreferencesModel.Preferences.constructor | src/models/Preferences.php:13-31 | stores every argument; bio null, flag false and all weights 1.0 by default |
| PreferencesModel.Preferences.SetBio | src/models/Preferences.php:73-76 | the getter returns the new bio and no other field changes |
| PreferencesModel.Preferences.SetDeleteFinishedTasks | src/models/Preferences.php:78-81 | the getter returns the new flag and no other field changes |
| PreferencesModel.Preferences.SetFunInfluence | src/models/Preferences.php:83-86 | the getter returns the new weight and no other field changes |
| PreferencesModel.Preferences.SetDifficultyInfluence | src/models/Preferences.php:88-91 | the getter returns the new weight and no other field changes |
| PreferencesModel.Preferences.SetImportanceInfluence | src/models/Preferences.php:93-96 | the getter returns the new weight and no other field changes |
| PreferencesModel.Preferences.SetTimeInfluence | src/models/Preferences.php:98-101 | the getter returns the new weight and no other field changes |
| PreferencesModel.Preferences.SetDeadlineInfluence | src/models/Preferences.php:103-106 | the getter returns the new weight and no other field changes |
| PreferencesModel.Preferences.GetInfluences | src/models/Preferences.php:108-117 | exactly the five weights, each under its own name |
| TaskModel.Task.constructor | src/models/Task.php:15-37 | stores every argument; a new task is unfinished by default |
| TaskModel.Task.SetCategoryID | src/models/Task.php:89-92 | the getter returns the new category and no other field changes |
| TaskModel.Task.SetDeadlineDate | src/models/Task.php:94-97 | the getter returns the new deadline and no other field changes |
| TaskModel.Task.SetTaskDescription | src/models/Task.php:99-102 | the getter returns the new description and no other field changes |
| TaskModel.Task.SetFun | src/models/Task.php:104-107 | the getter returns the new level and no other field changes |
| TaskModel.Task.SetDifficulty | src/models/Task.php:109-112 | the getter returns the new level and no other field changes |
| TaskModel.Task.SetImportance | src/models/Task.php:114-117 | the getter returns the new level and no other field changes |
| TaskModel.Task.SetTime | src/models/Task.php:119-122 | the getter returns the new level and no other field changes |
| TaskModel.Task.SetFinished | src/models/Task.php:124-127 | `IsFinished` returns the new flag and no other field changes |
| PreferencesRepository.DefaultRow | src/repository/PreferencesRepository.php:49-57 | the default row has a null bio and all weights 1.0 |
| PreferencesRepository.WithPreferences | src/repository/PreferencesRepository.php:74-102 | only that user's row changes, to the new bio and weights |
| PreferencesRepository.WithInfluences | src/repository/PreferencesRepository.php:104-129 | only that user's weights change; the bio stays |
| PreferencesRepository.WithBio | src/repository/PreferencesRepository.php:131-139 | only that user's bio changes; the weights stay |
| PreferencesRepository.Ensured | src/repository/PreferencesRepository.php:162-167 | afterwards a row exists; an existing row and table are unchanged; otherwise only the default row is added |
| PreferencesRepository.EnsuredIdempotent | src/repository/PreferencesRepository.php:162-167 | ensuring twice is ensuring once |
| PreferencesRepository.ObjectFromRowAsWritten | src/repository/PreferencesRepository.php:38-46 | the object's flag is "fun weight ≠ 0", its fun weight is the stored difficulty weight and its deadline weight 1.0 |
| PreferencesRepository.ObjectFromRow | src/repository/PreferencesRepository.php:38-46 | the object carries the row's user, bio and five weights unchanged |
| PreferencesRepository.AsWrittenShiftsWeights | src/repository/PreferencesRepository.php:38-46 | as written, the object has the stored weights exactly when all five are 1.0 |
| PreferencesRepository.AsWrittenCounterexample | src/repository/PreferencesRepository.php:38-46 | the row with weights 0.5/1.5/1.0/1.0/2.0 comes back with fun 1.5 and deadline 1.0 |
| PreferencesRepository.PreferencesRepository.GetPreferences | src/repository/PreferencesRepository.php:13-28 | the user's row, or null exactly when there is none |
| PreferencesRepository.PreferencesRepository.PreferencesExist | src/repository/PreferencesRepository.php:150-160 | true exactly when `getPreferences` finds a row |
| PreferencesRepository.PreferencesRepository.CreatePreferences | src/repository/PreferencesRepository.php:49-72 | adds the user's row with the given or default values; with `userid` taken as the key, an insert for a user who already has a row (a database exception in the source) answers `inserted == false` and changes nothing |
| PreferencesRepository.PreferencesRepository.UpdatePreferences | src/repository/PreferencesRepository.php:74-102 | the table becomes `WithPreferences` of the old one |
| PreferencesRepository.PreferencesRepository.UpdateInfluences | src/repository/PreferencesRepository.php:104-129 | the table becomes `WithInfluences` of the old one |
| PreferencesRepository.PreferencesRepository.UpdateBio | src/repository/PreferencesRepository.php:131-139 | the table becomes `WithBio` of the old one |
| PreferencesRepository.PreferencesRepository.DeletePreferences | src/repository/PreferencesRepository.php:141-148 | removes only that user's row |
| PreferencesRepository.PreferencesRepository.EnsurePreferencesExist | src/repository/PreferencesRepository.php:162-167 | the table becomes `Ensured` of the old one |
| PreferencesRepository.PreferencesRepository.GetPreferencesObjectAsWritten | src/repository/PreferencesRepository.php:30-47 | null without a row, else a new object holding `ObjectFromRowAsWritten` of the row |
| PreferencesRepository.PreferencesRepository.GetPreferencesObject | src/repository/PreferencesRepository.php:30-47 | null without a row, else a new object holding the row's values in their own fields |
| TaskRepository.DeadlineOrders | src/repository/TaskRepository.php:71 | ascending and descending deadline order are total preorders |
| TaskRepository.NullIfEmpty | src/repository/TaskRepository.php:78 | an empty result becomes null and any other is returned as is |
| TaskRepository.WithFinished | src/repository/TaskRepository.php:147-163 | sets the flag of that task only |
| TaskRepository.WithFinishedIdempotent | src/repository/TaskRepository.php:147-163 | setting the flag twice is setting it once |
| TaskRepository.WithEdit | src/repository/TaskRepository.php:120-145 | only category, deadline, description and the four levels of that task change; id, owner and flag stay |
| TaskRepository.WithoutFinishedOf | src/repository/TaskRepository.php:174-181 | removes exactly that user's finished tasks; every other row stays as it was |
| TaskRepository.MarkingMovesBetweenLists | src/repository/TaskRepository.php:147-163 | marking finished moves a task from its owner's unfinished list to the finished one, and back |
| TaskRepository.TaskRepository.GetTasks | src/repository/TaskRepository.php:13-23 | every row once, an empty list for an empty table |
| TaskRepository.TaskRepository.GetTasksByUserId | src/repository/TaskRepository.php:25-36 | the user's tasks by ascending deadline, each matching row exactly once (equal multisets), null exactly when there are none |
| TaskRepository.TaskRepository.GetTask | src/repository/TaskRepository.php:38-53 | the row with that id, null exactly when there is none |
| TaskRepository.TaskRepository.GetTasksByCategory | src/repository/TaskRepository.php:55-66 | the category's tasks by ascending deadline, each matching row exactly once (equal multisets), null exactly when there are none |
| TaskRepository.TaskRepository.GetUnfinishedTasks | src/repository/TaskRepository.php:68-79 | exactly the user's unfinished tasks by ascending deadline, null exactly when there are none |
| TaskRepository.TaskRepository.GetFinishedTasks | src/repository/TaskRepository.php:81-92 | the user's finished tasks by descending deadline, each matching row exactly once (equal multisets), null exactly when there are none |
| TaskRepository.TaskRepository.CreateTask | src/repository/TaskRepository.php:94-118 | adds one unfinished row under a new id; nothing else changes |
| TaskRepository.TaskRepository.UpdateTask | src/repository/TaskRepository.php:120-145 | the table becomes `WithEdit` of the old one |
| TaskRepository.TaskRepository.MarkTaskAsFinished | src/repository/TaskRepository.php:147-154 | the table becomes `WithFinished(…, true)` of the old one |
| TaskRepository.TaskRepository.MarkTaskAsUnfinished | src/repository/TaskRepository.php:156-163 | the table becomes `WithFinished(…, false)` of the old one |
| TaskRepository.TaskRepository.DeleteTask | src/repository/TaskRepository.php:165-172 | removes only that task |
| TaskRepository.TaskRepository.DeleteFinishedTasksByUserId | src/repository/TaskRepository.php:174-181 | the table becomes `WithoutFinishedOf` of the old one |
| CategoriesRepository.LexLeTotal | src/repository/CategoriesRepository.php:19 | any two names are comparable |
| CategoriesRepository.LexLeTransitive | src/repository/CategoriesRepository.php:19 | the name order is transitive |
| CategoriesRepository.NameAscIsPreorder | src/repository/CategoriesRepository.php:19 | ordering by name is a total preorder |
| CategoriesRepository.CategoriesRepository.GetCategoriesByUserId | src/repository/CategoriesRepository.php:14-25 | the user's categories sorted by name, each matching row exactly once (equal multisets), null exactly when there are none |
| CategoriesRepository.CategoriesRepository.GetCategory | src/repository/CategoriesRepository.php:27-36 | the row with that id, null exactly when there is none |
| CategoriesRepository.CategoriesRepository.CategoryExists | src/repository/CategoriesRepository.php:66-79 | true exactly when a row has that id and that owner |
| CategoriesRepository.CategoriesRepository.CreateCategory | src/repository/CategoriesRepository.php:38-45 | adds one row with the given owner and name under a new id |
| CategoriesRepository.CategoriesRepository.UpdateCategory | src/repository/CategoriesRepository.php:47-55 | only the name of that category changes |
| CategoriesRepository.CategoriesRepository.DeleteCategory | src/repository/CategoriesRepository.php:57-64 | removes only that category |
| UserRepository.FirstMatch | src/repository/UserRepository.php:35-41 | a matching row of the table, null exactly when nothing matches |
| UserRepository.UserRepository.GetUsers | src/repository/UserRepository.php:14-24 | every row of the table exactly once: the multiset of all rows, as long as the table |
| UserRepository.UserRepository.GetUserByEmail | src/repository/UserRepository.php:27-42 | a user with that email, null exactly when there is none |
| UserRepository.UserRepository.GetUserByUsername | src/repository/UserRepository.php:45-59 | email, hashed password, username and role of a user with that name (no id), null exactly when there is none |
| UserRepository.UserRepository.FindUserByUsername | src/repository/UserRepository.php:45-59 | the whole row of a user with that name, null exactly when there is none |
| UserRepository.UserRepository.CreateUser | src/repository/UserRepository.php:62-79 | adds one row under a new id, returns that id; nothing else changes |
| UserRepository.UserRepository.DeleteUserById | src/repository/UserRepository.php:81-90 | removes only that user and reports success |
| SecurityController.Utf8Length | src/controllers/SecurityController.php:75 | `strlen` counts UTF-8 bytes: at least one and at most four per character, one exactly for ASCII |
| SecurityController.Trim | src/controllers/SecurityController.php:70 | the result is the input without its leading and trailing whitespace and NUL characters |
| SecurityController.TrimIdempotent | src/controllers/SecurityController.php:70 | trimming twice is trimming once |
| SecurityController.EightCharacterPasswordAccepted | src/controllers/SecurityController.php:69 | eight characters with a capital, a small letter and a digit match, also with one final line feed |
| SecurityController.SevenCharacterPasswordRejected | src/controllers/SecurityController.php:69 | seven ASCII characters do not match |
| SecurityController.NoCapitalRejected | src/controllers/SecurityController.php:69 | a password without a capital letter does not match |
| SecurityController.InnerLineFeedRejected | src/controllers/SecurityController.php:69 | a line feed before the end does not match |
| SecurityController.SixCharacterPasswordAccepted | src/controllers/SecurityController.php:69 | length counts bytes: six characters of which three are two-byte letters match |
| SecurityController.LengthGuardFirst | src/controllers/SecurityController.php:75-77 | "Niepoprawna długość." exactly when email, password or username exceeds 100 bytes, whatever password2 is |
| SecurityController.RegisterAccepted | src/controllers/SecurityController.php:75-99 | registration passes every guard exactly when lengths, non-empty fields, email syntax, pattern, equal passwords, a free email and a free username all hold |
| SecurityController.RegisterGuardOrder | src/controllers/SecurityController.php:83-99 | a bad email renders the login template; a weak password is reported before a mismatch; a taken email before a taken username |
| SecurityController.ZeroIsAnEmptyField | src/controllers/SecurityController.php:79-81 | an email of "0" counts as an empty field |
| SecurityController.Register | src/controllers/SecurityController.php:61-105 | GET stores a token; a foreign token dies; else the trimmed email and untrimmed passwords go through the guards, and a user is created only when all pass |
| SecurityController.UnknownEmailLooksLikeWrongPassword | src/controllers/SecurityController.php:38-46 | an unknown email and a wrong password get the same answer |
| SecurityController.LoginSucceedsExactly | src/controllers/SecurityController.php:30-46 | login passes exactly when both fields are filled, the email is valid, the user exists and the password verifies |
| SecurityController.SessionUserOf | src/controllers/SecurityController.php:50-55 | the session array holds the row's id, email, username and role |
| SecurityController.Login | src/controllers/SecurityController.php:18-59 | GET stores a token; a foreign token dies; the session user is set, and the browser sent to the dashboard, only when every guard passes |
| TaskListView.MatchCount | public/scripts/dashboard.js:108-116 | no item passes the filter exactly when the count is 0 |
| TaskListView.EmptyFilterShowsAll | public/scripts/dashboard.js:109 | an empty filter lets every item through |
| TaskListView.ShownCountIsMatchCount | public/scripts/dashboard.js:116 | after filtering, the shown items are the matching ones |
| TaskListView.TaskList.ShowMatching | public/scripts/archive.js:54-60 | each item is hidden exactly when the filter rejects it; the item count stays |
| ArchiveScript.FilterTasks | public/scripts/archive.js:51-75 | with no items the messages stay as they were; with items one message shows exactly when nothing is visible; at most one is added |
| DashboardScript.CeilDiv | public/scripts/dashboard.js:69 | the quotient rounded up |
| DashboardScript.FormatDeadline | public/scripts/dashboard.js:65-82 | an overdue count is positive and "Za n dni" has 2 ≤ n ≤ 7 |
| DashboardScript.FormatDeadlineBands | public/scripts/dashboard.js:68-81 | each label holds exactly on its interval of milliseconds to the deadline |
| DashboardScript.OverdueCountsWholeDays | public/scripts/dashboard.js:69-74 | less than a day past reads "Dzisiaj"; an overdue count is the number of whole days past |
| DashboardScript.FormatAllDeadlines | public/scripts/dashboard.js:85-92 | empty texts and "Brak terminu" stay; every other text becomes its label |
| DashboardScript.FilterTasks | public/scripts/dashboard.js:105-129 | afterwards one empty message shows exactly when no item is visible, an empty list included |

## Left out

- HTTP plumbing: `render`, headers, JSON encoding, `exit`/`die` output, routing and `index.php`'s session setup. Responses are datatypes naming the template, message or status.
- The `dashboard` page action and `logout`: they only redirect, render or clear the session.
- Database connections, statements and the `try`/`catch` that turns an exception into a 500 answer.
- Column defaults other than the serial id, the `isfinished` flag and the `userrole` column, which `UserRepository.UserRepository.CreateUser` takes to be null for a new user (its INSERT leaves the column out). Also the collation of category names, which are ordered by code point here.
- Where rows with equal sort keys fall under `ORDER BY`: the model keeps them in ascending key order.
- Where NULL deadlines fall: PostgreSQL's default is assumed (last when ascending, first when descending).
- PreferencesRepository.PreferencesRepository.CreatePreferences: the source runs a plain INSERT with no existence check. The model takes `userid` as the table's key, which no schema here declares. A duplicate insert, which would raise the database's exception (or add a second row without such a constraint), is modelled as `inserted == false` with the table unchanged.
- Dashboard.CalculateTaskPriorities: floating-point arithmetic and the exact behaviour of PHP's `round` on binary floats. Scores are exact reals rounded half away from zero.
- Dashboard.RankByScore: `usort` sorts its array in place; the model sorts a sequence value with a stable insertion sort.
- Dashboard.GetTasks: the session's `username` key is a parameter; `Dashboard.GetTasksForSession` reads it from the session instead (see Findings).
- AccountController.Account: the `finished` value the page gets from `array_shift` (the row's first column) is not modelled. The table's column order is not known.
- AccountController.UpdatePrefs: POST values arrive as numbers. The method models the UPDATE as written, which changes nothing for a user without a preferences row (see Findings). PHP's string-to-float cast is not modelled.
- SecurityController.Register and SecurityController.Login: `filter_var`, `password_hash`, `password_verify`, the token generator and `session_regenerate_id` are parameters or left out. The constructor's redirect of a logged-in user is left out.
- DashboardScript.FormatAllDeadlines: each label uses its own `new Date()`; the model uses one "now" for the whole pass. Date parsing and `toLocaleDateString` are parameters. The parser yields a number for every text, so an unparsable date, whose `new Date` is NaN, makes every comparison false, and is labelled "Invalid Date" in the browser, is not modelled.
- Non-core parts: the `Category` model, the archive, admin and categories controllers, and the categories, admin and account scripts. Also the modal, fetch and reload code of the dashboard and archive scripts.

## Findings

| source | as written | input that shows it | evidently intended | confidence | as-written member | corrected member |
|---|---|---|---|---|---|---|
| src/controllers/DashboardController.php:50 | reads `userid` from the row of `getUserByUsername`, whose SELECT (src/repository/UserRepository.php:48) has no such column; null then reaches the `int` parameter of `getUnfinishedTasks`, a TypeError | any session username that belongs to a user | rank the tasks of that user's id | high, not executed | Dashboard.GetTasksAsWritten | Dashboard.GetTasks |
| src/repository/PreferencesRepository.php:38-46 | passes the row's values by position, one slot off the constructor: the fun weight fills the `deleteFinishedTasks` flag, each later weight the slot before its own, and the deadline weight stays 1.0 | a row with weights fun 0.5, difficulty 1.5, importance 1.0, time 1.0, deadline 2.0 yields an object with fun 1.5 and deadline 1.0 | each stored weight in its own field | high, not executed | PreferencesRepository.AsWrittenCounterexample | PreferencesRepository.PreferencesRepository.GetPreferencesObject |
| src/controllers/DashboardController.php:30 | checks `$_SESSION['username']`, which nothing writes: `login` stores the user array under `user` (src/controllers/SecurityController.php:50-55); `getTasks` therefore answers 401, and the `dashboard` action at line 18 redirects to the login page, for every logged-in user | a successful login followed by a request for the tasks | read the username of the logged-in user's array | high, not executed | Dashboard.LoginThenGetTasksAsWritten | Dashboard.LoginThenGetTasks |
| src/controllers/AccountController.php:70-79 | updates the user's preferences row, but nothing creates one: `ensurePreferencesExist` (src/repository/PreferencesRepository.php:162-167) has no caller and `register` inserts only the user, so the UPDATE matches no row and the submitted weights are lost while the page still redirects | a newly registered user who submits weights 2.0 and then opens the account page, which lists 1.0 | ensure the row before updating it | medium, not executed | AccountController.UpdateWithoutRowIsLost | AccountController.UpdatePrefsEnsured |
