/**
 * The parts of `$_SESSION` that src/controllers/AppController.php and the
 * controllers built on it read and write: the logged-in user's array under
 * `user`, the CSRF token under `csrf`, and the `username` key the dashboard
 * reads.
 */
module AppSession {
  import opened Wrappers

  /** The array `login` stores under `$_SESSION['user']`. */
  datatype SessionUser = SessionUser(id: int, email: string, username: string, role: Option<string>)

  class Session {
    var user: Option<SessionUser>
    var csrf: Option<string>
    /** `$_SESSION['username']`, which src/controllers/DashboardController.php checks. */
    var username: Option<string>

    /** A fresh session holds no user, no token and no username. */
    constructor ()
      ensures user.None? && csrf.None? && username.None?
    {
      user := None;
      csrf := None;
      username := None;
    }

    /** `getUserCookie`: the stored user array, or null. */
    function GetUserCookie(): Option<SessionUser>
      reads this
    {
      user
    }

    /** `isAuthenticated`: a user array is set exactly when the cookie is not null. */
    function IsAuthenticated(): (b: bool)
      reads this
      ensures b <==> GetUserCookie().Some?
    {
      user.Some?
    }
  }
}
