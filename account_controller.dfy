/**
 * The preference page and form of src/controllers/AccountController.php:
 * `account` lists the five influence weights of the logged-in user, and
 * `updatePrefs` validates the five submitted weights against [0, 2] before
 * storing them.  POST values arrive already cast to numbers; a field that is
 * absent from the form is `None`.
 */
module AccountController {
  import opened Wrappers
  import opened PreferencesModel
  import opened PreferencesRepository
  import opened AppSession

  /** One entry of the page's influence list: label, form key and current value. */
  datatype InfluenceEntry = InfluenceEntry(name: string, key: string, value: real)

  /** The form keys, in the order both actions use them. */
  const InfluenceKeys: seq<string> :=
    ["funInfluence", "difficultyInfluence", "importanceInfluence", "timeInfluence", "deadlineInfluence"]

  /** The five weights in the order fun, difficulty, importance, time, deadline. */
  function WeightsOf(w: Influences): (r: seq<real>)
    ensures |r| == 5
  {
    [w.fun, w.difficulty, w.importance, w.time, w.deadline]
  }

  /** Every weight lies in [0, 2] exactly when each listed weight does. */
  lemma InRangeIsEachWeight(w: Influences)
    ensures InRange(w) <==> forall i :: 0 <= i < 5 ==> 0.0 <= WeightsOf(w)[i] <= 2.0
  {
    var s := WeightsOf(w);
    assert s[0] == w.fun && s[1] == w.difficulty && s[2] == w.importance;
    assert s[3] == w.time && s[4] == w.deadline;
  }

  /** The influence list of `account`: five fixed entries, each the stored weight or 1.0 without a row. */
  function AccountInfluences(row: Option<PrefRow>): (r: seq<InfluenceEntry>)
    ensures |r| == 5
    ensures forall i :: 0 <= i < 5 ==> r[i].key == InfluenceKeys[i]
    ensures row.None? ==> forall i :: 0 <= i < 5 ==> r[i].value == 1.0
    ensures row.Some? ==> forall i :: 0 <= i < 5 ==> r[i].value == WeightsOf(row.value.influences)[i]
  {
    var w := if row.Some? then row.value.influences else DefaultInfluences;
    [ InfluenceEntry("jest mnożona przez", "funInfluence", w.fun),
      InfluenceEntry("Trudność jest mnożona przez", "difficultyInfluence", w.difficulty),
      InfluenceEntry("Istotnośc jest mnożona przez", "importanceInfluence", w.importance),
      InfluenceEntry("Długość zadania jest mnożona przez", "timeInfluence", w.time),
      InfluenceEntry("Dni pozostałe do terminu są mnożone przez", "deadlineInfluence", w.deadline) ]
  }

  datatype AccountPage = AccountLogin | AccountView(influences: seq<InfluenceEntry>)

  /** `account`: the login page without a session user, else that user's influence list. */
  method Account(session: Session, repo: PreferencesRepository) returns (page: AccountPage)
    ensures !session.IsAuthenticated() <==> page == AccountLogin
    ensures session.IsAuthenticated() ==>
      page == AccountView(AccountInfluences(repo.GetPreferences(session.user.value.id)))
  {
    if !session.IsAuthenticated() {
      return AccountLogin;
    }
    var userId := session.GetUserCookie().value.id;
    page := AccountView(AccountInfluences(repo.GetPreferences(userId)));
  }

  /** The submitted form: whether a `finished` field is present, and each influence if present. */
  datatype PrefsForm = PrefsForm(
    finished: bool,
    funInfluence: Option<real>,
    difficultyInfluence: Option<real>,
    importanceInfluence: Option<real>,
    timeInfluence: Option<real>,
    deadlineInfluence: Option<real>)

  /** The weights the form asks for, a missing field standing for 1.0. */
  function FormInfluences(f: PrefsForm): (w: Influences)
    ensures f.funInfluence.None? ==> w.fun == 1.0
    ensures f.difficultyInfluence.None? ==> w.difficulty == 1.0
    ensures f.importanceInfluence.None? ==> w.importance == 1.0
    ensures f.timeInfluence.None? ==> w.time == 1.0
    ensures f.deadlineInfluence.None? ==> w.deadline == 1.0
  {
    Influences(f.funInfluence.GetOr(1.0), f.difficultyInfluence.GetOr(1.0),
               f.importanceInfluence.GetOr(1.0), f.timeInfluence.GetOr(1.0),
               f.deadlineInfluence.GetOr(1.0))
  }

  /** A PHP bool handed to a `?string` parameter: true becomes "1", false the empty string. */
  function BoolAsString(b: bool): (s: string)
    ensures b <==> s == "1"
    ensures !b <==> s == ""
  {
    if b then "1" else ""
  }

  /** The range check of `updatePrefs`: stops at the first weight below 0 or above 2. */
  method ValidateInfluences(influences: seq<real>) returns (ok: bool)
    ensures ok <==> forall i :: 0 <= i < |influences| ==> 0.0 <= influences[i] <= 2.0
  {
    var i := 0;
    while i < |influences|
      invariant 0 <= i <= |influences|
      invariant forall j :: 0 <= j < i ==> 0.0 <= influences[j] <= 2.0
    {
      if influences[i] < 0.0 || influences[i] > 2.0 {
        return false;
      }
      i := i + 1;
    }
    return true;
  }

  datatype PrefsResponse = PrefsLogin | InvalidValues | RedirectToAccount

  function StatusCode(r: PrefsResponse): int {
    match r
    case PrefsLogin => 200
    case InvalidValues => 400
    case RedirectToAccount => 302
  }

  /**
   * `updatePrefs`: without a session user, the login page and no change; a
   * weight outside [0, 2], "Invalid values" and no change; otherwise the
   * user's row gets the five weights in order, and the `finished` flag lands
   * in the bio column as "1" or "".
   */
  method UpdatePrefs(session: Session, repo: PreferencesRepository, form: PrefsForm)
    returns (resp: PrefsResponse)
    requires repo.Valid()
    modifies repo
    ensures repo.Valid()
    ensures !session.IsAuthenticated() ==> resp == PrefsLogin && repo.prefs == old(repo.prefs)
    ensures session.IsAuthenticated() && !InRange(FormInfluences(form)) ==>
      resp == InvalidValues && repo.prefs == old(repo.prefs)
    ensures session.IsAuthenticated() && InRange(FormInfluences(form)) ==>
      resp == RedirectToAccount
      && repo.prefs == WithPreferences(old(repo.prefs), session.user.value.id,
                                       Some(BoolAsString(form.finished)), FormInfluences(form))
  {
    if !session.IsAuthenticated() {
      return PrefsLogin;
    }
    var userId := session.GetUserCookie().value.id;
    var finished := form.finished;
    var w := FormInfluences(form);
    var ok := ValidateInfluences(WeightsOf(w));
    InRangeIsEachWeight(w);
    if !ok {
      return InvalidValues;
    }
    repo.UpdatePreferences(userId, Some(BoolAsString(finished)), w.fun, w.difficulty, w.importance,
                           w.time, w.deadline);
    resp := RedirectToAccount;
  }

  /** The bounds are inclusive: all weights 0 or all weights 2 pass, 2.01 or -0.01 does not. */
  lemma InclusiveBounds()
    ensures InRange(FormInfluences(PrefsForm(false, Some(0.0), Some(0.0), Some(0.0), Some(0.0), Some(0.0))))
    ensures InRange(FormInfluences(PrefsForm(false, Some(2.0), Some(2.0), Some(2.0), Some(2.0), Some(2.0))))
    ensures !InRange(FormInfluences(PrefsForm(false, None, None, None, None, Some(2.01))))
    ensures !InRange(FormInfluences(PrefsForm(false, Some(-0.01), None, None, None, None)))
  {
  }

  /** The form the page submits when the user changes nothing. */
  function ResubmittedForm(entries: seq<InfluenceEntry>, finished: bool): PrefsForm
    requires |entries| == 5
  {
    PrefsForm(finished, Some(entries[0].value), Some(entries[1].value), Some(entries[2].value),
              Some(entries[3].value), Some(entries[4].value))
  }

  /**
   * Page and form agree: submitting the values `account` shows stores the
   * weights already stored (or the defaults when the user had no row).
   */
  lemma ResubmitKeepsWeights(row: Option<PrefRow>, finished: bool)
    ensures var w := FormInfluences(ResubmittedForm(AccountInfluences(row), finished));
      row.Some? ==> w == row.value.influences
    ensures var w := FormInfluences(ResubmittedForm(AccountInfluences(row), finished));
      row.None? ==> w == DefaultInfluences
  {
    var e := AccountInfluences(row);
    if row.Some? {
      var s := WeightsOf(row.value.influences);
      assert e[0].value == s[0] && e[1].value == s[1] && e[2].value == s[2];
      assert e[3].value == s[3] && e[4].value == s[4];
    } else {
      assert e[0].value == 1.0 && e[1].value == 1.0 && e[2].value == 1.0;
      assert e[3].value == 1.0 && e[4].value == 1.0;
    }
  }

  /**
   * After a successful update of a user who already has a preferences row,
   * the page lists exactly the weights that were submitted.
   */
  lemma UpdateThenViewShowsWeights(m: map<int, PrefRow>, userId: int, bio: Option<string>, w: Influences)
    requires userId in m
    ensures var shown := AccountInfluences(Some(WithPreferences(m, userId, bio, w)[userId]));
      forall i :: 0 <= i < 5 ==> shown[i].value == WeightsOf(w)[i]
  {
  }

  /** The row `account` looks up in a preferences table. */
  function RowOf(m: map<int, PrefRow>, userId: int): (r: Option<PrefRow>)
    ensures r.None? <==> userId !in m
    ensures r.Some? ==> r.value == m[userId]
  {
    if userId in m then Some(m[userId]) else None
  }

  /**
   * For a user without a preferences row the UPDATE of `updatePrefs` matches
   * no row: the table stays as it was, and the page goes on listing the 1.0
   * defaults whatever was submitted.  Nothing in the application creates that
   * row: `ensurePreferencesExist` has no caller and `register` adds only the
   * user.
   */
  lemma UpdateWithoutRowIsLost(m: map<int, PrefRow>, userId: int, bio: Option<string>, w: Influences)
    requires userId !in m
    ensures WithPreferences(m, userId, bio, w) == m
    ensures var shown := AccountInfluences(RowOf(WithPreferences(m, userId, bio, w), userId));
      forall i :: 0 <= i < 5 ==> shown[i].value == WeightsOf(DefaultInfluences)[i]
  {
  }

  /**
   * `updatePrefs` with the user's row ensured first, as `ensurePreferencesExist`
   * offers: the guards are unchanged, and on success the row exists and holds
   * the submitted weights.
   */
  method UpdatePrefsEnsured(session: Session, repo: PreferencesRepository, form: PrefsForm)
    returns (resp: PrefsResponse)
    requires repo.Valid()
    modifies repo
    ensures repo.Valid()
    ensures !session.IsAuthenticated() ==> resp == PrefsLogin && repo.prefs == old(repo.prefs)
    ensures session.IsAuthenticated() && !InRange(FormInfluences(form)) ==>
      resp == InvalidValues && repo.prefs == old(repo.prefs)
    ensures session.IsAuthenticated() && InRange(FormInfluences(form)) ==>
      var userId := session.user.value.id;
      resp == RedirectToAccount
      && repo.prefs == WithPreferences(Ensured(old(repo.prefs), userId), userId,
                                       Some(BoolAsString(form.finished)), FormInfluences(form))
  {
    if !session.IsAuthenticated() {
      return PrefsLogin;
    }
    var userId := session.GetUserCookie().value.id;
    var w := FormInfluences(form);
    var ok := ValidateInfluences(WeightsOf(w));
    InRangeIsEachWeight(w);
    if !ok {
      return InvalidValues;
    }
    repo.EnsurePreferencesExist(userId);
    repo.UpdatePreferences(userId, Some(BoolAsString(form.finished)), w.fun, w.difficulty, w.importance,
                           w.time, w.deadline);
    resp := RedirectToAccount;
  }

  /**
   * With the row ensured first, every user, with or without a row before,
   * is shown exactly the submitted weights after the update.
   */
  lemma EnsuredUpdateThenViewShowsWeights(m: map<int, PrefRow>, userId: int, bio: Option<string>, w: Influences)
    ensures var shown := AccountInfluences(RowOf(WithPreferences(Ensured(m, userId), userId, bio, w), userId));
      forall i :: 0 <= i < 5 ==> shown[i].value == WeightsOf(w)[i]
  {
    UpdateThenViewShowsWeights(Ensured(m, userId), userId, bio, w);
  }
}
