/**
 * The `userpreferences` table of src/repository/PreferencesRepository.php, as
 * a map from user id to that user's row.  Every statement addresses rows by
 * `userid`, so the user id is the key.
 */
module PreferencesRepository {
  import opened Wrappers
  import opened PreferencesModel

  datatype PrefRow = PrefRow(userId: int, bio: Option<string>, influences: Influences)

  /** The row `createPreferences` inserts when given only the user id. */
  function DefaultRow(userId: int): (r: PrefRow)
    ensures r.userId == userId && r.bio.None? && r.influences == Influences(1.0, 1.0, 1.0, 1.0, 1.0)
  {
    PrefRow(userId, None, DefaultInfluences)
  }

  /** The table after `updatePreferences`: bio and all five weights of one user. */
  function WithPreferences(m: map<int, PrefRow>, userId: int, bio: Option<string>, w: Influences)
    : (r: map<int, PrefRow>)
    ensures r.Keys == m.Keys
    ensures forall u | u in m && u != userId :: r[u] == m[u]
    ensures userId in m ==> r[userId] == PrefRow(m[userId].userId, bio, w)
  {
    if userId in m then m[userId := PrefRow(m[userId].userId, bio, w)] else m
  }

  /** The table after `updateInfluences`: the five weights of one user; the bio stays. */
  function WithInfluences(m: map<int, PrefRow>, userId: int, w: Influences): (r: map<int, PrefRow>)
    ensures r.Keys == m.Keys
    ensures forall u | u in m && u != userId :: r[u] == m[u]
    ensures userId in m ==> r[userId].influences == w && r[userId].bio == m[userId].bio
    ensures userId in m ==> r[userId].userId == m[userId].userId
  {
    if userId in m then m[userId := m[userId].(influences := w)] else m
  }

  /** The table after `updateBio`: the bio of one user; the weights stay. */
  function WithBio(m: map<int, PrefRow>, userId: int, bio: Option<string>): (r: map<int, PrefRow>)
    ensures r.Keys == m.Keys
    ensures forall u | u in m && u != userId :: r[u] == m[u]
    ensures userId in m ==> r[userId].bio == bio && r[userId].influences == m[userId].influences
    ensures userId in m ==> r[userId].userId == m[userId].userId
  {
    if userId in m then m[userId := m[userId].(bio := bio)] else m
  }

  /** The table after `ensurePreferencesExist`: a default row is added only when the user has none. */
  function Ensured(m: map<int, PrefRow>, userId: int): (r: map<int, PrefRow>)
    ensures userId in r
    ensures userId in m ==> r == m
    ensures userId !in m ==> r == m[userId := DefaultRow(userId)]
  {
    if userId in m then m else m[userId := DefaultRow(userId)]
  }

  /** Ensuring twice is ensuring once. */
  lemma EnsuredIdempotent(m: map<int, PrefRow>, userId: int)
    ensures Ensured(Ensured(m, userId), userId) == Ensured(m, userId)
  {
  }

  /** The `Preferences` object the source builds from a row, arguments bound by position as written. */
  function ObjectFromRowAsWritten(row: PrefRow): (r: PreferencesRecord)
    ensures r.deleteFinishedTasks <==> row.influences.fun != 0.0
    ensures r.influences.fun == row.influences.difficulty
    ensures r.influences.deadline == 1.0
  {
    var w := row.influences;
    PreferencesRecord(row.userId, row.bio, w.fun != 0.0,
                      Influences(w.difficulty, w.importance, w.time, w.deadline, 1.0))
  }

  /** The evidently intended object: every stored weight in its own slot. */
  function ObjectFromRow(row: PrefRow): (r: PreferencesRecord)
    ensures r.userID == row.userId && r.bio == row.bio && !r.deleteFinishedTasks
    ensures r.influences == row.influences
  {
    PreferencesRecord(row.userId, row.bio, false, row.influences)
  }

  /**
   * As written, the object carries the stored weights only when all five are
   * 1.0: any other row comes back with its weights shifted by one slot.
   */
  lemma AsWrittenShiftsWeights(row: PrefRow)
    ensures ObjectFromRowAsWritten(row).influences == row.influences
        <==> row.influences == DefaultInfluences
  {
  }

  /** A concrete row whose fun and deadline weights the as-written object loses. */
  lemma AsWrittenCounterexample()
    ensures var row := PrefRow(7, None, Influences(0.5, 1.5, 1.0, 1.0, 2.0));
      && ObjectFromRowAsWritten(row).influences.fun == 1.5
      && ObjectFromRowAsWritten(row).influences.deadline == 1.0
      && ObjectFromRow(row).influences.fun == 0.5
      && ObjectFromRow(row).influences.deadline == 2.0
  {
  }

  class PreferencesRepository {
    var prefs: map<int, PrefRow>

    ghost predicate Valid()
      reads this
    {
      forall u | u in prefs :: prefs[u].userId == u
    }

    constructor ()
      ensures Valid() && prefs == map[]
    {
      prefs := map[];
    }

    /** `getPreferences`: the user's row, or null when the user has none. */
    function GetPreferences(userId: int): (r: Option<PrefRow>)
      reads this
      ensures r.None? <==> userId !in prefs
      ensures r.Some? ==> r.value == prefs[userId]
    {
      if userId in prefs then Some(prefs[userId]) else None
    }

    /** `preferencesExist`: the count of the user's rows is positive. */
    function PreferencesExist(userId: int): (b: bool)
      reads this
      ensures b <==> GetPreferences(userId).Some?
    {
      userId in prefs
    }

    /**
     * `createPreferences`: a plain INSERT of the user's row.  The table is
     * keyed by user id here, so `userid` is taken to be unique; a second
     * insert for the same user, which the database would reject with an
     * exception, is answered with `inserted == false` and changes nothing.
     */
    method CreatePreferences(userId: int, bio: Option<string> := None,
                             funInfluence: real := 1.0, difficultyInfluence: real := 1.0,
                             importanceInfluence: real := 1.0, timeInfluence: real := 1.0,
                             deadlineInfluence: real := 1.0)
      returns (inserted: bool)
      requires Valid()
      modifies this
      ensures Valid()
      ensures inserted <==> userId !in old(prefs)
      ensures prefs == if inserted
        then old(prefs)[userId := PrefRow(userId, bio, Influences(funInfluence, difficultyInfluence,
                                             importanceInfluence, timeInfluence, deadlineInfluence))]
        else old(prefs)
    {
      inserted := userId !in prefs;
      if inserted {
        prefs := prefs[userId := PrefRow(userId, bio, Influences(funInfluence, difficultyInfluence,
                                             importanceInfluence, timeInfluence, deadlineInfluence))];
      }
    }

    /** `updatePreferences`: sets bio and all five weights of that user's row only. */
    method UpdatePreferences(userId: int, bio: Option<string>, funInfluence: real,
                             difficultyInfluence: real, importanceInfluence: real,
                             timeInfluence: real, deadlineInfluence: real)
      requires Valid()
      modifies this
      ensures Valid()
      ensures prefs == WithPreferences(old(prefs), userId, bio,
        Influences(funInfluence, difficultyInfluence, importanceInfluence, timeInfluence, deadlineInfluence))
    {
      prefs := WithPreferences(prefs, userId, bio,
        Influences(funInfluence, difficultyInfluence, importanceInfluence, timeInfluence, deadlineInfluence));
    }

    /** `updateInfluences`: sets the five weights of that user's row only. */
    method UpdateInfluences(userId: int, funInfluence: real, difficultyInfluence: real,
                            importanceInfluence: real, timeInfluence: real, deadlineInfluence: real)
      requires Valid()
      modifies this
      ensures Valid()
      ensures prefs == WithInfluences(old(prefs), userId,
        Influences(funInfluence, difficultyInfluence, importanceInfluence, timeInfluence, deadlineInfluence))
    {
      prefs := WithInfluences(prefs, userId,
        Influences(funInfluence, difficultyInfluence, importanceInfluence, timeInfluence, deadlineInfluence));
    }

    /** `updateBio`: sets the bio of that user's row only. */
    method UpdateBio(userId: int, bio: Option<string>)
      requires Valid()
      modifies this
      ensures Valid()
      ensures prefs == WithBio(old(prefs), userId, bio)
    {
      prefs := WithBio(prefs, userId, bio);
    }

    /** `deletePreferences`: removes that user's row only. */
    method DeletePreferences(userId: int)
      requires Valid()
      modifies this
      ensures Valid()
      ensures prefs == old(prefs) - {userId}
    {
      prefs := prefs - {userId};
    }

    /** `ensurePreferencesExist`: creates a default row when the user has none. */
    method EnsurePreferencesExist(userId: int)
      requires Valid()
      modifies this
      ensures Valid()
      ensures prefs == Ensured(old(prefs), userId)
    {
      if !PreferencesExist(userId) {
        var _ := CreatePreferences(userId);
      }
    }

    /** `getPreferencesObject` as written: the row's values bound to the constructor by position. */
    method GetPreferencesObjectAsWritten(userId: int) returns (p: Preferences?)
      ensures p == null <==> userId !in prefs
      ensures p != null ==> fresh(p) && p.Record() == ObjectFromRowAsWritten(prefs[userId])
    {
      match GetPreferences(userId)
      case None =>
        p := null;
      case Some(row) =>
        var w := row.influences;
        p := new Preferences(row.userId, row.bio, w.fun != 0.0, w.difficulty, w.importance,
                             w.time, w.deadline);
    }

    /** `getPreferencesObject` with every stored weight passed to its own parameter. */
    method GetPreferencesObject(userId: int) returns (p: Preferences?)
      ensures p == null <==> userId !in prefs
      ensures p != null ==> fresh(p) && p.Record() == ObjectFromRow(prefs[userId])
    {
      match GetPreferences(userId)
      case None =>
        p := null;
      case Some(row) =>
        var w := row.influences;
        p := new Preferences(row.userId, row.bio, funInfluence := w.fun,
                             difficultyInfluence := w.difficulty, importanceInfluence := w.importance,
                             timeInfluence := w.time, deadlineInfluence := w.deadline);
    }
  }
}
