/**
 * `UserRepository`: the user-management search, the active-status toggle
 * and the student status update.
 */
module Users {
  import opened Wrappers
  import opened Seqs
  import opened Text
  import opened Dates
  import opened Models
  import opened KeywordQuery

  /** Username, first and last name, and the title when it is set (a null title matches nothing). */
  function UserFields(u: PortalUser): seq<string> {
    [u.username, u.firstName, u.lastName] + (if u.title.Some? then [u.title.value] else [])
  }

  /** Python truthiness of `user_types`: given and not empty. */
  predicate TypesGiven(userTypes: Option<seq<int>>) {
    userTypes.Some? && userTypes.value != []
  }

  /** `user_type__in=user_types`; a user without a type is never in the list. */
  predicate TypeListed(u: PortalUser, userTypes: Option<seq<int>>) {
    TypesGiven(userTypes) ==> u.userType.Some? && u.userType.value in userTypes.value
  }

  predicate Managed(u: PortalUser) {
    !u.isStaff && !u.isSuperuser
  }

  function ManagedUser(): PortalUser -> bool {
    (u: PortalUser) => Managed(u)
  }

  function QueryHolds(q: Q): PortalUser -> bool {
    (u: PortalUser) => Eval(q, UserFields(u))
  }

  function ManagedMatching(words: seq<string>): PortalUser -> bool {
    (u: PortalUser) => Managed(u) && MatchesAny(words, UserFields(u))
  }

  function OfTypes(types: seq<int>): PortalUser -> bool {
    (u: PortalUser) => u.userType.Some? && u.userType.value in types
  }

  function Listed(words: seq<string>, userTypes: Option<seq<int>>): PortalUser -> bool {
    (u: PortalUser) => Managed(u) && MatchesAny(words, UserFields(u)) && TypeListed(u, userTypes)
  }

  /** The users a search lists, in table order. */
  function SelectUsers(users: seq<PortalUser>, words: seq<string>, userTypes: Option<seq<int>>): (r: seq<PortalUser>)
    ensures forall u :: u in r ==> !u.isStaff && !u.isSuperuser
    ensures forall u :: u in r <==>
      u in users && Managed(u) && MatchesAny(words, UserFields(u)) && TypeListed(u, userTypes)
  {
    Filter(users, Listed(words, userTypes))
  }

  /** `get_filtered_users`: staff and superusers excluded, then the keyword and type filters. */
  method GetFilteredUsers(users: seq<PortalUser>, keywords: Option<string>, userTypes: Option<seq<int>>)
    returns (r: seq<PortalUser>)
    ensures r == SelectUsers(users, SearchWords(keywords), userTypes)
  {
    var words := SearchWords(keywords);
    r := Filter(users, ManagedUser());
    if KeywordsGiven(keywords) {
      var q := BuildQuery(Words(keywords.value));
      FilterFilter(users, ManagedUser(), QueryHolds(q), ManagedMatching(words));
      r := Filter(r, QueryHolds(q));
    } else {
      FilterAgree(users, ManagedUser(), ManagedMatching(words));
    }
    assert r == Filter(users, ManagedMatching(words));
    if TypesGiven(userTypes) {
      FilterFilter(users, ManagedMatching(words), OfTypes(userTypes.value), Listed(words, userTypes));
      r := Filter(r, OfTypes(userTypes.value));
    } else {
      FilterAgree(users, ManagedMatching(words), Listed(words, userTypes));
    }
  }

  /** Searching for a user's first name, typed as one word, lists that user. */
  lemma SearchByFirstNameFindsUser(users: seq<PortalUser>, u: PortalUser)
    requires u in users && Managed(u)
    requires u.firstName != [] && NoSpace(u.firstName)
    ensures u in SelectUsers(users, SearchWords(Some(u.firstName)), None)
  {
    WordsOfSingleWord(u.firstName);
    FieldEqualToWordMatches([u.firstName], UserFields(u), 0, 1);
  }

  /**
   * `toggle_user_active_status` on the user table: `Ok(true)` with the flag
   * set to `activate` when it differed, `Ok(false)` and no change when it
   * already matched, not found for an unknown username.
   */
  function Toggle(users: map<string, PortalUser>, username: string, activate: bool)
    : (r: Result<(bool, map<string, PortalUser>), NotFound>)
    ensures r.Err? <==> username !in users
    ensures r.Ok? ==> (r.value.0 <==> users[username].isActive != activate)
    ensures r.Ok? ==> r.value.1.Keys == users.Keys && r.value.1[username] == users[username].(isActive := activate)
    ensures r.Ok? ==> forall n :: n in users && n != username ==> r.value.1[n] == users[n]
  {
    if username !in users then Err(NotFound)
    else if activate != users[username].isActive then
      Ok((true, users[username := users[username].(isActive := activate)]))
    else Ok((false, users))
  }

  /** Repeating the same toggle reports no change and changes nothing. */
  lemma ToggleTwice(users: map<string, PortalUser>, username: string, activate: bool)
    requires username in users
    ensures var after := Toggle(users, username, activate).value.1;
      Toggle(after, username, activate) == Ok((false, after))
  {
  }

  /** Deactivating and then activating again restores the table. */
  lemma DeactivateThenActivate(users: map<string, PortalUser>, username: string)
    requires username in users && users[username].isActive
    ensures var off := Toggle(users, username, false).value.1;
      Toggle(off, username, true) == Ok((true, users))
  {
    var off := Toggle(users, username, false).value.1;
    assert off[username := off[username].(isActive := true)] == users;
  }

  method ToggleUserActiveStatus(store: UserStore, username: string, activate: bool)
    returns (r: Result<bool, NotFound>)
    requires store.Valid()
    modifies store
    ensures store.Valid()
    ensures match Toggle(old(store.users), username, activate)
      case Err(e) => r == Err(e) && store.users == old(store.users)
      case Ok((changed, after)) => r == Ok(changed) && store.users == after
    ensures store.studentProfiles == old(store.studentProfiles) && store.nextId == old(store.nextId)
  {
    if username !in store.users {
      return Err(NotFound);
    }
    var user := store.users[username];
    if activate != user.isActive {
      assert EmailsUnique(store.users[username := user.(isActive := activate)]) by {
        var after := store.users[username := user.(isActive := activate)];
        assert forall n :: n in after ==> after[n].email == store.users[n].email;
      }
      store.users := store.users[username := user.(isActive := activate)];
      return Ok(true);
    }
    return Ok(false);
  }

  /** Why a status update fails: no student profile (404), or a save the expiry date cannot fit. */
  datatype StatusUpdateError = NoProfile | SaveFailed(cause: YearOutOfRange)

  /**
   * `update_student_profile_status` on the profile table: the new status is
   * set and the profile saved, which recomputes its expiry date.
   */
  function SetProfileStatus(profiles: map<nat, StudentProfile>, user: nat, status: string)
    : (r: Result<map<nat, StudentProfile>, StatusUpdateError>)
    requires user in profiles ==> Dates.Valid(profiles[user].registrationDate)
    ensures r == Err(NoProfile) <==> user !in profiles
    ensures r.Err? && r.error.SaveFailed? <==>
      user in profiles && profiles[user].registrationDate.year + REGISTRATION_YEARS > 9999
    ensures r.Ok? ==> r.value.Keys == profiles.Keys
    ensures r.Ok? ==> r.value[user] == profiles[user].(
      status := status,
      registrationExpiryDate := AddYears(profiles[user].registrationDate, REGISTRATION_YEARS))
    ensures r.Ok? ==> forall u :: u in profiles && u != user ==> r.value[u] == profiles[u]
  {
    if user !in profiles then Err(NoProfile)
    else match SaveStudentProfile(profiles[user].(status := status))
      case Err(e) => Err(SaveFailed(e))
      case Ok(saved) => Ok(profiles[user := saved])
  }

  /** Setting the same status again changes nothing more. */
  lemma SetProfileStatusTwice(profiles: map<nat, StudentProfile>, user: nat, status: string)
    requires user in profiles && Dates.Valid(profiles[user].registrationDate)
    requires SetProfileStatus(profiles, user, status).Ok?
    ensures var after := SetProfileStatus(profiles, user, status).value;
      SetProfileStatus(after, user, status) == Ok(after)
  {
    var after := SetProfileStatus(profiles, user, status).value;
    var again := SetProfileStatus(after, user, status);
    assert after[user].registrationDate == profiles[user].registrationDate;
    assert again.Ok? && again.value.Keys == after.Keys;
    assert again.value[user] == after[user];
    assert forall u :: u in after ==> again.value[u] == after[u];
    assert again.value == after;
  }

  method UpdateStudentProfileStatus(store: UserStore, user: PortalUser, status: string)
    returns (r: Result<bool, StatusUpdateError>)
    requires store.Valid()
    modifies store
    ensures store.Valid()
    ensures match SetProfileStatus(old(store.studentProfiles), user.id, status)
      case Err(e) => r == Err(e) && store.studentProfiles == old(store.studentProfiles)
      case Ok(after) => r == Ok(true) && store.studentProfiles == after
    ensures store.users == old(store.users) && store.nextId == old(store.nextId)
  {
    if user.id !in store.studentProfiles {
      return Err(NoProfile);
    }
    var profile := store.studentProfiles[user.id].(status := status);
    var saved := SaveStudentProfile(profile);
    if saved.Err? {
      return Err(SaveFailed(saved.error));
    }
    store.studentProfiles := store.studentProfiles[user.id := saved.value];
    return Ok(true);
  }
}
