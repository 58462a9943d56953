/**
 * The portal's records and the rules that `models.py` attaches to them:
 * the user-type predicates, the full-name format, the required-field check
 * of `PortalUserManager.create_user`, the expiry date set by
 * `StudentProfile.save` and the start/end check of `AcademicTerm.clean`.
 *
 * Records are rows of an in-memory store; a reference to another row is its
 * primary key, except where a query joins the related row in
 * (`select_related`), in which case the row itself is embedded.
 */
module Models {
  import opened Wrappers
  import opened Text
  import opened Dates

  const TEACHER: int := 1
  const STUDENT: int := 2

  datatype PortalUser = PortalUser(
    id: nat,
    username: string,
    email: Option<string>,
    firstName: string,
    lastName: string,
    title: Option<string>,      // one of "", "Mr.", "Ms.", "Mrs.", "Dr.", "Prof." or null
    userType: Option<int>,      // TEACHER, STUDENT or null
    isActive: bool,
    isStaff: bool,
    isSuperuser: bool,
    groups: set<string>)

  datatype StudentProfile = StudentProfile(
    id: nat,
    user: nat,
    status: string,
    program: nat,
    registrationDate: Date,
    registrationExpiryDate: Date)

  datatype TeacherProfile = TeacherProfile(id: nat, user: nat, biography: Option<string>)

  datatype Semester = Fall | Spring

  /** Where a term stands relative to today, as stored with the term. */
  datatype TermStatus = NotStarted | InProgress | Finished

  /** Start and end are datetimes, modelled as instants on one integer time line. */
  datatype AcademicTerm = AcademicTerm(
    id: nat, semester: Semester, year: int, start: int, end: int, status: TermStatus)

  datatype Course = Course(id: nat, title: string, description: string, program: nat, teacher: nat)

  /** A course offering with its term joined in. */
  datatype Offering = Offering(id: nat, course: nat, term: AcademicTerm)

  datatype Grade = Pass | Fail | NotGraded

  /** An enrollment with its offering (and that offering's term) joined in. */
  datatype Enrollment = Enrollment(id: nat, student: nat, offering: Offering, grade: Grade, enrolledAt: int)

  datatype Feedback = Feedback(id: nat, student: nat, course: nat, comments: string, updatedAt: int)

  datatype Notification = Notification(
    id: nat, user: nat, message: string, linkPath: Option<string>, linkText: Option<string>,
    isRead: bool, createdAt: int)

  datatype QASessionStatus = Active | Ended

  /** The live Q&A session of one course. */
  datatype QASession = QASession(course: nat, roomName: string, status: QASessionStatus)

  /** One message of a room's question log. */
  datatype QAQuestion = QAQuestion(roomName: string, text: string, sender: string, timestamp: int)

  // ---------------------------------------------------------------- user type

  predicate IsTeacher(u: PortalUser) {
    u.userType == Some(TEACHER)
  }

  predicate IsStudent(u: PortalUser) {
    u.userType == Some(STUDENT)
  }

  /** Python truthiness of `user_type`: set and not 0. */
  predicate HasUserType(u: PortalUser) {
    u.userType.Some? && u.userType.value != 0
  }

  /** No user is both a teacher and a student, and either one has a user type. */
  lemma TeacherStudentExclusive(u: PortalUser)
    ensures !(IsTeacher(u) && IsStudent(u))
    ensures (IsTeacher(u) || IsStudent(u)) ==> HasUserType(u)
  {
  }

  // ---------------------------------------------------------------- full name

  /** `get_full_name`: "{title} {first} {last}" stripped, or the username when the user has no type. */
  function GetFullName(u: PortalUser): (name: string)
    ensures !HasUserType(u) ==> name == u.username
    ensures HasUserType(u) ==> name == [] || (!IsSpace(name[0]) && !IsSpace(name[|name| - 1]))
  {
    if HasUserType(u) then
      var title := if u.title.Some? then u.title.value else "";
      Strip(title + " " + u.firstName + " " + u.lastName)
    else u.username
  }

  /** With a title, the full name is title, first and last name separated by single blanks. */
  lemma FullNameWithTitle(u: PortalUser)
    requires HasUserType(u) && u.title.Some? && u.title.value != [] && !IsSpace(u.title.value[0])
    requires u.lastName != [] && !IsSpace(u.lastName[|u.lastName| - 1])
    ensures GetFullName(u) == u.title.value + " " + u.firstName + " " + u.lastName
  {
    var s := u.title.value + " " + u.firstName + " " + u.lastName;
    assert s[0] == u.title.value[0];
    assert s[|s| - 1] == u.lastName[|u.lastName| - 1];
    StripTrimmed(s);
  }

  /** Without a title (null or the empty choice), the leading blank is stripped: "first last". */
  lemma FullNameWithoutTitle(u: PortalUser)
    requires HasUserType(u) && (u.title.None? || u.title.value == [])
    requires u.firstName != [] && !IsSpace(u.firstName[0])
    requires u.lastName != [] && !IsSpace(u.lastName[|u.lastName| - 1])
    ensures GetFullName(u) == u.firstName + " " + u.lastName
  {
    var s := u.firstName + " " + u.lastName;
    assert s[0] == u.firstName[0];
    assert s[|s| - 1] == u.lastName[|u.lastName| - 1];
    assert "" + " " + u.firstName + " " + u.lastName == " " + s;
    StripLeadingBlank(s);
  }

  // ------------------------------------------------------- create_user check

  const VALIDATION_ERR_REQUIRED: string := "required"

  /** Python truthiness of an optional text: present and not empty. */
  predicate Given(s: Option<string>) {
    s.Some? && s.value != ""
  }

  /**
   * The `errors` dictionary `create_user` fills: one "required" error per
   * missing or empty field among email, first_name, last_name and user_type,
   * each check independent of the others.
   */
  method RequiredFieldErrors(email: Option<string>, firstName: Option<string>, lastName: Option<string>,
                             userType: Option<int>)
    returns (errors: map<string, string>)
    ensures errors.Keys <= {"email", "first_name", "last_name", "user_type"}
    ensures "email" in errors <==> !Given(email)
    ensures "first_name" in errors <==> !Given(firstName)
    ensures "last_name" in errors <==> !Given(lastName)
    ensures "user_type" in errors <==> userType.None? || userType.value == 0
    ensures forall k :: k in errors ==> errors[k] == VALIDATION_ERR_REQUIRED
    ensures errors == map[] <==> RequiredGiven(email, firstName, lastName, userType)
  {
    errors := map[];
    if !Given(email) {
      errors := errors["email" := VALIDATION_ERR_REQUIRED];
    }
    if !Given(firstName) {
      errors := errors["first_name" := VALIDATION_ERR_REQUIRED];
    }
    if !Given(lastName) {
      errors := errors["last_name" := VALIDATION_ERR_REQUIRED];
    }
    if userType.None? || userType.value == 0 {
      errors := errors["user_type" := VALIDATION_ERR_REQUIRED];
    }
  }

  /** Every field `create_user` requires is given: no "required" error is raised. */
  predicate RequiredGiven(email: Option<string>, firstName: Option<string>, lastName: Option<string>,
                          userType: Option<int>) {
    Given(email) && Given(firstName) && Given(lastName) && userType.Some? && userType.value != 0
  }

  /**
   * `BaseUserManager.normalize_email`: a missing email becomes ""; an email
   * with an "@" is stripped and its domain part (after the last "@")
   * lower-cased; one without an "@" is kept as given.
   */
  function NormalizeEmail(email: Option<string>): (r: string)
    ensures email.None? ==> r == ""
  {
    var e := if email.Some? then email.value else "";
    var t := Strip(e);
    match LastIndex(t, '@')
    case None => e
    case Some(k) => t[..k] + "@" + Lower(t[k + 1..])
  }

  /** An email without "@" is kept exactly as given, blanks included. */
  lemma NormalizeEmailWithoutAt(e: string)
    requires forall j :: 0 <= j < |e| ==> e[j] != '@'
    ensures NormalizeEmail(Some(e)) == e
  {
    var l := StripLeft(e);
    var t := StripRight(l);
    var i := |e| - |l|;
    assert t == Strip(e) && l == e[i..] && t == l[..|t|];
    forall k | 0 <= k < |t|
      ensures t[k] != '@'
    {
      assert t[k] == l[k];
      assert l[k] == e[i + k];
    }
    assert LastIndex(t, '@').None?;
  }

  /** An email that is already trimmed keeps its local part and has its domain lower-cased. */
  lemma NormalizeEmailDomain(e: string, k: nat)
    requires k < |e| && e[k] == '@' && forall j :: k < j < |e| ==> e[j] != '@'
    requires !IsSpace(e[0]) && !IsSpace(e[|e| - 1])
    ensures NormalizeEmail(Some(e)) == e[..k] + "@" + Lower(e[k + 1..])
  {
    StripTrimmed(e);
    assert LastIndex(e, '@') == Some(k);
  }

  /** Normalizing an email twice is normalizing it once. */
  lemma NormalizeEmailIdempotent(email: Option<string>)
    ensures NormalizeEmail(Some(NormalizeEmail(email))) == NormalizeEmail(email)
  {
    var e := if email.Some? then email.value else "";
    var t := Strip(e);
    match LastIndex(t, '@')
    case None =>
      assert NormalizeEmail(email) == e;
      assert NormalizeEmail(Some(e)) == e;
    case Some(k) =>
      var n := t[..k] + "@" + Lower(t[k + 1..]);
      assert NormalizeEmail(email) == n;
      NormalizedIsNormal(t, k);
      assert NormalizeEmail(Some(n)) == n;
  }

  /** A trimmed email rebuilt around its last "@" with a lower-case domain is left as it is. */
  lemma NormalizedIsNormal(t: string, k: nat)
    requires k < |t| && t[k] == '@' && forall j :: k < j < |t| ==> t[j] != '@'
    requires !IsSpace(t[0]) && !IsSpace(t[|t| - 1])
    ensures var r := t[..k] + "@" + Lower(t[k + 1..]); NormalizeEmail(Some(r)) == r
  {
    var d := t[k + 1..];
    var r := t[..k] + "@" + Lower(d);
    RebuiltShape(t, k);
    NormalizeEmailDomain(r, k);
    LowerIdempotent(d);
    assert r[..k] + "@" + Lower(r[k + 1..]) == r;
  }

  /** The rebuilt email is trimmed, its last "@" is where it was, and its parts are the local part and the lower-case domain. */
  lemma RebuiltShape(t: string, k: nat)
    requires k < |t| && t[k] == '@' && forall j :: k < j < |t| ==> t[j] != '@'
    requires !IsSpace(t[0]) && !IsSpace(t[|t| - 1])
    ensures var r := t[..k] + "@" + Lower(t[k + 1..]);
      && k < |r| && r[k] == '@' && (forall j :: k < j < |r| ==> r[j] != '@')
      && !IsSpace(r[0]) && !IsSpace(r[|r| - 1])
      && r[..k] == t[..k] && r[k + 1..] == Lower(t[k + 1..])
  {
    var d := t[k + 1..];
    var r := t[..k] + "@" + Lower(d);
    assert |r| == |t| && r[k] == '@';
    forall j | k < j < |r|
      ensures r[j] != '@'
    {
      assert r[j] == LowerChar(d[j - k - 1]) && d[j - k - 1] == t[j];
    }
    assert !IsSpace(r[0]) by {
      if k > 0 { assert r[0] == t[0]; }
    }
    assert !IsSpace(r[|r| - 1]) by {
      if d != [] { assert r[|r| - 1] == LowerChar(t[|t| - 1]); }
    }
    assert r[..k] == t[..k] && r[k + 1..] == Lower(d);
  }

  datatype CreateUserError =
    | MissingFields(errors: map<string, string>)  // the ValidationError raised by create_user
    | EmptyUsername                                // the ValueError of `_create_user`
    | UsernameTaken                                // the unique constraint on username
    | EmailTaken                                   // the unique constraint on email

  /** Some stored user already has this email. */
  predicate EmailInUse(users: map<string, PortalUser>, email: string) {
    exists name :: name in users && users[name].email == Some(email)
  }

  /** No two users share an email; any number of them may have none. */
  predicate EmailsUnique(users: map<string, PortalUser>) {
    forall n, m :: n in users && m in users && n != m && users[n].email.Some? ==> users[n].email != users[m].email
  }

  /** A new username with an email nobody has keeps the emails unique. */
  lemma AddUserKeepsEmailsUnique(users: map<string, PortalUser>, u: PortalUser)
    requires EmailsUnique(users) && u.username !in users
    requires u.email.Some? ==> !EmailInUse(users, u.email.value)
    ensures EmailsUnique(users[u.username := u])
  {
    var after := users[u.username := u];
    forall n, m | n in after && m in after && n != m && after[n].email.Some?
      ensures after[n].email != after[m].email
    {
      if n == u.username {
        assert users[m].email != Some(u.email.value);
      } else if m == u.username {
        assert users[n].email != u.email;
      }
    }
  }

  /** The user table: users keyed by their (unique) username. */
  class UserStore {
    var users: map<string, PortalUser>
    var studentProfiles: map<nat, StudentProfile>  // keyed by the profile's user id (one-to-one)
    var nextId: nat

    /**
     * Usernames key the users, ids are below `nextId`, no two users share an
     * email, and each student profile is stored under its user with a
     * registration date Python can hold.
     */
    ghost predicate Valid()
      reads this
    {
      (forall name :: name in users ==> users[name].username == name && users[name].id < nextId)
      && EmailsUnique(users)
      && (forall uid :: uid in studentProfiles ==>
            studentProfiles[uid].user == uid && Dates.Valid(studentProfiles[uid].registrationDate))
    }

    constructor ()
      ensures Valid() && users == map[] && studentProfiles == map[] && nextId == 0
    {
      users := map[];
      studentProfiles := map[];
      nextId := 0;
    }

    /**
     * `PortalUserManager.create_user`: validates the required fields, reporting
     * all missing ones together; then `_create_user` refuses an empty
     * username, normalizes the email and saves, which the unique username and
     * email columns may refuse. Nothing is created on any error. A created
     * user is active, neither staff nor superuser, in no group.
     */
    method CreateUser(username: string, email: Option<string>, firstName: Option<string>,
                      lastName: Option<string>, userType: Option<int>, title: Option<string>)
      returns (r: Result<PortalUser, CreateUserError>)
      requires Valid()
      modifies this
      ensures Valid()
      ensures r.Err? ==> users == old(users) && nextId == old(nextId)
      ensures r.Err? && r.error.MissingFields? ==>
        r.error.errors != map[] &&
        ("email" in r.error.errors <==> !Given(email)) &&
        ("first_name" in r.error.errors <==> !Given(firstName)) &&
        ("last_name" in r.error.errors <==> !Given(lastName)) &&
        ("user_type" in r.error.errors <==> userType.None? || userType.value == 0)
      ensures r.Err? && r.error.MissingFields? <==> !RequiredGiven(email, firstName, lastName, userType)
      ensures r == Err(EmptyUsername) <==> RequiredGiven(email, firstName, lastName, userType) && username == ""
      ensures r == Err(UsernameTaken) <==>
        RequiredGiven(email, firstName, lastName, userType) && username != "" && username in old(users)
      ensures r == Err(EmailTaken) <==>
        RequiredGiven(email, firstName, lastName, userType) && username != "" && username !in old(users)
        && EmailInUse(old(users), NormalizeEmail(email))
      ensures r.Ok? <==>
        RequiredGiven(email, firstName, lastName, userType) && username != "" && username !in old(users)
        && !EmailInUse(old(users), NormalizeEmail(email))
      ensures r.Ok? && firstName.Some? && lastName.Some? ==>
        && r.value == PortalUser(old(nextId), username, Some(NormalizeEmail(email)), firstName.value,
                                 lastName.value, title, userType, true, false, false, {})
        && users == old(users)[username := r.value]
        && nextId == old(nextId) + 1
      ensures studentProfiles == old(studentProfiles)
    {
      var errors := RequiredFieldErrors(email, firstName, lastName, userType);
      if errors != map[] {
        return Err(MissingFields(errors));
      }
      if username == "" {
        return Err(EmptyUsername);
      }
      var normalized := NormalizeEmail(email);
      if username in users {
        return Err(UsernameTaken);
      }
      if EmailInUse(users, normalized) {
        return Err(EmailTaken);
      }
      var u := PortalUser(nextId, username, Some(normalized), firstName.value, lastName.value, title,
                          userType, true, false, false, {});
      SaveNewUser(u);
      r := Ok(u);
    }

    /**
     * The save at the end of `_create_user`: a user with a fresh username,
     * the next id and an email nobody has is stored, keeping the table valid.
     */
    method SaveNewUser(u: PortalUser)
      requires Valid()
      requires u.username !in users && u.id == nextId
      requires u.email.Some? ==> !EmailInUse(users, u.email.value)
      modifies this
      ensures Valid()
      ensures users == old(users)[u.username := u] && nextId == old(nextId) + 1
      ensures studentProfiles == old(studentProfiles)
    {
      var after := users[u.username := u];
      AddUserKeepsEmailsUnique(users, u);
      forall name | name in after ensures after[name].username == name && after[name].id < nextId + 1 {
        if name != u.username {
          assert after[name] == users[name];
        }
      }
      users := after;
      nextId := nextId + 1;
    }
  }

  // --------------------------------------------------- StudentProfile.save

  const REGISTRATION_YEARS: int := 6

  /**
   * `StudentProfile.save`: the expiry date is always recomputed as
   * registration date plus six years; a registration in a year after 9993
   * has no such date and the save raises.
   */
  function SaveStudentProfile(p: StudentProfile): (r: Result<StudentProfile, YearOutOfRange>)
    requires Valid(p.registrationDate)
    ensures r.Err? <==> p.registrationDate.year + REGISTRATION_YEARS > 9999
    ensures r.Err? ==> r.error == YearOutOfRange(p.registrationDate.year + REGISTRATION_YEARS)
    ensures r.Ok? ==> r.value.registrationExpiryDate == AddYears(p.registrationDate, REGISTRATION_YEARS)
    ensures r.Ok? ==> r.value == p.(registrationExpiryDate := r.value.registrationExpiryDate)
  {
    var y := p.registrationDate.year + REGISTRATION_YEARS;
    if y > 9999 then Err(YearOutOfRange(y))
    else Ok(p.(registrationExpiryDate := AddYears(p.registrationDate, REGISTRATION_YEARS)))
  }

  /**
   * Whatever expiry date a profile held, the saved one is six years after
   * registration (28 February for a 29 February registration), and saving
   * again changes nothing.
   */
  lemma SaveStudentProfileExpiry(p: StudentProfile)
    requires Valid(p.registrationDate) && p.registrationDate.year <= 9999 - REGISTRATION_YEARS
    ensures SaveStudentProfile(p).Ok?
    ensures var e := SaveStudentProfile(p).value.registrationExpiryDate;
      Valid(e) && e.year == p.registrationDate.year + REGISTRATION_YEARS
      && e.month == p.registrationDate.month
      && (e.day != p.registrationDate.day ==> p.registrationDate.month == 2 && p.registrationDate.day == 29 && e.day == 28)
    ensures SaveStudentProfile(SaveStudentProfile(p).value) == SaveStudentProfile(p)
  {
    AddYearsProperties(p.registrationDate, REGISTRATION_YEARS);
  }

  // ------------------------------------------------------ AcademicTerm.clean

  const VALIDATION_ERR_INVALID: string := "invalid"

  /** The ValidationError `clean` raises, attached to the start_datetime field. */
  datatype TermError = TermError(field: string, code: string, value: int)

  /** `AcademicTerm.clean`: rejects a term that starts after it ends; equal start and end pass. */
  function CleanTerm(t: AcademicTerm): (r: Option<TermError>)
    ensures r.Some? <==> t.start > t.end
    ensures r.Some? ==> r.value == TermError("start_datetime", VALIDATION_ERR_INVALID, t.start)
  {
    if t.start > t.end then Some(TermError("start_datetime", VALIDATION_ERR_INVALID, t.start)) else None
  }
}
