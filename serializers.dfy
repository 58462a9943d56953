/**
 * The user-profile serializers of the REST API: the profile `update`
 * methods that assign every non-read-only key of the validated data, the
 * user-type label, the nested profile added on output and accepted on
 * input, and the user update that also updates the matching profile.
 *
 * A model instance is modelled by its attribute dictionary and validated
 * data by its key/value pairs in order; `setattr` is a map update.
 */
module Serializers {
  import opened Wrappers
  import opened Dates
  import opened Models

  /** A JSON-like value of the serializers' data. */
  datatype Value = Text(s: string) | Number(n: int) | Day(d: Date) | Null | Object(fields: seq<(string, Value)>)

  /** Python truthiness of a value. */
  predicate Truthy(v: Value) {
    match v
    case Text(s) => s != ""
    case Number(n) => n != 0
    case Day(_) => true
    case Null => false
    case Object(fs) => fs != []
  }

  type Instance = map<string, Value>
  type Data = seq<(string, Value)>

  const PROGRAM_FIELDS: seq<string> := ["title", "description"]
  const PROGRAM_READ_ONLY: seq<string> := PROGRAM_FIELDS
  const TEACHER_PROFILE_FIELDS: seq<string> := ["biography"]
  const TEACHER_PROFILE_READ_ONLY: seq<string> := []
  const STUDENT_PROFILE_FIELDS: seq<string> := ["status", "program", "registration_date", "registration_expiry_date"]
  const STUDENT_PROFILE_READ_ONLY: seq<string> := ["program", "registration_date", "registration_expiry_date"]

  /** The declared fields a client may write. */
  function WritableFields(fields: seq<string>, readOnly: seq<string>): (w: seq<string>)
    ensures forall f :: f in w <==> f in fields && f !in readOnly
  {
    if fields == [] then []
    else (if fields[0] in readOnly then [] else [fields[0]]) + WritableFields(fields[1..], readOnly)
  }

  /** No field of a program can be written through its serializer; only a student's status can. */
  lemma WritableProfileFields()
    ensures WritableFields(PROGRAM_FIELDS, PROGRAM_READ_ONLY) == []
    ensures WritableFields(STUDENT_PROFILE_FIELDS, STUDENT_PROFILE_READ_ONLY) == ["status"]
    ensures WritableFields(TEACHER_PROFILE_FIELDS, TEACHER_PROFILE_READ_ONLY) == ["biography"]
  {
    var fs, ro := STUDENT_PROFILE_FIELDS, STUDENT_PROFILE_READ_ONLY;
    assert fs[1] in ro && fs[2] in ro && fs[3] in ro;
    assert fs[0] !in ro by { assert forall k :: 0 <= k < |ro| ==> |ro[k]| != |fs[0]|; }
    assert WritableFields(fs[3..], ro) == [];
    assert WritableFields(fs[2..], ro) == [];
    assert WritableFields(fs[1..], ro) == [];
    assert WritableFields(PROGRAM_FIELDS[1..], PROGRAM_READ_ONLY) == [];
  }

  /** The attributes after `setattr` of each pair of `data` in order, skipping read-only keys. */
  function Assigned(inst: Instance, data: Data, readOnly: seq<string>): (r: Instance)
    decreases |data|
  {
    if data == [] then inst
    else
      var prev := Assigned(inst, data[..|data| - 1], readOnly);
      var (k, v) := data[|data| - 1];
      if k in readOnly then prev else prev[k := v]
  }

  /** A read-only key, or one the data does not mention, keeps its old value (or stays absent). */
  lemma {:induction false} AssignedKeeps(inst: Instance, data: Data, readOnly: seq<string>, k: string)
    requires k in readOnly || forall i :: 0 <= i < |data| ==> data[i].0 != k
    ensures k in Assigned(inst, data, readOnly) <==> k in inst
    ensures k in inst ==> Assigned(inst, data, readOnly)[k] == inst[k]
    decreases |data|
  {
    if data != [] {
      AssignedKeeps(inst, data[..|data| - 1], readOnly, k);
    }
  }

  /** A writable key ends with the value of its last pair in the data. */
  lemma {:induction false} AssignedTakesLastWrite(inst: Instance, data: Data, readOnly: seq<string>, i: nat)
    requires i < |data| && data[i].0 !in readOnly
    requires forall j :: i < j < |data| ==> data[j].0 != data[i].0
    ensures data[i].0 in Assigned(inst, data, readOnly) && Assigned(inst, data, readOnly)[data[i].0] == data[i].1
    decreases |data|
  {
    if i < |data| - 1 {
      AssignedTakesLastWrite(inst, data[..|data| - 1], readOnly, i);
    }
  }

  /** The loop `for attr, value in validated_data.items(): if attr not in read_only_fields: setattr(...)`. */
  method UpdateInstance(instance: Instance, data: Data, readOnly: seq<string>) returns (updated: Instance)
    ensures updated == Assigned(instance, data, readOnly)
  {
    updated := instance;
    var i := 0;
    while i < |data|
      invariant 0 <= i <= |data|
      invariant updated == Assigned(instance, data[..i], readOnly)
    {
      var (attr, value) := data[i];
      assert data[..i + 1][..i] == data[..i];
      if attr !in readOnly {
        updated := updated[attr := value];
      }
      i := i + 1;
    }
    assert data[..i] == data;
  }

  /** `TeacherProfileSerializer.update`: every key is written, the teacher profile has no read-only field. */
  method TeacherProfileUpdate(instance: Instance, data: Data) returns (updated: Instance)
    ensures updated == Assigned(instance, data, TEACHER_PROFILE_READ_ONLY)
  {
    updated := UpdateInstance(instance, data, TEACHER_PROFILE_READ_ONLY);
  }

  /** The attributes of a stored student profile: a registration date Python can hold. */
  predicate StudentInstance(inst: Instance) {
    "registration_date" in inst && inst["registration_date"].Day? && Dates.Valid(inst["registration_date"].d)
  }

  /**
   * `StudentProfile.save` on the attributes: the expiry date is recomputed
   * from the registration date, and the save raises when that lands after
   * year 9999.
   */
  function SaveStudentInstance(inst: Instance): (r: Result<Instance, YearOutOfRange>)
    requires StudentInstance(inst)
    ensures var d := inst["registration_date"].d;
      && (r.Err? <==> d.year + REGISTRATION_YEARS > 9999)
      && (r.Ok? ==> r.value == inst["registration_expiry_date" := Day(AddYears(d, REGISTRATION_YEARS))])
  {
    var d := inst["registration_date"].d;
    if d.year + REGISTRATION_YEARS > 9999 then Err(YearOutOfRange(d.year + REGISTRATION_YEARS))
    else Ok(inst["registration_expiry_date" := Day(AddYears(d, REGISTRATION_YEARS))])
  }

  /**
   * The attribute-level save and `Models.SaveStudentProfile` agree: for a
   * profile with the same registration date they fail together, with the
   * same error, and otherwise store the same expiry date.
   */
  lemma SaveStudentInstanceAgrees(inst: Instance, p: StudentProfile)
    requires StudentInstance(inst) && p.registrationDate == inst["registration_date"].d
    ensures SaveStudentInstance(inst).Err? <==> SaveStudentProfile(p).Err?
    ensures SaveStudentInstance(inst).Err? ==> SaveStudentInstance(inst).error == SaveStudentProfile(p).error
    ensures SaveStudentInstance(inst).Ok? ==>
      SaveStudentInstance(inst).value["registration_expiry_date"] == Day(SaveStudentProfile(p).value.registrationExpiryDate)
  {
  }

  /**
   * The student profile after an update: the writable keys of `data`
   * assigned, then the save, which keeps the registration date and
   * recomputes the expiry date from it.
   */
  function StudentUpdated(instance: Instance, data: Data): (r: Result<Instance, YearOutOfRange>)
    requires StudentInstance(instance)
    ensures var d := instance["registration_date"].d;
      && (r.Err? <==> d.year + REGISTRATION_YEARS > 9999)
      && (r.Ok? ==> r.value == Assigned(instance, data, STUDENT_PROFILE_READ_ONLY)[
                               "registration_expiry_date" := Day(AddYears(d, REGISTRATION_YEARS))])
  {
    AssignedKeeps(instance, data, STUDENT_PROFILE_READ_ONLY, "registration_date");
    SaveStudentInstance(Assigned(instance, data, STUDENT_PROFILE_READ_ONLY))
  }

  /** `StudentProfileSerializer.update`: program and registration dates are skipped, then the profile is saved. */
  method StudentProfileUpdate(instance: Instance, data: Data) returns (r: Result<Instance, YearOutOfRange>)
    requires StudentInstance(instance)
    ensures r == StudentUpdated(instance, data)
  {
    var updated := UpdateInstance(instance, data, STUDENT_PROFILE_READ_ONLY);
    AssignedKeeps(instance, data, STUDENT_PROFILE_READ_ONLY, "registration_date");
    r := SaveStudentInstance(updated);
  }

  /**
   * A student-profile update never changes the program or the registration
   * date, and a saved update holds the expiry date six years after that
   * registration date, whatever expiry date was sent.
   */
  lemma StudentUpdateKeepsRegistration(instance: Instance, data: Data)
    requires StudentInstance(instance)
    ensures forall k :: k in STUDENT_PROFILE_READ_ONLY && k != "registration_expiry_date" ==>
      StudentUpdated(instance, data).Ok? ==>
        (k in StudentUpdated(instance, data).value <==> k in instance)
        && (k in instance ==> StudentUpdated(instance, data).value[k] == instance[k])
    ensures StudentUpdated(instance, data).Ok? ==>
      StudentUpdated(instance, data).value["registration_expiry_date"]
        == Day(AddYears(instance["registration_date"].d, REGISTRATION_YEARS))
  {
    forall k | k in STUDENT_PROFILE_READ_ONLY
      ensures (k in Assigned(instance, data, STUDENT_PROFILE_READ_ONLY) <==> k in instance)
        && (k in instance ==> Assigned(instance, data, STUDENT_PROFILE_READ_ONLY)[k] == instance[k])
    {
      AssignedKeeps(instance, data, STUDENT_PROFILE_READ_ONLY, k);
    }
  }

  /** A teacher-profile update with a biography sets it. */
  lemma TeacherUpdateSetsBiography(instance: Instance, biography: Value)
    ensures Assigned(instance, [("biography", biography)], TEACHER_PROFILE_READ_ONLY) == instance["biography" := biography]
  {
    assert [("biography", biography)][..0] == [];
  }

  /** The `user_type_display` value: the choice label, or the stored number outside the choices. */
  datatype TypeDisplay = Label(text: string) | Raw(value: int)

  /** `get_user_type_display`: nothing when the user has no (truthy) type. */
  function GetUserTypeDisplay(u: PortalUser): (r: Option<TypeDisplay>)
    ensures r.None? <==> !HasUserType(u)
    ensures IsTeacher(u) ==> r == Some(Label("Teacher"))
    ensures IsStudent(u) ==> r == Some(Label("Student"))
  {
    if !HasUserType(u) then None
    else if u.userType.value == TEACHER then Some(Label("Teacher"))
    else if u.userType.value == STUDENT then Some(Label("Student"))
    else Some(Raw(u.userType.value))
  }

  /** The serialized profile. */
  datatype ProfileData =
    | TeacherData(biography: Option<string>)
    | StudentData(status: string, program: nat, registrationDate: Date, registrationExpiryDate: Date)

  datatype Representation = Representation(
    id: nat, username: string, email: Option<string>, firstName: string, lastName: string,
    title: Option<string>, userTypeDisplay: Option<TypeDisplay>, profile: Option<ProfileData>)

  /**
   * `to_representation`: the user's fields plus the teacher or student
   * profile. A teacher or student without the related profile row raises.
   */
  function ToRepresentation(u: PortalUser, teacher: Option<TeacherProfile>, student: Option<StudentProfile>)
    : (r: Result<Representation, NotFound>)
    ensures r.Err? <==> (IsTeacher(u) && teacher.None?) || (IsStudent(u) && student.None?)
    ensures r.Ok? ==> (r.value.profile.Some? <==> IsTeacher(u) || IsStudent(u))
    ensures r.Ok? && IsTeacher(u) ==> r.value.profile == Some(TeacherData(teacher.value.biography))
    ensures r.Ok? && IsStudent(u) ==>
      r.value.profile == Some(StudentData(student.value.status, student.value.program, student.value.registrationDate,
                                          student.value.registrationExpiryDate))
    ensures r.Ok? ==> (r.value.id == u.id && r.value.username == u.username && r.value.email == u.email
                       && r.value.firstName == u.firstName && r.value.lastName == u.lastName
                       && r.value.title == u.title && r.value.userTypeDisplay == GetUserTypeDisplay(u))
  {
    var base := Representation(u.id, u.username, u.email, u.firstName, u.lastName, u.title,
                               GetUserTypeDisplay(u), None);
    if IsTeacher(u) then
      if teacher.None? then Err(NotFound) else Ok(base.(profile := Some(TeacherData(teacher.value.biography))))
    else if IsStudent(u) then
      if student.None? then Err(NotFound)
      else
        var s := student.value;
        Ok(base.(profile := Some(StudentData(s.status, s.program, s.registrationDate, s.registrationExpiryDate))))
    else Ok(base)
  }

  /** `to_internal_value`: the declared fields, plus the raw "profile" input when it is truthy. */
  function ToInternalValue(internal: Instance, data: map<string, Value>): (r: Instance)
    requires "profile" !in internal
    ensures "profile" in r <==> "profile" in data && Truthy(data["profile"])
    ensures "profile" in r ==> r["profile"] == data["profile"]
    ensures forall k :: k != "profile" ==> (k in r <==> k in internal) && (k in internal ==> r[k] == internal[k])
  {
    if "profile" in data && Truthy(data["profile"]) then internal["profile" := data["profile"]] else internal
  }

  datatype ProfileKind = TeacherKind | StudentKind

  /** `_get_update_profile_serializer`: which profile serializer, if any, applies. */
  function UpdateProfileSerializerFor(u: PortalUser): (r: Option<ProfileKind>)
    ensures r == Some(TeacherKind) <==> IsTeacher(u)
    ensures r == Some(StudentKind) <==> IsStudent(u)
    ensures r.None? <==> !IsTeacher(u) && !IsStudent(u)
  {
    if IsTeacher(u) then Some(TeacherKind) else if IsStudent(u) then Some(StudentKind) else None
  }

  /** The pairs of `data` whose key is one of `fields`. */
  function Declared(data: Data, fields: seq<string>): (r: Data)
    ensures forall i :: 0 <= i < |r| ==> r[i].0 in fields && r[i] in data
    ensures forall i :: 0 <= i < |data| && data[i].0 in fields ==> data[i] in r
  {
    if data == [] then []
    else (if data[0].0 in fields then [data[0]] else []) + Declared(data[1..], fields)
  }

  /**
   * `validated_data.pop("profile", None)`: the value under "profile", if
   * any; as in `Assigned`, a repeated key takes its last value.
   */
  function Lookup(data: Data, key: string): (r: Option<Value>)
    ensures r.Some? <==> exists i :: 0 <= i < |data| && data[i].0 == key
    ensures r.Some? ==> exists i :: 0 <= i < |data| && data[i] == (key, r.value)
                                    && forall j :: i < j < |data| ==> data[j].0 != key
  {
    if data == [] then None
    else if data[|data| - 1].0 == key then Some(data[|data| - 1].1)
    else Lookup(data[..|data| - 1], key)
  }

  /** The data without its "profile" pair. */
  function Without(data: Data, key: string): (r: Data)
    ensures forall i :: 0 <= i < |r| ==> r[i].0 != key && r[i] in data
    ensures forall i :: 0 <= i < |data| && data[i].0 != key ==> data[i] in r
  {
    if data == [] then []
    else (if data[0].0 == key then [] else [data[0]]) + Without(data[1..], key)
  }

  /** The popped profile never becomes an attribute of the user. */
  lemma UserUpdateIgnoresProfile(user: Instance, data: Data)
    ensures "profile" in Assigned(user, Without(data, "profile"), []) <==> "profile" in user
  {
    AssignedKeeps(user, Without(data, "profile"), [], "profile");
  }

  /**
   * `AbstractUser.clean`: the email attribute is normalized by the manager's
   * `normalize_email`; a null email becomes "".
   */
  function CleanUser(inst: Instance): (r: Instance)
    ensures r.Keys == inst.Keys + {"email"}
    ensures forall k :: k in inst && k != "email" ==> r[k] == inst[k]
    ensures "email" in inst && inst["email"].Text? ==> r["email"] == Text(NormalizeEmail(Some(inst["email"].s)))
    ensures !("email" in inst && inst["email"].Text?) ==> r["email"] == Text("")
  {
    var email := if "email" in inst && inst["email"].Text? then Some(inst["email"].s) else None;
    inst["email" := Text(NormalizeEmail(email))]
  }

  /** Cleaning a cleaned user changes nothing. */
  lemma CleanUserIdempotent(inst: Instance)
    ensures CleanUser(CleanUser(inst)) == CleanUser(inst)
  {
    var email := if "email" in inst && inst["email"].Text? then Some(inst["email"].s) else None;
    var n := NormalizeEmail(email);
    var cleaned := inst["email" := Text(n)];
    assert "email" in cleaned && cleaned["email"] == Text(n);
    NormalizeEmailIdempotent(email);
    assert NormalizeEmail(Some(cleaned["email"].s)) == n;
    UpdateWithSameValue(cleaned, "email", Text(n));
  }

  /** Writing back the value a key already holds leaves the attributes as they were. */
  lemma UpdateWithSameValue(inst: Instance, k: string, v: Value)
    requires k in inst && inst[k] == v
    ensures inst[k := v] == inst
  {
  }

  datatype UpdateError =
    | UserNotSaved                        // the user's `save` raised (a unique username or email taken)
    | MissingProfile                      // the user has no related profile row of its type
    | InvalidProfile                      // `is_valid(raise_exception=True)` raised
    | ProfileNotSaved(cause: YearOutOfRange)  // the student profile's `save` raised

  /**
   * `UserProfileSerializer.update`, in one transaction: the user's
   * attributes are assigned, cleaned and saved, then a truthy profile is
   * validated against the user's profile serializer and saved. `saveRaises`
   * and `profileInvalid` are the answers of the user's `save` and of
   * `is_valid`; a profile that is not an object is invalid. On error nothing
   * is kept.
   */
  method UpdateUserProfile(u: PortalUser, user: Instance, teacherProfile: Option<Instance>,
                           studentProfile: Option<Instance>, data: Data, saveRaises: bool, profileInvalid: bool)
    returns (r: Result<(Instance, Option<Instance>, Option<Instance>), UpdateError>)
    requires studentProfile.Some? ==> StudentInstance(studentProfile.value)
    ensures var profile := Lookup(data, "profile");
      var applies := profile.Some? && Truthy(profile.value) && UpdateProfileSerializerFor(u).Some?;
      var chosen := if IsTeacher(u) then teacherProfile else studentProfile;
      var valid := applies && chosen.Some? && !profileInvalid && profile.value.Object?;
      && (r == Err(UserNotSaved) <==> saveRaises)
      && (r == Err(MissingProfile) <==> !saveRaises && applies && chosen.None?)
      && (r == Err(InvalidProfile) <==> !saveRaises && applies && chosen.Some? && (profileInvalid || !profile.value.Object?))
      && (r.Err? && r.error.ProfileNotSaved? <==>
            !saveRaises && valid && IsStudent(u)
            && StudentUpdated(studentProfile.value, Declared(profile.value.fields, STUDENT_PROFILE_FIELDS)).Err?)
      && (r.Ok? ==>
            && r.value.0 == CleanUser(Assigned(user, Without(data, "profile"), []))
            && r.value.1 == (if valid && IsTeacher(u)
                             then Some(Assigned(teacherProfile.value, Declared(profile.value.fields, TEACHER_PROFILE_FIELDS),
                                                TEACHER_PROFILE_READ_ONLY))
                             else teacherProfile)
            && r.value.2 == (if valid && IsStudent(u)
                             then Some(StudentUpdated(studentProfile.value,
                                                      Declared(profile.value.fields, STUDENT_PROFILE_FIELDS)).value)
                             else studentProfile))
  {
    var profile := Lookup(data, "profile");
    var updatedUser := UpdateInstance(user, Without(data, "profile"), []);
    updatedUser := CleanUser(updatedUser);
    if saveRaises {
      return Err(UserNotSaved);
    }
    var teacher, student := teacherProfile, studentProfile;
    if profile.Some? && Truthy(profile.value) {
      var kind := UpdateProfileSerializerFor(u);
      if kind.Some? {
        var chosen := if kind.value == TeacherKind then teacherProfile else studentProfile;
        if chosen.None? {
          return Err(MissingProfile);
        }
        if profileInvalid || !profile.value.Object? {
          return Err(InvalidProfile);
        }
        var fields := profile.value.fields;
        if kind.value == TeacherKind {
          var updated := TeacherProfileUpdate(teacherProfile.value, Declared(fields, TEACHER_PROFILE_FIELDS));
          teacher := Some(updated);
        } else {
          var saved := StudentProfileUpdate(studentProfile.value, Declared(fields, STUDENT_PROFILE_FIELDS));
          if saved.Err? {
            return Err(ProfileNotSaved(saved.error));
          }
          student := Some(saved.value);
        }
      }
    }
    r := Ok((updatedUser, teacher, student));
  }
}
