/** `IsTeacherGroupOrAdminUser`: who may call the teacher API. */
module ApiPermissions {
  import opened Models

  const TEACHER_GROUP: string := "teacher"

  /** `has_permission`: authenticated, and in the teacher group or staff or superuser. */
  predicate HasPermission(authenticated: bool, u: PortalUser) {
    var isTeacher := TEACHER_GROUP in u.groups;
    var isManager := u.isStaff || u.isSuperuser;
    authenticated && (isTeacher || isManager)
  }

  /** Anonymous users never pass; teachers, staff and superusers do; everyone else is refused. */
  lemma PermissionCases(authenticated: bool, u: PortalUser)
    ensures !authenticated ==> !HasPermission(authenticated, u)
    ensures authenticated && TEACHER_GROUP in u.groups ==> HasPermission(authenticated, u)
    ensures authenticated && (u.isStaff || u.isSuperuser) ==> HasPermission(authenticated, u)
    ensures TEACHER_GROUP !in u.groups && !u.isStaff && !u.isSuperuser ==> !HasPermission(authenticated, u)
  {
  }

  /** The user type does not decide: a teacher-typed user outside the teacher group is refused. */
  lemma UserTypeIsNotTheGroup(u: PortalUser)
    requires IsTeacher(u) && TEACHER_GROUP !in u.groups && !u.isStaff && !u.isSuperuser
    ensures !HasPermission(true, u)
  {
  }
}
