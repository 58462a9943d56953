/**
 * The notification tasks: composing one notification per user and
 * inserting them in bulk, marking notifications as read, and choosing the
 * students to notify when a course's live Q&A starts.
 */
module Tasks {
  import opened Wrappers
  import opened Seqs
  import opened Models
  import opened AcademicTerms

  /**
   * The list comprehension of `send_notifications`, with the ids and the
   * creation instant that `bulk_create` gives the rows: the i-th
   * notification is for `users[i]`, all carry the same message and link,
   * and none is read yet.
   */
  function Compose(users: seq<nat>, message: string, linkPath: Option<string>, linkText: Option<string>,
                   firstId: nat, now: int): (ns: seq<Notification>)
    ensures |ns| == |users|
    ensures forall i :: 0 <= i < |ns| ==>
      && ns[i].user == users[i] && ns[i].id == firstId + i
      && ns[i].message == message && ns[i].linkPath == linkPath && ns[i].linkText == linkText
      && !ns[i].isRead && ns[i].createdAt == now
    decreases |users|
  {
    if users == [] then []
    else [Notification(firstId, users[0], message, linkPath, linkText, false, now)]
         + Compose(users[1..], message, linkPath, linkText, firstId + 1, now)
  }

  /** The rows after `filter(id__in=ids).update(is_read=True)`. */
  function MarkRead(rows: seq<Notification>, ids: set<nat>): (r: seq<Notification>)
    ensures |r| == |rows|
    ensures forall i :: 0 <= i < |r| ==> r[i].id == rows[i].id
    ensures forall i :: 0 <= i < |r| && rows[i].id in ids ==> r[i] == rows[i].(isRead := true)
    ensures forall i :: 0 <= i < |r| && rows[i].id !in ids ==> r[i] == rows[i]
  {
    if rows == [] then []
    else [if rows[0].id in ids then rows[0].(isRead := true) else rows[0]] + MarkRead(rows[1..], ids)
  }

  /** Marking the same ids again changes nothing. */
  lemma MarkReadIdempotent(rows: seq<Notification>, ids: set<nat>)
    ensures MarkRead(MarkRead(rows, ids), ids) == MarkRead(rows, ids)
  {
  }

  /** Marking never turns a read notification back to unread, and only listed rows change. */
  lemma MarkReadMonotone(rows: seq<Notification>, ids: set<nat>)
    ensures forall i :: 0 <= i < |rows| ==> (MarkRead(rows, ids)[i].isRead <==> rows[i].isRead || rows[i].id in ids)
    ensures Count(MarkRead(rows, ids), (n: Notification) => !n.isRead) <= Count(rows, (n: Notification) => !n.isRead)
  {
    var r := MarkRead(rows, ids);
    UnreadShrinks(rows, r);
  }

  lemma {:induction false} UnreadShrinks(rows: seq<Notification>, r: seq<Notification>)
    requires |r| == |rows|
    requires forall i :: 0 <= i < |r| ==> (r[i].isRead <== rows[i].isRead)
    ensures Count(r, (n: Notification) => !n.isRead) <= Count(rows, (n: Notification) => !n.isRead)
  {
    if rows != [] {
      UnreadShrinks(rows[1..], r[1..]);
    }
  }

  /** The notification table; `bulk_create` gives the new rows consecutive ids. */
  class NotificationTable {
    var rows: seq<Notification>
    var nextId: nat

    ghost predicate Valid()
      reads this
    {
      forall i :: 0 <= i < |rows| ==> rows[i].id < nextId
    }

    constructor ()
      ensures Valid() && rows == []
    {
      rows := [];
      nextId := 1;
    }

    /** `send_notifications`. */
    method SendNotifications(users: seq<nat>, message: string, linkPath: Option<string>,
                             linkText: Option<string>, now: int)
      requires Valid()
      modifies this
      ensures Valid()
      ensures rows == old(rows) + Compose(users, message, linkPath, linkText, old(nextId), now)
      ensures nextId == old(nextId) + |users|
    {
      var created := Compose(users, message, linkPath, linkText, nextId, now);
      rows := rows + created;
      nextId := nextId + |users|;
    }

    /** `mark_notifications_as_read`. */
    method MarkNotificationsAsRead(ids: set<nat>)
      requires Valid()
      modifies this
      ensures Valid() && nextId == old(nextId)
      ensures rows == MarkRead(old(rows), ids)
    {
      rows := MarkRead(rows, ids);
    }
  }

  /** The profile has an enrollment in an offering of `course` during `term`. */
  predicate EnrolledDuring(enrollments: seq<Enrollment>, course: nat, term: AcademicTerm, p: StudentProfile) {
    exists i :: 0 <= i < |enrollments| && enrollments[i].student == p.id
      && enrollments[i].offering.course == course && enrollments[i].offering.term.id == term.id
  }

  function EnrolledFilter(enrollments: seq<Enrollment>, course: nat, term: AcademicTerm): StudentProfile -> bool {
    (p: StudentProfile) => EnrolledDuring(enrollments, course, term, p)
  }

  function UsersOf(profiles: seq<StudentProfile>): (us: seq<nat>)
    ensures |us| == |profiles| && forall i :: 0 <= i < |us| ==> us[i] == profiles[i].user
  {
    seq(|profiles|, i requires 0 <= i < |profiles| => profiles[i].user)
  }

  /** The profile belongs to user `u` and is enrolled in the course during `term`. */
  function EnrolledUser(enrollments: seq<Enrollment>, course: nat, term: AcademicTerm, u: nat): StudentProfile -> bool {
    (p: StudentProfile) => p.user == u && EnrolledDuring(enrollments, course, term, p)
  }

  function OfUser(u: nat): StudentProfile -> bool {
    (p: StudentProfile) => p.user == u
  }

  /** A user occurs in the users of some profiles once per profile of theirs. */
  lemma {:induction false} UsersOfCount(s: seq<StudentProfile>, u: nat)
    ensures multiset(UsersOf(s))[u] == Count(s, OfUser(u))
  {
    if s != [] {
      UsersOfCount(s[1..], u);
      assert UsersOf(s) == [s[0].user] + UsersOf(s[1..]);
    }
  }

  /**
   * The users `create_notifications_for_enrolled_students` notifies: those
   * of the student profiles enrolled in the course's offering of the current
   * term, and nobody when no term is current.
   */
  function EnrolledStudentUsers(profiles: seq<StudentProfile>, enrollments: seq<Enrollment>,
                                terms: seq<AcademicTerm>, now: int, course: nat): (users: seq<nat>)
    ensures Current(terms, now).None? ==> users == []
    ensures Current(terms, now).Some? ==> forall u ::
      u in users <==> exists p :: p in profiles && p.user == u && EnrolledDuring(enrollments, course, Current(terms, now).value, p)
    ensures Current(terms, now).Some? ==> forall u ::
      multiset(users)[u] == Count(profiles, EnrolledUser(enrollments, course, Current(terms, now).value, u))
  {
    match Current(terms, now)
    case None => []
    case Some(term) =>
      var students := Filter(profiles, EnrolledFilter(enrollments, course, term));
      var users := UsersOf(students);
      assert forall u :: u in users ==> exists p :: p in profiles && p.user == u && EnrolledDuring(enrollments, course, term, p) by {
        forall u | u in users
          ensures exists p :: p in profiles && p.user == u && EnrolledDuring(enrollments, course, term, p)
        {
          var i :| 0 <= i < |users| && users[i] == u;
          assert EnrolledFilter(enrollments, course, term)(students[i]);
        }
      }
      assert forall p :: p in profiles && EnrolledDuring(enrollments, course, term, p) ==> p.user in users by {
        forall p | p in profiles && EnrolledDuring(enrollments, course, term, p)
          ensures p.user in users
        {
          var j :| 0 <= j < |profiles| && profiles[j] == p;
          assert EnrolledFilter(enrollments, course, term)(profiles[j]);
          var i :| 0 <= i < |students| && students[i] == p;
          assert users[i] == p.user;
        }
      }
      assert forall u :: multiset(users)[u] == Count(profiles, EnrolledUser(enrollments, course, term, u)) by {
        forall u ensures multiset(users)[u] == Count(profiles, EnrolledUser(enrollments, course, term, u)) {
          UsersOfCount(students, u);
          FilterFilter(profiles, EnrolledFilter(enrollments, course, term), OfUser(u),
                       EnrolledUser(enrollments, course, term, u));
        }
      }
      users
  }

  /** `create_notifications_for_enrolled_students`. */
  method CreateNotificationsForEnrolledStudents(table: NotificationTable, profiles: seq<StudentProfile>,
                                                enrollments: seq<Enrollment>, terms: seq<AcademicTerm>, now: int,
                                                course: nat, message: string, linkPath: Option<string>,
                                                linkText: Option<string>)
    requires table.Valid()
    modifies table
    ensures table.Valid()
    ensures var users := EnrolledStudentUsers(profiles, enrollments, terms, now, course);
      table.rows == old(table.rows) + Compose(users, message, linkPath, linkText, old(table.nextId), now)
  {
    var users := EnrolledStudentUsers(profiles, enrollments, terms, now, course);
    table.SendNotifications(users, message, linkPath, linkText, now);
  }
}
