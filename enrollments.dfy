/**
 * `EnrollmentRepository`: a student's enrollments grouped by the status of
 * their term, the enrollment checks, an offering's enrollments newest
 * first, and the latest grade of a student in a course.
 *
 * The enrollment table is a sequence in primary-key order, each row with its
 * offering and term joined in.
 */
module Enrollments {
  import opened Wrappers
  import opened Seqs
  import opened Models

  function OfStudent(student: nat): Enrollment -> bool {
    (e: Enrollment) => e.student == student
  }

  function TermIs(status: TermStatus): Enrollment -> bool {
    (e: Enrollment) => e.offering.term.status == status
  }

  /** Neither not started nor in progress: the `else` branch of `fetch`. */
  function TermOver(): Enrollment -> bool {
    (e: Enrollment) => e.offering.term.status != NotStarted && e.offering.term.status != InProgress
  }

  /** `fetch`: one pass over the student's enrollments, each appended to the bucket of its term's status. */
  method Fetch(enrollments: seq<Enrollment>, student: nat)
    returns (upcoming: seq<Enrollment>, current: seq<Enrollment>, past: seq<Enrollment>)
    ensures var mine := Filter(enrollments, OfStudent(student));
      && upcoming == Filter(mine, TermIs(NotStarted))
      && current == Filter(mine, TermIs(InProgress))
      && past == Filter(mine, TermOver())
  {
    var mine := Filter(enrollments, OfStudent(student));
    upcoming, current, past := [], [], [];
    var i := 0;
    while i < |mine|
      invariant 0 <= i <= |mine|
      invariant upcoming == Filter(mine[..i], TermIs(NotStarted))
      invariant current == Filter(mine[..i], TermIs(InProgress))
      invariant past == Filter(mine[..i], TermOver())
    {
      var e := mine[i];
      BucketStep(mine, i);
      if e.offering.term.status == NotStarted {
        upcoming := upcoming + [e];
      } else if e.offering.term.status == InProgress {
        current := current + [e];
      } else {
        past := past + [e];
      }
      i := i + 1;
    }
    assert mine[..i] == mine;
  }

  /** One more enrollment lands in the bucket of its term's status and in no other. */
  lemma BucketStep(s: seq<Enrollment>, i: nat)
    requires i < |s|
    ensures Filter(s[..i + 1], TermIs(NotStarted))
      == Filter(s[..i], TermIs(NotStarted)) + (if s[i].offering.term.status == NotStarted then [s[i]] else [])
    ensures Filter(s[..i + 1], TermIs(InProgress))
      == Filter(s[..i], TermIs(InProgress)) + (if s[i].offering.term.status == InProgress then [s[i]] else [])
    ensures Filter(s[..i + 1], TermOver())
      == Filter(s[..i], TermOver()) + (if s[i].offering.term.status == Finished then [s[i]] else [])
  {
    assert s[..i + 1] == s[..i] + [s[i]];
    FilterSnoc(s[..i], s[i], TermIs(NotStarted));
    FilterSnoc(s[..i], s[i], TermIs(InProgress));
    FilterSnoc(s[..i], s[i], TermOver());
  }

  /**
   * The three buckets split the student's enrollments: together they hold
   * each of them exactly once.
   */
  lemma FetchPartitions(enrollments: seq<Enrollment>, student: nat)
    ensures var mine := Filter(enrollments, OfStudent(student));
      multiset(Filter(mine, TermIs(NotStarted))) + multiset(Filter(mine, TermIs(InProgress)))
        + multiset(Filter(mine, TermOver())) == multiset(mine)
  {
    var mine := Filter(enrollments, OfStudent(student));
    var up, cur, past := Filter(mine, TermIs(NotStarted)), Filter(mine, TermIs(InProgress)), Filter(mine, TermOver());
    FilterMultiset(mine, TermIs(NotStarted));
    FilterMultiset(mine, TermIs(InProgress));
    FilterMultiset(mine, TermOver());
    forall x
      ensures (multiset(up) + multiset(cur) + multiset(past))[x] == multiset(mine)[x]
    {
      assert multiset(up)[x] == if TermIs(NotStarted)(x) then multiset(mine)[x] else 0;
      assert multiset(cur)[x] == if TermIs(InProgress)(x) then multiset(mine)[x] else 0;
      assert multiset(past)[x] == if TermOver()(x) then multiset(mine)[x] else 0;
    }
    assert multiset(up) + multiset(cur) + multiset(past) == multiset(mine);
  }

  /** No bucket holds another student's enrollment. */
  lemma FetchOnlyOwn(enrollments: seq<Enrollment>, student: nat, e: Enrollment)
    requires var mine := Filter(enrollments, OfStudent(student));
      e in Filter(mine, TermIs(NotStarted)) || e in Filter(mine, TermIs(InProgress)) || e in Filter(mine, TermOver())
    ensures e.student == student && e in enrollments
  {
  }

  function InOffering(student: nat, offering: nat): Enrollment -> bool {
    (e: Enrollment) => e.student == student && e.offering.id == offering
  }

  /** `is_enrolled`: a (student, offering) enrollment exists. */
  function IsEnrolled(enrollments: seq<Enrollment>, student: nat, offering: nat): (b: bool)
    ensures b <==> exists e :: e in enrollments && e.student == student && e.offering.id == offering
  {
    First(enrollments, InOffering(student, offering)).Some?
  }

  function FinishedIn(student: nat, course: nat, now: int): Enrollment -> bool {
    (e: Enrollment) => e.student == student && e.offering.course == course && e.offering.term.end < now
  }

  /** `has_finished_course`: the student was enrolled in the course in a term that ended before `now`. */
  function HasFinishedCourse(enrollments: seq<Enrollment>, student: nat, course: nat, now: int): (b: bool)
    ensures b <==> exists e :: e in enrollments && e.student == student && e.offering.course == course
                                && e.offering.term.end < now
  {
    First(enrollments, FinishedIn(student, course, now)).Some?
  }

  function OfOffering(offering: nat): Enrollment -> bool {
    (e: Enrollment) => e.offering.id == offering
  }

  function EnrolledAtKey(e: Enrollment): int { e.enrolledAt }

  /** `fetch_with_student`: exactly the offering's enrollments, most recently enrolled first. */
  function FetchWithStudent(enrollments: seq<Enrollment>, offering: nat): (r: seq<Enrollment>)
    ensures SortedDesc(r, EnrolledAtKey)
    ensures forall e :: e in r ==> e.offering.id == offering
    ensures forall e: Enrollment :: e.offering.id == offering ==> multiset(r)[e] == multiset(enrollments)[e]
  {
    var rows := Filter(enrollments, OfOffering(offering));
    FilterMultiset(enrollments, OfOffering(offering));
    var r := SortDesc(rows, EnrolledAtKey);
    assert forall e :: e in r ==> e in multiset(rows);
    r
  }

  function TermEndKey(e: Enrollment): int { e.offering.term.end }

  /** `e` is one of the student's finished enrollments in the course, and none of them ended later. */
  predicate LastFinished(enrollments: seq<Enrollment>, student: nat, course: nat, now: int, e: Enrollment) {
    && e in enrollments && FinishedIn(student, course, now)(e)
    && forall f :: f in enrollments && FinishedIn(student, course, now)(f) ==> TermEndKey(f) <= TermEndKey(e)
  }

  /**
   * `fetch_latest_grades_subquery`, evaluated for one student: the grade of
   * the student's enrollment in the course whose term ended last before
   * `now`, or nothing when no such term has ended.
   */
  function LatestGrade(enrollments: seq<Enrollment>, student: nat, course: nat, now: int): (r: Option<Grade>)
    ensures r.None? <==> !HasFinishedCourse(enrollments, student, course, now)
    ensures r.Some? ==> exists e :: LastFinished(enrollments, student, course, now, e) && e.grade == r.value
  {
    var ended := Filter(enrollments, FinishedIn(student, course, now));
    if ended == [] then None
    else
      var e := MaxBy(ended, TermEndKey);
      assert forall f :: f in enrollments && FinishedIn(student, course, now)(f) ==> f in ended;
      assert LastFinished(enrollments, student, course, now, e);
      Some(e.grade)
  }

  /**
   * The enrollment whose term ended last decides the grade: an earlier
   * failed attempt does not override a later pass.
   */
  lemma LatestGradeIsLastTerm(enrollments: seq<Enrollment>, student: nat, course: nat, now: int, last: Enrollment)
    requires last in enrollments && FinishedIn(student, course, now)(last)
    requires forall f :: f in enrollments && FinishedIn(student, course, now)(f) && f != last ==>
      TermEndKey(f) < TermEndKey(last)
    ensures LatestGrade(enrollments, student, course, now) == Some(last.grade)
  {
    var r := LatestGrade(enrollments, student, course, now);
    assert r.Some?;
    var e :| LastFinished(enrollments, student, course, now, e) && e.grade == r.value;
    assert e == last;
  }
}
