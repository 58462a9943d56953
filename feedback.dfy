/**
 * `FeedbackRepository`: a student's feedback on a course, feedback
 * creation, and a course's feedback annotated with each student's latest
 * grade, most recently updated first.
 */
module FeedbackRepo {
  import opened Wrappers
  import opened Seqs
  import opened Models
  import opened Enrollments

  function ByStudentOn(student: nat, course: nat): Feedback -> bool {
    (f: Feedback) => f.student == student && f.course == course
  }

  /** `fetch`: the first stored (student, course) feedback, if any. */
  function Fetch(rows: seq<Feedback>, student: nat, course: nat): (r: Option<Feedback>)
    ensures r.Some? ==> r.value in rows && r.value.student == student && r.value.course == course
    ensures r.None? <==> forall f :: f in rows ==> !(f.student == student && f.course == course)
  {
    First(rows, ByStudentOn(student, course))
  }

  /** The label of the `grade_display` annotation: a missing grade is not graded. */
  function GradeDisplay(grade: Option<Grade>): (display: string)
    ensures grade == Some(Pass) <==> display == "Pass"
    ensures grade == Some(Fail) <==> display == "Fail"
    ensures grade != Some(Pass) && grade != Some(Fail) <==> display == "Not Graded"
  {
    match grade
    case Some(Pass) => "Pass"
    case Some(Fail) => "Fail"
    case _ => "Not Graded"
  }

  /** A feedback row with the `grade` and `grade_display` annotations. */
  datatype GradedFeedback = GradedFeedback(feedback: Feedback, grade: Option<Grade>, gradeDisplay: string)

  function OnCourse(course: nat): Feedback -> bool {
    (f: Feedback) => f.course == course
  }

  function UpdatedAtKey(f: Feedback): int { f.updatedAt }

  /** The course's feedback, most recently updated first. */
  function CourseFeedback(rows: seq<Feedback>, course: nat): (r: seq<Feedback>)
    ensures SortedDesc(r, UpdatedAtKey)
    ensures forall f :: f in r <==> f in rows && f.course == course
    ensures multiset(r) == multiset(Filter(rows, OnCourse(course)))
  {
    var mine := Filter(rows, OnCourse(course));
    var sorted := SortDesc(mine, UpdatedAtKey);
    assert forall f :: f in sorted <==> f in mine by {
      forall f ensures f in sorted <==> f in mine { SortDescSameRows(mine, UpdatedAtKey, f); }
    }
    sorted
  }

  /** Each row with its student's latest grade in the course and that grade's label. */
  function Annotate(rows: seq<Feedback>, enrollments: seq<Enrollment>, course: nat, now: int)
    : (r: seq<GradedFeedback>)
    ensures |r| == |rows|
    ensures forall i :: 0 <= i < |r| ==>
      (r[i].feedback == rows[i] && r[i].grade == LatestGrade(enrollments, rows[i].student, course, now)
       && r[i].gradeDisplay == GradeDisplay(r[i].grade))
  {
    seq(|rows|, i requires 0 <= i < |rows| =>
      var g := LatestGrade(enrollments, rows[i].student, course, now);
      GradedFeedback(rows[i], g, GradeDisplay(g)))
  }

  /** `fetch_with_student_grade`. */
  function FetchWithStudentGrade(rows: seq<Feedback>, enrollments: seq<Enrollment>, course: nat, now: int)
    : (r: seq<GradedFeedback>)
    ensures |r| == |CourseFeedback(rows, course)|
    ensures forall i :: 0 <= i < |r| ==> r[i].feedback == CourseFeedback(rows, course)[i]
    ensures forall i :: 0 <= i < |r| ==> r[i].grade == LatestGrade(enrollments, r[i].feedback.student, course, now)
    ensures forall i :: 0 <= i < |r| ==> r[i].gradeDisplay == GradeDisplay(r[i].grade)
  {
    Annotate(CourseFeedback(rows, course), enrollments, course, now)
  }

  /** The result lists exactly the course's feedback, newest update first. */
  lemma FetchWithStudentGradeRows(rows: seq<Feedback>, enrollments: seq<Enrollment>, course: nat, now: int)
    ensures var r := FetchWithStudentGrade(rows, enrollments, course, now);
      && (forall i, j :: 0 <= i < j < |r| ==> r[i].feedback.updatedAt >= r[j].feedback.updatedAt)
      && (forall i :: 0 <= i < |r| ==> r[i].feedback in rows && r[i].feedback.course == course)
      && (forall f :: f in rows && f.course == course ==> exists i :: 0 <= i < |r| && r[i].feedback == f)
      && multiset(FeedbackOf(r)) == multiset(Filter(rows, OnCourse(course)))
  {
    var sorted := CourseFeedback(rows, course);
    var r := FetchWithStudentGrade(rows, enrollments, course, now);
    FeedbackColumn(r, sorted, rows, course);
    assert FeedbackOf(r) == sorted;
  }

  /** The feedback column of annotated rows. */
  function FeedbackOf(r: seq<GradedFeedback>): seq<Feedback> {
    seq(|r|, i requires 0 <= i < |r| => r[i].feedback)
  }

  /** Rows whose feedback column is the course's sorted feedback inherit its order, membership and completeness. */
  lemma FeedbackColumn(r: seq<GradedFeedback>, sorted: seq<Feedback>, rows: seq<Feedback>, course: nat)
    requires |r| == |sorted| && forall i :: 0 <= i < |r| ==> r[i].feedback == sorted[i]
    requires SortedDesc(sorted, UpdatedAtKey)
    requires forall f :: f in sorted <==> f in rows && f.course == course
    ensures forall i, j :: 0 <= i < j < |r| ==> r[i].feedback.updatedAt >= r[j].feedback.updatedAt
    ensures forall i :: 0 <= i < |r| ==> r[i].feedback in rows && r[i].feedback.course == course
    ensures forall f :: f in rows && f.course == course ==> exists i :: 0 <= i < |r| && r[i].feedback == f
  {
    forall i, j | 0 <= i < j < |r| ensures r[i].feedback.updatedAt >= r[j].feedback.updatedAt {
      assert UpdatedAtKey(sorted[i]) >= UpdatedAtKey(sorted[j]);
    }
    forall i | 0 <= i < |r| ensures r[i].feedback in rows && r[i].feedback.course == course {
      assert sorted[i] in sorted;
    }
    forall f | f in rows && f.course == course ensures exists i :: 0 <= i < |r| && r[i].feedback == f {
      var i :| 0 <= i < |sorted| && sorted[i] == f;
      assert r[i].feedback == f;
    }
  }

  /**
   * A student whose latest finished enrollment in the course passed is
   * shown as "Pass", whatever older attempts failed.
   */
  lemma GradeShownIsLatest(rows: seq<Feedback>, enrollments: seq<Enrollment>, course: nat, now: int, i: nat,
                           last: Enrollment)
    requires i < |FetchWithStudentGrade(rows, enrollments, course, now)|
    requires var student := FetchWithStudentGrade(rows, enrollments, course, now)[i].feedback.student;
      && last in enrollments && FinishedIn(student, course, now)(last)
      && forall f :: f in enrollments && FinishedIn(student, course, now)(f) && f != last ==>
           TermEndKey(f) < TermEndKey(last)
    ensures FetchWithStudentGrade(rows, enrollments, course, now)[i].grade == Some(last.grade)
    ensures last.grade == Pass ==> FetchWithStudentGrade(rows, enrollments, course, now)[i].gradeDisplay == "Pass"
  {
    var r := FetchWithStudentGrade(rows, enrollments, course, now);
    LatestGradeIsLastTerm(enrollments, r[i].feedback.student, course, now, last);
  }

  /** The fields of the feedback form. */
  datatype FeedbackForm = FeedbackForm(comments: string)

  /** The feedback table; `now` is the instant the row is saved, kept as `updated_at`. */
  class FeedbackTable {
    var rows: seq<Feedback>
    var nextId: nat

    constructor ()
      ensures rows == []
    {
      rows := [];
      nextId := 1;
    }

    /** `create`: the form's comments, by the given student, on the given course. */
    method Create(form: FeedbackForm, course: Course, student: StudentProfile, now: int) returns (feedback: Feedback)
      modifies this
      ensures feedback.course == course.id && feedback.student == student.id && feedback.comments == form.comments
      ensures feedback.id == old(nextId) && feedback.updatedAt == now && nextId == old(nextId) + 1
      ensures rows == old(rows) + [feedback]
    {
      feedback := Feedback(nextId, student.id, course.id, form.comments, now);
      rows := rows + [feedback];
      nextId := nextId + 1;
    }
  }
}
