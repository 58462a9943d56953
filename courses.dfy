/**
 * `CourseRepository`: the course catalogue search and course creation.
 */
module Courses {
  import opened Wrappers
  import opened Seqs
  import opened Models
  import opened Text
  import opened KeywordQuery

  /** A course with its teacher's user joined in (`select_related("teacher__user")`). */
  datatype CourseRow = CourseRow(course: Course, teacherUser: PortalUser)

  /** The fields a keyword is looked for in: title, description, the teacher's first and last name. */
  function CourseFields(row: CourseRow): seq<string> {
    [row.course.title, row.course.description, row.teacherUser.firstName, row.teacherUser.lastName]
  }

  function CourseMatches(words: seq<string>): CourseRow -> bool {
    (row: CourseRow) => MatchesAny(words, CourseFields(row))
  }

  function QueryHolds(q: Q): CourseRow -> bool {
    (row: CourseRow) => Eval(q, CourseFields(row))
  }

  /** The courses a search for `words` lists, in catalogue order. */
  function SelectCourses(rows: seq<CourseRow>, words: seq<string>): (r: seq<CourseRow>)
    ensures forall row :: row in r <==> row in rows && MatchesAny(words, CourseFields(row))
  {
    Filter(rows, CourseMatches(words))
  }

  /** With no word to look for, the whole catalogue is listed. */
  lemma SelectWithoutWords(rows: seq<CourseRow>)
    ensures SelectCourses(rows, []) == rows
  {
    FilterAll(rows, CourseMatches([]));
  }

  /** More words never remove a course that some words found. */
  lemma SelectMoreWords(rows: seq<CourseRow>, words: seq<string>, more: seq<string>)
    requires words != []
    ensures forall row :: row in SelectCourses(rows, words) ==> row in SelectCourses(rows, words + more)
  {
    forall row | row in SelectCourses(rows, words)
      ensures row in SelectCourses(rows, words + more)
    {
      MoreWordsNeverShrink(words, more, CourseFields(row));
    }
  }

  /** `fetch_filtered_by`. */
  method FetchFilteredBy(rows: seq<CourseRow>, keywords: Option<string>) returns (r: seq<CourseRow>)
    ensures r == SelectCourses(rows, SearchWords(keywords))
    ensures !KeywordsGiven(keywords) ==> r == rows
  {
    r := rows;
    if KeywordsGiven(keywords) {
      var q := BuildQuery(Words(keywords.value));
      r := Filter(r, QueryHolds(q));
      FilterAgree(rows, QueryHolds(q), CourseMatches(SearchWords(keywords)));
    } else {
      SelectWithoutWords(rows);
    }
  }

  /** The fields of the course form. */
  datatype CourseForm = CourseForm(title: string, description: string, program: nat)

  /** The course table. */
  class CourseTable {
    var rows: seq<Course>
    var nextId: nat

    constructor ()
      ensures rows == []
    {
      rows := [];
      nextId := 1;
    }

    /** `create_course`: the form's fields and the given teacher, saved as a new row. */
    method CreateCourse(form: CourseForm, teacher: TeacherProfile) returns (course: Course)
      modifies this
      ensures course.title == form.title && course.description == form.description
      ensures course.program == form.program && course.teacher == teacher.id
      ensures course.id == old(nextId) && nextId == old(nextId) + 1
      ensures rows == old(rows) + [course]
    {
      course := Course(nextId, form.title, form.description, form.program, teacher.id);
      rows := rows + [course];
      nextId := nextId + 1;
    }
  }
}
