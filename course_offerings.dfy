/**
 * `CourseOfferingRepository`: a course's offering in the current or next
 * term, its offerings newest term first, and offering creation.
 */
module CourseOfferings {
  import opened Wrappers
  import opened Seqs
  import opened Models
  import opened AcademicTerms

  function InTerm(course: nat, term: AcademicTerm): Offering -> bool {
    (o: Offering) => o.course == course && o.term.id == term.id
  }

  /** `filter(course=course, term=term).first()` once a term was found, nothing otherwise. */
  function OfferingIn(offerings: seq<Offering>, course: nat, term: Option<AcademicTerm>): (r: Option<Offering>)
    ensures term.None? ==> r.None?
    ensures r.Some? ==> r.value in offerings && r.value.course == course && r.value.term.id == term.value.id
    ensures term.Some? && r.None? ==> forall o :: o in offerings ==> !(o.course == course && o.term.id == term.value.id)
  {
    match term
    case None => None
    case Some(t) => First(offerings, InTerm(course, t))
  }

  /** `fetch_current`. */
  function FetchCurrent(offerings: seq<Offering>, terms: seq<AcademicTerm>, now: int, course: nat): (r: Option<Offering>)
    ensures r.Some? ==> (r.value in offerings && r.value.course == course && Current(terms, now).Some?
                         && r.value.term.id == Current(terms, now).value.id)
    ensures Current(terms, now).None? ==> r.None?
    ensures Current(terms, now).Some? && r.None? ==>
      forall o :: o in offerings ==> !(o.course == course && o.term.id == Current(terms, now).value.id)
  {
    OfferingIn(offerings, course, Current(terms, now))
  }

  /** `fetch_next`. */
  function FetchNext(offerings: seq<Offering>, terms: seq<AcademicTerm>, now: int, course: nat): (r: Option<Offering>)
    ensures r.Some? ==> (r.value in offerings && r.value.course == course && Next(terms, now).Some?
                         && r.value.term.id == Next(terms, now).value.id)
    ensures Next(terms, now).None? ==> r.None?
    ensures Next(terms, now).Some? && r.None? ==>
      forall o :: o in offerings ==> !(o.course == course && o.term.id == Next(terms, now).value.id)
  {
    OfferingIn(offerings, course, Next(terms, now))
  }

  /** When the course has one offering in the current term, `fetch_current` finds it. */
  lemma FetchCurrentFindsOffering(offerings: seq<Offering>, terms: seq<AcademicTerm>, now: int, course: nat,
                                  o: Offering)
    requires Current(terms, now).Some?
    requires o in offerings && o.course == course && o.term.id == Current(terms, now).value.id
    requires forall x :: x in offerings && x.course == course && x.term.id == o.term.id ==> x == o
    ensures FetchCurrent(offerings, terms, now, course) == Some(o)
  {
    var r := FetchCurrent(offerings, terms, now, course);
    assert r.Some?;
  }

  /** When the course has one offering in the next term, `fetch_next` finds it. */
  lemma FetchNextFindsOffering(offerings: seq<Offering>, terms: seq<AcademicTerm>, now: int, course: nat,
                               o: Offering)
    requires Next(terms, now).Some?
    requires o in offerings && o.course == course && o.term.id == Next(terms, now).value.id
    requires forall x :: x in offerings && x.course == course && x.term.id == o.term.id ==> x == o
    ensures FetchNext(offerings, terms, now, course) == Some(o)
  {
    var r := FetchNext(offerings, terms, now, course);
    assert r.Some?;
  }

  function OfCourse(course: nat): Offering -> bool {
    (o: Offering) => o.course == course
  }

  function TermStartKey(o: Offering): int { o.term.start }

  /** `fetch_with_academic_terms`: exactly the course's offerings, latest term start first. */
  function FetchWithAcademicTerms(offerings: seq<Offering>, course: nat): (r: seq<Offering>)
    ensures SortedDesc(r, TermStartKey)
    ensures forall o :: o in r ==> o.course == course
    ensures multiset(r) == multiset(Filter(offerings, OfCourse(course)))
  {
    var r := SortDesc(Filter(offerings, OfCourse(course)), TermStartKey);
    assert forall o :: o in r ==> o in multiset(Filter(offerings, OfCourse(course)));
    r
  }

  /** A course offered in three successive terms lists the next offering first and the previous one last. */
  lemma ThreeTermsNewestFirst(offerings: seq<Offering>, course: nat, prev: Offering, cur: Offering, next: Offering)
    requires multiset(Filter(offerings, OfCourse(course))) == multiset{prev, cur, next}
    requires prev.term.start < cur.term.start < next.term.start
    ensures FetchWithAcademicTerms(offerings, course) == [next, cur, prev]
  {
    SortedThree(FetchWithAcademicTerms(offerings, course), prev, cur, next);
  }

  /** Three offerings with increasing term starts, sorted latest start first. */
  lemma SortedThree(r: seq<Offering>, prev: Offering, cur: Offering, next: Offering)
    requires SortedDesc(r, TermStartKey) && multiset(r) == multiset{prev, cur, next}
    requires prev.term.start < cur.term.start < next.term.start
    ensures r == [next, cur, prev]
  {
    assert |r| == 3 by { assert |multiset(r)| == 3; }
    forall k | 0 <= k < 3 ensures r[k] == prev || r[k] == cur || r[k] == next {
      assert r[k] in multiset(r);
    }
    assert next in r && cur in r && prev in r by {
      assert next in multiset(r) && cur in multiset(r) && prev in multiset(r);
    }
    assert TermStartKey(r[0]) >= TermStartKey(r[1]) >= TermStartKey(r[2]);
  }

  /** The fields of the offering form. */
  datatype OfferingForm = OfferingForm(term: AcademicTerm)

  /** The offering table. */
  class OfferingTable {
    var rows: seq<Offering>
    var nextId: nat

    constructor ()
      ensures rows == []
    {
      rows := [];
      nextId := 1;
    }

    /** `create`: an offering of the given course in the form's term. */
    method Create(form: OfferingForm, course: Course) returns (offering: Offering)
      modifies this
      ensures offering.course == course.id && offering.term == form.term
      ensures offering.id == old(nextId) && nextId == old(nextId) + 1
      ensures rows == old(rows) + [offering]
    {
      offering := Offering(nextId, course.id, form.term);
      rows := rows + [offering];
      nextId := nextId + 1;
    }
  }
}
