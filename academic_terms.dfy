/**
 * `AcademicTermRepository`: the current, next and previous academic term,
 * chosen from the stored terms (in primary-key order) against the instant
 * `now`.
 */
module AcademicTerms {
  import opened Wrappers
  import opened Seqs
  import opened Models

  function Covers(now: int): AcademicTerm -> bool {
    (t: AcademicTerm) => t.start <= now <= t.end
  }

  function StartsAfter(now: int): AcademicTerm -> bool {
    (t: AcademicTerm) => t.start > now
  }

  function EndsBefore(now: int): AcademicTerm -> bool {
    (t: AcademicTerm) => t.end < now
  }

  function StartKey(t: AcademicTerm): int { t.start }

  function EndKey(t: AcademicTerm): int { t.end }

  /** `current`: a stored term whose span contains `now`, or nothing when no term does. */
  function Current(terms: seq<AcademicTerm>, now: int): (r: Option<AcademicTerm>)
    ensures r.Some? ==> r.value in terms && r.value.start <= now <= r.value.end
    ensures r.None? <==> forall t :: t in terms ==> !(t.start <= now <= t.end)
  {
    First(terms, Covers(now))
  }

  /** `next`: of the terms starting after `now`, one that starts first. */
  function Next(terms: seq<AcademicTerm>, now: int): (r: Option<AcademicTerm>)
    ensures r.Some? ==> r.value in terms && r.value.start > now
    ensures r.Some? ==> forall t :: t in terms && t.start > now ==> r.value.start <= t.start
    ensures r.None? <==> forall t :: t in terms ==> t.start <= now
  {
    var later := Filter(terms, StartsAfter(now));
    if later == [] then None else Some(MinBy(later, StartKey))
  }

  /** `previous`: of the terms ending before `now`, one that ends last. */
  function Previous(terms: seq<AcademicTerm>, now: int): (r: Option<AcademicTerm>)
    ensures r.Some? ==> r.value in terms && r.value.end < now
    ensures r.Some? ==> forall t :: t in terms && t.end < now ==> t.end <= r.value.end
    ensures r.None? <==> forall t :: t in terms ==> t.end >= now
  {
    var earlier := Filter(terms, EndsBefore(now));
    if earlier == [] then None else Some(MaxBy(earlier, EndKey))
  }

  /**
   * Three consecutive terms around `now`, one before, one containing it and
   * one after: each query picks its own.
   */
  lemma ConsecutiveTerms(terms: seq<AcademicTerm>, prev: AcademicTerm, cur: AcademicTerm, next: AcademicTerm,
                         now: int)
    requires prev in terms && cur in terms && next in terms
    requires forall t :: t in terms ==> t == prev || t == cur || t == next
    requires prev.start <= prev.end < cur.start <= now <= cur.end < next.start <= next.end
    ensures Current(terms, now) == Some(cur)
    ensures Next(terms, now) == Some(next)
    ensures Previous(terms, now) == Some(prev)
  {
    var c, n, p := Current(terms, now), Next(terms, now), Previous(terms, now);
    assert c.Some? by { assert cur.start <= now <= cur.end; }
    assert n.Some? by { assert next.start > now; }
    assert p.Some? by { assert prev.end < now; }
    assert c.value == cur by { assert c.value in terms; }
    assert n.value == next by { assert n.value in terms && n.value.start > now; }
    assert p.value == prev by { assert p.value in terms && p.value.end < now; }
  }
}
