/**
 * The keyword search shared by `CourseRepository.fetch_filtered_by` and
 * `UserRepository.get_filtered_users`: the keywords are split on
 * whitespace and the per-word conditions are OR-ed onto an initially empty
 * Django `Q()`.
 *
 * Django treats the empty `Q()` in two ways that the model keeps apart:
 * OR-ing it with a condition yields that condition unchanged, and filtering
 * by it keeps every row.
 */
module KeywordQuery {
  import opened Wrappers
  import opened Text

  /** `Empty` is `Q()`; `Match(w)` is the OR over the searched fields of `field__icontains=w`. */
  datatype Q = Empty | Match(word: string) | Or(left: Q, right: Q)

  /** Some searched field of the row contains `word`, ignoring case. */
  predicate AnyFieldContains(fields: seq<string>, word: string) {
    exists i :: 0 <= i < |fields| && ContainsIgnoringCase(fields[i], word)
  }

  /** Whether `filter(q)` keeps a row whose searched fields are `fields`. */
  predicate Eval(q: Q, fields: seq<string>) {
    match q
    case Empty => true
    case Match(w) => AnyFieldContains(fields, w)
    case Or(a, b) => Eval(a, fields) || Eval(b, fields)
  }

  /** `a | b`: an empty side drops out. */
  function OrQ(a: Q, b: Q): (r: Q)
    ensures a == Empty ==> r == b
    ensures b == Empty ==> r == a
    ensures a != Empty && b != Empty ==> r != Empty && forall fs :: Eval(r, fs) <==> Eval(a, fs) || Eval(b, fs)
  {
    if a == Empty then b else if b == Empty then a else Or(a, b)
  }

  /** The row matches one of the words; with no word at all every row matches. */
  predicate MatchesAny(words: seq<string>, fields: seq<string>) {
    words == [] || exists i :: 0 <= i < |words| && AnyFieldContains(fields, words[i])
  }

  /** The loop `for word in query_words: q_objects |= ...`. */
  method BuildQuery(words: seq<string>) returns (q: Q)
    ensures q == Empty <==> words == []
    ensures forall fields :: Eval(q, fields) <==> MatchesAny(words, fields)
  {
    q := Empty;
    var i := 0;
    while i < |words|
      invariant 0 <= i <= |words|
      invariant q == Empty <==> i == 0
      invariant forall fields :: Eval(q, fields) <==> MatchesAny(words[..i], fields)
    {
      q := OrQ(q, Match(words[i]));
      assert forall fields :: MatchesAny(words[..i + 1], fields) <==>
        (i > 0 && MatchesAny(words[..i], fields)) || AnyFieldContains(fields, words[i]) by {
        forall fields
          ensures MatchesAny(words[..i + 1], fields) <==>
            (i > 0 && MatchesAny(words[..i], fields)) || AnyFieldContains(fields, words[i])
        {
          assert words[..i + 1][i] == words[i];
          assert forall j :: 0 <= j < i ==> words[..i + 1][j] == words[..i][j];
        }
      }
      i := i + 1;
    }
    assert words[..i] == words;
  }

  /** Python truthiness of the `keywords` argument. */
  predicate KeywordsGiven(keywords: Option<string>) {
    keywords.Some? && keywords.value != ""
  }

  /** The words the search uses: none when no keywords were given. */
  function SearchWords(keywords: Option<string>): (ws: seq<string>)
    ensures ws == [] <==> !KeywordsGiven(keywords) || AllSpace(keywords.value)
    ensures forall i :: 0 <= i < |ws| ==> ws[i] != [] && NoSpace(ws[i])
  {
    if KeywordsGiven(keywords) then
      WordsEmptyIffBlank(keywords.value);
      Words(keywords.value)
    else []
  }

  /** Searching for more words never loses a row that fewer (but some) words found. */
  lemma MoreWordsNeverShrink(words: seq<string>, more: seq<string>, fields: seq<string>)
    requires words != [] && MatchesAny(words, fields)
    ensures MatchesAny(words + more, fields)
  {
    var i :| 0 <= i < |words| && AnyFieldContains(fields, words[i]);
    assert (words + more)[i] == words[i];
  }

  /** A row whose searched field holds the word as typed (in any case) is found. */
  lemma FieldEqualToWordMatches(words: seq<string>, fields: seq<string>, i: nat, j: nat)
    requires i < |words| && j < |fields| && fields[j] == words[i]
    ensures MatchesAny(words, fields)
  {
    ContainsItself(fields[j]);
  }
}
