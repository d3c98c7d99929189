/**
 * Filter construction, over-fetching and post-filtering of `smart_search`
 * (routes/utils/search.py).
 *
 * The two language-model calls are replaced by their results (the structured
 * intent and the hypothetical abstract), and the similarity search of the
 * paper index by a function parameter that returns the ranked candidates.
 */
module Retrieval {
  import opened Values
  import opened Text
  import opened Seqs

  /** The structured reading of a query. */
  datatype Intent = Intent(
    queryContent: string,
    yearStart: Option<int>,
    yearEnd: Option<int>,
    category: Option<string>,
    author: Option<string>,
    sortBy: Option<string>)

  /** One metadata condition on `year`: `$gte` a string, or `$lt` an integer. */
  datatype Clause = YearAtLeast(lower: string) | YearBelow(upper: int)

  /** A metadata filter for the index: one clause, or the conjunction (`$and`) of several. */
  datatype Where = Single(clause: Clause) | And(clauses: seq<Clause>)

  /** One ranked hit of the similarity search. */
  datatype Candidate = Candidate(meta: Meta, pageContent: string, score: real)

  /** One returned paper. */
  datatype ScoredPaper = ScoredPaper(
    id: Option<Value>,
    title: string,
    abstractText: Value,
    authors: Option<Value>,
    year: Option<Value>,
    similarityScore: real,
    categories: Option<Value>)

  /** The post-filter outcome for one candidate; Raise is the `.lower()` of a non-string value. */
  datatype Verdict = Accept | Reject | Raise

  /** The result list, or the exception that ends the search. */
  datatype SearchResult = Found(papers: seq<ScoredPaper>) | Raised

  /** The index is asked for this many candidates per wanted result. */
  const OverFetch := 4

  const TitlePrefix := "Title: "
  const NoAbstract := "No abstract available"

  // ---------------------------------------------------------------------------
  // Index filter

  /** A year the intent mentions; 0 is falsy and counts as absent. */
  predicate YearGiven(y: Option<int>) {
    y.Some? && y.value != 0
  }

  /** A text the intent mentions; "" is falsy and counts as absent. */
  predicate TextGiven(s: Option<string>) {
    s.Some? && s.value != ""
  }

  function YearClauses(intent: Intent): seq<Clause> {
    (if YearGiven(intent.yearStart) then [YearAtLeast(IntToString(intent.yearStart.value))] else [])
    + (if YearGiven(intent.yearEnd) then [YearBelow(intent.yearEnd.value)] else [])
  }

  function Combine(clauses: seq<Clause>): Option<Where> {
    if |clauses| > 1 then Some(And(clauses))
    else if |clauses| == 1 then Some(Single(clauses[0]))
    else None
  }

  /** The filter handed to the index for an intent. */
  function WhereFor(intent: Intent): Option<Where> {
    Combine(YearClauses(intent))
  }

  /**
   * Builds the index filter by conditional appends. Both years: their
   * conjunction, lower bound first; one year: that clause alone; none: no filter.
   */
  method BuildWhere(intent: Intent) returns (where: Option<Where>)
    ensures where == WhereFor(intent)
    ensures YearGiven(intent.yearStart) && YearGiven(intent.yearEnd) ==>
      where == Some(And([YearAtLeast(IntToString(intent.yearStart.value)), YearBelow(intent.yearEnd.value)]))
    ensures YearGiven(intent.yearStart) && !YearGiven(intent.yearEnd) ==>
      where == Some(Single(YearAtLeast(IntToString(intent.yearStart.value))))
    ensures !YearGiven(intent.yearStart) && YearGiven(intent.yearEnd) ==>
      where == Some(Single(YearBelow(intent.yearEnd.value)))
    ensures !YearGiven(intent.yearStart) && !YearGiven(intent.yearEnd) ==> where == None
  {
    var filters: seq<Clause> := [];
    if YearGiven(intent.yearStart) {
      filters := filters + [YearAtLeast(IntToString(intent.yearStart.value))];
    }
    if YearGiven(intent.yearEnd) {
      filters := filters + [YearBelow(intent.yearEnd.value)];
    }
    if |filters| > 1 {
      where := Some(And(filters));
    } else if |filters| == 1 {
      where := Some(Single(filters[0]));
    } else {
      where := None;
    }
    assert filters == YearClauses(intent);
    if YearGiven(intent.yearStart) && YearGiven(intent.yearEnd) {
      assert filters == [YearAtLeast(IntToString(intent.yearStart.value)), YearBelow(intent.yearEnd.value)];
    }
  }

  /** The lower bound is stored as text and reads back as the same year. */
  lemma LowerBoundReadsBack(intent: Intent)
    requires YearGiven(intent.yearStart)
    ensures YearClauses(intent)[0].YearAtLeast?
    ensures ParseInt(YearClauses(intent)[0].lower) == Some(intent.yearStart.value)
  {
    ParseIntRoundTrip(intent.yearStart.value);
  }

  // ---------------------------------------------------------------------------
  // Post-filtering

  /**
   * The string `stored or ""` gives: the stored value when it is truthy, else "".
   * None when that value is not a string, whose `.lower()` raises.
   */
  function StoredText(v: Option<Value>): (r: Option<string>)
    ensures r.None? <==> v.Some? && v.value.Int? && v.value.i != 0
    ensures v.Some? && v.value.Str? ==> r == Some(v.value.s)
    ensures v.None? || v == Some(Int(0)) ==> r == Some("")
  {
    if v.Some? && Truthy(v.value) then
      (if v.value.Str? then Some(v.value.s) else None)
    else Some("")
  }

  /** The stored author string examined by the author filter. */
  function AuthorsText(m: Meta): Option<string> {
    StoredText(Get(m, "authors"))
  }

  /** The stored category string: "Categories", else "categories", else "". */
  function CategoriesText(m: Meta): Option<string> {
    StoredText(Or(Get(m, "Categories"), Get(m, "categories")))
  }

  /** Case-insensitive substring test on the stored text. */
  function Match(wanted: Option<string>, stored: Option<string>): Verdict {
    if !TextGiven(wanted) then Accept
    else if stored.None? then Raise
    else if Contains(Lower(stored.value), Lower(wanted.value)) then Accept
    else Reject
  }

  /**
   * The author filter, then (only if it accepts) the category filter; only a
   * non-string stored value raises, and with no filter given all pass.
   */
  function Screen(intent: Intent, c: Candidate): (v: Verdict)
    ensures v == Raise ==> AuthorsText(c.meta).None? || CategoriesText(c.meta).None?
    ensures !TextGiven(intent.author) && !TextGiven(intent.category) ==> v == Accept
  {
    var byAuthor := Match(intent.author, AuthorsText(c.meta));
    if byAuthor != Accept then byAuthor else Match(intent.category, CategoriesText(c.meta))
  }

  /**
   * A candidate is accepted exactly when each given filter finds its text,
   * case-insensitively, in the stored field. It raises exactly when a given
   * author filter meets a non-string author value, or when the author check
   * passes and a given category filter meets a non-string category value.
   * A missing author field rejects whenever an author is asked for.
   */
  lemma ScreenMeaning(intent: Intent, c: Candidate)
    ensures Screen(intent, c) == Accept <==>
      (TextGiven(intent.author) ==>
        AuthorsText(c.meta).Some? && Contains(Lower(AuthorsText(c.meta).value), Lower(intent.author.value)))
      && (TextGiven(intent.category) ==>
        CategoriesText(c.meta).Some? && Contains(Lower(CategoriesText(c.meta).value), Lower(intent.category.value)))
    ensures Screen(intent, c) == Raise <==>
      (TextGiven(intent.author) && AuthorsText(c.meta).None?)
      || ((TextGiven(intent.author) ==>
            AuthorsText(c.meta).Some? && Contains(Lower(AuthorsText(c.meta).value), Lower(intent.author.value)))
          && TextGiven(intent.category) && CategoriesText(c.meta).None?)
    ensures TextGiven(intent.author) && "authors" !in c.meta ==> Screen(intent, c) == Reject
  {
  }

  function Passes(intent: Intent): Candidate -> bool {
    c => Screen(intent, c) == Accept
  }

  /** The title is the first line of the stored content with every "Title: " removed. */
  function TitleOf(pageContent: string): (r: string)
    ensures '\n' !in r && |r| <= |pageContent|
  {
    ReplaceOnlyDeletes(FirstLine(pageContent), TitlePrefix);
    Replace(FirstLine(pageContent), TitlePrefix, "")
  }

  /**
   * The record returned for one accepted candidate: its score, a one-line
   * title, the stored abstract or a placeholder, and the lower-case
   * `categories` key.
   */
  function RecordOf(c: Candidate): (r: ScoredPaper)
    ensures r.id == Get(c.meta, "id") && r.year == Get(c.meta, "year")
    ensures r.similarityScore == c.score && '\n' !in r.title
    ensures r.abstractText == (if "abstract" in c.meta then c.meta["abstract"] else Str(NoAbstract))
    ensures r.categories == Get(c.meta, "categories") && r.authors == Get(c.meta, "authors")
  {
    ScoredPaper(
      Get(c.meta, "id"),
      TitleOf(c.pageContent),
      if "abstract" in c.meta then c.meta["abstract"] else Str(NoAbstract),
      Get(c.meta, "authors"),
      Get(c.meta, "year"),
      c.score,
      Get(c.meta, "categories"))
  }

  /** The loop stops after the acceptance that makes the list reach `k`, so its cap is at least one. */
  function Cap(k: int): nat {
    if k >= 1 then k else 1
  }

  /** The first `Cap(k)` candidates that pass the filters, in index order. */
  function FirstPassing(intent: Intent, cands: seq<Candidate>, k: int): seq<Candidate> {
    Take(Filter(cands, Passes(intent)), Cap(k))
  }

  /** Some candidate raises before `Cap(k)` candidates have been accepted. */
  ghost predicate RaisesWithin(intent: Intent, cands: seq<Candidate>, k: int) {
    exists j :: 0 <= j < |cands| && Screen(intent, cands[j]) == Raise && |Filter(cands[..j], Passes(intent))| < Cap(k)
  }

  /** The state of the post-filtering scan: the accepted candidates, and whether it raised. */
  datatype Scan = Scan(accepted: seq<Candidate>, raised: bool)

  predicate Stopped(st: Scan, k: int) {
    st.raised || |st.accepted| >= Cap(k)
  }

  /** One candidate examined: nothing changes once the scan has raised or is full. */
  function Step(intent: Intent, k: int, st: Scan, c: Candidate): Scan {
    if Stopped(st, k) then st
    else match Screen(intent, c)
      case Raise => Scan(st.accepted, true)
      case Reject => st
      case Accept => Scan(st.accepted + [c], false)
  }

  /** The scan over the candidates, left to right. */
  function Run(intent: Intent, k: int, cands: seq<Candidate>): Scan
    decreases |cands|
  {
    if cands == [] then Scan([], false)
    else Step(intent, k, Run(intent, k, cands[..|cands| - 1]), cands[|cands| - 1])
  }

  lemma RunSnoc(intent: Intent, k: int, cands: seq<Candidate>, i: nat)
    requires i < |cands|
    ensures Run(intent, k, cands[..i + 1]) == Step(intent, k, Run(intent, k, cands[..i]), cands[i])
  {
    assert cands[..i + 1][..i] == cands[..i];
  }

  /** A stopped scan stays as it is, whatever follows. */
  lemma {:induction false} RunStaysStopped(intent: Intent, k: int, cands: seq<Candidate>, n: nat)
    requires n <= |cands| && Stopped(Run(intent, k, cands[..n]), k)
    ensures Run(intent, k, cands) == Run(intent, k, cands[..n])
    decreases |cands| - n
  {
    if n < |cands| {
      RunSnoc(intent, k, cands, n);
      RunStaysStopped(intent, k, cands, n + 1);
    } else {
      assert cands[..n] == cands;
    }
  }

  /** What the scan over `cands` means: the contract of RunMeaning, for one list. */
  ghost predicate Describes(intent: Intent, k: int, cands: seq<Candidate>) {
    var st := Run(intent, k, cands);
    (st.raised <==> RaisesWithin(intent, cands, k))
    && (!st.raised ==> st.accepted == FirstPassing(intent, cands, k))
    && |st.accepted| <= Cap(k)
  }

  /**
   * The scan raises exactly when some candidate raises before `Cap(k)` have
   * been accepted; otherwise it accepts the first `Cap(k)` passing candidates.
   */
  lemma {:induction false} RunMeaning(intent: Intent, k: int, cands: seq<Candidate>)
    ensures Run(intent, k, cands).raised <==> RaisesWithin(intent, cands, k)
    ensures !Run(intent, k, cands).raised ==> Run(intent, k, cands).accepted == FirstPassing(intent, cands, k)
    ensures |Run(intent, k, cands).accepted| <= Cap(k)
    decreases |cands|
  {
    if cands == [] {
      assert !RaisesWithin(intent, cands, k);
    } else {
      RunMeaning(intent, k, cands[..|cands| - 1]);
      var st := Run(intent, k, cands[..|cands| - 1]);
      if st.raised {
        StepAfterRaise(intent, k, cands);
      } else if |st.accepted| >= Cap(k) {
        StepAfterFull(intent, k, cands);
      } else {
        StepWhileOpen(intent, k, cands);
      }
      assert Describes(intent, k, cands);
    }
  }

  lemma StepAfterRaise(intent: Intent, k: int, cands: seq<Candidate>)
    requires cands != [] && Describes(intent, k, cands[..|cands| - 1])
    requires Run(intent, k, cands[..|cands| - 1]).raised
    ensures Describes(intent, k, cands)
  {
    var s := cands[..|cands| - 1];
    var j :| 0 <= j < |s| && Screen(intent, s[j]) == Raise && |Filter(s[..j], Passes(intent))| < Cap(k);
    assert cands[..j] == s[..j] && cands[j] == s[j];
  }

  lemma StepAfterFull(intent: Intent, k: int, cands: seq<Candidate>)
    requires cands != [] && Describes(intent, k, cands[..|cands| - 1])
    requires !Run(intent, k, cands[..|cands| - 1]).raised
    requires |Run(intent, k, cands[..|cands| - 1]).accepted| >= Cap(k)
    ensures Describes(intent, k, cands)
  {
    var p := Passes(intent);
    var s := cands[..|cands| - 1];
    var c := cands[|cands| - 1];
    assert cands == s + [c];
    FilterAppend(s, [c], p);
    assert FirstPassing(intent, cands, k) == FirstPassing(intent, s, k);
    NoLateRaise(intent, cands, k);
  }

  lemma StepWhileOpen(intent: Intent, k: int, cands: seq<Candidate>)
    requires cands != [] && Describes(intent, k, cands[..|cands| - 1])
    requires !Run(intent, k, cands[..|cands| - 1]).raised
    requires |Run(intent, k, cands[..|cands| - 1]).accepted| < Cap(k)
    ensures Describes(intent, k, cands)
  {
    var p := Passes(intent);
    var s := cands[..|cands| - 1];
    var c := cands[|cands| - 1];
    var st := Run(intent, k, s);
    assert st.accepted == Filter(s, p);
    assert cands == s + [c];
    FilterAppend(s, [c], p);
    match Screen(intent, c)
    case Raise =>
      assert cands[..|s|] == s && cands[|s|] == c;
      assert RaisesWithin(intent, cands, k);
    case Reject =>
      NoRaiseAfter(intent, cands, k);
      OpenReject(intent, k, s, c);
    case Accept =>
      NoRaiseAfter(intent, cands, k);
      OpenAccept(intent, k, s, c);
  }

  /** A rejected candidate leaves both the scan and the first passing candidates as they were. */
  lemma OpenReject(intent: Intent, k: int, s: seq<Candidate>, c: Candidate)
    requires Screen(intent, c) == Reject
    requires Filter(s + [c], Passes(intent)) == Filter(s, Passes(intent)) + Filter([c], Passes(intent))
    requires Run(intent, k, s).accepted == Filter(s, Passes(intent)) && |Filter(s, Passes(intent))| < Cap(k)
    ensures Step(intent, k, Run(intent, k, s), c) == Run(intent, k, s)
    ensures FirstPassing(intent, s + [c], k) == Filter(s, Passes(intent))
  {
    assert Filter([c], Passes(intent)) == [];
  }

  /** An accepted candidate is appended to the scan and to the first passing candidates alike. */
  lemma OpenAccept(intent: Intent, k: int, s: seq<Candidate>, c: Candidate)
    requires Screen(intent, c) == Accept
    requires Filter(s + [c], Passes(intent)) == Filter(s, Passes(intent)) + Filter([c], Passes(intent))
    requires !Run(intent, k, s).raised
    requires Run(intent, k, s).accepted == Filter(s, Passes(intent)) && |Filter(s, Passes(intent))| < Cap(k)
    ensures Step(intent, k, Run(intent, k, s), c) == Scan(Filter(s, Passes(intent)) + [c], false)
    ensures FirstPassing(intent, s + [c], k) == Filter(s, Passes(intent)) + [c]
  {
    var f := Filter(s, Passes(intent));
    assert [c][..0] == [];
    assert Passes(intent)(c);
    assert Filter([c], Passes(intent)) == [c];
    assert |f + [c]| <= Cap(k);
    assert Take(f + [c], Cap(k)) == f + [c];
  }

  /** With the scan of all but the last candidate full, the last cannot count as raising in time. */
  lemma NoLateRaise(intent: Intent, cands: seq<Candidate>, k: int)
    requires cands != []
    requires !RaisesWithin(intent, cands[..|cands| - 1], k)
    requires |Filter(cands[..|cands| - 1], Passes(intent))| >= Cap(k)
    ensures !RaisesWithin(intent, cands, k)
  {
    var s := cands[..|cands| - 1];
    forall j | 0 <= j < |cands| && Screen(intent, cands[j]) == Raise
      ensures |Filter(cands[..j], Passes(intent))| >= Cap(k)
    {
      if j == |s| {
        assert cands[..j] == s;
      } else {
        assert cands[..j] == s[..j] && s[j] == cands[j];
      }
    }
  }

  /** A last candidate that does not raise adds no raising witness. */
  lemma NoRaiseAfter(intent: Intent, cands: seq<Candidate>, k: int)
    requires cands != []
    requires !RaisesWithin(intent, cands[..|cands| - 1], k)
    requires Screen(intent, cands[|cands| - 1]) != Raise
    ensures !RaisesWithin(intent, cands, k)
  {
    var s := cands[..|cands| - 1];
    forall j | 0 <= j < |cands| && Screen(intent, cands[j]) == Raise
      ensures |Filter(cands[..j], Passes(intent))| >= Cap(k)
    {
      assert j < |s|;
      assert cands[..j] == s[..j] && s[j] == cands[j];
    }
  }

  /**
   * `smart_search` without its model calls: ask the index for `4·k` candidates
   * with the year filter, then keep, in index order, the first candidates that
   * pass the author and category filters, stopping once `k` have been kept.
   */
  method SmartSearch(intent: Intent, hyde: string, k: int, index: (string, int, Option<Where>) -> seq<Candidate>)
    returns (result: SearchResult, analysis: Intent, hypothetical: string)
    ensures analysis == intent && hypothetical == hyde
    ensures var cands := index(hyde, k * OverFetch, WhereFor(intent));
      (result.Raised? <==> RaisesWithin(intent, cands, k))
      && (result.Found? ==> result.papers == Map(FirstPassing(intent, cands, k), RecordOf))
    ensures result.Found? ==> |result.papers| <= Cap(k)
  {
    analysis, hypothetical := intent, hyde;
    var where := BuildWhere(intent);
    var candidates := index(hyde, k * OverFetch, where);
    result := PostFilter(intent, candidates, k);
    RunMeaning(intent, k, candidates);
  }

  /** The post-filtering loop of `smart_search`: it ends in the state the scan describes. */
  method PostFilter(intent: Intent, candidates: seq<Candidate>, k: int) returns (result: SearchResult)
    ensures result.Raised? <==> Run(intent, k, candidates).raised
    ensures result.Found? ==> result.papers == Map(Run(intent, k, candidates).accepted, RecordOf)
  {
    var scored: seq<ScoredPaper> := [];
    ghost var accepted: seq<Candidate> := [];
    for i := 0 to |candidates|
      invariant Run(intent, k, candidates[..i]) == Scan(accepted, false)
      invariant scored == Map(accepted, RecordOf)
      invariant |accepted| < Cap(k)
    {
      var c := candidates[i];
      RunSnoc(intent, k, candidates, i);
      var verdict := CheckCandidate(intent, c);
      if verdict == Raise {
        RunStaysStopped(intent, k, candidates, i + 1);
        return Raised;
      }
      if verdict == Reject {
        continue;
      }
      MapAppend(accepted, [c], RecordOf);
      scored := scored + [RecordOf(c)];
      accepted := accepted + [c];
      if |scored| >= k {
        RunStaysStopped(intent, k, candidates, i + 1);
        return Found(scored);
      }
    }
    assert candidates[..|candidates|] == candidates;
    result := Found(scored);
  }

  /**
   * The two checks of the result loop on one candidate: a given author or
   * category must occur, case-insensitively, in the stored field (an absent
   * or falsy field reads as ""), and lower-casing a stored value that is not a
   * string raises.
   */
  method CheckCandidate(intent: Intent, c: Candidate) returns (verdict: Verdict)
    ensures verdict == Screen(intent, c)
  {
    var meta := c.meta;
    if TextGiven(intent.author) {
      var storedAuthors := StoredText(Get(meta, "authors"));
      if storedAuthors.None? {
        return Raise;
      }
      if !Contains(Lower(storedAuthors.value), Lower(intent.author.value)) {
        return Reject;
      }
    }
    if TextGiven(intent.category) {
      var storedCats := StoredText(Or(Get(meta, "Categories"), Get(meta, "categories")));
      if storedCats.None? {
        return Raise;
      }
      if !Contains(Lower(storedCats.value), Lower(intent.category.value)) {
        return Reject;
      }
    }
    return Accept;
  }

  /**
   * If the index returns candidates in non-decreasing score order (ascending
   * distance), the returned papers keep that order.
   */
  lemma ScoresKeepIndexOrder(intent: Intent, cands: seq<Candidate>, k: int)
    requires forall i, j :: 0 <= i < j < |cands| ==> cands[i].score <= cands[j].score
    ensures var papers := Map(FirstPassing(intent, cands, k), RecordOf);
      forall i, j :: 0 <= i < j < |papers| ==> papers[i].similarityScore <= papers[j].similarityScore
  {
    var before := (a: Candidate, b: Candidate) => a.score <= b.score;
    FilterKeepsOrder(cands, Passes(intent), before);
  }

  /** Every returned paper passed both filters and carries its candidate's score and title. */
  lemma ResultsPassFilters(intent: Intent, cands: seq<Candidate>, k: int)
    ensures var kept := FirstPassing(intent, cands, k);
      forall j :: 0 <= j < |kept| ==>
        kept[j] in cands && Screen(intent, kept[j]) == Accept
        && Map(kept, RecordOf)[j].similarityScore == kept[j].score
        && Map(kept, RecordOf)[j].title == TitleOf(kept[j].pageContent)
  {
    FilterMembers(cands, Passes(intent));
    var kept := FirstPassing(intent, cands, k);
    assert forall j :: 0 <= j < |kept| ==> kept[j] in Filter(cands, Passes(intent));
  }
}
