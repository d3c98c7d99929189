/**
 * The one-off year normalisation pass over the paper index (fix_years.py):
 * walk the collection in pages of 5000 records and turn every `year` stored
 * as a string into an integer, 0 when it does not parse.
 *
 * The collection is a sequence of records; fetching a page is taking the
 * slice at its offset, and each update call is recorded rather than sent.
 */
module YearFix {
  import opened Values
  import opened Text
  import opened Seqs

  const FixBatchSize := 5000

  /** One stored record: its id and its metadata. */
  datatype Record = Record(id: string, meta: Meta)

  /** One `collection.update` call: parallel lists of ids and new metadata. */
  datatype Update = Update(ids: seq<string>, metadatas: seq<Meta>)

  /** `current_meta.get("year", "0")`. */
  function YearOf(m: Meta): Value {
    if "year" in m then m["year"] else Str("0")
  }

  /** Only a year stored as a string is converted. */
  predicate NeedsFix(r: Record) {
    YearOf(r.meta).Str?
  }

  /**
   * `int(year)`, or 0 where `int` raises ValueError: the decimal text of a
   * year reads back as that year.
   */
  function FixedYear(s: string): (n: int)
    ensures ParseInt(s).None? ==> n == 0
    ensures forall y :: s == IntToString(y) ==> n == y
  {
    YearTextParses(s);
    match ParseInt(s)
    case Some(n) => n
    case None => 0
  }

  lemma YearTextParses(s: string)
    ensures forall y :: s == IntToString(y) ==> ParseInt(s) == Some(y)
  {
    forall y | s == IntToString(y)
      ensures ParseInt(s) == Some(y)
    {
      ParseIntRoundTrip(y);
    }
  }

  /** The metadata with `year` set to the given integer; every other field as it was. */
  function WithYear(m: Meta, year: int): (r: Meta)
    ensures r.Keys == m.Keys + {"year"}
    ensures r["year"] == Int(year)
    ensures forall key :: key in m && key != "year" ==> r[key] == m[key]
  {
    m["year" := Int(year)]
  }

  /** The metadata after conversion: `year` holds the integer its string spells, or 0. */
  function FixedMeta(m: Meta): Meta
    requires YearOf(m).Str?
  {
    WithYear(m, FixedYear(YearOf(m).s))
  }

  function Fix(r: Record): Record {
    if NeedsFix(r) then Record(r.id, FixedMeta(r.meta)) else r
  }

  /** The records of a page that are updated, in page order, with their new metadata. */
  function Converted(page: seq<Record>): seq<Record> {
    Map(Filter(page, NeedsFix), Fix)
  }

  function IdOf(r: Record): string {
    r.id
  }

  function MetaOf(r: Record): Meta {
    r.meta
  }

  lemma ConvertedSnoc(page: seq<Record>, i: nat)
    requires i < |page|
    ensures Converted(page[..i + 1]) == Converted(page[..i]) + (if NeedsFix(page[i]) then [Fix(page[i])] else [])
  {
    FilterSnoc(page, i, NeedsFix);
    MapAppend(Filter(page[..i], NeedsFix), if NeedsFix(page[i]) then [page[i]] else [], Fix);
  }

  /** One more record of the page: its id and new metadata are listed exactly when its year is a string. */
  lemma ConvertStep(page: seq<Record>, i: nat)
    requires i < |page|
    ensures Map(Converted(page[..i + 1]), IdOf)
      == Map(Converted(page[..i]), IdOf) + (if NeedsFix(page[i]) then [page[i].id] else [])
    ensures NeedsFix(page[i]) ==>
      (Map(Converted(page[..i + 1]), MetaOf) == Map(Converted(page[..i]), MetaOf) + [FixedMeta(page[i].meta)])
    ensures !NeedsFix(page[i]) ==> Map(Converted(page[..i + 1]), MetaOf) == Map(Converted(page[..i]), MetaOf)
  {
    ConvertedSnoc(page, i);
    var added := if NeedsFix(page[i]) then [Fix(page[i])] else [];
    MapAppend(Converted(page[..i]), added, IdOf);
    MapAppend(Converted(page[..i]), added, MetaOf);
  }

  /** The per-page loop: pick, in order, the records whose year is a string and convert them. */
  method ConvertPage(page: seq<Record>) returns (ids: seq<string>, metadatas: seq<Meta>)
    ensures ids == Map(Converted(page), IdOf)
    ensures metadatas == Map(Converted(page), MetaOf)
    ensures |ids| <= |page|
  {
    ids, metadatas := [], [];
    for i := 0 to |page|
      invariant |ids| <= i
      invariant ids == Map(Converted(page[..i]), IdOf)
      invariant metadatas == Map(Converted(page[..i]), MetaOf)
    {
      ConvertStep(page, i);
      var docId := page[i].id;
      var currentMeta := page[i].meta;
      var yearVal := if "year" in currentMeta then currentMeta["year"] else Str("0");
      if yearVal.Str? {
        currentMeta := WithYear(currentMeta, FixedYear(yearVal.s));
        ids := ids + [docId];
        metadatas := metadatas + [currentMeta];
      }
    }
    assert page[..|page|] == page;
  }

  /** A page's records are updated exactly when their year is a string; the others are not listed. */
  lemma ConvertedMeaning(page: seq<Record>)
    ensures forall r :: r in page && NeedsFix(r) ==> Record(r.id, FixedMeta(r.meta)) in Converted(page)
    ensures forall u :: u in Converted(page) ==>
      exists r :: r in page && NeedsFix(r) && u == Record(r.id, FixedMeta(r.meta))
    ensures forall u :: u in Converted(page) ==> u.meta["year"].Int?
  {
    MapFilterMembers(page, NeedsFix, Fix);
  }

  /** A record with no year at all is listed, with year 0. */
  lemma MissingYearBecomesZero(r: Record)
    requires "year" !in r.meta
    ensures NeedsFix(r) && Fix(r).meta["year"] == Int(0)
  {
    ParseIntRoundTrip(0);
    assert IntToString(0) == "0";
  }

  /** A year the ingestion stored as its decimal text comes back as that year. */
  lemma TextYearReadBack(r: Record, y: int)
    requires "year" in r.meta && r.meta["year"] == Str(IntToString(y))
    ensures NeedsFix(r) && Fix(r).meta["year"] == Int(y)
  {
    ParseIntRoundTrip(y);
  }

  lemma ConvertedAppend(a: seq<Record>, b: seq<Record>)
    ensures Converted(a + b) == Converted(a) + Converted(b)
  {
    FilterAppend(a, b, NeedsFix);
    MapAppend(Filter(a, NeedsFix), Filter(b, NeedsFix), Fix);
  }

  // ---------------------------------------------------------------------------
  // Pages

  /** How many offsets `range(0, total, FixBatchSize)` yields. */
  function PageCount(total: int): nat {
    if total <= 0 then 0 else (total - 1) / FixBatchSize + 1
  }

  /** The page at offset `b · FixBatchSize`: at most FixBatchSize records. */
  function Page(records: seq<Record>, b: nat): (page: seq<Record>)
    requires b < PageCount(|records|)
    ensures |page| <= FixBatchSize
  {
    var lo := b * FixBatchSize;
    records[lo..if lo + FixBatchSize < |records| then lo + FixBatchSize else |records|]
  }

  /**
   * The offsets are all below the total, and every index of the collection
   * lies in exactly one page: the one at offset `(k / FixBatchSize) · FixBatchSize`.
   */
  lemma OffsetsCover(total: nat, k: nat)
    requires k < total
    ensures forall b :: 0 <= b < PageCount(total) ==> b * FixBatchSize < total
    ensures k / FixBatchSize < PageCount(total)
    ensures forall b :: 0 <= b < PageCount(total) ==>
      (b * FixBatchSize <= k < b * FixBatchSize + FixBatchSize <==> b == k / FixBatchSize)
  {
    forall b | 0 <= b < PageCount(total)
      ensures b * FixBatchSize < total
    {
      assert b <= (total - 1) / FixBatchSize;
    }
  }

  function UpdateIds(u: Update): seq<string> {
    u.ids
  }

  function UpdateMetas(u: Update): seq<Meta> {
    u.metadatas
  }

  /** The records before offset `b · FixBatchSize`, cut at the end of the collection. */
  function Before(records: seq<Record>, b: nat): seq<Record> {
    records[..Min(b * FixBatchSize, |records|)]
  }

  /** The records before page `b + 1` are those before page `b`, then page `b`. */
  lemma PageExtends(records: seq<Record>, b: nat)
    requires b < PageCount(|records|)
    ensures Map(Converted(Before(records, b + 1)), IdOf)
      == Map(Converted(Before(records, b)), IdOf) + Map(Converted(Page(records, b)), IdOf)
    ensures Map(Converted(Before(records, b + 1)), MetaOf)
      == Map(Converted(Before(records, b)), MetaOf) + Map(Converted(Page(records, b)), MetaOf)
  {
    var offset := b * FixBatchSize;
    assert offset < |records| by {
      assert b <= (|records| - 1) / FixBatchSize;
    }
    assert Before(records, b) == records[..offset];
    assert Before(records, b + 1) == records[..offset] + Page(records, b);
    ConvertedAppend(records[..offset], Page(records, b));
    MapAppend(Converted(records[..offset]), Converted(Page(records, b)), IdOf);
    MapAppend(Converted(records[..offset]), Converted(Page(records, b)), MetaOf);
  }

  /**
   * All update calls of the pass, at most one per page and none for a page
   * with nothing to convert; each lists at most FixBatchSize records.
   */
  method FixYears(records: seq<Record>) returns (updates: seq<Update>)
    ensures |updates| <= PageCount(|records|)
    ensures forall u :: 0 <= u < |updates| ==> |updates[u].ids| <= FixBatchSize
    ensures forall u :: 0 <= u < |updates| ==> updates[u].ids != [] && |updates[u].ids| == |updates[u].metadatas|
    ensures Flatten(Map(updates, UpdateIds)) == Map(Converted(records), IdOf)
    ensures Flatten(Map(updates, UpdateMetas)) == Map(Converted(records), MetaOf)
  {
    updates := [];
    var offset := 0;
    for b := 0 to PageCount(|records|)
      invariant offset == b * FixBatchSize
      invariant |updates| <= b
      invariant WellSized(updates)
      invariant Flatten(Map(updates, UpdateIds)) == Map(Converted(Before(records, b)), IdOf)
      invariant Flatten(Map(updates, UpdateMetas)) == Map(Converted(Before(records, b)), MetaOf)
    {
      var page := Page(records, b);
      var ids, metadatas := ConvertPage(page);
      PageExtends(records, b);
      if ids != [] {
        WellSizedAppend(updates, Update(ids, metadatas));
        AppendUpdate(updates, Update(ids, metadatas));
        updates := updates + [Update(ids, metadatas)];
      }
      offset := offset + FixBatchSize;
    }
    assert Before(records, PageCount(|records|)) == records;
  }

  /** Every update lists at least one and at most FixBatchSize records, each id with its metadata. */
  ghost predicate WellSized(updates: seq<Update>) {
    forall u :: 0 <= u < |updates| ==>
      updates[u].ids != [] && |updates[u].ids| == |updates[u].metadatas| && |updates[u].ids| <= FixBatchSize
  }

  lemma WellSizedAppend(updates: seq<Update>, u: Update)
    requires WellSized(updates)
    requires u.ids != [] && |u.ids| == |u.metadatas| && |u.ids| <= FixBatchSize
    ensures WellSized(updates + [u])
  {
    assert forall v :: 0 <= v < |updates| ==> (updates + [u])[v] == updates[v];
  }

  function Min(a: int, b: int): int {
    if a < b then a else b
  }

  lemma AppendUpdate(updates: seq<Update>, u: Update)
    ensures Flatten(Map(updates + [u], UpdateIds)) == Flatten(Map(updates, UpdateIds)) + u.ids
    ensures Flatten(Map(updates + [u], UpdateMetas)) == Flatten(Map(updates, UpdateMetas)) + u.metadatas
  {
    assert Map(updates + [u], UpdateIds)[..|updates|] == Map(updates, UpdateIds);
    assert Map(updates + [u], UpdateMetas)[..|updates|] == Map(updates, UpdateMetas);
  }
}
