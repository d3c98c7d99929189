/**
 * Population of the paper index from the arXiv metadata snapshot
 * (data_populate.py): skipping and blank-line filtering of the line stream,
 * fixed-size batching, the metadata projection and the document content, and
 * the batch-by-batch insertion loop with its document count.
 *
 * JSON decoding, the embedding model and the index's storage are outside the
 * model: a line is decoded by a function parameter, and insertion appends the
 * batch's documents to a sequence.
 */
module Ingest {
  import opened Values
  import opened Text
  import opened Seqs
  import Retrieval

  /** One decoded metadata record of the snapshot; its fields are strings. */
  type Paper = map<string, string>

  /** A document handed to the index: its text and its stored metadata. */
  datatype Document = Document(pageContent: string, meta: Meta)

  const BatchSize := 500

  /** Lines of the snapshot already inserted by an earlier run, skipped on this one. */
  const SkipLines := 111500

  const AuthorsLimit := 200
  const YearLength := 4

  // ---------------------------------------------------------------------------
  // The line stream

  predicate Blank(line: string) {
    Strip(line) == ""
  }

  /** `islice(f, SkipLines, None)`: the lines after the skipped prefix. */
  function AfterSkip(lines: seq<string>): seq<string> {
    if |lines| <= SkipLines then [] else lines[SkipLines..]
  }

  /** The lines the generator decodes: the ones after the skipped prefix that are not blank. */
  function StreamLines(lines: seq<string>): seq<string> {
    Filter(AfterSkip(lines), l => !Blank(l))
  }

  /** The generator loop: skip the first lines, then pass on every non-blank line, decoded. */
  method ArxivStream(lines: seq<string>, decode: string -> Paper) returns (papers: seq<Paper>)
    ensures papers == Map(StreamLines(lines), decode)
    ensures forall l :: l in StreamLines(lines) <==> l in AfterSkip(lines) && !Blank(l)
  {
    papers := [];
    var start := if |lines| <= SkipLines then |lines| else SkipLines;
    var rest := lines[start..];
    ghost var kept: seq<string> := [];
    for i := 0 to |rest|
      invariant kept == Filter(rest[..i], l => !Blank(l))
      invariant papers == Map(kept, decode)
    {
      FilterSnoc(rest, i, l => !Blank(l));
      if Strip(rest[i]) == "" {
        continue;
      }
      MapAppend(kept, [rest[i]], decode);
      papers := papers + [decode(rest[i])];
      kept := kept + [rest[i]];
    }
    assert rest[..|rest|] == rest;
    assert rest == AfterSkip(lines);
    FilterMembers(rest, l => !Blank(l));
  }

  // ---------------------------------------------------------------------------
  // Batching

  /** The loader's state: the batches yielded so far and the one being filled. */
  datatype Loader<T> = Loader(yielded: seq<seq<T>>, filling: seq<T>)

  /** One item added: a batch that reaches `n` items is yielded and a new one begun. */
  function Push<T>(st: Loader<T>, x: T, n: int): Loader<T> {
    var grown := st.filling + [x];
    if |grown| == n then Loader(st.yielded + [grown], []) else Loader(st.yielded, grown)
  }

  /** The loader's state after the given items. */
  function Acc<T>(items: seq<T>, n: int): Loader<T>
    decreases |items|
  {
    if items == [] then Loader([], []) else Push(Acc(items[..|items| - 1], n), items[|items| - 1], n)
  }

  /** Everything the loader yields: the full batches, then the partial one if it is not empty. */
  function Batches<T>(items: seq<T>, n: int): seq<seq<T>> {
    var st := Acc(items, n);
    if st.filling != [] then st.yielded + [st.filling] else st.yielded
  }

  lemma AccSnoc<T>(items: seq<T>, i: nat, n: int)
    requires i < |items|
    ensures Acc(items[..i + 1], n) == Push(Acc(items[..i], n), items[i], n)
  {
    assert items[..i + 1][..i] == items[..i];
  }

  /** `batch_loader`: collect items, yield each batch the moment it reaches `n`, then the rest. */
  method BatchLoader<T>(items: seq<T>, n: int) returns (batches: seq<seq<T>>)
    ensures batches == Batches(items, n)
  {
    batches := [];
    var batch: seq<T> := [];
    for i := 0 to |items|
      invariant Loader(batches, batch) == Acc(items[..i], n)
    {
      AccSnoc(items, i, n);
      batch := batch + [items[i]];
      if |batch| == n {
        batches := batches + [batch];
        batch := [];
      }
    }
    assert items[..|items|] == items;
    if batch != [] {
      batches := batches + [batch];
    }
  }

  lemma FlattenAppendOne<T>(ss: seq<seq<T>>, s: seq<T>)
    ensures Flatten(ss + [s]) == Flatten(ss) + s
  {
    assert (ss + [s])[..|ss|] == ss;
  }

  /** What a loader state holds: it spells the items, its yielded batches are full, its filling batch is not. */
  ghost predicate Holds<T>(st: Loader<T>, items: seq<T>, n: int) {
    Flatten(st.yielded) + st.filling == items
    && (forall b :: 0 <= b < |st.yielded| ==> |st.yielded[b]| == n)
    && (n >= 1 ==> |st.filling| < n)
    && (n < 1 ==> st == Loader([], items))
  }

  lemma PushHolds<T>(st: Loader<T>, items: seq<T>, x: T, n: int)
    requires Holds(st, items, n)
    ensures Holds(Push(st, x, n), items + [x], n)
  {
    var grown := st.filling + [x];
    if |grown| == n {
      assert Push(st, x, n) == Loader(st.yielded + [grown], []);
      FlattenAppendOne(st.yielded, grown);
      assert Flatten(st.yielded + [grown]) + [] == items + [x];
    } else {
      assert Push(st, x, n) == Loader(st.yielded, grown);
      assert Flatten(st.yielded) + grown == items + [x];
    }
  }

  /**
   * The accumulated batches and the current one spell the items; every yielded
   * batch is full and the current one is shorter; with `n < 1` nothing is ever
   * yielded before the end.
   */
  lemma {:induction false} AccFacts<T>(items: seq<T>, n: int)
    ensures Holds(Acc(items, n), items, n)
    decreases |items|
  {
    if items != [] {
      var s := items[..|items| - 1];
      AccFacts(s, n);
      PushHolds(Acc(s, n), s, items[|items| - 1], n);
      assert items == s + [items[|items| - 1]];
    }
  }

  /** `batch_loader` splits without loss: concatenated, the batches are the input. */
  lemma BatchesSpellItems<T>(items: seq<T>, n: int)
    ensures Flatten(Batches(items, n)) == items
  {
    AccFacts(items, n);
    var st := Acc(items, n);
    assert Flatten(st.yielded) + st.filling == items;
    if st.filling != [] {
      FlattenAppendOne(st.yielded, st.filling);
    }
  }

  /**
   * No batch is empty; all but the last hold exactly `n` items and the last
   * at most `n`; with `n < 1` the whole input is one batch.
   */
  lemma BatchesFacts<T>(items: seq<T>, n: int)
    ensures forall b :: 0 <= b < |Batches(items, n)| ==> Batches(items, n)[b] != []
    ensures forall b :: 0 <= b < |Batches(items, n)| - 1 ==> |Batches(items, n)[b]| == n
    ensures n >= 1 ==> forall b :: 0 <= b < |Batches(items, n)| ==> |Batches(items, n)[b]| <= n
    ensures n < 1 ==> Batches(items, n) == if items == [] then [] else [items]
  {
    AccFacts(items, n);
    var st := Acc(items, n);
    assert Holds(st, items, n);
    var bs := Batches(items, n);
    if n < 1 {
      assert st == Loader([], items);
    } else if st.filling != [] {
      assert bs == st.yielded + [st.filling];
      assert forall b :: 0 <= b < |bs| - 1 ==> bs[b] == st.yielded[b];
    } else {
      assert bs == st.yielded;
    }
  }

  // ---------------------------------------------------------------------------
  // Documents

  /** `paper.get(key, "")`. */
  function Field(p: Paper, key: string): string {
    if key in p then p[key] else ""
  }

  /** `process_metadata`: the four fields kept in the index, stored as strings. */
  function ProcessMetadata(p: Paper): (m: Meta)
    ensures m.Keys == {"id", "authors", "categories", "year"}
    ensures forall key :: key in m ==> m[key].Str?
    ensures "id" in p ==> m["id"].s == p["id"]
    ensures "id" !in p ==> m["id"].s == ""
    ensures m["categories"].s == Field(p, "categories")
    ensures IsPrefix(m["authors"].s, Field(p, "authors"))
    ensures |m["authors"].s| == if |Field(p, "authors")| < AuthorsLimit then |Field(p, "authors")| else AuthorsLimit
    ensures IsPrefix(m["year"].s, Field(p, "update_date"))
    ensures |m["year"].s| == if |Field(p, "update_date")| < YearLength then |Field(p, "update_date")| else YearLength
  {
    map[
      "id" := Str(Field(p, "id")),
      "authors" := Str(Take(Field(p, "authors"), AuthorsLimit)),
      "categories" := Str(Field(p, "categories")),
      "year" := Str(Take(Field(p, "update_date"), YearLength))]
  }

  /** The fields the content string reads with `paper[...]`; a missing one raises KeyError. */
  predicate HasContentFields(p: Paper) {
    "title" in p && "categories" in p && "abstract" in p
  }

  /**
   * The text embedded for a paper: three labelled lines (read only when
   * HasContentFields holds). It starts with the title label, and a one-line
   * title fills the rest of the first line.
   */
  function Content(p: Paper): (r: string)
    ensures IsPrefix(Retrieval.TitlePrefix, r)
    ensures '\n' !in Field(p, "title") ==> FirstLine(r) == Retrieval.TitlePrefix + Field(p, "title")
  {
    var tail := "Categories: " + Field(p, "categories") + "\nAbstract: " + Field(p, "abstract");
    TitleHead(Field(p, "title"), tail);
    "Title: " + Field(p, "title") + "\n" + tail
  }

  /** The labelled title line is the first line of the content when the title has no line break. */
  lemma TitleHead(a: string, tail: string)
    ensures IsPrefix(Retrieval.TitlePrefix, "Title: " + a + "\n" + tail)
    ensures '\n' !in a ==> FirstLine("Title: " + a + "\n" + tail) == "Title: " + a
  {
    var head := "Title: " + a;
    assert (head + "\n" + tail)[..7] == "Title: ";
    if '\n' !in a {
      assert '\n' !in head by {
        assert forall i :: 0 <= i < |head| ==> head[i] == if i < 7 then "Title: "[i] else a[i - 7];
      }
      FirstLineOf(head, tail);
    }
  }

  function ToDocument(p: Paper): Document {
    Document(Content(p), ProcessMetadata(p))
  }

  /** The first line of a content string, less its label, is read back as the title. */
  lemma TitleLine(a: string, tail: string)
    requires '\n' !in a && !Contains(a, Retrieval.TitlePrefix)
    ensures Retrieval.TitleOf("Title: " + a + "\n" + tail) == a
  {
    var head := "Title: " + a;
    TitleHead(a, tail);
    assert IsPrefix(Retrieval.TitlePrefix, head);
    assert head[|Retrieval.TitlePrefix|..] == a;
    ReplaceAbsent(a, Retrieval.TitlePrefix, "");
  }

  /** Search reads a one-line title back exactly from the content ingestion built. */
  lemma TitleRoundTrip(p: Paper)
    requires HasContentFields(p)
    requires '\n' !in p["title"] && !Contains(p["title"], Retrieval.TitlePrefix)
    ensures Retrieval.TitleOf(Content(p)) == p["title"]
  {
    var tail := "Categories: " + p["categories"] + "\nAbstract: " + p["abstract"];
    assert Content(p) == "Title: " + p["title"] + "\n" + tail;
    TitleLine(p["title"], tail);
  }

  /** A title that spans several lines is cut to its first line when search reads it back. */
  lemma MultiLineTitleIsCut(p: Paper, first: string, rest: string)
    requires HasContentFields(p) && p["title"] == first + "\n" + rest
    requires '\n' !in first && !Contains(first, Retrieval.TitlePrefix)
    ensures Retrieval.TitleOf(Content(p)) == first != p["title"]
  {
    var fields := "Categories: " + p["categories"] + "\nAbstract: " + p["abstract"];
    var tail := rest + "\n" + fields;
    assert Content(p) == "Title: " + p["title"] + "\n" + fields;
    LineSplit("Title: ", first, rest, fields);
    TitleLine(first, tail);
    assert |first| < |p["title"]|;
  }

  lemma LineSplit(head: string, first: string, rest: string, fields: string)
    ensures head + (first + "\n" + rest) + "\n" + fields == head + first + "\n" + (rest + "\n" + fields)
  {
  }

  /** The abstract is not among the stored fields, so search always reports the default one. */
  lemma AbstractNeverStored(p: Paper, score: real)
    requires HasContentFields(p)
    ensures Retrieval.RecordOf(Retrieval.Candidate(ToDocument(p).meta, Content(p), score)).abstractText
      == Str(Retrieval.NoAbstract)
  {
  }

  // ---------------------------------------------------------------------------
  // The insertion loop

  /** True when every paper of the batch can be turned into a document. */
  predicate Insertable(batch: seq<Paper>) {
    forall j :: 0 <= j < |batch| ==> HasContentFields(batch[j])
  }

  /** What the run has stored in the index, and whether a KeyError ended it. */
  datatype Outcome = Outcome(stored: seq<Document>, failed: bool)

  /** Batch by batch: insert a batch whose papers all have their fields, stop at the first that does not. */
  function Ingested(batches: seq<seq<Paper>>): Outcome
    decreases |batches|
  {
    if batches == [] then Outcome([], false)
    else
      var before := Ingested(batches[..|batches| - 1]);
      var batch := batches[|batches| - 1];
      if before.failed then before
      else if Insertable(batch) then Outcome(before.stored + Map(batch, ToDocument), false)
      else Outcome(before.stored, true)
  }

  lemma IngestedSnoc(batches: seq<seq<Paper>>, i: nat)
    requires i < |batches|
    ensures Ingested(batches[..i + 1]) ==
      (var before := Ingested(batches[..i]);
       if before.failed then before
       else if Insertable(batches[i]) then Outcome(before.stored + Map(batches[i], ToDocument), false)
       else Outcome(before.stored, true))
  {
    assert batches[..i + 1][..i] == batches[..i];
  }

  /**
   * `main` over the decoded papers: batch them, build each batch's documents,
   * insert the non-empty ones and count them. A paper without title,
   * categories or abstract raises KeyError, which ends the run after the
   * batches already inserted.
   */
  method Populate(papers: seq<Paper>) returns (stored: seq<Document>, count: nat, failed: bool)
    ensures Outcome(stored, failed) == Ingested(Batches(papers, BatchSize))
    ensures count == |stored|
  {
    var batches := BatchLoader(papers, BatchSize);
    stored, count, failed := [], 0, false;
    for b := 0 to |batches|
      invariant Ingested(batches[..b]) == Outcome(stored, false)
      invariant count == |stored|
    {
      IngestedSnoc(batches, b);
      var documents, ok := BuildDocuments(batches[b]);
      if !ok {
        RunStopsAfterFailure(batches, b + 1);
        failed := true;
        return;
      }
      if documents != [] {
        stored := stored + documents;
        count := count + |documents|;
      }
    }
    assert batches[..|batches|] == batches;
  }

  /**
   * The document loop of one batch: one document per paper, in order, unless
   * some paper lacks a content field, where building its content raises.
   */
  method BuildDocuments(batch: seq<Paper>) returns (documents: seq<Document>, ok: bool)
    ensures ok <==> Insertable(batch)
    ensures ok ==> documents == Map(batch, ToDocument)
  {
    documents := [];
    for j := 0 to |batch|
      invariant Insertable(batch[..j])
      invariant documents == Map(batch[..j], ToDocument)
    {
      if !HasContentFields(batch[j]) {
        return documents, false;
      }
      assert batch[..j + 1] == batch[..j] + [batch[j]];
      MapAppend(batch[..j], [batch[j]], ToDocument);
      documents := documents + [ToDocument(batch[j])];
    }
    assert batch[..|batch|] == batch;
    ok := true;
  }

  /** Once a batch has failed, later batches change nothing. */
  lemma {:induction false} RunStopsAfterFailure(batches: seq<seq<Paper>>, n: nat)
    requires n <= |batches| && Ingested(batches[..n]).failed
    ensures Ingested(batches) == Ingested(batches[..n])
    decreases |batches| - n
  {
    if n < |batches| {
      IngestedSnoc(batches, n);
      RunStopsAfterFailure(batches, n + 1);
    } else {
      assert batches[..n] == batches;
    }
  }

  /** The stored documents are those of the first `m` batches, all insertable; on failure batch `m` is not. */
  ghost predicate StoredWholeBatches(batches: seq<seq<Paper>>, m: nat) {
    m <= |batches|
    && (forall p :: p in Flatten(batches[..m]) ==> HasContentFields(p))
    && Ingested(batches).stored == Map(Flatten(batches[..m]), ToDocument)
    && (Ingested(batches).failed ==> m < |batches| && !Insertable(batches[m]))
  }

  /** The contract of IngestedMeaning, for one list of batches. */
  ghost predicate IngestFacts(batches: seq<seq<Paper>>) {
    (Ingested(batches).failed <==> exists p :: p in Flatten(batches) && !HasContentFields(p))
    && (!Ingested(batches).failed ==>
         (forall p :: p in Flatten(batches) ==> HasContentFields(p))
         && Ingested(batches).stored == Map(Flatten(batches), ToDocument))
    && (exists m :: StoredWholeBatches(batches, m))
  }

  /**
   * The run fails exactly when some paper lacks a content field; otherwise it
   * stores one document per paper, in order. Either way it stores the documents
   * of a run of whole leading batches, all insertable, and on failure the batch
   * after them is the one holding the bad paper.
   */
  lemma {:induction false} IngestedMeaning(batches: seq<seq<Paper>>)
    ensures Ingested(batches).failed <==> exists p :: p in Flatten(batches) && !HasContentFields(p)
    ensures !Ingested(batches).failed ==>
      (forall p :: p in Flatten(batches) ==> HasContentFields(p))
      && Ingested(batches).stored == Map(Flatten(batches), ToDocument)
    ensures exists m :: StoredWholeBatches(batches, m)
    decreases |batches|
  {
    if batches == [] {
      assert batches[..0] == [];
      assert StoredWholeBatches(batches, 0);
    } else {
      var front := batches[..|batches| - 1];
      IngestedMeaning(front);
      if Ingested(front).failed {
        IngestAfterFailure(batches);
      } else if Insertable(batches[|batches| - 1]) {
        IngestInsertable(batches);
      } else {
        IngestBadBatch(batches);
      }
      assert IngestFacts(batches);
    }
  }

  lemma IngestAfterFailure(batches: seq<seq<Paper>>)
    requires batches != [] && IngestFacts(batches[..|batches| - 1])
    requires Ingested(batches[..|batches| - 1]).failed
    ensures IngestFacts(batches)
  {
    var front := batches[..|batches| - 1];
    var batch := batches[|batches| - 1];
    FlattenAppendOne(front, batch);
    assert batches == front + [batch];
    var m: nat :| StoredWholeBatches(front, m);
    assert batches[..m] == front[..m] && batches[m] == front[m];
    assert StoredWholeBatches(batches, m);
    var q :| q in Flatten(front) && !HasContentFields(q);
    assert q in Flatten(batches);
  }

  lemma IngestInsertable(batches: seq<seq<Paper>>)
    requires batches != [] && IngestFacts(batches[..|batches| - 1])
    requires !Ingested(batches[..|batches| - 1]).failed
    requires Insertable(batches[|batches| - 1])
    ensures IngestFacts(batches)
  {
    var front := batches[..|batches| - 1];
    var batch := batches[|batches| - 1];
    FlattenAppendOne(front, batch);
    assert batches == front + [batch];
    MapAppend(Flatten(front), batch, ToDocument);
    assert forall p :: p in batch ==> HasContentFields(p);
    assert batches[..|batches|] == batches;
    assert StoredWholeBatches(batches, |batches|);
  }

  lemma IngestBadBatch(batches: seq<seq<Paper>>)
    requires batches != [] && IngestFacts(batches[..|batches| - 1])
    requires !Ingested(batches[..|batches| - 1]).failed
    requires !Insertable(batches[|batches| - 1])
    ensures IngestFacts(batches)
  {
    var front := batches[..|batches| - 1];
    var batch := batches[|batches| - 1];
    FlattenAppendOne(front, batch);
    assert batches == front + [batch];
    var j :| 0 <= j < |batch| && !HasContentFields(batch[j]);
    assert batch[j] in Flatten(batches);
    assert batches[..|front|] == front;
    assert StoredWholeBatches(batches, |front|);
  }

  /**
   * A run over the decoded papers fails exactly when one of them lacks a
   * content field; otherwise it stores one document per paper, in order.
   */
  lemma PopulateMeaning(papers: seq<Paper>)
    ensures var run := Ingested(Batches(papers, BatchSize));
      (run.failed <==> exists p :: p in papers && !HasContentFields(p))
      && (!run.failed ==> run.stored == Map(papers, ToDocument))
  {
    BatchesSpellItems(papers, BatchSize);
    BatchesFacts(papers, BatchSize);
    IngestedMeaning(Batches(papers, BatchSize));
  }
}
