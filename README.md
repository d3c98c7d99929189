# research-buddy: a Dafny model of its list-processing core

research-buddy is a backend for searching arXiv papers and reading one of them
with an assistant. This project models, in Dafny, the sequential logic at the
heart of five of its files, and proves what that logic promises:

- **Paper segmentation** (`routes/utils/paper.py`, module `Segmentation`, file
  `segmentation.dfy`). The block loop of `get_chunks_with_coords` keeps text
  blocks whose raw text has at least 50 characters, cleans their text and
  emits two parallel lists. `semantically_chunk` computes the distances
  between neighbouring embeddings and labels the blocks with cluster ids. An
  id rises by one exactly after a distance that strictly exceeds
  `mean + 0.5 · std`.
- **Smart search** (`routes/utils/search.py`, module `Retrieval`, file
  `retrieval.dfy`). It builds the year filter for the index and asks for
  `4 · k` candidates. It then scans them in index order through the author and
  category containment filters, stopping after `k` acceptances. It also builds
  each returned record (title from the first content line, score passed on).
- **Index population** (`data_populate.py`, module `Ingest`, file
  `ingest.dfy`). This covers:
  - the line stream, which skips 111500 lines and then drops blank lines;
  - `batch_loader`;
  - `process_metadata` and the document content string;
  - the batch insertion loop and its count.
- **Year normalisation** (`fix_years.py`, module `YearFix`, file
  `year_fix.dfy`). Pages of 5000 records are processed by offset. Every
  `year` stored as a string becomes `int(year)`, or 0 when `int` fails.
- **Paper endpoints** (`routes/paper.py`, module `PaperRoutes`, file
  `paper_routes.dfy`). This covers:
  - the arXiv-id guard of `chat_with_chunk` and its history-to-messages loop;
  - the empty-text guard and chunk labelling loop of
    `process_paper_with_coords`.

Shared helpers live in three modules:

- `Values` (`values.dfy`): optional values, metadata values (strings and
  integers), Python truthiness and `or`.
- `Seqs` (`seqs.dfy`): order-preserving filter, map and concatenation, with
  their lemmas.
- `Text` (`text.dfy`): the Python string operations the core uses. These are
  `strip`, `lower`, `in`, `replace`, `split('\n')[0]`, `str(int)` and
  `int(str)`.

Every loop of the modelled code is a Dafny `method` with a `for` loop. Each method is
proved against a specification function; examples are `DocChunks`,
`ClusterLabels`, `Run`, `Batches`, `Ingested`, `Converted` and `Conversation`.
Lemmas then state what those functions mean:

- batching loses nothing;
- the search result is the first passing candidates, capped at `k`;
- a run stores one document per paper unless a paper lacks a field;
- and so on.

Calls into code outside the core are function parameters: the embedding
model, the cosine distance, `np.std`, the index search, the JSON decoder and
the chat agent.

Four behaviours of the code are easy to misread; the model follows the code:

- **Year lower bound.** It is stored under `$gte` as the text `str(year_start)`,
  not as an integer (`Retrieval.BuildWhere`). `Retrieval.LowerBoundReadsBack`
  shows that this text reads back as the year.
- **`k` below 1.** The loop appends before it compares the count with `k`, so
  such a `k` gives a cap of one result, not zero. This is `Retrieval.Cap`.
- **Non-string filter fields.** A stored author or category value that is
  truthy but not a string (here: a non-zero integer) survives `or ""`, and
  its `.lower()` raises. It does not merely skip the candidate
  (`Retrieval.Verdict.Raise`, `SearchResult.Raised`). A falsy value such as
  the integer 0 becomes "" and never raises (`Retrieval.StoredText`).
- **Length test before cleaning.** The 50-character test reads the raw block
  text, before line breaks are replaced and whitespace stripped
  (`Segmentation.LengthCheckedBeforeCleaning`).

## Model

| member | source | states |
|---|---|---|
| Segmentation.Clean | routes/utils/paper.py:28 | the cleaned block text has no line break and neither starts nor ends with whitespace |
| Segmentation.GetChunksWithCoords | routes/utils/paper.py:14-40 | the chunk list is `DocChunks(pages)`; the text list has the same length and its `j`-th entry is the text of chunk `j` |
| Segmentation.PageChunksAsFilter | routes/utils/paper.py:21-35 | a page yields its kept blocks, in block order, each turned into a chunk on that page |
| Segmentation.DocChunksAsFilter | routes/utils/paper.py:17-35 | the document yields its kept blocks, numbered by page, in page then block order, each turned into a chunk |
| Segmentation.ChunksAreClean | routes/utils/paper.py:28-34 | every chunk has page ≥ 1, four coordinates, and text with no line break and no surrounding whitespace |
| Segmentation.ChunksAreKeptBlocks | routes/utils/paper.py:25-30 | every text block with raw length ≥ 50 becomes a chunk, and every chunk comes from such a block |
| Segmentation.LengthCheckedBeforeCleaning | routes/utils/paper.py:25-28 | a text block of 50 line breaks passes the length test and is emitted with empty text |
| Segmentation.CountAbove | routes/utils/paper.py:64-67 | the number of boundaries is at most the number of distances |
| Segmentation.AdjacentDistances | routes/utils/paper.py:45-49 | one distance per neighbouring pair of vectors (none for fewer than two), the `i`-th between vectors `i` and `i + 1` |
| Segmentation.Distances | routes/utils/paper.py:45-49 | the distance loop computes exactly `AdjacentDistances` |
| Segmentation.Label | routes/utils/paper.py:61-69 | the counter loop over the distances computes exactly `ClusterLabels` |
| Segmentation.SemanticallyChunk | routes/utils/paper.py:44-71 | the labels are `ClusterLabels` of the adjacent distances under `mean + 0.5 · std` (0.5 when there are none); one per vector; the first is 0; neighbours differ by 0 or 1; fewer than two vectors give all zeros |
| Segmentation.LabelsShape | routes/utils/paper.py:61-69 | label `i + 1` is label `i` plus one exactly when distance `i` strictly exceeds the threshold, otherwise equal; label 0 is 0; the last label counts the distances above the threshold |
| Segmentation.LabelsMonotone | routes/utils/paper.py:64-69 | labels never decrease along the blocks |
| Segmentation.OneClusterWhenSmooth | routes/utils/paper.py:66-67 | when no distance exceeds the threshold every block is in cluster 0 |
| Segmentation.MeanNotBelowAll | routes/utils/paper.py:55 | some distance is at most the mean |
| Segmentation.ThresholdLeavesOneTransition | routes/utils/paper.py:54-57 | with threshold `mean + 0.5 · s` for any `s ≥ 0`, at most `N − 1` of the `N` distances are boundaries, so the last of the `N + 1` labels is at most `N − 1` |
| Segmentation.ClusterLabelsFacts | routes/utils/paper.py:61-69 | `N` labels for `N` vectors, the first 0, steps of 0 or 1, and all zeros whatever the threshold when `N ≤ 1` |
| Retrieval.BuildWhere | routes/utils/search.py:40-52 | both years give their `$and`, lower bound (as text) first; exactly one gives that clause alone; none gives no filter; a year of 0 counts as absent |
| Retrieval.LowerBoundReadsBack | routes/utils/search.py:42 | the text stored under `$gte` parses back to the lower-bound year |
| Retrieval.StoredText | routes/utils/search.py:76-82 | `stored or ""` fails (the later `.lower()` raises) exactly when the stored value is a non-zero integer; otherwise it is the stored string itself, or "" for a missing value or 0 |
| Retrieval.Screen | routes/utils/search.py:74-84 | the author filter and then, only if it accepts, the category filter; only a non-string stored field raises; with neither filter given every candidate is accepted |
| Retrieval.ScreenMeaning | routes/utils/search.py:74-84 | a candidate is accepted exactly when each given author and category occurs, case-insensitively, in its stored field; it raises exactly when a given author meets a non-string author value, or the author check passes and a given category meets a non-string category value; a given author with no stored authors rejects |
| Retrieval.CheckCandidate | routes/utils/search.py:74-84 | the two inline checks on one candidate, with their early exits, give the verdict `Screen` defines, whose meaning `ScreenMeaning` states |
| Retrieval.TitleOf | routes/utils/search.py:89 | the returned title is one line, no longer than the stored content |
| Retrieval.RecordOf | routes/utils/search.py:86-95 | a returned record keeps the candidate's score, the stored `id` and `year`, has a one-line title, the stored abstract or "No abstract available", and the values under the keys `categories` and `authors` |
| Seqs.Take | routes/utils/search.py:97-98 | the longest prefix of the list with at most `cap` elements: the whole list when it is no longer, else exactly `cap` elements |
| Retrieval.RunStaysStopped | routes/utils/search.py:97-98 | once the scan has raised or accepted its cap, later candidates change nothing |
| Retrieval.RunMeaning | routes/utils/search.py:71-98 | the scan raises exactly when some candidate raises before `Cap(k)` are accepted; otherwise it accepts the first `Cap(k)` passing candidates in index order; it never accepts more than `Cap(k)` |
| Retrieval.OpenAccept | routes/utils/search.py:86-98 | below the cap, an accepted candidate is appended to both the scan and the first passing candidates |
| Retrieval.OpenReject | routes/utils/search.py:76-84 | a rejected candidate changes neither the scan nor the first passing candidates |
| Retrieval.NoLateRaise | routes/utils/search.py:97-98 | a candidate after the cap is reached cannot make the scan raise |
| Retrieval.PostFilter | routes/utils/search.py:69-98 | the result loop raises exactly when the scan `Run` raises, and otherwise returns the records of the candidates the scan accepted |
| Retrieval.SmartSearch | routes/utils/search.py:36-100 | the index is asked for `4 · k` candidates under `WhereFor(intent)`; the search raises exactly when `RaisesWithin`; otherwise the papers are the records of the first `Cap(k)` passing candidates, at most `Cap(k)` of them; the intent and hypothetical abstract are returned as given |
| Retrieval.ScoresKeepIndexOrder | routes/utils/search.py:71-95 | candidates ranked by non-decreasing score give papers in non-decreasing score order |
| Retrieval.ResultsPassFilters | routes/utils/search.py:86-95 | every returned paper comes from a candidate that passes the filters, carries its score, and has the title read from its first content line |
| Ingest.ArxivStream | data_populate.py:39-46 | the decoded papers are, in order, the decoded lines after the first 111500 that are not blank |
| Ingest.BatchLoader | data_populate.py:48-56 | the loop yields exactly `Batches(items, n)` |
| Ingest.AccFacts | data_populate.py:49-54 | at every point, the yielded batches and the current batch spell the items read so far; every yielded batch is full and the current one shorter |
| Ingest.BatchesSpellItems | data_populate.py:48-56 | concatenating the batches gives back the input |
| Ingest.BatchesFacts | data_populate.py:50-56 | no batch is empty; all but the last have exactly `n` items and the last at most `n`; for `n < 1` the whole input is one batch |
| Ingest.ProcessMetadata | data_populate.py:27-37 | exactly the keys id, authors, categories and year, all strings; id copied or ""; categories copied; authors the first `min(200, len)` characters; year the first `min(4, len)` characters of `update_date` |
| Ingest.Content | data_populate.py:77-79 | the content string starts with "Title: ", and a one-line title fills the rest of its first line |
| Ingest.TitleRoundTrip | data_populate.py:77-79 | search reads back exactly the title of a content string whose title has no line break and no "Title: " |
| Ingest.MultiLineTitleIsCut | data_populate.py:77 | a title with a line break is read back as its first line only |
| Ingest.AbstractNeverStored | data_populate.py:29-37 | the stored metadata has no abstract, so search reports the default abstract text |
| Ingest.BuildDocuments | data_populate.py:74-85 | the document loop succeeds exactly when every paper has title, categories and abstract, and then builds one document per paper in order |
| Ingest.Populate | data_populate.py:70-89 | the stored documents and the failure flag are `Ingested(Batches(papers, 500))`, and the count is the number of stored documents |
| Ingest.RunStopsAfterFailure | data_populate.py:70-95 | after a batch fails, later batches change nothing |
| Ingest.IngestedMeaning | data_populate.py:71-89 | the run fails exactly when some paper lacks a content field; otherwise it stores one document per paper, in order; either way what is stored is a run of whole leading batches |
| Ingest.PopulateMeaning | data_populate.py:58-89 | over the decoded papers: failure exactly when a paper lacks a content field; otherwise the stored documents are the papers' documents in order, so the count is the number of papers |
| YearFix.FixedYear | fix_years.py:53-61 | an unparsable year becomes 0, and the decimal text of any integer year becomes that integer |
| YearFix.WithYear | fix_years.py:55 | setting the year adds `year` to the keys, stores the integer there, and keeps every other field |
| YearFix.ConvertStep | fix_years.py:44-63 | one more record adds its id and new metadata to the lists exactly when its year is a string |
| YearFix.ConvertPage | fix_years.py:41-63 | the id and metadata lists are the ids and new metadata of the page's records whose year is a string, in page order, paired index by index; no more ids than records |
| YearFix.Page | fix_years.py:31-39 | a page holds at most 5000 records |
| YearFix.ConvertedMeaning | fix_years.py:52-63 | every record with a string year is converted, every converted record comes from one, and every converted year is an integer |
| YearFix.MissingYearBecomesZero | fix_years.py:48 | a record without `year` is converted, with year 0 |
| YearFix.TextYearReadBack | fix_years.py:55 | a year stored as the text of an integer is converted back to that integer |
| YearFix.ConvertedAppend | fix_years.py:44-63 | converting two record lists one after the other is converting their concatenation |
| YearFix.OffsetsCover | fix_years.py:31 | every offset is below the total, and every record index lies in exactly one page |
| YearFix.PageExtends | fix_years.py:31-39 | the records before page `b + 1` are those before page `b` followed by page `b` |
| YearFix.FixYears | fix_years.py:31-70 | at most one update call per page, each with at most 5000 ids; no update call has an empty id list; each pairs equally many ids and metadata; concatenated, they list the ids and new metadata of all records with a string year, in collection order |
| PaperRoutes.ConvertHistory | routes/paper.py:136-145 | the message list is the `Conversation` of the history |
| PaperRoutes.ConversationOrder | routes/paper.py:137-145 | one message per user or ai entry, in history order; every other entry is dropped |
| PaperRoutes.ToMessage | routes/paper.py:138-145 | a user entry (a missing role counts as user) becomes a human message, any other entry an ai message; an ai message, or one for an entry without chunk id, carries the content verbatim |
| PaperRoutes.MessageOfEntry | routes/paper.py:138-145 | a user entry (a missing role counts as user) gives a human message tagged with its chunk id exactly when it has one; an ai entry gives its content verbatim |
| PaperRoutes.ChatWithChunk | routes/paper.py:132-186 | without a truthy arXiv id the reply is 400 "Arxiv ID required"; otherwise it is the agent's answer on the converted history, or "Something went wrong" where the agent fails |
| PaperRoutes.LabelChunks | routes/paper.py:45-49 | chunk `i` of the reply is chunk `i` of the input with cluster `labels[i]` and id `i` |
| PaperRoutes.ProcessPaperWithCoords | routes/paper.py:33-53 | no extracted text gives 400 "No text found"; otherwise one labelled chunk per extracted chunk, in order, with id `i` and the semantic cluster of its text, the first in cluster 0 |
| PaperRoutes.ClustersStepByOne | routes/paper.py:43-47 | in a reply's labelled chunks, neighbouring chunks are in the same cluster or the next, the next exactly after a distance above the threshold |
| Text.StripFacts | routes/utils/paper.py:28 | `strip` leaves the slice of its input between a run of leading whitespace and a run of trailing whitespace; the slice neither starts nor ends with whitespace, and is empty exactly when the input is all whitespace |
| Text.ReplaceOnlyDeletes | routes/utils/search.py:89 | replacing by "" adds no character and no length |
| Text.ReplaceChar | routes/utils/paper.py:28 | replacing a character by another changes exactly the positions holding it |
| Text.FirstLineOf | routes/utils/search.py:89 | the first line of `a + "\n" + b` is `a` when `a` has no line break |
| Text.ReplaceAbsent | routes/utils/search.py:89 | replacing a pattern that does not occur changes nothing |
| Text.ParseIntRoundTrip | fix_years.py:55 | `int(str(n)) == n` for every integer `n` (within the digit limit under "Left out") |
| Text.SeparatorIsNotSkipped | fix_years.py:53-61 | a year text starting with one of the separators U+001C–U+001F, which `strip` would remove, does not parse, so the year becomes 0 |

## Left out

- PDF download, file writing and reading, and `page.get_text`: the blocks of each page are an input sequence of records.
- Segmentation.SemanticallyChunk: the cosine distance and `np.std` are function parameters, and distances are real numbers rather than floating point; `np.mean` is the exact arithmetic mean.
- Text.Lower: lower-cases ASCII letters only, not the full Unicode mapping of `str.lower`.
- Text.ParseInt: accepts ASCII digits only, with an optional sign, surrounding whitespace (every `str.isspace` character except the separators U+001C–U+001F) and underscores between digits. Two things are not modelled: the other Unicode digits `int` accepts, and the ValueError `int` raises for more than 4300 digits. So the model parses some very long digit strings where Python raises.
- Text.ParseIntRoundTrip: holds for every integer in the model. In Python, `str` and `int` refuse integers of more than 4300 digits.
- The two language-model calls of `smart_search` (intent extraction and the hypothetical abstract): their results are inputs; `model_dump` returns the intent record itself.
- Retrieval.SmartSearch: the similarity search is a function parameter returning ranked candidates; how the index evaluates `$gte`, `$lt` and `$and` is not modelled.
- Retrieval.PostFilter: the `break` after the `k`-th acceptance is modelled as returning the list at that point, which is the same result.
- Metadata values are strings or integers; JSON `null`, floats, booleans and lists are not modelled, so neither is a chunk id of `null` in the chat history.
- Ingest.ArxivStream: JSON decoding is a total function parameter; a line that fails to decode is not modelled.
- Ingest.Populate: `add_documents` appends a batch's documents to a sequence; the embedding model, the missing-file check, timing, progress bars and `KeyboardInterrupt` are left out.
- YearFix.FixYears: the collection is a sequence of records; `count`, `get` at an offset and `update` are its length, a slice and a recorded call. The fetched dict is changed in place in the source but becomes a new value here, so aliasing is not modelled.
- PaperRoutes.ProcessPaperWithCoords: storing the chunks in a per-paper collection, the 500 reply for an exception and the temporary file removal are left out; each chunk dict is extended in place in the source but becomes a new record here.
- PaperRoutes.ChatWithChunk: the system prompt text and the ReAct agent with its two tools (`search_paper_content`, `search_all_papers`) are a function parameter that may fail.
- `services.py`, `server.py` and HTTP routing, and the React client, are not part of this model.
