/**
 * Text-block extraction and adjacent-distance clustering of a paper
 * (routes/utils/paper.py).
 *
 * The PDF library is replaced by its output: for every page, the blocks that
 * `page.get_text("blocks")` reports. The embedding vectors are opaque values
 * of a type parameter; the cosine distance between two of them and the
 * population standard deviation of the distance list are function parameters.
 */
module Segmentation {
  import opened Text
  import opened Seqs

  /** One layout block: bounding box, raw text, block number and block type (0 = text). */
  datatype RawBlock = RawBlock(x0: real, y0: real, x1: real, y1: real, text: string, blockNo: int, blockType: int)

  /** An emitted chunk: 1-based page, `[x0, y0, x1, y1]` and cleaned text. */
  datatype Chunk = Chunk(page: int, bbox: seq<real>, text: string)

  /** Blocks whose raw text is shorter than this are noise. */
  const MinTextLength := 50

  /** The threshold used when there are no distances at all. */
  const FallbackThreshold: real := 0.5

  // ---------------------------------------------------------------------------
  // Block extraction

  /** A block survives when it is a text block and its RAW text is long enough. */
  predicate Kept(b: RawBlock) {
    b.blockType == 0 && |b.text| >= MinTextLength
  }

  /** `text.replace("\n", " ").strip()` */
  function Clean(text: string): (r: string)
    ensures '\n' !in r
    ensures r != [] ==> !IsSpace(r[0]) && !IsSpace(r[|r| - 1])
  {
    ReplaceCharRemoves(text, '\n', ' ');
    StripFacts(Replace(text, "\n", " "));
    Strip(Replace(text, "\n", " "))
  }

  function MakeChunk(pageNum: nat, b: RawBlock): Chunk {
    Chunk(pageNum + 1, [b.x0, b.y0, b.x1, b.y1], Clean(b.text))
  }

  /** The chunks of the first `|blocks|` blocks of page `pageNum` (0-based), in block order. */
  function PageChunks(pageNum: nat, blocks: seq<RawBlock>): seq<Chunk>
    decreases |blocks|
  {
    if blocks == [] then []
    else
      var b := blocks[|blocks| - 1];
      PageChunks(pageNum, blocks[..|blocks| - 1]) + (if Kept(b) then [MakeChunk(pageNum, b)] else [])
  }

  /** The chunks of a whole document, page after page. */
  function DocChunks(pages: seq<seq<RawBlock>>): seq<Chunk>
    decreases |pages|
  {
    if pages == [] then []
    else DocChunks(pages[..|pages| - 1]) + PageChunks(|pages| - 1, pages[|pages| - 1])
  }

  function TextOf(c: Chunk): string {
    c.text
  }

  /** Every block of the document paired with its 0-based page number, in reading order. */
  function Numbered(pages: seq<seq<RawBlock>>): seq<(nat, RawBlock)>
    decreases |pages|
  {
    if pages == [] then []
    else
      var p := |pages| - 1;
      Numbered(pages[..p]) + seq(|pages[p]|, j requires 0 <= j < |pages[p]| => (p as nat, pages[p][j]))
  }

  predicate KeptEntry(e: (nat, RawBlock)) {
    Kept(e.1)
  }

  function ChunkOf(e: (nat, RawBlock)): Chunk {
    MakeChunk(e.0, e.1)
  }

  /**
   * The nested page and block loops of `get_chunks_with_coords`. The two
   * outputs are parallel: `texts[j]` is the text of `chunks[j]`.
   */
  method GetChunksWithCoords(pages: seq<seq<RawBlock>>) returns (chunks: seq<Chunk>, texts: seq<string>)
    ensures chunks == DocChunks(pages)
    ensures |texts| == |chunks| && forall k :: 0 <= k < |chunks| ==> texts[k] == chunks[k].text
  {
    chunks, texts := [], [];
    for p := 0 to |pages|
      invariant chunks == DocChunks(pages[..p])
      invariant |texts| == |chunks| && forall k :: 0 <= k < |chunks| ==> texts[k] == chunks[k].text
    {
      var blocks := pages[p];
      for j := 0 to |blocks|
        invariant chunks == DocChunks(pages[..p]) + PageChunks(p, blocks[..j])
        invariant |texts| == |chunks| && forall k :: 0 <= k < |chunks| ==> texts[k] == chunks[k].text
      {
        PageChunksSnoc(p, blocks, j);
        var b := blocks[j];
        if b.blockType != 0 || |b.text| < 50 {
          continue;
        }
        var cleanText := Strip(Replace(b.text, "\n", " "));
        chunks := chunks + [Chunk(p + 1, [b.x0, b.y0, b.x1, b.y1], cleanText)];
        texts := texts + [cleanText];
      }
      DocChunksSnoc(pages, p);
    }
    assert pages[..|pages|] == pages;
  }

  lemma PageChunksSnoc(pageNum: nat, blocks: seq<RawBlock>, j: nat)
    requires j < |blocks|
    ensures PageChunks(pageNum, blocks[..j + 1])
         == PageChunks(pageNum, blocks[..j]) + (if Kept(blocks[j]) then [MakeChunk(pageNum, blocks[j])] else [])
  {
    assert blocks[..j + 1][..j] == blocks[..j];
  }

  lemma DocChunksSnoc(pages: seq<seq<RawBlock>>, p: nat)
    requires p < |pages|
    ensures DocChunks(pages[..p + 1]) == DocChunks(pages[..p]) + PageChunks(p, pages[p][..|pages[p]|])
  {
    assert pages[..p + 1][..p] == pages[..p];
    assert pages[p][..|pages[p]|] == pages[p];
  }

  /** The page-by-page definition equals: number every block, keep the kept ones, make a chunk of each. */
  lemma {:induction false} PageChunksAsFilter(pageNum: nat, blocks: seq<RawBlock>)
    ensures PageChunks(pageNum, blocks)
         == Map(Filter(seq(|blocks|, j requires 0 <= j < |blocks| => (pageNum, blocks[j])), KeptEntry), ChunkOf)
    decreases |blocks|
  {
    var entries := seq(|blocks|, j requires 0 <= j < |blocks| => (pageNum, blocks[j]));
    if blocks != [] {
      var n := |blocks| - 1;
      var front := blocks[..n];
      var entries' := seq(|front|, j requires 0 <= j < |front| => (pageNum, front[j]));
      PageChunksAsFilter(pageNum, front);
      assert entries[..n] == entries';
      FilterSnoc(entries, n, KeptEntry);
      assert entries[..n + 1] == entries;
      MapAppend(Filter(entries', KeptEntry), if KeptEntry(entries[n]) then [entries[n]] else [], ChunkOf);
    }
  }

  /**
   * The output is exactly the kept blocks of the document, in page order and
   * block order within a page, each turned into a chunk.
   */
  lemma {:induction false} DocChunksAsFilter(pages: seq<seq<RawBlock>>)
    ensures DocChunks(pages) == Map(Filter(Numbered(pages), KeptEntry), ChunkOf)
    decreases |pages|
  {
    if pages != [] {
      var p := |pages| - 1;
      var last := seq(|pages[p]|, j requires 0 <= j < |pages[p]| => (p as nat, pages[p][j]));
      DocChunksAsFilter(pages[..p]);
      PageChunksAsFilter(p, pages[p]);
      FilterAppend(Numbered(pages[..p]), last, KeptEntry);
      MapAppend(Filter(Numbered(pages[..p]), KeptEntry), Filter(last, KeptEntry), ChunkOf);
    }
  }

  /** Every emitted chunk is on a page numbered from 1 and carries cleaned text. */
  lemma ChunksAreClean(pages: seq<seq<RawBlock>>)
    ensures forall c :: c in DocChunks(pages) ==>
      c.page >= 1 && |c.bbox| == 4 && '\n' !in c.text
      && (c.text != [] ==> !IsSpace(c.text[0]) && !IsSpace(c.text[|c.text| - 1]))
  {
    DocChunksAsFilter(pages);
  }

  /** Every kept block of the document is emitted, and every emitted chunk comes from a kept block. */
  lemma ChunksAreKeptBlocks(pages: seq<seq<RawBlock>>)
    ensures forall e :: e in Numbered(pages) && KeptEntry(e) ==> ChunkOf(e) in DocChunks(pages)
    ensures forall c :: c in DocChunks(pages) ==>
      exists e :: e in Numbered(pages) && KeptEntry(e) && c == ChunkOf(e)
  {
    DocChunksAsFilter(pages);
    MapFilterMembers(Numbered(pages), KeptEntry, ChunkOf);
  }

  /**
   * The length filter reads the raw text: a text block of 50 line breaks passes
   * it and is emitted with empty text.
   */
  lemma LengthCheckedBeforeCleaning()
    ensures var b := RawBlock(0.0, 0.0, 1.0, 1.0, seq(50, _ => '\n'), 0, 0);
      Kept(b) && DocChunks([[b]]) == [Chunk(1, [0.0, 0.0, 1.0, 1.0], "")]
  {
    var b := RawBlock(0.0, 0.0, 1.0, 1.0, seq(50, _ => '\n'), 0, 0);
    var spaced := Replace(b.text, "\n", " ");
    ReplaceChar(b.text, '\n', ' ');
    assert forall i :: 0 <= i < |spaced| ==> spaced[i] == ' ';
    StripFacts(spaced);
    assert Clean(b.text) == "";
    assert [[b]][..0] == [];
    assert [b][..0] == [];
    assert PageChunks(0, [b]) == [MakeChunk(0, b)];
  }

  // ---------------------------------------------------------------------------
  // Adjacent-distance clustering

  /** How many of the distances strictly exceed the threshold. */
  function CountAbove(d: seq<real>, threshold: real): (c: nat)
    ensures c <= |d|
    decreases |d|
  {
    if d == [] then 0
    else CountAbove(d[..|d| - 1], threshold) + (if d[|d| - 1] > threshold then 1 else 0)
  }

  function Sum(d: seq<real>): real
    decreases |d|
  {
    if d == [] then 0.0 else Sum(d[..|d| - 1]) + d[|d| - 1]
  }

  /** `np.mean` of a non-empty list. */
  function Mean(d: seq<real>): real
    requires d != []
  {
    Sum(d) / (|d| as real)
  }

  /** `mean + 0.5 * std` over the distances, or the fallback when there are none. */
  function Threshold(d: seq<real>, std: real): real {
    if d != [] then Mean(d) + 0.5 * std else FallbackThreshold
  }

  /** The distance between every pair of neighbouring vectors. */
  function AdjacentDistances<V>(vectors: seq<V>, dist: (V, V) -> real): (d: seq<real>)
    ensures |d| == if vectors == [] then 0 else |vectors| - 1
    ensures forall i :: 0 <= i < |d| ==> d[i] == dist(vectors[i], vectors[i + 1])
  {
    var pairs := if vectors == [] then 0 else |vectors| - 1;
    seq(pairs, i requires 0 <= i < pairs => dist(vectors[i], vectors[i + 1]))
  }

  /** The label of block `i` is the number of boundaries among the first `i` transitions. */
  function ClusterLabels(d: seq<real>, threshold: real, n: nat): seq<int>
    requires n <= |d| + 1
  {
    seq(n, i requires 0 <= i < n => CountAbove(d[..i], threshold))
  }

  lemma CountAboveSnoc(d: seq<real>, i: nat, threshold: real)
    requires i < |d|
    ensures CountAbove(d[..i + 1], threshold) == CountAbove(d[..i], threshold) + (if d[i] > threshold then 1 else 0)
  {
    assert d[..i + 1][..i] == d[..i];
  }

  /**
   * The labelling invariant: one label per block, block 0 in cluster 0, and each
   * next label is the previous one plus 1 exactly when the distance between the
   * two blocks strictly exceeds the threshold (otherwise it is the same); the
   * last label counts the boundaries.
   */
  lemma LabelsShape(d: seq<real>, threshold: real, n: nat)
    requires n == |d| + 1
    ensures var labels := ClusterLabels(d, threshold, n);
      |labels| == n && labels[0] == 0
      && (forall i :: 0 <= i < n - 1 ==>
            (labels[i + 1] == labels[i] + 1 <==> d[i] > threshold)
            && (labels[i + 1] == labels[i] <==> d[i] <= threshold))
      && labels[n - 1] == CountAbove(d, threshold)
  {
    var labels := ClusterLabels(d, threshold, n);
    assert d[..0] == [];
    assert d[..|d|] == d;
    forall i | 0 <= i < n - 1
      ensures labels[i + 1] == labels[i] + 1 <==> d[i] > threshold
      ensures labels[i + 1] == labels[i] <==> d[i] <= threshold
    {
      CountAboveSnoc(d, i, threshold);
    }
  }

  /** Labels never decrease along the blocks. */
  lemma {:induction false} LabelsMonotone(d: seq<real>, threshold: real, n: nat, i: nat, j: nat)
    requires n == |d| + 1 && i <= j < n
    ensures ClusterLabels(d, threshold, n)[i] <= ClusterLabels(d, threshold, n)[j]
    decreases j - i
  {
    if i < j {
      LabelsMonotone(d, threshold, n, i, j - 1);
      CountAboveSnoc(d, j - 1, threshold);
    }
  }

  lemma {:induction false} CountAboveNone(d: seq<real>, threshold: real)
    requires forall i :: 0 <= i < |d| ==> d[i] <= threshold
    ensures CountAbove(d, threshold) == 0
    decreases |d|
  {
    if d != [] {
      CountAboveNone(d[..|d| - 1], threshold);
    }
  }

  /** When no distance exceeds the threshold, every block is in cluster 0. */
  lemma OneClusterWhenSmooth(d: seq<real>, threshold: real, n: nat)
    requires n <= |d| + 1
    requires forall i :: 0 <= i < |d| ==> d[i] <= threshold
    ensures forall i :: 0 <= i < n ==> ClusterLabels(d, threshold, n)[i] == 0
  {
    forall i | 0 <= i < n
      ensures CountAbove(d[..i], threshold) == 0
    {
      CountAboveNone(d[..i], threshold);
    }
  }

  lemma {:induction false} CountAboveBelowLength(d: seq<real>, threshold: real, k: nat)
    requires k < |d| && d[k] <= threshold
    ensures CountAbove(d, threshold) < |d|
    decreases |d|
  {
    if k < |d| - 1 {
      CountAboveBelowLength(d[..|d| - 1], threshold, k);
    }
  }

  lemma {:induction false} SumAboveBound(d: seq<real>, m: real)
    requires forall i :: 0 <= i < |d| ==> d[i] > m
    requires d != []
    ensures Sum(d) > (|d| as real) * m
    decreases |d|
  {
    if |d| > 1 {
      SumAboveBound(d[..|d| - 1], m);
    }
  }

  /** Some distance is at most the mean. */
  lemma MeanNotBelowAll(d: seq<real>) returns (k: nat)
    requires d != []
    ensures k < |d| && d[k] <= Mean(d)
  {
    if forall i :: 0 <= i < |d| ==> d[i] > Mean(d) {
      SumAboveBound(d, Mean(d));
      assert false;
    }
    k :| 0 <= k < |d| && d[k] <= Mean(d);
  }

  /**
   * With the threshold `mean + 0.5 * s` for any `s >= 0`, at least one
   * transition is not a boundary, so the last of the N >= 2 labels is at most N - 2.
   */
  lemma ThresholdLeavesOneTransition(d: seq<real>, s: real)
    requires d != [] && s >= 0.0
    ensures CountAbove(d, Threshold(d, s)) <= |d| - 1
    ensures ClusterLabels(d, Threshold(d, s), |d| + 1)[|d|] <= |d| - 1
  {
    var k := MeanNotBelowAll(d);
    CountAboveBelowLength(d, Threshold(d, s), k);
    LabelsShape(d, Threshold(d, s), |d| + 1);
  }

  /** The facts `semantically_chunk` promises, for the labels of N vectors and their N - 1 distances. */
  lemma ClusterLabelsFacts(d: seq<real>, threshold: real, n: nat)
    requires if n == 0 then d == [] else n == |d| + 1
    ensures var labels := ClusterLabels(d, threshold, n);
      |labels| == n
      && (n > 0 ==> labels[0] == 0)
      && (forall i :: 0 <= i < n - 1 ==> labels[i + 1] - labels[i] in {0, 1})
      && (n <= 1 ==> labels == seq(n, _ => 0))
  {
    if n > 0 {
      LabelsShape(d, threshold, n);
      assert d[..0] == [];
    }
  }

  /**
   * `semantically_chunk`: one distance per neighbouring pair, then one label per
   * vector, starting at 0 and going up by one exactly after each distance that
   * strictly exceeds the adaptive threshold.
   */
  method SemanticallyChunk<V>(vectors: seq<V>, dist: (V, V) -> real, std: seq<real> -> real)
    returns (labels: seq<int>)
    ensures var d := AdjacentDistances(vectors, dist);
      labels == ClusterLabels(d, Threshold(d, std(d)), |vectors|)
    ensures |labels| == |vectors|
    ensures vectors != [] ==> labels[0] == 0
    ensures forall i :: 0 <= i < |vectors| - 1 ==> labels[i + 1] - labels[i] in {0, 1}
    ensures |vectors| <= 1 ==> labels == seq(|vectors|, _ => 0)
  {
    var distances := Distances(vectors, dist);
    var threshold;
    if distances != [] {
      threshold := Mean(distances) + 0.5 * std(distances);
    } else {
      threshold := FallbackThreshold;
    }
    assert threshold == Threshold(distances, std(distances));
    labels := Label(distances, threshold, |vectors|);
    ClusterLabelsFacts(distances, threshold, |vectors|);
  }

  /** The distance loop of `semantically_chunk`. */
  method Distances<V>(vectors: seq<V>, dist: (V, V) -> real) returns (distances: seq<real>)
    ensures distances == AdjacentDistances(vectors, dist)
  {
    distances := [];
    var pairs := if vectors == [] then 0 else |vectors| - 1;
    for i := 0 to pairs
      invariant |distances| == i
      invariant forall j :: 0 <= j < i ==> distances[j] == dist(vectors[j], vectors[j + 1])
    {
      distances := distances + [dist(vectors[i], vectors[i + 1])];
    }
  }

  /** The labelling loop of `semantically_chunk`: a running count of the boundaries passed. */
  method Label(distances: seq<real>, threshold: real, n: nat) returns (labels: seq<int>)
    requires if n == 0 then distances == [] else n == |distances| + 1
    ensures labels == ClusterLabels(distances, threshold, n)
  {
    labels := seq(n, _ => 0);
    var current := 0;
    assert distances[..0] == [];
    for i := 0 to |distances|
      invariant |labels| == n
      invariant current == CountAbove(distances[..i], threshold)
      invariant forall j :: 0 <= j <= i && j < n ==> labels[j] == CountAbove(distances[..j], threshold)
    {
      if distances[i] > threshold {
        current := current + 1;
      }
      CountAboveSnoc(distances, i, threshold);
      labels := labels[i + 1 := current];
    }
  }
}
