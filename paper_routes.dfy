/**
 * The two paper endpoints (routes/paper.py): chunking a paper and labelling
 * its chunks with their cluster, and chatting about one chunk with the
 * request's history turned into a message list.
 *
 * PDF fetching, the embedding model and the chat agent are function
 * parameters; the agent yields None where it raises.
 */
module PaperRoutes {
  import opened Values
  import opened Text
  import opened Seqs
  import Segmentation

  // ---------------------------------------------------------------------------
  // Chat history

  /** One entry of the request history; each field may be missing. */
  datatype Entry = Entry(content: Option<string>, role: Option<string>, chunkId: Option<Value>)

  /** A message handed to the agent. */
  datatype Message = Human(text: string) | Ai(text: string)

  /** `msg.get('role', 'user')`. */
  function RoleOf(e: Entry): string {
    if e.role.Some? then e.role.value else "user"
  }

  /** `msg.get('content', '')`. */
  function ContentOf(e: Entry): string {
    if e.content.Some? then e.content.value else ""
  }

  /** `str(v)` of a chunk id. */
  function ValueText(v: Value): string {
    match v
    case Str(s) => s
    case Int(i) => IntToString(i)
  }

  /** The prefix naming the chunk an entry was about, or "" when it names none. */
  function ChunkTag(e: Entry): string {
    if e.chunkId.Some? then "[Chunk " + ValueText(e.chunkId.value) + "] " else ""
  }

  /** Only user and ai entries become messages. */
  predicate Known(e: Entry) {
    RoleOf(e) == "user" || RoleOf(e) == "ai"
  }

  /**
   * A user entry becomes a human message, tagged with its chunk when it names
   * one; any other entry becomes an ai message carrying the content verbatim.
   */
  function ToMessage(e: Entry): (m: Message)
    ensures m.Human? <==> RoleOf(e) == "user"
    ensures m.Ai? || e.chunkId.None? ==> m.text == ContentOf(e)
  {
    if RoleOf(e) == "user" then Human(ChunkTag(e) + ContentOf(e)) else Ai(ContentOf(e))
  }

  /** The message list the agent receives for a history. */
  function Conversation(history: seq<Entry>): seq<Message> {
    Map(Filter(history, Known), ToMessage)
  }

  /** The history loop of `chat_with_chunk`. */
  method ConvertHistory(history: seq<Entry>) returns (chatHistory: seq<Message>)
    ensures chatHistory == Conversation(history)
  {
    chatHistory := [];
    ghost var known: seq<Entry> := [];
    for i := 0 to |history|
      invariant known == Filter(history[..i], Known)
      invariant chatHistory == Map(known, ToMessage)
    {
      var msg := history[i];
      FilterSnoc(history, i, Known);
      var content := if msg.content.Some? then msg.content.value else "";
      var role := if msg.role.Some? then msg.role.value else "user";
      var chunkTag := if msg.chunkId.Some? then "[Chunk " + ValueText(msg.chunkId.value) + "] " else "";
      if role == "user" {
        MapAppend(known, [msg], ToMessage);
        chatHistory := chatHistory + [Human(chunkTag + content)];
        known := known + [msg];
      } else if role == "ai" {
        MapAppend(known, [msg], ToMessage);
        chatHistory := chatHistory + [Ai(content)];
        known := known + [msg];
      }
    }
    assert history[..|history|] == history;
  }

  /**
   * The conversation has one message per user or ai entry, in history order:
   * message `j` comes from entry `Positions(history, Known)[j]`, those
   * positions increase, and every user or ai entry has one.
   */
  lemma ConversationOrder(history: seq<Entry>)
    ensures var pos := Positions(history, Known);
      |Conversation(history)| == |pos|
      && (forall j :: 0 <= j < |pos| ==>
            pos[j] < |history| && Known(history[pos[j]]) && Conversation(history)[j] == ToMessage(history[pos[j]]))
      && (forall j, k :: 0 <= j < k < |pos| ==> pos[j] < pos[k])
      && (forall i :: 0 <= i < |history| && Known(history[i]) ==> i in pos)
  {
    FilterAtPositions(history, Known);
  }

  /**
   * A user entry becomes a human message tagged with its chunk id exactly when
   * it carries one, a missing role counting as user; an ai entry's content is
   * passed on verbatim; every other role is dropped.
   */
  lemma MessageOfEntry(e: Entry)
    ensures RoleOf(e) == "user" ==>
      ToMessage(e) == Human((if e.chunkId.Some? then "[Chunk " + ValueText(e.chunkId.value) + "] " else "") + ContentOf(e))
    ensures e.role.None? ==> ToMessage(e).Human?
    ensures RoleOf(e) == "ai" ==> ToMessage(e) == Ai(ContentOf(e))
    ensures Conversation([e]) == if Known(e) then [ToMessage(e)] else []
  {
    assert [e][..0] == [];
  }

  /** The request of `chat_with_chunk`. */
  datatype ChatRequest = ChatRequest(
    chunkText: Option<Value>,
    chunkId: Option<Value>,
    question: Option<Value>,
    arxivId: Option<Value>,
    history: seq<Entry>)

  /** A JSON reply: a body, or an error with its status code. */
  datatype ChatReply = Answer(answer: string) | ChatError(status: int, error: string)

  /**
   * `chat_with_chunk`: refuse a request without an arXiv id; otherwise ask the
   * agent with the converted history and answer with its last message, or
   * with a fixed apology where it raises.
   */
  method ChatWithChunk(req: ChatRequest, agent: (ChatRequest, seq<Message>) -> Option<string>)
    returns (reply: ChatReply)
    ensures !(req.arxivId.Some? && Truthy(req.arxivId.value)) ==> reply == ChatError(400, "Arxiv ID required")
    ensures req.arxivId.Some? && Truthy(req.arxivId.value) ==>
      reply == Answer(match agent(req, Conversation(req.history))
                      case Some(a) => a
                      case None => "Something went wrong")
  {
    if !(req.arxivId.Some? && Truthy(req.arxivId.value)) {
      return ChatError(400, "Arxiv ID required");
    }
    var chatHistory := ConvertHistory(req.history);
    var response := agent(req, chatHistory);
    var finalAnswer := if response.Some? then response.value else "Something went wrong";
    reply := Answer(finalAnswer);
  }

  // ---------------------------------------------------------------------------
  // Chunk labelling

  /** A chunk as returned to the client: its block, its cluster and its position. */
  datatype LabelledChunk = LabelledChunk(chunk: Segmentation.Chunk, clusterId: int, id: int)

  datatype PaperReply = Chunks(chunks: seq<LabelledChunk>) | PaperError(status: int, error: string)

  /** The final loop of `process_paper_with_coords`: stamp chunk `i` with `labels[i]` and `i`. */
  method LabelChunks(chunks: seq<Segmentation.Chunk>, labels: seq<int>) returns (finalChunks: seq<LabelledChunk>)
    requires |labels| >= |chunks|
    ensures |finalChunks| == |chunks|
    ensures forall i :: 0 <= i < |chunks| ==> finalChunks[i] == LabelledChunk(chunks[i], labels[i], i)
  {
    finalChunks := [];
    for i := 0 to |chunks|
      invariant |finalChunks| == i
      invariant forall j :: 0 <= j < i ==> finalChunks[j] == LabelledChunk(chunks[j], labels[j], j)
    {
      finalChunks := finalChunks + [LabelledChunk(chunks[i], labels[i], i)];
    }
  }

  /**
   * `process_paper_with_coords` on the blocks of one paper: no text gives a
   * 400; otherwise every extracted chunk, in order, with its position as id
   * and its semantic cluster, the clusters being those of the chunk texts'
   * embeddings.
   */
  method ProcessPaperWithCoords<V>(pages: seq<seq<Segmentation.RawBlock>>, embed: string -> V,
                                   dist: (V, V) -> real, std: seq<real> -> real)
    returns (reply: PaperReply)
    ensures var chunks := Segmentation.DocChunks(pages);
      (reply.PaperError? <==> chunks == [])
      && (reply.PaperError? ==> reply == PaperError(400, "No text found"))
      && (reply.Chunks? ==>
            var texts := Map(chunks, Segmentation.TextOf);
            var d := Segmentation.AdjacentDistances(Map(texts, embed), dist);
            var labels := Segmentation.ClusterLabels(d, Segmentation.Threshold(d, std(d)), |chunks|);
            |reply.chunks| == |chunks|
            && reply.chunks[0].clusterId == 0
            && forall i :: 0 <= i < |chunks| ==>
                 reply.chunks[i] == LabelledChunk(chunks[i], labels[i], i))
  {
    var chunksWithCoords, allTextContent := Segmentation.GetChunksWithCoords(pages);
    if allTextContent == [] {
      return PaperError(400, "No text found");
    }
    assert allTextContent == Map(chunksWithCoords, Segmentation.TextOf);
    var vectors := Map(allTextContent, embed);
    var labels := Segmentation.SemanticallyChunk(vectors, dist, std);
    var finalChunks := LabelChunks(chunksWithCoords, labels);
    reply := Chunks(finalChunks);
  }

  /**
   * In a reply labelled as `ProcessPaperWithCoords` promises, neighbouring
   * chunks are in the same cluster or the next one, the next exactly after a
   * distance above the threshold.
   */
  lemma ClustersStepByOne(chunks: seq<Segmentation.Chunk>, d: seq<real>, threshold: real,
                          replyChunks: seq<LabelledChunk>)
    requires |chunks| == |d| + 1 && |replyChunks| == |chunks|
    requires forall i :: 0 <= i < |chunks| ==>
      replyChunks[i] == LabelledChunk(chunks[i], Segmentation.ClusterLabels(d, threshold, |chunks|)[i], i)
    ensures forall i :: 0 <= i < |replyChunks| - 1 ==>
      replyChunks[i + 1].clusterId - replyChunks[i].clusterId in {0, 1}
      && (replyChunks[i + 1].clusterId == replyChunks[i].clusterId + 1 <==> d[i] > threshold)
  {
    Segmentation.LabelsShape(d, threshold, |chunks|);
  }
}
