/** The conversation bookkeeping of src/chains/faiss_conversational_chain.py.
    The agent (the chat model with its tool and summarisation middleware) is
    an opaque function from the message list to its result; retrieval is an
    opaque function from a query to documents. */
module ConversationalChain {
  import opened Common
  import DocumentLoader
  import FaissStore
  import Uuids

  /** A history entry or an agent message: `{"role": role, "content": content}`. */
  datatype Entry = Entry(role: string, content: string)

  const InitUser: Entry := Entry("user", "Initialize conversation")
  const InitAssistant: Entry := Entry("assistant", "I'm ready to answer your questions.")
  const NoAnswer: string := "Unable to generate an answer."
  const NoDocuments: string := "No relevant documents found."

  // ---------------------------------------------------------------------------
  // Message assembly

  predicate IsDialogue(e: Entry) {
    e.role == "user" || e.role == "assistant"
  }

  /** The history entries whose role is user or assistant, in order. */
  function DialogueOnly(h: seq<Entry>): seq<Entry>
    decreases |h|
  {
    if h == [] then []
    else DialogueOnly(h[..|h| - 1]) + (if IsDialogue(h[|h| - 1]) then [h[|h| - 1]] else [])
  }

  /** Filtering splits over concatenation, so the original order is kept. */
  lemma {:induction false} DialogueOnlyAppend(a: seq<Entry>, b: seq<Entry>)
    ensures DialogueOnly(a + b) == DialogueOnly(a) + DialogueOnly(b)
    decreases |b|
  {
    if b == [] {
      assert a + b == a;
    } else {
      var n := |b| - 1;
      assert (a + b)[..|a + b| - 1] == a + b[..n];
      DialogueOnlyAppend(a, b[..n]);
    }
  }

  /** Exactly the user and assistant entries are kept, and no more entries than the history holds. */
  lemma {:induction false} DialogueOnlySpec(h: seq<Entry>)
    ensures forall e :: e in DialogueOnly(h) <==> e in h && IsDialogue(e)
    ensures |DialogueOnly(h)| <= |h|
    decreases |h|
  {
    if h != [] {
      var n := |h| - 1;
      DialogueOnlySpec(h[..n]);
      assert h == h[..n] + [h[n]];
    }
  }

  /** A history of user and assistant entries only is passed on whole. */
  lemma {:induction false} DialogueOnlyWhole(h: seq<Entry>)
    requires forall i :: 0 <= i < |h| ==> IsDialogue(h[i])
    ensures DialogueOnly(h) == h
    decreases |h|
  {
    if h != [] {
      var n := |h| - 1;
      assert h == h[..n] + [h[n]];
      DialogueOnlyWhole(h[..n]);
    }
  }

  /** The message list of `call`: the system prompt, the dialogue history, the question. */
  function BuildMessages(systemPrompt: string, history: seq<Entry>, question: string): seq<Entry> {
    [Entry("system", systemPrompt)] + DialogueOnly(history) + [Entry("user", question)]
  }

  /** The system prompt comes first, the question last, and in between the
      user and assistant entries of the history, in order. */
  lemma BuildMessagesSpec(systemPrompt: string, history: seq<Entry>, question: string)
    ensures var m := BuildMessages(systemPrompt, history, question);
            |m| >= 2 && m[0] == Entry("system", systemPrompt) && m[|m| - 1] == Entry("user", question) &&
            m[1..|m| - 1] == DialogueOnly(history) &&
            forall e :: e in m[1..|m| - 1] <==> e in history && IsDialogue(e)
  {
    DialogueOnlySpec(history);
    var m := BuildMessages(systemPrompt, history, question);
    assert m[1..|m| - 1] == DialogueOnly(history);
  }

  // ---------------------------------------------------------------------------
  // History

  /** Python's `s[start:]`: a negative start counts from the end. */
  function PySliceFrom<T>(s: seq<T>, start: int): (r: seq<T>)
    ensures |r| <= |s| && r == s[|s| - |r|..]
  {
    var i := if start < 0 then (if start + |s| < 0 then 0 else start + |s|) else (if start > |s| then |s| else start);
    s[i..]
  }

  /** `history[-m*2:]` when the history is longer than m*2. */
  function Truncate(h: seq<Entry>, maxHistory: int): seq<Entry> {
    if |h| > maxHistory * 2 then PySliceFrom(h, -maxHistory * 2) else h
  }

  /** With a positive limit m the history keeps its last min(|h|, 2m) entries. */
  lemma TruncateKeepsRecent(h: seq<Entry>, maxHistory: int)
    requires maxHistory >= 1
    ensures var r := Truncate(h, maxHistory);
            |r| == Min(|h|, 2 * maxHistory) && r == h[|h| - |r|..]
  {
  }

  /** A zero limit keeps the whole history, however long: `h[-0:]` is `h[0:]`. */
  lemma TruncateZeroKeepsAll(h: seq<Entry>)
    ensures Truncate(h, 0) == h
  {
    assert h[0..] == h;
  }

  /** A negative limit m drops the oldest -2m entries instead of bounding the history. */
  lemma TruncateNegativeDropsOldest(h: seq<Entry>, maxHistory: int)
    requires maxHistory < 0
    ensures Truncate(h, maxHistory) == h[Min(-2 * maxHistory, |h|)..]
  {
  }

  /** The history `call` starts from: an empty one is seeded with two entries. */
  function Seeded(h: seq<Entry>): seq<Entry> {
    if h == [] then [InitUser, InitAssistant] else h
  }

  /** The history after `call(question)` answered `answer`. */
  function NextHistory(h: seq<Entry>, question: string, answer: string, maxHistory: int): seq<Entry> {
    Truncate(Seeded(h) + [Entry("user", question), Entry("assistant", answer)], maxHistory)
  }

  /** Unless the limit is negative, the history ends with the turn just made. */
  lemma NextHistoryEndsWithTurn(h: seq<Entry>, question: string, answer: string, maxHistory: int)
    requires maxHistory >= 0
    ensures var r := NextHistory(h, question, answer, maxHistory);
            |r| >= 2 && r[|r| - 2..] == [Entry("user", question), Entry("assistant", answer)]
  {
    var full := Seeded(h) + [Entry("user", question), Entry("assistant", answer)];
    var r := NextHistory(h, question, answer, maxHistory);
    assert full[|full| - 2..] == [Entry("user", question), Entry("assistant", answer)];
    if maxHistory >= 1 {
      TruncateKeepsRecent(full, maxHistory);
      assert r[|r| - 2..] == full[|full| - 2..];
    } else {
      TruncateZeroKeepsAll(full);
    }
  }

  /** With a positive limit m the history holds at most 2m entries. */
  lemma NextHistoryBounded(h: seq<Entry>, question: string, answer: string, maxHistory: int)
    requires maxHistory >= 1
    ensures |NextHistory(h, question, answer, maxHistory)| <= 2 * maxHistory
  {
    TruncateKeepsRecent(Seeded(h) + [Entry("user", question), Entry("assistant", answer)], maxHistory);
  }

  /** A history of user and assistant entries stays one. */
  lemma NextHistoryDialogue(h: seq<Entry>, question: string, answer: string, maxHistory: int)
    requires forall e :: e in h ==> IsDialogue(e)
    ensures forall e :: e in NextHistory(h, question, answer, maxHistory) ==> IsDialogue(e)
  {
    var full := Seeded(h) + [Entry("user", question), Entry("assistant", answer)];
    var r := NextHistory(h, question, answer, maxHistory);
    assert forall e :: e in r ==> e in full;
  }

  /** The first call of a session, with a limit of at least 2, leaves the seed and the turn. */
  lemma FirstCallSeeds(question: string, answer: string, maxHistory: int)
    requires maxHistory >= 2
    ensures NextHistory([], question, answer, maxHistory) ==
            [InitUser, InitAssistant, Entry("user", question), Entry("assistant", answer)]
  {
  }

  // ---------------------------------------------------------------------------
  // Answer extraction

  /** One element of a list-valued message content. */
  datatype Part = DictPart(fields: map<string, string>) | OtherPart

  datatype Content = TextContent(text: string) | PartsContent(parts: seq<Part>)

  datatype ChatMessage =
    | HumanMessage(content: Content)
    | AIMessage(content: Content)
    | SystemMessage(content: Content)
    | ToolMessage(content: Content)

  /** What `agent.invoke` returns: a dict that may hold "messages" and "answer";
      `repr` is `str(result)`. */
  datatype AgentResult = AgentResult(messages: Option<seq<ChatMessage>>, answer: Option<string>, repr: string)

  /** The `text` of each dict part that has one, in order. */
  function TextParts(parts: seq<Part>): (r: seq<string>)
    ensures |r| <= |parts|
    decreases |parts|
  {
    if parts == [] then []
    else
      var last := parts[|parts| - 1];
      TextParts(parts[..|parts| - 1]) + (if last.DictPart? && "text" in last.fields then [last.fields["text"]] else [])
  }

  /** The answer a message content gives: a string as is, a list as its joined text parts. */
  function ContentText(c: Content): string {
    match c
    case TextContent(t) => t
    case PartsContent(parts) => JoinWith(" ", TextParts(parts))
  }

  /** `[msg for msg in messages if isinstance(msg, AIMessage)]`. */
  function AIMessages(ms: seq<ChatMessage>): seq<ChatMessage>
    decreases |ms|
  {
    if ms == [] then []
    else AIMessages(ms[..|ms| - 1]) + (if ms[|ms| - 1].AIMessage? then [ms[|ms| - 1]] else [])
  }

  /** The answer `call` extracts from the agent's result. */
  function ExtractAnswer(result: AgentResult): string {
    if result.messages.Some? then
      var ais := AIMessages(result.messages.value);
      if ais == [] then NoAnswer else ContentText(ais[|ais| - 1].content)
    else if result.answer.Some? then result.answer.value
    else result.repr
  }

  /** The position of the last AIMessage, or -1 when there is none. */
  function LastAI(ms: seq<ChatMessage>): (r: int)
    ensures -1 <= r < |ms|
    ensures r >= 0 ==> ms[r].AIMessage?
    ensures forall j :: r < j < |ms| ==> !ms[j].AIMessage?
    decreases |ms|
  {
    if ms == [] then -1
    else if ms[|ms| - 1].AIMessage? then |ms| - 1
    else
      var r := LastAI(ms[..|ms| - 1]);
      assert forall j :: r < j < |ms| - 1 ==> ms[..|ms| - 1][j] == ms[j];
      r
  }

  /** The filtered list is empty exactly when there is no AIMessage, and
      otherwise ends with the last AIMessage of the whole list. */
  lemma {:induction false} AIMessagesLast(ms: seq<ChatMessage>)
    ensures AIMessages(ms) == [] <==> LastAI(ms) == -1
    ensures AIMessages(ms) != [] ==> AIMessages(ms)[|AIMessages(ms)| - 1] == ms[LastAI(ms)]
    decreases |ms|
  {
    if ms != [] {
      var n := |ms| - 1;
      if !ms[n].AIMessage? {
        AIMessagesLast(ms[..n]);
        assert AIMessages(ms) == AIMessages(ms[..n]) + [];
        assert AIMessages(ms[..n]) + [] == AIMessages(ms[..n]);
        var r := LastAI(ms[..n]);
        assert r >= 0 ==> ms[..n][r] == ms[r];
      }
    }
  }

  /** The answer is the content of the last AIMessage; with messages but no
      AIMessage it is the fixed apology; without messages it is the
      "answer" field, or else the result's string form. */
  lemma ExtractAnswerSpec(result: AgentResult)
    ensures result.messages.Some? ==>
              var ms := result.messages.value;
              ((forall i :: 0 <= i < |ms| ==> !ms[i].AIMessage?) ==> ExtractAnswer(result) == NoAnswer) &&
              forall i :: 0 <= i < |ms| && ms[i].AIMessage? && (forall j :: i < j < |ms| ==> !ms[j].AIMessage?) ==>
                ExtractAnswer(result) == ContentText(ms[i].content)
    ensures result.messages.None? ==>
              ExtractAnswer(result) == (if result.answer.Some? then result.answer.value else result.repr)
  {
    if result.messages.Some? {
      var ms := result.messages.value;
      AIMessagesLast(ms);
      var r := LastAI(ms);
      forall i | 0 <= i < |ms| && ms[i].AIMessage? && (forall j :: i < j < |ms| ==> !ms[j].AIMessage?)
        ensures i == r
      {
        assert r >= 0 ==> !(i < r);
      }
    }
  }

  /** List content keeps the text of dict parts that have one, and only those. */
  lemma {:induction false} TextPartsSpec(parts: seq<Part>)
    ensures forall t :: t in TextParts(parts) <==>
              exists i :: 0 <= i < |parts| && parts[i].DictPart? && "text" in parts[i].fields && parts[i].fields["text"] == t
    decreases |parts|
  {
    if parts != [] {
      var n := |parts| - 1;
      TextPartsSpec(parts[..n]);
      assert forall i :: 0 <= i < n ==> parts[..n][i] == parts[i];
    }
  }

  // ---------------------------------------------------------------------------
  // The retrieval tool's output

  function Wrap(d: Document): string {
    "<doc>\n" + d.pageContent + "\n</doc>"
  }

  /** What `RetrievalTool._run` returns for the retrieved documents. */
  function FormatRetrieved(docs: seq<Document>): string {
    if docs == [] then NoDocuments
    else JoinWith("\n\n", seq(|docs|, i requires 0 <= i < |docs| => Wrap(docs[i])))
  }

  lemma JoinWithStarts(sep: string, parts: seq<string>)
    requires parts != []
    ensures StartsWith(JoinWith(sep, parts), parts[0])
  {
    var j := JoinWith(sep, parts);
    if |parts| > 1 {
      assert j == parts[0] + (sep + JoinWith(sep, parts[1..]));
    }
    assert j[..|parts[0]|] == parts[0];
  }

  lemma SuffixOfAppend(a: string, b: string, n: nat)
    requires n <= |b|
    ensures (a + b)[|a + b| - n..] == b[|b| - n..]
  {
  }

  lemma {:induction false} JoinWithEnds(sep: string, parts: seq<string>)
    requires parts != []
    ensures var j := JoinWith(sep, parts); var last := parts[|parts| - 1];
            |last| <= |j| && j[|j| - |last|..] == last
    decreases |parts|
  {
    var last := parts[|parts| - 1];
    if |parts| > 1 {
      var rest := JoinWith(sep, parts[1..]);
      JoinWithEnds(sep, parts[1..]);
      assert parts[1..][|parts[1..]| - 1] == last;
      assert JoinWith(sep, parts) == (parts[0] + sep) + rest;
      SuffixOfAppend(parts[0] + sep, rest, |last|);
    } else {
      assert JoinWith(sep, parts) == last;
      assert last[|last| - |last|..] == last;
    }
  }

  /** The tool reports no documents exactly when none were retrieved; otherwise
      its output opens with the first document wrapped and closes with the last. */
  lemma FormatRetrievedSpec(docs: seq<Document>)
    ensures FormatRetrieved(docs) == NoDocuments <==> docs == []
    ensures docs != [] ==>
              StartsWith(FormatRetrieved(docs), Wrap(docs[0])) &&
              var f := FormatRetrieved(docs); var last := Wrap(docs[|docs| - 1]);
              |last| <= |f| && f[|f| - |last|..] == last
    ensures |docs| == 1 ==> FormatRetrieved(docs) == Wrap(docs[0])
  {
    if docs != [] {
      var parts := seq(|docs|, i requires 0 <= i < |docs| => Wrap(docs[i]));
      JoinWithStarts("\n\n", parts);
      JoinWithEnds("\n\n", parts);
      var f := FormatRetrieved(docs);
      assert f[0] == '<' && NoDocuments[0] == 'N';
    }
  }

  // ---------------------------------------------------------------------------
  // get_history

  /** The LangChain message for a history entry of a known role. */
  function ToChatMessage(e: Entry): Option<ChatMessage> {
    if e.role == "user" then Some(HumanMessage(TextContent(e.content)))
    else if e.role == "assistant" then Some(AIMessage(TextContent(e.content)))
    else if e.role == "system" then Some(SystemMessage(TextContent(e.content)))
    else None
  }

  /** `get_history`: the entries of a known role as LangChain messages, in order. */
  function ToChatMessages(h: seq<Entry>): (ms: seq<ChatMessage>)
    ensures |ms| <= |h|
    ensures forall i :: 0 <= i < |ms| ==> ms[i].content.TextContent? && !ms[i].ToolMessage?
    decreases |h|
  {
    if h == [] then []
    else
      var m := ToChatMessage(h[|h| - 1]);
      ToChatMessages(h[..|h| - 1]) + (if m.Some? then [m.value] else [])
  }

  /** The entry a message of `get_history` stands for. */
  function FromChatMessage(m: ChatMessage): Entry
    requires m.content.TextContent?
  {
    match m
    case HumanMessage(c) => Entry("user", c.text)
    case AIMessage(c) => Entry("assistant", c.text)
    case SystemMessage(c) => Entry("system", c.text)
    case ToolMessage(c) => Entry("tool", c.text)
  }

  predicate KnownRole(e: Entry) {
    e.role == "user" || e.role == "assistant" || e.role == "system"
  }

  /** Reading the messages back gives the entries of a known role, in order:
      no entry is altered or reordered, only unknown roles are dropped. */
  lemma {:induction false} ToChatMessagesRoundTrip(h: seq<Entry>)
    ensures var ms := ToChatMessages(h);
            (forall i :: 0 <= i < |ms| ==> ms[i].content.TextContent? && !ms[i].ToolMessage?) &&
            seq(|ms|, i requires 0 <= i < |ms| && ms[i].content.TextContent? => FromChatMessage(ms[i])) ==
              KnownRolesOnly(h)
    decreases |h|
  {
    if h != [] {
      var n := |h| - 1;
      ToChatMessagesRoundTrip(h[..n]);
    }
  }

  function KnownRolesOnly(h: seq<Entry>): seq<Entry>
    decreases |h|
  {
    if h == [] then []
    else KnownRolesOnly(h[..|h| - 1]) + (if KnownRole(h[|h| - 1]) then [h[|h| - 1]] else [])
  }

  // ---------------------------------------------------------------------------
  // The objects

  /** One source of a reply: `{"content": ..., "metadata": ...}`. */
  datatype Source = Source(content: string, metadata: Metadata)

  /** The dict `call` returns. */
  datatype Reply = Reply(answer: string, sources: seq<Source>)

  function Sources(docs: seq<Document>): seq<Source> {
    seq(|docs|, i requires 0 <= i < |docs| => Source(docs[i].pageContent, docs[i].metadata))
  }

  /** `RetrievalTool`: remembers the documents of its last retrieval. */
  class RetrievalTool {
    const retriever: FaissStore.Retriever
    var lastDocs: seq<Document>

    constructor (retriever: FaissStore.Retriever)
      ensures this.retriever == retriever && lastDocs == []
    {
      this.retriever := retriever;
      lastDocs := [];
    }

    /** `_run(query)`: retrieve, remember, format. */
    method Run(query: string, retrieve: (FaissStore.Retriever, string) -> seq<Document>) returns (s: string)
      modifies this
      ensures lastDocs == retrieve(retriever, query)
      ensures s == FormatRetrieved(lastDocs)
    {
      var docs := retrieve(retriever, query);
      lastDocs := docs;
      if docs == [] {
        return NoDocuments;
      }
      s := JoinWith("\n\n", seq(|docs|, i requires 0 <= i < |docs| => Wrap(docs[i])));
    }

    method GetLastDocs() returns (docs: seq<Document>)
      ensures docs == lastDocs
    {
      docs := lastDocs;
    }
  }

  /** `FAISSConversationalRAGChain`. */
  class Chain {
    const sessionId: string
    var history: seq<Entry>
    var retriever: FaissStore.Retriever
    const tool: RetrievalTool
    const loader: DocumentLoader.DocumentLoaderService
    const store: FaissStore.FaissVectorStore
    /** PromptTemplate.template. */
    const systemPrompt: string
    /** Config.MAX_HISTORY_LENGTH. */
    const maxHistory: int

    constructor (sessionId: string, loader: DocumentLoader.DocumentLoaderService, store: FaissStore.FaissVectorStore,
                 systemPrompt: string, maxHistory: int)
      ensures this.sessionId == sessionId && this.loader == loader && this.store == store
      ensures this.systemPrompt == systemPrompt && this.maxHistory == maxHistory
      ensures history == [] && retriever == tool.retriever && retriever == FaissStore.Retriever(store.engine, store.topK)
      ensures fresh(tool) && tool.lastDocs == []
    {
      this.sessionId := sessionId;
      this.loader := loader;
      this.store := store;
      this.systemPrompt := systemPrompt;
      this.maxHistory := maxHistory;
      history := [];
      var r := store.GetRetriever(None);
      retriever := r;
      tool := new RetrievalTool(r);
    }

    /** `call(question)`: seed, assemble, ask the agent, take its answer and the
        tool's last documents (or retrieve afresh when there are none), record
        the turn and truncate. The agent's own calls of the tool happen
        through `tool.Run` before this method. */
    method Call(question: string, agent: seq<Entry> -> AgentResult, retrieve: (FaissStore.Retriever, string) -> seq<Document>)
      returns (reply: Reply)
      modifies this
      ensures var answer := ExtractAnswer(agent(BuildMessages(systemPrompt, Seeded(old(history)), question)));
              reply.answer == answer && history == NextHistory(old(history), question, answer, maxHistory)
      ensures var docs := if tool.lastDocs != [] then tool.lastDocs else retrieve(retriever, question);
              |reply.sources| == |docs| &&
              forall i :: 0 <= i < |docs| ==>
                reply.sources[i].content == docs[i].pageContent && reply.sources[i].metadata == docs[i].metadata
      ensures retriever == old(retriever)
    {
      if history == [] {
        history := history + [InitUser];
        history := history + [InitAssistant];
      }
      assert history == Seeded(old(history));
      var messages := BuildMessages(systemPrompt, history, question);
      var result := agent(messages);
      var answer := ExtractAnswer(result);
      var sourceDocs := tool.GetLastDocs();
      if sourceDocs == [] {
        sourceDocs := retrieve(retriever, question);
      }
      history := history + [Entry("user", question)];
      history := history + [Entry("assistant", answer)];
      assert history == Seeded(old(history)) + [Entry("user", question), Entry("assistant", answer)];
      if |history| > maxHistory * 2 {
        history := PySliceFrom(history, -maxHistory * 2);
      }
      reply := Reply(answer, Sources(sourceDocs));
    }

    /** `add_documents(uploaded_file)`: save the upload, process it with
        skipping, and add its chunks to the store when there are any. The
        ledger is written by `ProcessFile` before the store is touched. */
    method AddDocuments(upload: Option<DocumentLoader.UploadedFile>, read: DocumentLoader.Reader,
                        uuids: Uuids.UuidSource, embedOk: FaissStore.Embedder)
      returns (r: Result<()>)
      requires uuids.Valid()
      modifies this, loader, store, store.dir, uuids
      ensures uuids.Valid() && history == old(history) && store.engine == old(store.engine)
      ensures upload.None? ==> r == Err(NoUploadFile) && unchanged(loader, store, store.dir) && retriever == old(retriever)
      ensures upload.Some? ==>
                var path := DocumentLoader.JoinPath(loader.documentsDir, upload.value.name);
                var processed := DocumentLoader.ProcessFileOutcome(old(loader.ledger), path, true, read, loader.splitter);
                loader.ledger == processed.1 &&
                (processed.0 == [] ==> r == Ok(()) && unchanged(store, store.dir) && retriever == old(retriever)) &&
                (processed.0 != [] && r.Ok? ==> retriever == FaissStore.Retriever(store.engine, store.topK)) &&
                (processed.0 != [] && r.Err? ==> retriever == old(retriever)) &&
                (processed.0 != [] ==>
                   exists ids :: (if r.Ok? then Ok(true) else Err(r.error), store.index, store.dir.snapshot) ==
                                 FaissStore.AddOutcome(old(store.index), old(store.dir.snapshot), processed.0, ids, 10, embedOk))
    {
      var saved := loader.SaveUploadedFile(upload);
      if saved.Err? {
        return Err(saved.error);
      }
      var chunks := loader.ProcessFile(saved.value, true, read);
      if chunks == [] {
        return Ok(());
      }
      var added, ids := store.AddDocuments(chunks, 10, None, uuids, embedOk);
      if added.Err? {
        return Err(added.error);
      }
      retriever := store.GetRetriever(None);
      r := Ok(());
    }

    /** `clear_memory()`. */
    method ClearMemory()
      modifies this
      ensures history == [] && retriever == old(retriever)
    {
      history := [];
    }

    /** `get_history()`. */
    function GetHistory(): (ms: seq<ChatMessage>)
      reads this
      ensures forall i :: 0 <= i < |ms| ==> ms[i].content.TextContent? && !ms[i].ToolMessage?
      ensures seq(|ms|, i requires 0 <= i < |ms| && ms[i].content.TextContent? => FromChatMessage(ms[i])) ==
              KnownRolesOnly(history)
    {
      ToChatMessagesRoundTrip(history);
      ToChatMessages(history)
    }
  }

  /** `_sessions` with `get_conversational_chain` and `clear_session`. */
  class SessionRegistry {
    var sessions: map<string, Chain>

    constructor ()
      ensures sessions == map[]
    {
      sessions := map[];
    }

    /** The chain of a session, created on first use. */
    method GetConversationalChain(sessionId: string, loader: DocumentLoader.DocumentLoaderService,
                                  store: FaissStore.FaissVectorStore, systemPrompt: string, maxHistory: int)
      returns (c: Chain)
      modifies this
      ensures sessionId in old(sessions) ==> c == old(sessions)[sessionId] && sessions == old(sessions)
      ensures sessionId !in old(sessions) ==>
                fresh(c) && c.sessionId == sessionId && c.history == [] && sessions == old(sessions)[sessionId := c] &&
                c.loader == loader && c.store == store && c.systemPrompt == systemPrompt && c.maxHistory == maxHistory &&
                c.retriever == FaissStore.Retriever(store.engine, store.topK) && c.tool.retriever == c.retriever &&
                c.tool.lastDocs == []
    {
      if sessionId !in sessions {
        var created := new Chain(sessionId, loader, store, systemPrompt, maxHistory);
        sessions := sessions[sessionId := created];
      }
      c := sessions[sessionId];
    }

    /** `clear_session(id)`: empty that chain's history and forget it. */
    method ClearSession(sessionId: string)
      modifies this, if sessionId in sessions then {sessions[sessionId]} else {}
      ensures sessions == old(sessions) - {sessionId}
      ensures sessionId in old(sessions) ==> old(sessions)[sessionId].history == []
    {
      if sessionId in sessions {
        sessions[sessionId].ClearMemory();
        sessions := sessions - {sessionId};
      }
    }
  }
}
