/**
  * The chat page: the context it builds from the documents a user may read,
  * the vector-search text it appends, the prompt it sends, the reply it
  * saves and shows, the history export and statistics, and the access
  * matrix the page shows. The completion service is a function parameter
  * from (system prompt, question) to a reply or an exception text; whether
  * the vector service could be reached and what it answered is an input.
  */
module ChatInterface {
  import opened Text
  import opened Store
  import Login
  import Chatbot
  import VectorIndex

  const ApiKeyMissing := "❌ Please configure your Groq API key in the API Configuration section above."
  const ErrorReplyPrefix := "Sorry, I encountered an error: "
  const VectorHeading := "\n\nRelevant Context from Vector Search:\n"
  const NoHistoryToExport := "No chat history to export."

  /** How many characters of each document the chat page puts in its context. */
  const ChatTextLimit := 2000

  // ---------------------------------------------------------------------
  // The document context
  // ---------------------------------------------------------------------

  /** `f"Document: {name}\nContent: {text[:limit]}..."` for one readable resource. */
  function DocumentPart(r: Resource, limit: nat): string
    requires r.extractedText.Some?
  {
    Chatbot.FormatPart(r.name, SlicePrefix(r.extractedText.value, limit))
  }

  /** The parts of every resource whose text has a non-blank character, in list order. */
  function DocumentParts(rs: seq<Resource>, limit: nat): (parts: seq<string>)
    ensures |parts| <= |rs|
  {
    if rs == [] then []
    else
      var last := rs[|rs| - 1];
      DocumentParts(rs[..|rs| - 1], limit) + (if Chatbot.Usable(last.extractedText) then [DocumentPart(last, limit)] else [])
  }

  /** A part is in the list exactly when some resource with usable text produced it. */
  lemma {:induction false} DocumentPartsMembership(rs: seq<Resource>, limit: nat, p: string)
    ensures p in DocumentParts(rs, limit) <==>
      exists r :: r in rs && Chatbot.Usable(r.extractedText) && p == DocumentPart(r, limit)
  {
    if rs != [] {
      var init := rs[..|rs| - 1];
      DocumentPartsMembership(init, limit, p);
      assert rs == init + [rs[|rs| - 1]];
      if exists r :: r in rs && Chatbot.Usable(r.extractedText) && p == DocumentPart(r, limit) {
        var r :| r in rs && Chatbot.Usable(r.extractedText) && p == DocumentPart(r, limit);
        if r != rs[|rs| - 1] {
          assert r in init;
        }
      }
    }
  }

  /** Each part holds the document's name and at most `limit` characters of its text, plus 24 fixed characters. */
  lemma DocumentPartLength(r: Resource, limit: nat)
    requires r.extractedText.Some?
    ensures |DocumentPart(r, limit)| <= |r.name| + limit + 24
    ensures StartsWith(DocumentPart(r, limit), "Document: " + r.name)
  {
    var p := DocumentPart(r, limit);
    assert p[..|"Document: " + r.name|] == "Document: " + r.name;
  }

  /** The page's context: the parts joined by a blank line, or the sentinel when the user may read nothing. */
  function DocumentContext(rs: seq<Resource>, limit: nat): string {
    if rs == [] then Chatbot.NoDocumentsSentinel else Join(DocumentParts(rs, limit), "\n\n")
  }

  /**
    * The sentinel stands for "no resources" only: when resources exist but
    * none has usable text, the context is empty instead.
    */
  lemma DocumentContextCases(rs: seq<Resource>, limit: nat)
    ensures DocumentContext(rs, limit) == Chatbot.NoDocumentsSentinel <==> rs == []
    ensures rs != [] && (forall r :: r in rs ==> !Chatbot.Usable(r.extractedText)) ==> DocumentContext(rs, limit) == ""
  {
    if rs != [] {
      var parts := DocumentParts(rs, limit);
      if parts == [] {
        assert DocumentContext(rs, limit) == "";
      } else {
        DocumentPartsMembership(rs, limit, parts[0]);
        Chatbot.JoinStartsWithFirst(parts, "\n\n");
        assert DocumentContext(rs, limit)[0] == 'D';
      }
    }
    NoUsableTextNoParts(rs, limit);
  }

  lemma {:induction false} NoUsableTextNoParts(rs: seq<Resource>, limit: nat)
    ensures (forall r :: r in rs ==> !Chatbot.Usable(r.extractedText)) ==> DocumentParts(rs, limit) == []
  {
    if rs != [] {
      var init := rs[..|rs| - 1];
      NoUsableTextNoParts(init, limit);
      assert forall r :: r in init ==> r in rs;
    }
  }

  /** The loop that collects the parts and joins them. */
  method BuildDocumentContext(rs: seq<Resource>, limit: nat) returns (context: string)
    ensures context == DocumentContext(rs, limit)
  {
    if rs == [] {
      return Chatbot.NoDocumentsSentinel;
    }
    var parts: seq<string> := [];
    var i := 0;
    while i < |rs|
      invariant 0 <= i <= |rs|
      invariant parts == DocumentParts(rs[..i], limit)
    {
      assert rs[..i + 1][..i] == rs[..i];
      if Chatbot.Usable(rs[i].extractedText) {
        parts := parts + [DocumentPart(rs[i], limit)];
      }
      i := i + 1;
    }
    assert rs[..i] == rs;
    context := Join(parts, "\n\n");
  }

  // ---------------------------------------------------------------------
  // The vector-search text
  // ---------------------------------------------------------------------

  /** Whether the vector service could be created, and what its query gave back. */
  datatype VectorLookup = VectorReady(outcome: VectorIndex.QueryOutcome) | VectorUnavailable

  /**
    * The vector text is appended under its heading when it is non-empty and
    * not the "nothing found" string; an unavailable service leaves the
    * document context alone.
    */
  function CombinedContext(context: string, vector: VectorLookup): string {
    match vector
    case VectorUnavailable => context
    case VectorReady(outcome) =>
      var found := VectorIndex.RelevantContext(outcome);
      if found != "" && found != VectorIndex.NoRelevantDocuments then context + VectorHeading + found else context
  }

  /**
    * Only the "nothing found" answer is filtered: a failed query's
    * "Error retrieving relevant context." is appended as if it were
    * document text, and an unavailable service or a hit list leaves the
    * document context as the combined text's prefix.
    */
  lemma CombinedContextCases(context: string, vector: VectorLookup)
    ensures vector == VectorReady(VectorIndex.QueryRaised) ==>
      CombinedContext(context, vector) == context + VectorHeading + VectorIndex.RetrievalError
    ensures vector == VectorUnavailable || vector == VectorReady(VectorIndex.Hits([])) ==>
      CombinedContext(context, vector) == context
    ensures context <= CombinedContext(context, vector)
  {
  }

  /**
    * Vector hits are appended whatever the user may read: a user with no
    * readable resource still gets every hit's text in the context.
    */
  lemma VectorHitsIgnorePermissions(doc: string)
    requires doc != "" && doc != VectorIndex.NoRelevantDocuments
    ensures CombinedContext(DocumentContext([], ChatTextLimit), VectorReady(VectorIndex.Hits([doc])))
         == Chatbot.NoDocumentsSentinel + VectorHeading + doc
  {
  }

  // ---------------------------------------------------------------------
  // The system prompt
  // ---------------------------------------------------------------------

  const ChatPromptHead :=
      "You are a specialized AI assistant for Tech Mahindra that can ONLY answer questions based on the specific documents and data you have been provided access to.\n\n"
    + "CRITICAL RESTRICTIONS:\n"
    + "1. **STRICT DATA BOUNDARY**: You can ONLY answer questions that are directly related to the content of the documents provided to you.\n"
    + "2. **NO GENERAL KNOWLEDGE**: You must NOT answer general knowledge questions, current events, weather, cooking, math, or any topic outside your provided documents.\n"
    + "3. **NO CREATIVE RESPONSES**: You must NOT make up information, provide opinions, or generate creative content.\n"
    + "4. **NO EXTERNAL KNOWLEDGE**: You must NOT use any knowledge from your training data that is not present in the provided documents.\n"
    + "5. **ROLE-BASED ACCESS**: You have "

  const ChatPromptMiddle :=
      " access and can only discuss documents you have permission to view.\n\n"
    + "RESPONSE PROTOCOL:\n"
    + "- If a question is related to your documents: Answer based ONLY on the document content\n"
    + "- If a question is unrelated to your documents: Respond with: \"I can only answer questions related to the documents I have access to. Please ask me about the content of the provided documents.\"\n"
    + "- If you're unsure: Respond with: \"I can only answer questions related to the documents I have access to. Please ask me about the content of the provided documents.\"\n\n"
    + "DOCUMENT CONTEXT:\n"

  const ChatPromptTail :=
      "\n\n"
    + "BEHAVIOR GUIDELINES:\n"
    + "- Be professional and helpful within your strict scope\n"
    + "- Always cite specific document content when answering\n"
    + "- If information is not in the documents, clearly state this\n"
    + "- Maintain Tech Mahindra's professional tone\n"
    + "- Keep responses concise and relevant\n"
    + "- Never provide information outside the scope of your documents\n\n"
    + "VALIDATION CHECK:\n"
    + "Before responding, ask yourself: \"Is this question directly related to the content of my provided documents?\"\n"
    + "- If YES: Answer based on document content\n"
    + "- If NO: Decline to answer and redirect to document-related questions\n\n"
    + "EXAMPLES OF REJECTED QUESTIONS:\n"
    + "- \"What's the weather today?\"\n"
    + "- \"How do I cook pasta?\"\n"
    + "- \"What's 2+2?\"\n"
    + "- \"Tell me a joke\"\n"
    + "- \"What are the latest news?\"\n"
    + "- \"What's the capital of France?\"\n"
    + "- \"How do I solve a math problem?\"\n\n"
    + "EXAMPLES OF ACCEPTED QUESTIONS:\n"
    + "- \"What is ICDSA according to the documents?\"\n"
    + "- \"What are the key features mentioned in the telecom documents?\"\n"
    + "- \"Can you explain the process described in the uploaded files?\"\n"
    + "- \"What services does Tech Mahindra provide based on the documents?\"\n\n"
    + "REMEMBER: You are a document-specific assistant. Your knowledge is limited to the provided documents only. You must NEVER answer questions outside your document scope, regardless of how simple or common the question might be."

  /** The fixed text of a system prompt around its two inserted values, the role and the context. */
  datatype PromptTemplate = PromptTemplate(head: string, middle: string, tail: string)

  /** The page's prompt text. */
  const PagePrompt := PromptTemplate(ChatPromptHead, ChatPromptMiddle, ChatPromptTail)

  /** The system prompt, with the role (as stored, not title-cased) and the context written in. */
  function ChatPrompt(t: PromptTemplate, role: string, context: string): string {
    t.head + role + t.middle + context + t.tail
  }

  /**
    * The role and the context appear verbatim at fixed places, and for a
    * given role the prompt determines the context; this holds whatever the
    * fixed text is, so in particular for the page's own prompt.
    */
  lemma ChatPromptEmbeds(t: PromptTemplate, role: string, context: string, other: string)
    ensures var p := ChatPrompt(t, role, context);
      && OccursAt(p, role, |t.head|)
      && OccursAt(p, context, |t.head| + |role| + |t.middle|)
      && EndsWith(p, t.tail)
      && (ChatPrompt(t, role, other) == p ==> other == context)
  {
    var p := ChatPrompt(t, role, context);
    var k := |t.head| + |role| + |t.middle|;
    assert p[|t.head|..|t.head| + |role|] == role;
    assert p[k..k + |context|] == context;
    assert p[|p| - |t.tail|..] == t.tail;
    if ChatPrompt(t, role, other) == p {
      assert |other| == |context|;
      assert other == ChatPrompt(t, role, other)[k..k + |other|];
    }
  }

  // ---------------------------------------------------------------------
  // The reply
  // ---------------------------------------------------------------------

  /** The completion's text, or the error line built from the exception text. */
  function ChatReply(outcome: Chatbot.Completion): (r: string)
    ensures outcome.Raised? ==> StartsWith(r, ErrorReplyPrefix)
  {
    match outcome
    case Reply(content) => content
    case Raised(error) => ErrorReplyPrefix + error
  }

  /** The reply the page gives a user of that role who may read `rs`, once an API key is set. */
  function PageReply(role: string, rs: seq<Resource>, vector: VectorLookup,
                     complete: (string, string) -> Chatbot.Completion, message: string): string
  {
    ChatReply(complete(ChatPrompt(PagePrompt, role, CombinedContext(DocumentContext(rs, ChatTextLimit), vector)), message))
  }

  /**
    * `get_chatbot_response`: with no API key, the configuration message and
    * nothing saved. Otherwise the prompt is built from the role, the
    * resources the user may read and the vector text; the reply (or the
    * error line) is saved as one chat row for the user and returned.
    */
  method GetChatbotResponse(db: Database, session: Login.Session, apiKey: string, message: string, userId: int,
                            vector: VectorLookup, complete: (string, string) -> Chatbot.Completion)
    returns (reply: string)
    requires db.Valid()
    modifies db
    ensures db.Valid()
    ensures apiKey == "" ==> reply == ApiKeyMissing && unchanged(db)
    ensures apiKey != "" ==>
      var rs := AccessibleResources(old(db.users), old(db.resources), old(db.permissions), userId);
      var prompt := ChatPrompt(PagePrompt, session.GetUserRole(), CombinedContext(DocumentContext(rs, ChatTextLimit), vector));
      && reply == ChatReply(complete(prompt, message))
      && reply == PageReply(session.GetUserRole(), rs, vector, complete, message)
      && db.chats == old(db.chats) + [ChatRow(old(db.nextChatId), userId, message, reply)]
    ensures db.users == old(db.users) && db.resources == old(db.resources) && db.permissions == old(db.permissions)
  {
    if apiKey == "" {
      return ApiKeyMissing;
    }
    var role := session.GetUserRole();
    var rs := AccessibleResources(db.users, db.resources, db.permissions, userId);
    var context := BuildDocumentContext(rs, ChatTextLimit);
    context := CombinedContext(context, vector);
    var prompt := ChatPrompt(PagePrompt, role, context);
    reply := ChatReply(complete(prompt, message));
    var _ := db.SaveChatHistory(userId, message, reply);
  }

  /**
    * The send button: an empty question only shows a warning; otherwise the
    * reply is fetched for the logged-in user and the (question, reply) pair
    * is appended to the session history.
    */
  method SendMessage(db: Database, session: Login.Session, apiKey: string, message: string,
                     vector: VectorLookup, complete: (string, string) -> Chatbot.Completion)
    requires db.Valid() && session.currentUser.Some?
    modifies db, session
    ensures db.Valid()
    ensures message == "" ==> unchanged(db) && unchanged(session)
    ensures message != "" ==>
      && |session.chatHistory| == |old(session.chatHistory)| + 1
      && session.chatHistory[..|old(session.chatHistory)|] == old(session.chatHistory)
      && session.chatHistory[|old(session.chatHistory)|].message == message
      && (apiKey != "" ==>
            var rs := AccessibleResources(old(db.users), old(db.resources), old(db.permissions), old(session.currentUser).value.id);
            && session.chatHistory[|old(session.chatHistory)|].response == PageReply(old(session.GetUserRole()), rs, vector, complete, message)
            && db.chats == old(db.chats) + [ChatRow(old(db.nextChatId), old(session.currentUser).value.id, message,
                                                    session.chatHistory[|old(session.chatHistory)|].response)])
      && (apiKey == "" ==> session.chatHistory[|old(session.chatHistory)|].response == ApiKeyMissing && db.chats == old(db.chats))
    ensures db.users == old(db.users) && db.resources == old(db.resources) && db.permissions == old(db.permissions)
    ensures session.authenticated == old(session.authenticated) && session.currentUser == old(session.currentUser)
    ensures session.userRole == old(session.userRole)
  {
    if message == "" {
      return;
    }
    var reply := GetChatbotResponse(db, session, apiKey, message, session.currentUser.value.id, vector, complete);
    session.chatHistory := session.chatHistory + [Login.Exchange(message, reply)];
  }

  // ---------------------------------------------------------------------
  // The access matrix
  // ---------------------------------------------------------------------

  /** One row of the matrix query: (user_id, resource_id, can_access). */
  datatype MatrixRow = MatrixRow(userId: int, resourceId: int, canAccess: bool)

  function RowsOfPermissions(ps: seq<Permission>): (r: seq<MatrixRow>)
    ensures |r| == |ps|
    ensures forall i :: 0 <= i < |ps| ==> r[i] == MatrixRow(ps[i].userId, ps[i].resourceId, ps[i].canAccess)
  {
    seq(|ps|, i requires 0 <= i < |ps| => MatrixRow(ps[i].userId, ps[i].resourceId, ps[i].canAccess))
  }

  /** The dictionary the rows build, keyed by (user id, resource id); a later row overwrites an earlier one. */
  function MatrixOf(rows: seq<MatrixRow>): map<(int, int), bool> {
    if rows == [] then map[]
    else
      var last := rows[|rows| - 1];
      MatrixOf(rows[..|rows| - 1])[(last.userId, last.resourceId) := last.canAccess]
  }

  /** The loop that fills the dictionary. */
  method FillMatrix(rows: seq<MatrixRow>) returns (m: map<(int, int), bool>)
    ensures m == MatrixOf(rows)
  {
    m := map[];
    var i := 0;
    while i < |rows|
      invariant 0 <= i <= |rows|
      invariant m == MatrixOf(rows[..i])
    {
      assert rows[..i + 1][..i] == rows[..i];
      m := m[(rows[i].userId, rows[i].resourceId) := rows[i].canAccess];
      i := i + 1;
    }
    assert rows[..i] == rows;
  }

  /**
    * A pair has an entry exactly when some row names it, and the entry is
    * the value of the last row naming it.
    */
  lemma {:induction false} MatrixLastRowWins(rows: seq<MatrixRow>, u: int, x: int)
    ensures (u, x) in MatrixOf(rows) <==> exists j :: 0 <= j < |rows| && rows[j].userId == u && rows[j].resourceId == x
    ensures (u, x) in MatrixOf(rows) ==>
      exists j :: 0 <= j < |rows| && rows[j].userId == u && rows[j].resourceId == x
        && MatrixOf(rows)[(u, x)] == rows[j].canAccess
        && forall k :: j < k < |rows| ==> !(rows[k].userId == u && rows[k].resourceId == x)
  {
    if rows != [] {
      var n := |rows| - 1;
      var init := rows[..n];
      MatrixLastRowWins(init, u, x);
      assert forall j :: 0 <= j < n ==> rows[j] == init[j];
      if rows[n].userId == u && rows[n].resourceId == x {
      } else if (u, x) in MatrixOf(rows) {
        var j :| 0 <= j < n && init[j].userId == u && init[j].resourceId == x
          && MatrixOf(init)[(u, x)] == init[j].canAccess
          && forall k :: j < k < n ==> !(init[k].userId == u && init[k].resourceId == x);
        assert rows[j] == init[j];
      }
    }
  }

  /**
    * One cell: the dictionary entry when there is one; otherwise access for
    * the resource's uploader and for an admin.
    */
  function AccessCell(m: map<(int, int), bool>, userId: int, username: string, role: string,
                      resourceId: int, uploadedBy: string): bool
  {
    if (userId, resourceId) in m then m[(userId, resourceId)]
    else uploadedBy == username || role == "admin"
  }

  /**
    * The entry decides when there is one, so a latest revoking row shows no
    * access even for the uploader or an admin; without an entry the cell
    * shows access exactly for the uploader or an admin.
    */
  lemma AccessCellRule(rows: seq<MatrixRow>, userId: int, username: string, role: string, resourceId: int, uploadedBy: string)
    ensures var m := MatrixOf(rows);
      && ((userId, resourceId) in m ==> AccessCell(m, userId, username, role, resourceId, uploadedBy) == m[(userId, resourceId)])
      && ((forall j :: 0 <= j < |rows| ==> !(rows[j].userId == userId && rows[j].resourceId == resourceId)) ==>
            AccessCell(m, userId, username, role, resourceId, uploadedBy) == (uploadedBy == username || role == "admin"))
  {
    MatrixLastRowWins(rows, userId, resourceId);
  }

  /** Two rows for one pair, the later revoking: the cell shows no access, even for an admin uploader. */
  lemma LaterRevokeHidesAccess(u: int, x: int, name: string)
    ensures !AccessCell(MatrixOf([MatrixRow(u, x, true), MatrixRow(u, x, false)]), u, name, "admin", x, name)
  {
    var rows := [MatrixRow(u, x, true), MatrixRow(u, x, false)];
    assert rows[..1] == [MatrixRow(u, x, true)];
    assert rows[..1][..0] == [];
  }

  /** The "Total Permissions" figure: the number of pairs whose entry is true. */
  function TotalAccess(m: map<(int, int), bool>): nat {
    |set k | k in m && m[k]|
  }

  /** The figure counts pairs, not rows: it never exceeds the number of rows. */
  lemma {:induction false} TotalAccessBound(rows: seq<MatrixRow>)
    ensures TotalAccess(MatrixOf(rows)) <= |MatrixOf(rows)| <= |rows|
  {
    var m := MatrixOf(rows);
    SubsetCardinality((set k | k in m && m[k]), m.Keys);
    if rows != [] {
      TotalAccessBound(rows[..|rows| - 1]);
      var m0 := MatrixOf(rows[..|rows| - 1]);
      var last := rows[|rows| - 1];
      var key := (last.userId, last.resourceId);
      assert m.Keys == m0.Keys + {key};
      assert |m0.Keys + {key}| <= |m0.Keys| + 1;
      assert |m| == |m.Keys| && |m0| == |m0.Keys|;
    }
    assert |m| == |m.Keys|;
  }

  lemma {:induction false} SubsetCardinality<T>(a: set<T>, b: set<T>)
    requires a <= b
    ensures |a| <= |b|
  {
    if a != {} {
      var x :| x in a;
      SubsetCardinality(a - {x}, b - {x});
    }
  }

  // ---------------------------------------------------------------------
  // Export and statistics
  // ---------------------------------------------------------------------

  /** `"=" * 50` and `"-" * 30` */
  const EqualsRule := "=================================================="
  const DashRule := "------------------------------"

  const ExportHeader := "Chat History Export\n" + EqualsRule + "\n\n"

  /** The block for the `i`-th exchange, counting from 1. */
  function ExportBlock(i: nat, e: Login.Exchange): string {
    "Exchange " + NatToString(i) + ":\n" + "User: " + e.message + "\n" + "AI: " + e.response + "\n" + DashRule + "\n\n"
  }

  /** The blocks of the whole history, numbered from 1. */
  function ExportBlocks(history: seq<Login.Exchange>): string {
    if history == [] then ""
    else ExportBlocks(history[..|history| - 1]) + ExportBlock(|history|, history[|history| - 1])
  }

  function ExportText(history: seq<Login.Exchange>): string {
    if history == [] then NoHistoryToExport else ExportHeader + ExportBlocks(history)
  }

  /** `export_chat_history`: the loop that appends one numbered block per exchange. */
  method ExportChatHistory(history: seq<Login.Exchange>) returns (text: string)
    ensures text == ExportText(history)
  {
    if history == [] {
      return NoHistoryToExport;
    }
    var blocks := "";
    var i := 0;
    while i < |history|
      invariant 0 <= i <= |history|
      invariant blocks == ExportBlocks(history[..i])
    {
      ExportBlocksStep(history, i);
      blocks := blocks + ExportBlock(i + 1, history[i]);
      i := i + 1;
    }
    assert history[..i] == history;
    text := ExportHeader + blocks;
  }

  /** One more exchange adds its block at the end. */
  lemma ExportBlocksStep(history: seq<Login.Exchange>, i: nat)
    requires i < |history|
    ensures ExportBlocks(history[..i + 1]) == ExportBlocks(history[..i]) + ExportBlock(i + 1, history[i])
  {
    var pre := history[..i + 1];
    assert pre[..|pre| - 1] == history[..i];
  }

  /** The blocks of a prefix of the history are a prefix of the blocks of the whole. */
  lemma {:induction false} ExportBlocksPrefix(history: seq<Login.Exchange>, n: nat)
    requires n <= |history|
    ensures ExportBlocks(history[..n]) <= ExportBlocks(history)
  {
    if n < |history| {
      var init := history[..|history| - 1];
      assert init[..n] == history[..n];
      ExportBlocksPrefix(init, n);
    } else {
      assert history[..n] == history;
    }
  }

  /**
    * Every exchange appears in the export, in history order: the block of
    * exchange `i` (numbered `i + 1`) starts right after the header and the
    * blocks before it.
    */
  lemma ExportContainsEveryExchange(history: seq<Login.Exchange>, i: nat)
    requires i < |history|
    ensures StartsWith(ExportText(history), ExportHeader)
    ensures OccursAt(ExportText(history), ExportBlock(i + 1, history[i]),
                     |ExportHeader| + |ExportBlocks(history[..i])|)
  {
    var all := ExportBlocks(history);
    var before := ExportBlocks(history[..i]);
    var block := ExportBlock(i + 1, history[i]);
    assert ExportText(history) == ExportHeader + all;
    ExportBlocksPrefix(history, i + 1);
    ExportBlocksStep(history, i);
    assert before + block <= all;
    BlockInside(ExportHeader, before, block, all);
  }

  lemma BlockInside(header: string, before: string, block: string, all: string)
    requires before + block <= all
    ensures StartsWith(header + all, header)
    ensures OccursAt(header + all, block, |header| + |before|)
  {
    var t := header + all;
    var k := |header| + |before|;
    assert t[..|header|] == header;
    assert all[|before|..|before| + |block|] == block;
    assert t[k..k + |block|] == all[|before|..|before| + |block|];
  }

  /** The export is the "nothing to export" line exactly for an empty history. */
  lemma ExportEmptyIff(history: seq<Login.Exchange>)
    ensures ExportText(history) == NoHistoryToExport <==> history == []
  {
    if history != [] {
      assert ExportText(history)[0] == 'C';
    }
  }

  /** `get_chat_statistics`, without the floating-point average. */
  datatype ChatStats = ChatStats(totalExchanges: nat, totalUserMessages: nat, totalAiResponses: nat)

  function ChatStatistics(history: seq<Login.Exchange>): (s: ChatStats)
    ensures s.totalExchanges == |history|
  {
    if history == [] then ChatStats(0, 0, 0)
    else
      var s := ChatStatistics(history[..|history| - 1]);
      var e := history[|history| - 1];
      ChatStats(s.totalExchanges + 1, s.totalUserMessages + |e.message|, s.totalAiResponses + |e.response|)
  }

  /** The character totals add up over a split history, and every exchange counts its own lengths. */
  lemma {:induction false} StatisticsOfConcat(h1: seq<Login.Exchange>, h2: seq<Login.Exchange>)
    ensures var a := ChatStatistics(h1); var b := ChatStatistics(h2); var c := ChatStatistics(h1 + h2);
      c == ChatStats(a.totalExchanges + b.totalExchanges, a.totalUserMessages + b.totalUserMessages,
                     a.totalAiResponses + b.totalAiResponses)
  {
    if h2 == [] {
      assert h1 + h2 == h1;
    } else {
      var init := h2[..|h2| - 1];
      StatisticsOfConcat(h1, init);
      assert (h1 + h2)[..|h1 + h2| - 1] == h1 + init;
    }
  }

  /** The questions of a history, in order. */
  function Questions(history: seq<Login.Exchange>): (r: seq<string>)
    ensures |r| == |history| && forall i :: 0 <= i < |history| ==> r[i] == history[i].message
  {
    seq(|history|, i requires 0 <= i < |history| => history[i].message)
  }

  /** The answers of a history, in order. */
  function Answers(history: seq<Login.Exchange>): (r: seq<string>)
    ensures |r| == |history| && forall i :: 0 <= i < |history| ==> r[i] == history[i].response
  {
    seq(|history|, i requires 0 <= i < |history| => history[i].response)
  }

  /** The two character totals are the summed lengths of all questions and of all answers. */
  lemma {:induction false} StatisticsAreSums(history: seq<Login.Exchange>)
    ensures ChatStatistics(history).totalUserMessages == TotalLength(Questions(history))
    ensures ChatStatistics(history).totalAiResponses == TotalLength(Answers(history))
  {
    if history != [] {
      var init := history[..|history| - 1];
      var e := history[|history| - 1];
      StatisticsAreSums(init);
      assert Questions(history) == Questions(init) + [e.message];
      assert Answers(history) == Answers(init) + [e.response];
      TotalLengthSnoc(Questions(init), e.message);
      TotalLengthSnoc(Answers(init), e.response);
    }
  }

  /** Every message counted is a user message: the user total is zero exactly when every question is empty. */
  lemma {:induction false} UserTotalZeroIff(history: seq<Login.Exchange>)
    ensures ChatStatistics(history).totalUserMessages == 0 <==> forall i :: 0 <= i < |history| ==> history[i].message == ""
  {
    if history != [] {
      var init := history[..|history| - 1];
      UserTotalZeroIff(init);
      assert forall i :: 0 <= i < |init| ==> init[i] == history[i];
    }
  }
}
