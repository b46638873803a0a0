/**
  * The user dashboard's own reply path. Unlike the chat page it asks the
  * vector store first and uses the documents only as a fallback, cuts each
  * document to 500 characters, sends the short system prompt, turns some
  * exception texts into fixed messages and saves nothing to the chat table.
  * Its access board is the chat page's matrix (`ChatInterface.MatrixOf`,
  * `ChatInterface.AccessCell`, `ChatInterface.TotalAccess`).
  */
module UserDashboard {
  import opened Text
  import opened Store
  import Login
  import Chatbot
  import VectorIndex
  import ChatInterface

  /** How many characters of each document the fallback context keeps. */
  const FallbackTextLimit := 500

  const InvalidKeyMessage := "❌ Invalid API key. Please check your Groq API key in the configuration section."
  const RateLimitMessage := "⚠️ Rate limit exceeded. Please try again in a moment."

  /**
    * The dashboard's context: the vector text when the service answered with
    * something other than its two fixed strings; otherwise (and when the
    * service could not be created) the readable documents.
    */
  function DashboardContext(rs: seq<Resource>, vector: ChatInterface.VectorLookup): string {
    match vector
    case VectorUnavailable => ChatInterface.DocumentContext(rs, FallbackTextLimit)
    case VectorReady(outcome) =>
      var found := VectorIndex.RelevantContext(outcome);
      if found == VectorIndex.NoRelevantDocuments || found == VectorIndex.RetrievalError
      then ChatInterface.DocumentContext(rs, FallbackTextLimit)
      else found
  }

  /**
    * A vector hit replaces the documents outright, whatever the user may
    * read; an empty hit list, a failed query and an unavailable service all
    * fall back to the documents.
    */
  lemma DashboardContextCases(rs: seq<Resource>, others: seq<Resource>, vector: ChatInterface.VectorLookup, doc: string)
    ensures (|| vector.VectorUnavailable?
             || vector == ChatInterface.VectorReady(VectorIndex.QueryRaised)
             || vector == ChatInterface.VectorReady(VectorIndex.Hits([]))) ==>
      DashboardContext(rs, vector) == ChatInterface.DocumentContext(rs, FallbackTextLimit)
    ensures doc != VectorIndex.NoRelevantDocuments && doc != VectorIndex.RetrievalError ==>
      var hit := ChatInterface.VectorReady(VectorIndex.Hits([doc]));
      DashboardContext(rs, hit) == doc && DashboardContext(others, hit) == doc
  {
  }

  /** The fallback context of a user with no readable resource is the sentinel, and a blank hit empties the context. */
  lemma BlankHitEmptiesContext(rs: seq<Resource>)
    ensures DashboardContext(rs, ChatInterface.VectorReady(VectorIndex.Hits([""]))) == ""
    ensures DashboardContext([], ChatInterface.VectorUnavailable) == Chatbot.NoDocumentsSentinel
  {
    assert VectorIndex.RelevantContext(VectorIndex.Hits([""])) == "";
    ChatInterface.DocumentContextCases([], FallbackTextLimit);
  }

  /**
    * The exception handler: a text naming an invalid key or a 401 first,
    * then "rate limit" in any letter case, then the generic error line.
    */
  function ErrorReply(error: string): (r: string)
    ensures Contains(error, "Invalid API Key") || Contains(error, "401") ==> r == InvalidKeyMessage
    ensures !Contains(error, "Invalid API Key") && !Contains(error, "401") && Contains(Lower(error), "rate limit") ==>
      r == RateLimitMessage
    ensures !Contains(error, "Invalid API Key") && !Contains(error, "401") && !Contains(Lower(error), "rate limit") ==>
      r == ChatInterface.ChatReply(Chatbot.Raised(error))
  {
    if Contains(error, "Invalid API Key") || Contains(error, "401") then InvalidKeyMessage
    else if Contains(Lower(error), "rate limit") then RateLimitMessage
    else ChatInterface.ErrorReplyPrefix + error
  }

  /**
    * The key test comes first and is case-sensitive; the rate-limit test is
    * not: a 401 that mentions a rate limit is reported as a bad key, "Rate
    * Limit" with capitals is a rate limit, and a lower-case "invalid api key"
    * gets the generic error line.
    */
  lemma KeyTestComesFirst()
    ensures ErrorReply("401 rate limit") == InvalidKeyMessage
  {
    var a := "401 rate limit";
    assert a[..3] == "401";
    assert OccursAt(a, "401", 0);
    ContainsIff(a, "401");
  }

  lemma RateLimitIgnoresCase()
    ensures ErrorReply("Rate Limit") == RateLimitMessage
  {
    RateLimitNamesNoKey();
    RateLimitFound();
  }

  lemma RateLimitNamesNoKey()
    ensures !Contains("Rate Limit", "Invalid API Key") && !Contains("Rate Limit", "401")
  {
    var b := "Rate Limit";
    assert forall i :: 0 <= i < |b| ==> b[i] == ' ' || 'L' <= b[i] <= 'R' || 'a' <= b[i] <= 't';
    assert "Invalid API Key"[0] == 'I';
    NotContainsChar(b, "Invalid API Key", 0);
    assert "401"[0] == '4';
    NotContainsChar(b, "401", 0);
  }

  lemma RateLimitFound()
    ensures Contains(Lower("Rate Limit"), "rate limit")
  {
    LowerRateLimit();
    assert OccursAt("rate limit", "rate limit", 0);
    ContainsIff("rate limit", "rate limit");
  }

  lemma LowerRateLimit()
    ensures Lower("Rate Limit") == "rate limit"
  {
    var b := "Rate Limit";
    var lb := Lower(b);
    assert LowerChar('R') == 'r' && LowerChar('L') == 'l';
    forall i | 0 <= i < |b| ensures lb[i] == "rate limit"[i] {
      if b[i] != 'R' && b[i] != 'L' {
        assert !IsUpper(b[i]);
      }
    }
  }

  lemma KeyTestIsCaseSensitive()
    ensures ErrorReply("invalid api key") == ChatInterface.ErrorReplyPrefix + "invalid api key"
  {
    var c := "invalid api key";
    assert forall i :: 0 <= i < |c| ==> c[i] == ' ' || 'a' <= c[i] <= 'q' || 'v' <= c[i] <= 'y';
    assert "Invalid API Key"[0] == 'I';
    NotContainsChar(c, "Invalid API Key", 0);
    assert "401"[0] == '4';
    NotContainsChar(c, "401", 0);
    LowerKeeps(c);
    assert "rate limit"[0] == 'r';
    NotContainsChar(c, "rate limit", 0);
  }

  /** The reply for one completion outcome. */
  function DashboardReply(outcome: Chatbot.Completion): string {
    match outcome
    case Reply(content) => content
    case Raised(error) => ErrorReply(error)
  }

  /**
    * `get_chatbot_response` on the dashboard: the configuration message
    * without a key; otherwise the reply to the short system prompt over
    * the dashboard's context. The database is only read.
    */
  method GetChatbotResponse(db: Database, session: Login.Session, apiKey: string, message: string, userId: int,
                            vector: ChatInterface.VectorLookup, complete: (string, string) -> Chatbot.Completion)
    returns (reply: string)
    ensures apiKey == "" ==> reply == ChatInterface.ApiKeyMissing
    ensures apiKey != "" ==>
      var rs := AccessibleResources(db.users, db.resources, db.permissions, userId);
      reply == DashboardReply(complete(Chatbot.SystemPrompt(DashboardContext(rs, vector), session.GetUserRole()), message))
  {
    if apiKey == "" {
      return ChatInterface.ApiKeyMissing;
    }
    var role := session.GetUserRole();
    var rs := AccessibleResources(db.users, db.resources, db.permissions, userId);
    var context: string;
    match vector {
      case VectorUnavailable =>
        context := ChatInterface.BuildDocumentContext(rs, FallbackTextLimit);
      case VectorReady(outcome) =>
        context := VectorIndex.RelevantContext(outcome);
        if context == VectorIndex.NoRelevantDocuments || context == VectorIndex.RetrievalError {
          context := ChatInterface.BuildDocumentContext(rs, FallbackTextLimit);
        }
    }
    reply := DashboardReply(complete(Chatbot.SystemPrompt(context, role), message));
  }

  /** The send button: a non-empty question appends (question, reply) to the session history; nothing is saved to the database. */
  method SendMessage(db: Database, session: Login.Session, apiKey: string, message: string,
                     vector: ChatInterface.VectorLookup, complete: (string, string) -> Chatbot.Completion)
    requires session.currentUser.Some?
    modifies session
    ensures message == "" ==> unchanged(session)
    ensures message != "" ==>
      var rs := AccessibleResources(db.users, db.resources, db.permissions, old(session.currentUser).value.id);
      var reply := if apiKey == "" then ChatInterface.ApiKeyMissing
                   else DashboardReply(complete(Chatbot.SystemPrompt(DashboardContext(rs, vector), old(session.GetUserRole())), message));
      session.chatHistory == old(session.chatHistory) + [Login.Exchange(message, reply)]
    ensures session.authenticated == old(session.authenticated) && session.currentUser == old(session.currentUser)
    ensures session.userRole == old(session.userRole)
  {
    if message == "" {
      return;
    }
    var reply := GetChatbotResponse(db, session, apiKey, message, session.currentUser.value.id, vector, complete);
    session.chatHistory := session.chatHistory + [Login.Exchange(message, reply)];
  }

  /** The "chars" column of the document list: the text's length when it has a non-blank character, 0 otherwise. */
  function ShownLength(text: Option<string>): (n: nat)
    ensures n > 0 <==> Chatbot.Usable(text)
    ensures Chatbot.Usable(text) ==> n == |text.value|
  {
    if Chatbot.Usable(text) then |text.value| else 0
  }
}
