/**
  * The answer pipeline of the chatbot service: the off-topic gate, the
  * system prompt, the completion call with its error mapping, response
  * validation with the fallback strings, the keyword router of the
  * multi-agent front, and the context builder over (name, text) pairs.
  *
  * The completion service is a function parameter from (system prompt,
  * user message) to either a reply or the text of the raised exception.
  */
module Chatbot {
  import opened Text
  import opened Settings

  /** The context the builder returns for an empty resource list. */
  const NoDocumentsSentinel := "No documents available for reference."

  const NonDocumentKeywords := ["weather", "cook", "recipe", "movie", "music", "sports",
                                "general knowledge", "trivia", "personal", "private"]

  /** `is_document_related_question`: a non-blank, non-sentinel context and no off-topic keyword in the lowercased message. */
  predicate IsDocumentRelatedQuestion(message: string, context: string) {
    && context != ""
    && Strip(context) != NoDocumentsSentinel
    && !(exists k :: k in NonDocumentKeywords && Contains(Lower(message), k))
  }

  /** Substring matching makes "cookie" hit the keyword "cook": such a question is refused whatever the context. */
  lemma CookieIsOffTopic(context: string)
    ensures !IsDocumentRelatedQuestion("Any cookie offers?", context)
  {
    var m := Lower("Any cookie offers?");
    assert m[4..8] == "cook";
    ContainsIff(m, "cook");
    assert OccursAt(m, "cook", 4);
  }

  /** An empty context, or one that strips to the sentinel, makes every question unrelated. */
  lemma NoContextNoAnswer(message: string, context: string)
    requires context == "" || Strip(context) == NoDocumentsSentinel
    ensures !IsDocumentRelatedQuestion(message, context)
  {
  }

  const PromptHead := "You are a Tech Mahindra AI assistant. Answer questions based on these documents:\n\n"
  const PromptRules := "\n\nRules: Only answer questions about the documents above. If unrelated, say: 'I can only answer questions about the provided documents.' Be concise and professional.\n\nUser: "

  /** `_create_system_prompt(context, user_role)` */
  function SystemPrompt(context: string, role: string): string {
    PromptHead + context + PromptRules + Title(role)
  }

  /** The prompt carries the context verbatim right after the fixed head, and ends with the title-cased role; so it determines the context. */
  lemma PromptEmbedsContext(context: string, role: string, other: string)
    ensures var p := SystemPrompt(context, role);
      && StartsWith(p, PromptHead)
      && OccursAt(p, context, |PromptHead|)
      && EndsWith(p, Title(role))
      && (SystemPrompt(other, role) == p ==> other == context)
  {
    var p := SystemPrompt(context, role);
    assert p[..|PromptHead|] == PromptHead;
    assert p[|PromptHead|..|PromptHead| + |context|] == context;
    assert p[|p| - |Title(role)|..] == Title(role);
    if SystemPrompt(other, role) == p {
      assert |other| == |context|;
      assert other == SystemPrompt(other, role)[|PromptHead|..|PromptHead| + |other|];
    }
  }

  /** The outcome of one completion request. */
  datatype Completion = Reply(content: string) | Raised(error: string)

  const TooLargeMessage := "The request was too large. Please try asking a more specific question about a single document, or contact your administrator to optimize the document processing."
  const ProcessingErrorPrefix := "Sorry, I encountered an error while processing your request: "

  /** The exception branch of `generate_response`. */
  function GenerationErrorMessage(error: string): (r: string)
    ensures Contains(error, "rate_limit_exceeded") || Contains(error, "Request too large") ==> r == TooLargeMessage
    ensures !(Contains(error, "rate_limit_exceeded") || Contains(error, "Request too large")) ==> r == ProcessingErrorPrefix + error
  {
    if Contains(error, "rate_limit_exceeded") || Contains(error, "Request too large") then TooLargeMessage
    else ProcessingErrorPrefix + error
  }

  /** `generate_response`: the reply content, or the mapped error text; it never raises. */
  function GenerateResponse(message: string, context: string, role: string,
                            complete: (string, string) -> Completion): (r: string)
  {
    match complete(SystemPrompt(context, role), message)
    case Reply(c) => c
    case Raised(e) => GenerationErrorMessage(e)
  }

  const ErrorIndicators := ["I cannot", "I don't have", "I'm unable", "I don't know",
                            "I'm not sure", "I cannot provide", "I don't have access"]

  /** `validate_response` as written: no indicator in the lowercased response, and at least 10 characters after stripping. */
  predicate ValidateResponse(response: string) {
    && !(exists k :: k in ErrorIndicators && Contains(Lower(response), k))
    && |Strip(response)| >= 10
  }

  /** Every indicator starts with a capital "I" and is searched in a lowercased string, so validation is the length test alone. */
  lemma ValidateResponseIsLengthTest(response: string)
    ensures ValidateResponse(response) <==> |Strip(response)| >= 10
  {
    assert forall k :: k in ErrorIndicators ==> k != [] && IsUpper(k[0]);
    NoCapitalWordInLowercase(Lower(response), ErrorIndicators);
  }

  /** A lowercased text contains none of the words that start with a capital letter. */
  lemma NoCapitalWordInLowercase(low: string, words: seq<string>)
    requires forall j :: 0 <= j < |low| ==> !IsUpper(low[j])
    requires forall k :: k in words ==> k != [] && IsUpper(k[0])
    ensures !exists k :: k in words && Contains(low, k)
  {
    forall k | k in words ensures !Contains(low, k) {
      NotContainsChar(low, k, 0);
    }
  }

  /** Stripping keeps everything between two non-space characters. */
  lemma StripKeepsBetween(s: string, j: nat, k: nat)
    requires j <= k < |s| && !IsSpace(s[j]) && !IsSpace(s[k])
    ensures |Strip(s)| > k - j
  {
    var l := TrimLeft(s);
    assert |s| - |l| <= j;
    assert l[k - (|s| - |l|)] == s[k];
  }

  /** A mapped completion error always passes validation, so the fallback shows it rather than the "trouble" string. */
  lemma ErrorTextPassesValidation(error: string)
    ensures ValidateResponse(GenerationErrorMessage(error))
  {
    ValidateResponseIsLengthTest(GenerationErrorMessage(error));
    if Contains(error, "rate_limit_exceeded") || Contains(error, "Request too large") {
      TooLargeIsLong();
    } else {
      PrefixedErrorIsLong(error);
    }
  }

  lemma TooLargeIsLong()
    ensures |Strip(TooLargeMessage)| >= 10
  {
    var n := |TooLargeMessage|;
    assert TooLargeMessage[n - 10] == 'r' && TooLargeMessage[n - 1] == '.';
    StripKeepsBetween(TooLargeMessage, n - 10, n - 1);
  }

  lemma PrefixedErrorIsLong(error: string)
    ensures |Strip(ProcessingErrorPrefix + error)| >= 10
  {
    var r := ProcessingErrorPrefix + error;
    var n := |ProcessingErrorPrefix|;
    assert r[n - 11] == ProcessingErrorPrefix[n - 11] == 'r';
    assert r[n - 2] == ProcessingErrorPrefix[n - 2] == ':';
    StripKeepsBetween(r, n - 11, n - 2);
  }

  const RefusalMessage := "I can only answer questions related to the documents I have access to. Please ask me about the content of the provided documents."
  const TroubleMessage := "I'm having trouble processing your question. Please try rephrasing or ask about the documents I have access to."

  /** `get_response_with_fallback` */
  function GetResponseWithFallback(message: string, context: string, role: string,
                                   complete: (string, string) -> Completion): (r: string)
    ensures !IsDocumentRelatedQuestion(message, context) ==> r == RefusalMessage
    ensures IsDocumentRelatedQuestion(message, context) ==>
      r == (if |Strip(GenerateResponse(message, context, role, complete))| >= 10
            then GenerateResponse(message, context, role, complete) else TroubleMessage)
  {
    if !IsDocumentRelatedQuestion(message, context) then RefusalMessage
    else
      var response := GenerateResponse(message, context, role, complete);
      ValidateResponseIsLengthTest(response);
      if !ValidateResponse(response) then TroubleMessage else response
  }

  /** An unrelated question is refused without consulting the completion service: any two services give the same answer. */
  lemma RefusalIgnoresService(message: string, context: string, role: string,
                              f: (string, string) -> Completion, g: (string, string) -> Completion)
    requires !IsDocumentRelatedQuestion(message, context)
    ensures GetResponseWithFallback(message, context, role, f) == GetResponseWithFallback(message, context, role, g) == RefusalMessage
  {
  }

  /** On a related question, a failing completion service surfaces its mapped error message. */
  lemma ServiceErrorIsShown(message: string, context: string, role: string,
                            complete: (string, string) -> Completion)
    requires IsDocumentRelatedQuestion(message, context)
    requires complete(SystemPrompt(context, role), message).Raised?
    ensures GetResponseWithFallback(message, context, role, complete)
         == GenerationErrorMessage(complete(SystemPrompt(context, role), message).error)
  {
    var e := complete(SystemPrompt(context, role), message).error;
    ErrorTextPassesValidation(e);
    ValidateResponseIsLengthTest(GenerationErrorMessage(e));
  }

  // ---------------------------------------------------------------------
  // MultiAgentSystem
  // ---------------------------------------------------------------------

  const TechnicalKeywords := ["network", "connection", "internet", "wifi", "router", "modem",
                              "speed", "slow", "down", "error", "troubleshoot", "technical",
                              "device", "configuration", "settings", "password", "reset"]
  const SalesKeywords := ["plan", "package", "price", "cost", "upgrade", "new service",
                          "product", "offer", "deal", "promotion", "compare", "recommend",
                          "features", "benefits", "contract", "installation"]
  const BillingKeywords := ["bill", "payment", "invoice", "charge", "fee", "cost",
                            "billing", "account", "statement", "due", "overdue"]

  predicate MentionsAny(text: string, keywords: seq<string>) {
    exists k :: k in keywords && Contains(text, k)
  }

  /** `route_message`: the first keyword list that matches the lowercased message, in the order technical, sales, billing. */
  function RouteMessage(message: string): (r: string)
    ensures r in {"technical_support", "sales", "billing", "customer_service"}
    ensures r == "technical_support" <==> MentionsAny(Lower(message), TechnicalKeywords)
    ensures r == "sales" <==> !MentionsAny(Lower(message), TechnicalKeywords) && MentionsAny(Lower(message), SalesKeywords)
    ensures r == "billing" <==>
      !MentionsAny(Lower(message), TechnicalKeywords) && !MentionsAny(Lower(message), SalesKeywords)
      && MentionsAny(Lower(message), BillingKeywords)
    ensures r == "customer_service" <==>
      !MentionsAny(Lower(message), TechnicalKeywords) && !MentionsAny(Lower(message), SalesKeywords)
      && !MentionsAny(Lower(message), BillingKeywords)
  {
    var m := Lower(message);
    if MentionsAny(m, TechnicalKeywords) then "technical_support"
    else if MentionsAny(m, SalesKeywords) then "sales"
    else if MentionsAny(m, BillingKeywords) then "billing"
    else "customer_service"
  }

  /** "cost" is in both the sales and the billing list; sales is tried first, so a cost question never reaches billing. */
  lemma CostRoutesToSales(message: string)
    requires Contains(Lower(message), "cost")
    requires !MentionsAny(Lower(message), TechnicalKeywords)
    ensures RouteMessage(message) == "sales"
    ensures "cost" in BillingKeywords
  {
    assert SalesKeywords[3] == "cost";
  }

  /** `f"Agent Type: {agent_type.replace('_', ' ').title()}\n"` */
  function AgentHeader(agent: string): (r: string)
    ensures StartsWith(r, "Agent Type: ")
  {
    "Agent Type: " + Title(ReplaceChar(agent, '_', ' ')) + "\n"
  }

  /** `get_specialized_response`: the fallback pipeline on the context prefixed with the agent header. */
  function GetSpecializedResponse(message: string, context: string, role: string,
                                  complete: (string, string) -> Completion): string
  {
    GetResponseWithFallback(message, AgentHeader(RouteMessage(message)) + context, role, complete)
  }

  /**
    * With the agent header in front, the context is never empty and never
    * strips to the sentinel, so on this path only the keyword test can
    * refuse a question, even when the caller's context is the sentinel.
    */
  lemma SpecializedSkipsSentinel(message: string, context: string, role: string,
                                 complete: (string, string) -> Completion)
    ensures IsDocumentRelatedQuestion(message, AgentHeader(RouteMessage(message)) + context)
        <==> !MentionsAny(Lower(message), NonDocumentKeywords)
  {
    var enhanced := AgentHeader(RouteMessage(message)) + context;
    assert enhanced[0] == 'A';
    StripKeepsFirst(enhanced);
    assert NoDocumentsSentinel[0] == 'N';
  }

  // ---------------------------------------------------------------------
  // create_context_from_resources
  // ---------------------------------------------------------------------

  /** One `(name, extracted_text)` pair handed to the context builder. */
  datatype Doc = Doc(name: string, text: Option<string>)

  /** `text and len(text.strip()) > 0` */
  predicate Usable(text: Option<string>) {
    text.Some? && HasContent(text.value)
  }

  function Min(a: int, b: int): int { if a <= b then a else b }
  function Max0(a: int): nat { if a >= 0 then a else 0 }

  /** The slice bound: as written, `min(500, remaining - 100)`, which is negative when remaining < 100; intended, never below zero. */
  function SliceBound(remaining: int, intended: bool): int {
    if intended then Min(TextExtractionLimit, Max0(remaining - 100)) else Min(TextExtractionLimit, remaining - 100)
  }

  /**
    * The (name, slice) pairs the builder's loop selects, given the running
    * `total_length`: blank texts are skipped, the loop stops as soon as the
    * remaining budget is not positive, and each text is cut to the slice bound.
    */
  function Select(docs: seq<Doc>, total: int, intended: bool): (r: seq<(string, string)>)
    ensures |r| <= |docs|
  {
    if docs == [] then []
    else if !Usable(docs[0].text) then Select(docs[1..], total, intended)
    else
      var remaining := MaxContextLength - total;
      if remaining <= 0 then []
      else
        var slice := SlicePrefix(docs[0].text.value, SliceBound(remaining, intended));
        [(docs[0].name, slice)] + Select(docs[1..], total + |slice| + |docs[0].name| + 50, intended)
  }

  /** `f"Document: {name}\nContent: {limited_text}..."` */
  function FormatPart(name: string, slice: string): string {
    "Document: " + name + "\nContent: " + slice + "..."
  }

  function Formatted(pairs: seq<(string, string)>): (r: seq<string>)
    ensures |r| == |pairs|
  {
    if pairs == [] then [] else [FormatPart(pairs[0].0, pairs[0].1)] + Formatted(pairs[1..])
  }

  /** `resources[:2]` */
  function FirstTwo(docs: seq<Doc>): (r: seq<Doc>)
    ensures |r| <= 2 && r <= docs
    ensures |docs| >= 2 ==> |r| == 2
    ensures |docs| < 2 ==> r == docs
  {
    if |docs| <= 2 then docs else docs[..2]
  }

  /** The builder's result for a selection rule. */
  function BuildContext(docs: seq<Doc>, intended: bool): string {
    if docs == [] then NoDocumentsSentinel
    else Join(Formatted(Select(FirstTwo(docs), 0, intended)), "\n\n")
  }

  /** `create_context_from_resources`, the loop as written. */
  method CreateContextFromResources(docs: seq<Doc>) returns (r: string)
    ensures r == BuildContext(docs, false)
  {
    if docs == [] {
      return NoDocumentsSentinel;
    }
    var limited := FirstTwo(docs);
    var parts: seq<string> := [];
    ghost var chosen: seq<(string, string)> := [];
    var total: int := 0;
    var i := 0;
    while i < |limited|
      invariant 0 <= i <= |limited|
      invariant Select(limited, 0, false) == chosen + Select(limited[i..], total, false)
      invariant parts == Formatted(chosen)
    {
      var d := limited[i];
      if Usable(d.text) {
        var remaining := MaxContextLength - total;
        if remaining <= 0 {
          SelectStop(limited, i, total, false);
          break;
        }
        var slice := SlicePrefix(d.text.value, Min(TextExtractionLimit, remaining - 100));
        SelectTake(limited, i, total, false);
        FormattedSnoc(chosen, (d.name, slice));
        parts := parts + [FormatPart(d.name, slice)];
        chosen := chosen + [(d.name, slice)];
        total := total + |slice| + |d.name| + 50;
      } else {
        SelectSkip(limited, i, total, false);
      }
      i := i + 1;
    }
    assert Select(limited[i..], total, false) == [];
    assert chosen == Select(limited, 0, false);
    r := Join(parts, "\n\n");
  }

  lemma {:induction false} FormattedSnoc(pairs: seq<(string, string)>, p: (string, string))
    ensures Formatted(pairs + [p]) == Formatted(pairs) + [FormatPart(p.0, p.1)]
  {
    if pairs != [] {
      assert (pairs + [p])[1..] == pairs[1..] + [p];
      FormattedSnoc(pairs[1..], p);
    }
  }

  /** The loop's three steps on `docs[i..]`: skip a blank text, stop on an exhausted budget, or take a slice. */
  lemma SelectSkip(docs: seq<Doc>, i: nat, total: int, intended: bool)
    requires i < |docs| && !Usable(docs[i].text)
    ensures Select(docs[i..], total, intended) == Select(docs[i + 1..], total, intended)
  {
    assert docs[i..][1..] == docs[i + 1..];
  }

  lemma SelectStop(docs: seq<Doc>, i: nat, total: int, intended: bool)
    requires i < |docs| && Usable(docs[i].text) && MaxContextLength - total <= 0
    ensures Select(docs[i..], total, intended) == []
  {
    assert docs[i..][0] == docs[i];
  }

  lemma SelectTake(docs: seq<Doc>, i: nat, total: int, intended: bool)
    requires i < |docs| && Usable(docs[i].text) && MaxContextLength - total > 0
    ensures var slice := SlicePrefix(docs[i].text.value, SliceBound(MaxContextLength - total, intended));
      Select(docs[i..], total, intended)
        == [(docs[i].name, slice)] + Select(docs[i + 1..], total + |slice| + |docs[i].name| + 50, intended)
  {
    assert docs[i..][0] == docs[i] && docs[i..][1..] == docs[i + 1..];
  }

  lemma {:induction false} JoinStartsWithFirst(parts: seq<string>, sep: string)
    requires parts != [] && parts[0] != []
    ensures Join(parts, sep) != [] && Join(parts, sep)[0] == parts[0][0]
  {
  }

  /** The sentinel is returned for the empty list only; a list of blank texts gives "". */
  lemma {:induction false} SentinelOnlyForEmpty(docs: seq<Doc>, intended: bool)
    ensures BuildContext(docs, intended) == NoDocumentsSentinel <==> docs == []
    ensures docs != [] && (forall d :: d in docs ==> !Usable(d.text)) ==> BuildContext(docs, intended) == ""
  {
    if docs != [] {
      var sel := Select(FirstTwo(docs), 0, intended);
      var parts := Formatted(sel);
      if parts != [] {
        assert parts[0][0] == 'D';
        JoinStartsWithFirst(parts, "\n\n");
        assert NoDocumentsSentinel[0] == 'N';
      }
      if forall d :: d in docs ==> !Usable(d.text) {
        SelectSkipsBlank(FirstTwo(docs), 0, intended);
      }
    }
  }

  lemma {:induction false} SelectSkipsBlank(docs: seq<Doc>, total: int, intended: bool)
    requires forall d :: d in docs ==> !Usable(d.text)
    ensures Select(docs, total, intended) == []
  {
    if docs != [] {
      assert docs[0] in docs;
      SelectSkipsBlank(docs[1..], total, intended);
    }
  }

  /** Every selected pair is a usable document's name with a prefix of its text; at most two parts reach the output. */
  lemma {:induction false} SelectShape(docs: seq<Doc>, total: int, intended: bool)
    ensures forall k :: 0 <= k < |Select(docs, total, intended)| ==>
      exists d :: d in docs && Usable(d.text) && Select(docs, total, intended)[k].0 == d.name
                  && Select(docs, total, intended)[k].1 <= d.text.value
    ensures |Select(FirstTwo(docs), total, intended)| <= 2
  {
    if docs == [] {
      return;
    }
    var r := Select(docs, total, intended);
    var remaining := MaxContextLength - total;
    if !Usable(docs[0].text) {
      SelectShape(docs[1..], total, intended);
      assert r == Select(docs[1..], total, intended);
      forall k | 0 <= k < |r|
        ensures exists d :: d in docs && Usable(d.text) && r[k].0 == d.name && r[k].1 <= d.text.value
      {
        var d :| d in docs[1..] && Usable(d.text) && r[k].0 == d.name && r[k].1 <= d.text.value;
        assert d in docs;
      }
    } else if remaining > 0 {
      var slice := SlicePrefix(docs[0].text.value, SliceBound(remaining, intended));
      var rest := Select(docs[1..], total + |slice| + |docs[0].name| + 50, intended);
      SelectShape(docs[1..], total + |slice| + |docs[0].name| + 50, intended);
      assert r == [(docs[0].name, slice)] + rest;
      forall k | 0 <= k < |r|
        ensures exists d :: d in docs && Usable(d.text) && r[k].0 == d.name && r[k].1 <= d.text.value
      {
        if k == 0 {
          assert docs[0] in docs;
        } else {
          assert r[k] == rest[k - 1];
          var d :| d in docs[1..] && Usable(d.text) && rest[k - 1].0 == d.name && rest[k - 1].1 <= d.text.value;
          assert d in docs;
        }
      }
    }
  }

  /** Total number of text characters the selected slices carry. */
  function SliceTotal(pairs: seq<(string, string)>): nat {
    if pairs == [] then 0 else |pairs[0].1| + SliceTotal(pairs[1..])
  }

  /** With the intended bound, every slice is at most 500 characters and all slices together stay within the budget less the 100 reserved characters. */
  lemma {:induction false} IntendedContextWithinBudget(docs: seq<Doc>, total: int)
    requires total >= 0
    ensures SliceTotal(Select(docs, total, true)) <= Max0(MaxContextLength - 100 - total)
    ensures forall p :: p in Select(docs, total, true) ==> |p.1| <= TextExtractionLimit
  {
    if docs != [] {
      if !Usable(docs[0].text) {
        IntendedContextWithinBudget(docs[1..], total);
      } else {
        var remaining := MaxContextLength - total;
        if remaining > 0 {
          var slice := SlicePrefix(docs[0].text.value, SliceBound(remaining, true));
          IntendedContextWithinBudget(docs[1..], total + |slice| + |docs[0].name| + 50);
        }
      }
    }
  }

  /**
    * As written, a second document met with 0 < remaining < 100 is cut by a
    * negative bound, i.e. `text[:-k]`, which keeps all but k characters: a
    * 200-character first name with a 500-character first text leaves 50,
    * and the second text then enters almost whole.
    */
  lemma ContextOverrunsBudget(n1: string, t1: string, n2: string, t2: string)
    requires |n1| == 200 && |t1| >= 500 && HasContent(t1) && HasContent(t2)
    ensures var sel := Select([Doc(n1, Some(t1)), Doc(n2, Some(t2))], 0, false);
      |sel| == 2 && |sel[1].1| == Max0(|t2| - 50)
      && (|t2| > 800 ==> SliceTotal(sel) > MaxContextLength)
  {
    var docs := [Doc(n1, Some(t1)), Doc(n2, Some(t2))];
    assert docs[1..] == [Doc(n2, Some(t2))];
    assert docs[1..][1..] == [];
  }

  /** The corrected builder: the same loop with the slice bound kept at or above zero. */
  function IntendedContext(docs: seq<Doc>): (r: string)
    ensures docs == [] <==> r == NoDocumentsSentinel
  {
    SentinelOnlyForEmpty(docs, true);
    BuildContext(docs, true)
  }
}
