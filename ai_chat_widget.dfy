/** The document chat panel (src/ui/ai_chat_widget.py): the page range
    the question is about, the context text built from those pages, the
    guards that decide whether a question is sent at all, and the clean-up
    of the model's answer. The page texts stand for what the PDF library
    extracts; the model's answer arrives as an event. */
module AIChat {
  import opened Common

  // ---------------------------------------------------------------------
  // The context text

  const MAX_CONTEXT: nat := 4000
  const TRUNCATION_MARK: string := "\n...[truncated]"

  /** The context entry of one page: its 1-based number, then its text. */
  function PagePart(k: nat, text: string): string
  {
    "[Page " + NatToString(k + 1) + "]\n" + text
  }

  /** The entries of the pages `start` to `end` (both included) whose text
      is not blank, in page order. */
  function Parts(pages: seq<string>, start: nat, end: int): seq<string>
    requires end < |pages|
    decreases end - start + 1
  {
    if end < start then []
    else Parts(pages, start, end - 1) + (if IsBlank(pages[end]) then [] else [PagePart(end, pages[end])])
  }

  /** The page loop of `_get_pdf_context`: it visits the pages `start` to
      `end` in order and keeps the entry of each page with text. */
  method CollectParts(pages: seq<string>, start: nat, end: int) returns (parts: seq<string>)
    requires end < |pages|
    ensures parts == Parts(pages, start, end)
  {
    parts := [];
    var k := start;
    while k <= end
      invariant start <= k && (k <= end + 1 || k == start)
      invariant parts == Parts(pages, start, if k <= end + 1 then k - 1 else end)
    {
      assert Parts(pages, start, k) == parts + (if IsBlank(pages[k]) then [] else [PagePart(k, pages[k])]);
      if !IsBlank(pages[k]) {
        parts := parts + [PagePart(k, pages[k])];
      }
      k := k + 1;
    }
  }

  /** `_get_pdf_context` once the range is known: the entries of the
      pages with text, joined by blank lines, cut after 4000 characters. */
  method PdfContext(pages: seq<string>, start: nat, end: int) returns (context: string)
    requires end < |pages|
    ensures context == Truncated(Join(Parts(pages, start, end), "\n\n"))
  {
    var parts := CollectParts(pages, start, end);
    context := Join(parts, "\n\n");
    if |context| > MAX_CONTEXT {
      context := context[..MAX_CONTEXT] + TRUNCATION_MARK;
    }
  }

  /** One string is an entry exactly when it is the entry of a page in
      the range that has text. */
  lemma {:induction false} PartsMember(pages: seq<string>, start: nat, end: int, q: string)
    requires end < |pages|
    ensures q in Parts(pages, start, end) <==>
      exists k :: start <= k <= end && !IsBlank(pages[k]) && q == PagePart(k, pages[k])
    decreases end - start + 1
  {
    if end >= start {
      PartsMember(pages, start, end - 1, q);
      var last := if IsBlank(pages[end]) then [] else [PagePart(end, pages[end])];
      assert Parts(pages, start, end) == Parts(pages, start, end - 1) + last;
      if q in last {
        assert start <= end && !IsBlank(pages[end]) && q == PagePart(end, pages[end]);
      }
      if exists k :: start <= k <= end && !IsBlank(pages[k]) && q == PagePart(k, pages[k]) {
        var k :| start <= k <= end && !IsBlank(pages[k]) && q == PagePart(k, pages[k]);
        if k == end {
          assert q in last;
        }
      }
    }
  }

  /** An entry is there exactly when its page is in the range and has
      text. */
  lemma PartsMeaning(pages: seq<string>, start: nat, end: int)
    requires end < |pages|
    ensures forall q :: q in Parts(pages, start, end) <==>
      exists k :: start <= k <= end && !IsBlank(pages[k]) && q == PagePart(k, pages[k])
  {
    forall q
      ensures q in Parts(pages, start, end) <==>
        exists k :: start <= k <= end && !IsBlank(pages[k]) && q == PagePart(k, pages[k])
    {
      PartsMember(pages, start, end, q);
    }
  }

  /** The context when it is longer than 4000 characters: its first 4000
      and the truncation mark. */
  function Truncated(t: string): (r: string)
    ensures |t| <= MAX_CONTEXT ==> r == t
    ensures |t| > MAX_CONTEXT ==> |r| == MAX_CONTEXT + |TRUNCATION_MARK| && r[..MAX_CONTEXT] == t[..MAX_CONTEXT]
  {
    if |t| > MAX_CONTEXT then t[..MAX_CONTEXT] + TRUNCATION_MARK else t
  }

  /** Truncating a truncated context changes nothing: its first 4000
      characters and the mark are what truncation produces again. */
  lemma TruncatedIdempotent(t: string)
    ensures Truncated(Truncated(t)) == Truncated(t)
    ensures |Truncated(t)| <= MAX_CONTEXT + |TRUNCATION_MARK|
  {
    if |t| > MAX_CONTEXT {
      var r := Truncated(t);
      assert r[..MAX_CONTEXT] == t[..MAX_CONTEXT];
    }
  }

  /** A fitz document is true only when it has pages. */
  predicate HasPages(document: Option<seq<string>>)
  {
    document.Some? && document.value != []
  }

  /** The range of 0-based pages the context covers: every page, or the
      spin boxes' pages made 0-based. */
  function PageRange(pages: seq<string>, allPages: bool, fromPage: int, toPage: int): (nat, int)
    requires 1 <= fromPage && toPage <= |pages|
  {
    if allPages then (0, |pages| - 1) else (fromPage - 1, toPage - 1)
  }

  /** `_get_pdf_context`: empty without a document; otherwise the non-blank
      pages' entries joined by blank lines, truncated. */
  function Context(document: Option<seq<string>>, allPages: bool, fromPage: int, toPage: int): string
    requires HasPages(document) ==> 1 <= fromPage && toPage <= |document.value|
  {
    if !HasPages(document) then ""
    else
      var range := PageRange(document.value, allPages, fromPage, toPage);
      Truncated(Join(Parts(document.value, range.0, range.1), "\n\n"))
  }

  lemma {:induction false} JoinEmpty(parts: seq<string>, sep: string)
    requires sep != []
    ensures Join(parts, sep) == [] <==> (parts == [] || (|parts| == 1 && parts[0] == []))
  {
    if |parts| > 1 {
      assert |Join(parts, sep)| >= |parts[0] + sep|;
    }
  }

  /** The context is empty exactly when there is no document or no page
      in the range has text; in particular a range whose first page comes
      after its last gives an empty context. */
  lemma ContextEmptyIff(document: Option<seq<string>>, allPages: bool, fromPage: int, toPage: int)
    requires HasPages(document) ==> 1 <= fromPage && toPage <= |document.value|
    ensures Context(document, allPages, fromPage, toPage) == "" <==>
      !HasPages(document)
      || (var range := PageRange(document.value, allPages, fromPage, toPage);
          forall k :: range.0 <= k <= range.1 ==> IsBlank(document.value[k]))
    ensures HasPages(document) && !allPages && fromPage > toPage ==> Context(document, allPages, fromPage, toPage) == ""
  {
    if HasPages(document) {
      var pages := document.value;
      var range := PageRange(pages, allPages, fromPage, toPage);
      PartsEmptyIff(pages, range.0, range.1);
      JoinPartsEmpty(pages, range.0, range.1);
      TruncatedEmpty(Join(Parts(pages, range.0, range.1), "\n\n"));
    }
  }

  /** No entry comes out exactly when every page of the range is blank. */
  lemma PartsEmptyIff(pages: seq<string>, start: nat, end: int)
    requires end < |pages|
    ensures Parts(pages, start, end) == [] <==> forall k :: start <= k <= end ==> IsBlank(pages[k])
  {
    var parts := Parts(pages, start, end);
    PartsMeaning(pages, start, end);
    if parts != [] {
      assert parts[0] in parts;
    }
    if exists k :: start <= k <= end && !IsBlank(pages[k]) {
      var k :| start <= k <= end && !IsBlank(pages[k]);
      assert PagePart(k, pages[k]) in parts;
    }
  }

  /** Every entry is non-empty, so the joined entries are empty exactly
      when there are none. */
  lemma JoinPartsEmpty(pages: seq<string>, start: nat, end: int)
    requires end < |pages|
    ensures Join(Parts(pages, start, end), "\n\n") == [] <==> Parts(pages, start, end) == []
  {
    var parts := Parts(pages, start, end);
    JoinEmpty(parts, "\n\n");
    if parts != [] {
      PartsMeaning(pages, start, end);
      assert parts[0] in parts;
      var k :| start <= k <= end && !IsBlank(pages[k]) && parts[0] == PagePart(k, pages[k]);
      assert parts[0][0] == '[';
    }
  }

  /** Truncation leaves a text empty exactly when it was empty. */
  lemma TruncatedEmpty(t: string)
    ensures Truncated(t) == [] <==> t == []
  {
  }

  // ---------------------------------------------------------------------
  // The answer

  /** The answer clean-up: stripped, then cut at the first "[End" and
      stripped, then cut at the first "[end" and stripped. */
  function CleanAnswer(raw: string): string
  {
    CutAt(CutAt(Strip(raw), "[End"), "[end")
  }

  /** One cut: when the marker occurs, what comes before its first
      occurrence, stripped. */
  function CutAt(a: string, marker: string): string
    requires marker != []
  {
    if Contains(a, marker) then Strip(SplitFirst(a, marker)) else a
  }

  /** A cut keeps a piece of the text without the marker, and a text with
      no whitespace at its ends stays so. */
  lemma CutAtShape(a: string, marker: string)
    requires marker != []
    ensures IsInfix(CutAt(a, marker), a) && !Contains(CutAt(a, marker), marker)
    ensures Strip(a) == a ==> Strip(CutAt(a, marker)) == CutAt(a, marker)
  {
    if Contains(a, marker) {
      var c := SplitFirst(a, marker);
      assert IsInfix(c, a) by { assert c == a[0..|c|]; }
      StripInfix(c);
      InfixTrans(Strip(c), c, a);
      InfixLacks(Strip(c), c, marker);
      StripNoSpaceEnds(c);
      StripUnchanged(Strip(c));
    } else {
      assert a == a[0..|a|];
    }
  }

  /** The cleaned answer is a trimmed piece of the raw answer in which
      neither end marker is left. */
  lemma CleanAnswerShape(raw: string)
    ensures var r := CleanAnswer(raw);
      IsInfix(r, raw) && !Contains(r, "[End") && !Contains(r, "[end") && Strip(r) == r
  {
    var a := Strip(raw);
    StripInfix(raw);
    StripNoSpaceEnds(raw);
    StripUnchanged(a);
    var b := CutAt(a, "[End");
    CutAtShape(a, "[End");
    var r := CutAt(b, "[end");
    CutAtShape(b, "[end");
    InfixLacks(r, b, "[End");
    InfixTrans(b, a, raw);
    InfixTrans(r, b, raw);
  }

  /** The prompt handed to the model with the question and its context. */
  function ChatPrompt(context: string, question: string): string
  {
    "Answer the question briefly based on this document. Be concise.\n\nDocument:\n" + context
    + "\n\nQuestion: " + question + "\n\nAnswer:"
  }

  /** What a call of the local model gives: its generated text, or the
      message of the exception it raised. */
  datatype ModelCall = Answered(text: string) | Raised(message: string)

  /** The local model: a prompt and a token budget to a generated text or
      an exception. */
  type ChatModel = (string, nat) -> ModelCall

  const MAX_ANSWER_TOKENS: nat := 150

  /** `ChatThread.run`: the model is asked the prompt for at most 150
      tokens; its text, cleaned, is the response, and an exception is
      passed on by its message. */
  function ChatThreadRun(model: ChatModel, question: string, context: string): (r: ModelCall)
    ensures var call := model(ChatPrompt(context, question), MAX_ANSWER_TOKENS);
      (r.Raised? <==> call.Raised?) && (call.Raised? ==> r == call)
  {
    match model(ChatPrompt(context, question), MAX_ANSWER_TOKENS)
    case Raised(message) => Raised(message)
    case Answered(text) => Answered(CleanAnswer(text))
  }

  /** A response the thread emits is a trimmed piece of what the model
      generated, with neither end marker left in it. */
  lemma ChatResponseShape(model: ChatModel, question: string, context: string)
    ensures var call := model(ChatPrompt(context, question), MAX_ANSWER_TOKENS);
      var r := ChatThreadRun(model, question, context);
      r.Answered? ==> IsInfix(r.text, call.text) && !Contains(r.text, "[End")
                      && !Contains(r.text, "[end") && Strip(r.text) == r.text
  {
    var call := model(ChatPrompt(context, question), MAX_ANSWER_TOKENS);
    if call.Answered? {
      CleanAnswerShape(call.text);
    }
  }

  // ---------------------------------------------------------------------
  // The widget

  datatype ChatMessage = ChatMessage(text: string, isUser: bool)

  const NO_DOCUMENT: string := "Please open a PDF document first."
  const LOAD_FAILED: string := "Failed to load AI model."
  const NO_TEXT: string := "No text found in the selected pages."

  /** What sending a question does: whether the typed question is taken
      out of the input, what the panel says, and the question and context
      handed to the model, if any. */
  datatype SendOutcome = SendOutcome(takesInput: bool, said: seq<ChatMessage>, request: Option<(string, string)>)

  /** The guards of `send_message`, in order: a blank question is
      ignored; without a document the panel says so and keeps the question
      typed; otherwise the question is shown, and when the model is not
      ready or the range has no text the panel says so; else the question
      and the context go to the model. */
  function Sent(question: string, hasDocument: bool, modelReady: bool, context: string): (out: SendOutcome)
    ensures out.request.Some? <==> question != "" && hasDocument && modelReady && context != ""
    ensures out.request.Some? ==> out.request.value == (question, context) && out.said == [ChatMessage(question, true)]
    ensures out.takesInput <==> question != "" && hasDocument
    ensures question == "" ==> out.said == []
    ensures out.takesInput ==> |out.said| >= 1 && out.said[0] == ChatMessage(question, true)
  {
    if question == "" then SendOutcome(false, [], None)
    else if !hasDocument then SendOutcome(false, [ChatMessage(NO_DOCUMENT, false)], None)
    else if !modelReady then SendOutcome(true, [ChatMessage(question, true), ChatMessage(LOAD_FAILED, false)], None)
    else if context == "" then SendOutcome(true, [ChatMessage(question, true), ChatMessage(NO_TEXT, false)], None)
    else SendOutcome(true, [ChatMessage(question, true)], Some((question, context)))
  }

  /** `QSpinBox` keeps its value between its minimum and maximum. */
  function Clamp(v: int, lo: int, hi: int): (r: int)
    requires lo <= hi
    ensures lo <= r <= hi
    ensures lo <= v <= hi ==> r == v
  {
    if v < lo then lo else if v > hi then hi else v
  }

  class AIChatWidget {
    var document: Option<seq<string>>
    var allPages: bool
    var fromPage: int
    var toPage: int
    var pageMax: int
    var spinsEnabled: bool
    var input: string
    var messages: seq<ChatMessage>
    var busy: bool

    /** Both spin boxes run from 1 to the page count of the document (1
        without one), and hold values in that range. */
    predicate Valid()
      reads this
    {
      1 <= pageMax && 1 <= fromPage <= pageMax && 1 <= toPage <= pageMax
      && (HasPages(document) ==> pageMax == |document.value|)
    }

    /** A new panel: no document, "All Pages" chosen, both spin boxes at
        1 and disabled, nothing typed and nothing said. */
    constructor()
      ensures Valid()
      ensures document == None && allPages && fromPage == 1 && toPage == 1 && pageMax == 1
      ensures !spinsEnabled && input == "" && messages == [] && !busy
    {
      document := None;
      allPages := true;
      fromPage := 1;
      toPage := 1;
      pageMax := 1;
      spinsEnabled := false;
      input := "";
      messages := [];
      busy := false;
    }

    /** `_update_range_state`: the spin boxes are enabled exactly when the
        "Pages:" choice is made. */
    method UpdateRangeState()
      requires Valid()
      modifies this
      ensures Valid()
      ensures spinsEnabled == !allPages
      ensures document == old(document) && allPages == old(allPages) && fromPage == old(fromPage)
      ensures toPage == old(toPage) && pageMax == old(pageMax) && input == old(input)
      ensures messages == old(messages) && busy == old(busy)
    {
      spinsEnabled := !allPages;
    }

    /** Choosing between "All Pages" and "Pages:" updates the spin boxes. */
    method ChooseAllPages(all: bool)
      requires Valid()
      modifies this
      ensures Valid()
      ensures allPages == all && spinsEnabled == !all
      ensures document == old(document) && fromPage == old(fromPage) && toPage == old(toPage)
      ensures pageMax == old(pageMax) && input == old(input) && messages == old(messages) && busy == old(busy)
    {
      allPages := all;
      UpdateRangeState();
    }

    /** `set_document`: with pages, both spin boxes run to the page count,
        the first page is kept if it still exists and the last page is the
        document's last; without pages both are back at 1. */
    method SetDocument(doc: Option<seq<string>>)
      requires Valid()
      modifies this
      ensures Valid()
      ensures document == doc
      ensures HasPages(doc) ==>
        pageMax == |doc.value| && fromPage == MinI(old(fromPage), |doc.value|) && toPage == |doc.value|
      ensures !HasPages(doc) ==> pageMax == 1 && fromPage == 1 && toPage == 1
      ensures allPages == old(allPages) && spinsEnabled == old(spinsEnabled)
      ensures input == old(input) && messages == old(messages) && busy == old(busy)
    {
      document := doc;
      if HasPages(doc) {
        var n := |doc.value|;
        pageMax := n;
        fromPage := Clamp(fromPage, 1, n);
        toPage := n;
      } else {
        pageMax := 1;
        fromPage := 1;
        toPage := 1;
      }
    }

    /** The user sets the first or the last page of the range. */
    method SetFromPage(v: int)
      requires Valid()
      modifies this
      ensures Valid()
      ensures fromPage == Clamp(v, 1, pageMax)
      ensures document == old(document) && allPages == old(allPages) && toPage == old(toPage)
      ensures pageMax == old(pageMax) && spinsEnabled == old(spinsEnabled)
      ensures input == old(input) && messages == old(messages) && busy == old(busy)
    {
      fromPage := Clamp(v, 1, pageMax);
    }

    method SetToPage(v: int)
      requires Valid()
      modifies this
      ensures Valid()
      ensures toPage == Clamp(v, 1, pageMax)
      ensures document == old(document) && allPages == old(allPages) && fromPage == old(fromPage)
      ensures pageMax == old(pageMax) && spinsEnabled == old(spinsEnabled)
      ensures input == old(input) && messages == old(messages) && busy == old(busy)
    {
      toPage := Clamp(v, 1, pageMax);
    }

    method SetInput(text: string)
      modifies this
      ensures input == text
      ensures document == old(document) && allPages == old(allPages) && fromPage == old(fromPage)
      ensures toPage == old(toPage) && pageMax == old(pageMax) && spinsEnabled == old(spinsEnabled)
      ensures messages == old(messages) && busy == old(busy)
    {
      input := text;
    }

    /** `_get_pdf_context`: the loop over the range collects exactly the
        entries of the pages with text. */
    method GetPdfContext() returns (context: string)
      requires Valid()
      ensures context == Context(document, allPages, fromPage, toPage)
    {
      if !HasPages(document) {
        return "";
      }
      var range := PageRange(document.value, allPages, fromPage, toPage);
      context := PdfContext(document.value, range.0, range.1);
    }

    /** `send_message`: the question is taken and the panel updated as
        `Sent` says; the range's context comes from the page loop. */
    method SendMessage(modelReady: bool) returns (request: Option<(string, string)>)
      requires Valid()
      modifies this
      ensures Valid()
      ensures document == old(document) && allPages == old(allPages) && fromPage == old(fromPage)
      ensures toPage == old(toPage) && pageMax == old(pageMax) && spinsEnabled == old(spinsEnabled)
      ensures var out := Sent(Strip(old(input)), HasPages(document), modelReady,
                              Context(document, allPages, fromPage, toPage));
        request == out.request
        && input == (if out.takesInput then "" else old(input))
        && messages == old(messages) + out.said
        && busy == (out.request.Some? || old(busy))
    {
      var question := Strip(input);
      var context := "";
      if question != "" && HasPages(document) && modelReady {
        context := GetPdfContext();
      }
      var out := Sent(question, HasPages(document), modelReady, context);
      assert out == Sent(question, HasPages(document), modelReady, Context(document, allPages, fromPage, toPage));
      if out.takesInput {
        input := "";
      }
      messages := messages + out.said;
      busy := out.request.Some? || busy;
      request := out.request;
    }

    /** `_on_response` and `_on_error`: the thread's response, or its
        error, is shown and the panel accepts questions again. */
    method OnResponse(response: string)
      modifies this
      ensures messages == old(messages) + [ChatMessage(response, false)] && !busy
      ensures document == old(document) && allPages == old(allPages) && fromPage == old(fromPage)
      ensures toPage == old(toPage) && pageMax == old(pageMax) && spinsEnabled == old(spinsEnabled)
      ensures input == old(input)
    {
      messages := messages + [ChatMessage(response, false)];
      busy := false;
    }

    method OnError(error: string)
      modifies this
      ensures messages == old(messages) + [ChatMessage("Error: " + error, false)] && !busy
      ensures document == old(document) && allPages == old(allPages) && fromPage == old(fromPage)
      ensures toPage == old(toPage) && pageMax == old(pageMax) && spinsEnabled == old(spinsEnabled)
      ensures input == old(input)
    {
      messages := messages + [ChatMessage("Error: " + error, false)];
      busy := false;
    }

    /** `clear_chat`: every bubble is removed; a request under way is not
        cancelled. */
    method ClearChat()
      modifies this
      ensures messages == [] && busy == old(busy)
      ensures document == old(document) && allPages == old(allPages) && fromPage == old(fromPage)
      ensures toPage == old(toPage) && pageMax == old(pageMax) && spinsEnabled == old(spinsEnabled)
      ensures input == old(input)
    {
      messages := [];
    }
  }
}
