/** The on-device translation service (src/core/translation_service.py):
    the filters that decide which text is worth sending to the language
    model and which of its answers to keep, the clean-up of the model's
    raw answer, the translation of one text and of a list of text blocks,
    and the service's loaded/loading flags and document context.

    The language model itself is a parameter: a function from the prompt
    and the token budget to the answer text, or None when inference (or
    reading the answer out of the response) raises. */
module Translation {
  import opened Common
  import opened Values

  // ---------------------------------------------------------------------
  // Languages

  /** `SUPPORTED_LANGUAGES`: language code to English name. */
  const SUPPORTED_LANGUAGES: map<string, string> := map[
    "en" := "English", "es" := "Spanish", "fr" := "French", "de" := "German",
    "it" := "Italian", "pt" := "Portuguese", "nl" := "Dutch", "ru" := "Russian",
    "zh" := "Chinese", "ja" := "Japanese", "ko" := "Korean", "ar" := "Arabic",
    "hi" := "Hindi", "tr" := "Turkish", "pl" := "Polish", "vi" := "Vietnamese",
    "th" := "Thai", "id" := "Indonesian", "sv" := "Swedish", "da" := "Danish",
    "no" := "Norwegian", "fi" := "Finnish", "cs" := "Czech", "el" := "Greek",
    "he" := "Hebrew", "uk" := "Ukrainian", "ro" := "Romanian", "hu" := "Hungarian",
    "bg" := "Bulgarian", "ms" := "Malay"]

  /** The name a prompt uses for a target code: its English name when the
      code is supported, otherwise the code itself. */
  function LanguageName(code: string): string
  {
    if code in SUPPORTED_LANGUAGES then SUPPORTED_LANGUAGES[code] else code
  }

  /** `get_supported_languages`: a copy of the map, which as a value is the
      map itself; it is the map the prompts take their language names
      from, and any code outside it names itself. */
  function SupportedLanguages(): (m: map<string, string>)
    ensures forall code :: code in m ==> LanguageName(code) == m[code]
    ensures forall code :: code !in m ==> LanguageName(code) == code
    ensures "en" in m && m["en"] == "English" && "ms" in m && m["ms"] == "Malay"
  {
    SUPPORTED_LANGUAGES
  }

  // ---------------------------------------------------------------------
  // Character classes

  /** Approximates `str.isalpha`: the ASCII letters, and every character
      from U+00C0 on that is neither whitespace, the multiplication or
      division sign, nor in the General Punctuation block. Other non-ASCII
      punctuation, symbols and digits count as letters here. */
  predicate IsLetter(c: char)
  {
    IsAlpha(c)
    || (c as int >= 0xC0 && !IsSpace(c) && c != '×' && c != '÷'
        && !(0x2000 <= c as int <= 0x206F))
  }

  /** Approximates `str.isprintable`: not a control character, and not
      whitespace other than the ordinary space. Format characters and
      unassigned code points count as printable here. */
  predicate IsPrintable(c: char)
  {
    var k := c as int;
    !(k < 0x20 || 0x7F <= k <= 0x9F) && (c == ' ' || !IsSpace(c))
  }

  /** The characters besides digits that make a text "only a number". */
  const NUMERIC_PUNCTUATION: string := ".,;:/-() "

  function LetterCount(s: string): (n: nat)
    ensures n <= |s|
  {
    if s == [] then 0 else (if IsLetter(s[0]) then 1 else 0) + LetterCount(s[1..])
  }

  lemma {:induction false} LetterCountPositive(s: string)
    ensures LetterCount(s) > 0 <==> exists i :: 0 <= i < |s| && IsLetter(s[i])
  {
    if s != [] {
      LetterCountPositive(s[1..]);
      if exists i :: 0 <= i < |s| && IsLetter(s[i]) {
        var i :| 0 <= i < |s| && IsLetter(s[i]);
        if i > 0 { assert s[1..][i - 1] == s[i]; }
      }
      if exists i :: 0 <= i < |s| - 1 && IsLetter(s[1..][i]) {
        var i :| 0 <= i < |s| - 1 && IsLetter(s[1..][i]);
        assert s[i + 1] == s[1..][i];
      }
    }
  }

  // ---------------------------------------------------------------------
  // What is worth translating

  /** `_should_skip_translation`, rule by rule: empty, blank, a single
      character, only digits and number punctuation, no letter, or fewer
      than two letters. Digits are the ASCII ones, where `str.isdigit` also
      takes the digits of other scripts. */
  predicate ShouldSkip(text: string)
  {
    if text == [] then true
    else
      var s := Strip(text);
      if s == [] then true
      else if |s| <= 1 then true
      else if forall i :: 0 <= i < |s| ==> IsDigit(s[i]) || s[i] in NUMERIC_PUNCTUATION then true
      else if !(exists i :: 0 <= i < |s| && IsLetter(s[i])) then true
      else LetterCount(s) < 2
  }

  /** The skip rules come down to the last one: a text is skipped exactly
      when its stripped form holds fewer than two letters. The earlier
      rules only catch cases the letter count catches anyway. */
  lemma ShouldSkipIffFewLetters(text: string)
    ensures ShouldSkip(text) <==> LetterCount(Strip(text)) < 2
  {
    var s := Strip(text);
    if LetterCount(s) >= 2 {
      LetterCountPositive(s);
      var i :| 0 <= i < |s| && IsLetter(s[i]);
      assert !(IsDigit(s[i]) || s[i] in NUMERIC_PUNCTUATION);
      assert text != [] by { assert Strip([]) == []; }
    }
  }

  // ---------------------------------------------------------------------
  // Which answers to keep

  /** Texts that give away an answer which is not a bare translation. */
  const ARTIFACTS: seq<string> := ["translation:", "here is", "```", "###", "**"]

  function PrintableCount(s: string): (n: nat)
    ensures n <= |s|
  {
    if s == [] then 0 else (if IsPrintable(s[0]) then 1 else 0) + PrintableCount(s[1..])
  }

  /** Some character other than a space, newline or tab fills more than
      half of the text. */
  predicate Repetitive(t: string)
  {
    exists i :: 0 <= i < |t| && t[i] !in " \n\t" && 2 * multiset(t)[t[i]] > |t|
  }

  predicate HasArtifact(lower: string)
  {
    exists k :: 0 <= k < |ARTIFACTS| && Contains(lower, ARTIFACTS[k])
  }

  /** `_is_valid_translation`: a blank answer, one more than four times as
      long as the original, a repetitive one, one holding an artifact (case
      does not matter), or one less than 90% printable is rejected. */
  predicate IsValidTranslation(translated: string, original: string)
  {
    if translated == [] || IsBlank(translated) then false
    else
      var t := Strip(translated);
      if |t| > |original| * 4 then false
      else if Repetitive(t) then false
      else if HasArtifact(Lower(t)) then false
      else 10 * PrintableCount(t) >= 9 * |t|
  }

  /** Text with no whitespace at either end. */
  predicate Trimmed(s: string)
  {
    s == [] || (!IsSpace(s[0]) && !IsSpace(s[|s| - 1]))
  }

  lemma StripTrimmed(s: string)
    ensures Trimmed(Strip(s)) && Strip(Strip(s)) == Strip(s)
  {
    StripNoSpaceEnds(s);
    StripUnchanged(Strip(s));
  }

  /** Whitespace around an answer never decides whether it is kept. */
  lemma ValidIgnoresSurroundingSpace(translated: string, original: string)
    ensures IsValidTranslation(translated, original) == IsValidTranslation(Strip(translated), original)
  {
    StripTrimmed(translated);
    if translated == [] {
      assert Strip(translated) == [];
    }
  }

  /** Nothing is a valid translation of the empty text: every kept answer
      is non-blank and at most four times as long as the original. */
  lemma KeptAnswerBounded(translated: string, original: string)
    requires IsValidTranslation(translated, original)
    ensures 0 < |Strip(translated)| <= 4 * |original|
    ensures original != []
  {
  }

  lemma {:induction false} RepeatedCount(c: char, n: nat)
    ensures multiset(seq(n, _ => c))[c] == n
  {
    if n > 0 {
      var t := seq(n, _ => c);
      assert t == seq(n - 1, _ => c) + [c];
      RepeatedCount(c, n - 1);
    }
  }

  /** An answer that is one visible character repeated is always
      rejected, whatever the original. */
  lemma RepeatedCharRejected(c: char, n: nat, original: string)
    requires n >= 1 && !IsSpace(c)
    ensures !IsValidTranslation(seq(n, _ => c), original)
  {
    var t := seq(n, _ => c);
    assert t[0] == c && t[n - 1] == c;
    StripUnchanged(t);
    RepeatedCount(c, n);
    assert c !in " \n\t";
    if |t| <= |original| * 4 {
      assert Repetitive(t) by { assert t[0] !in " \n\t" && 2 * multiset(t)[t[0]] > |t|; }
    }
  }

  // ---------------------------------------------------------------------
  // Cleaning the model's answer

  /** Labels a model may put before its answer, removed in this order. */
  const LABELS: seq<string> := ["translation:", "translated:", "answer:", "output:"]

  /** One matching pair of wrapping quotes removed, and the inside
      stripped. */
  function Unquoted(t: string): string
  {
    if |t| >= 2 && ((t[0] == '"' && t[|t| - 1] == '"') || (t[0] == '\'' && t[|t| - 1] == '\'')) then
      Strip(t[1..|t| - 1])
    else t
  }

  /** The label loop: each label in turn, when the text starts with it in
      any case, is cut off and the rest stripped. */
  function WithoutLabels(t: string, labels: seq<string>): string
    decreases |labels|
  {
    if labels == [] then t else WithoutLabels(LabelCut(t, labels[0]), labels[1..])
  }

  /** One round of the label loop. */
  function LabelCut(t: string, prefix: string): string
  {
    if StartsWith(Lower(t), prefix) then Strip(t[|prefix|..]) else t
  }

  /** `_clean_output`: the empty answer as it is; otherwise stripped,
      unquoted once and freed of the labels. */
  function CleanOutput(text: string): string
  {
    if text == [] then text else WithoutLabels(Unquoted(Strip(text)), LABELS)
  }

  lemma UnquotedShape(t: string)
    requires Trimmed(t)
    ensures Trimmed(Unquoted(t)) && IsInfix(Unquoted(t), t)
  {
    if Unquoted(t) != t {
      var inner := t[1..|t| - 1];
      StripTrimmed(inner);
      StripInfix(inner);
      assert IsInfix(inner, t) by { assert inner == t[1..|t| - 1]; }
      InfixTrans(Unquoted(t), inner, t);
    } else {
      assert t == t[0..|t|];
    }
  }

  lemma LabelCutShape(t: string, prefix: string)
    requires Trimmed(t)
    ensures Trimmed(LabelCut(t, prefix)) && IsInfix(LabelCut(t, prefix), t)
  {
    if StartsWith(Lower(t), prefix) {
      SuffixStripShape(t, |prefix|);
    } else {
      assert t == t[0..|t|];
    }
  }

  /** Stripping what is left after a cut gives trimmed text from the
      middle of the original. */
  lemma SuffixStripShape(t: string, k: nat)
    requires k <= |t|
    ensures Trimmed(Strip(t[k..])) && IsInfix(Strip(t[k..]), t)
  {
    StripNoSpaceEnds(t[k..]);
    StripInfix(t[k..]);
    SuffixInfix(t, k, Strip(t[k..]));
  }

  lemma SuffixInfix(t: string, k: nat, r: string)
    requires k <= |t| && IsInfix(r, t[k..])
    ensures IsInfix(r, t)
  {
    var i, j :| 0 <= i <= j <= |t| - k && r == t[k..][i..j];
    assert r == t[k + i..k + j];
  }

  lemma {:induction false} WithoutLabelsShape(t: string, labels: seq<string>)
    requires Trimmed(t)
    ensures Trimmed(WithoutLabels(t, labels)) && IsInfix(WithoutLabels(t, labels), t)
    decreases |labels|
  {
    if labels == [] {
      assert t == t[0..|t|];
    } else {
      var next := LabelCut(t, labels[0]);
      LabelCutShape(t, labels[0]);
      WithoutLabelsShape(next, labels[1..]);
      InfixTrans(WithoutLabels(next, labels[1..]), next, t);
    }
  }

  /** Cleaning only ever cuts from the ends: the cleaned answer is a
      contiguous piece of the raw answer, with no whitespace left at either
      end, and cleaning it again strips nothing more. */
  lemma CleanOutputShape(text: string)
    ensures IsInfix(CleanOutput(text), text)
    ensures Trimmed(CleanOutput(text)) && Strip(CleanOutput(text)) == CleanOutput(text)
  {
    if text == [] {
      assert text == text[0..0];
    } else {
      var s := Strip(text);
      StripTrimmed(text);
      StripInfix(text);
      UnquotedShape(s);
      InfixTrans(Unquoted(s), s, text);
      WithoutLabelsShape(Unquoted(s), LABELS);
      InfixTrans(CleanOutput(text), Unquoted(s), text);
    }
    StripUnchanged(CleanOutput(text));
  }

  // ---------------------------------------------------------------------
  // Translating

  /** The language model: given the prompt and the token budget, the text
      of its first choice, or None when the call raises. */
  type Model = (string, nat) -> Option<string>

  function Prompt(text: string, target: string): string
  {
    "Translate to " + LanguageName(target) + ": " + Strip(text) + "\n\nTranslation:"
  }

  /** The token budget: three per character of the text, at most 200. */
  function MaxTokens(text: string): nat
  {
    MinI(|text| * 3, 200)
  }

  /** `translate_text`: raises when the model is not loaded; otherwise
      the text itself when it is not worth translating, when inference
      fails or when the cleaned answer is rejected, and the cleaned answer
      when it is kept. */
  function Translate(loaded: bool, text: string, target: string, model: Model): (r: Result<string>)
    ensures r.Err? <==> !loaded
    ensures r.Err? ==> r.error == RuntimeError
    ensures loaded && ShouldSkip(text) ==> r == Ok(text)
    ensures r.Ok? && r.value != text ==>
      !ShouldSkip(text)
      && model(Prompt(text, target), MaxTokens(text)).Some?
      && r.value == CleanOutput(model(Prompt(text, target), MaxTokens(text)).value)
      && IsValidTranslation(r.value, text)
  {
    if !loaded then Err(RuntimeError)
    else if ShouldSkip(text) then Ok(text)
    else
      match model(Prompt(text, target), MaxTokens(text))
      case None => Ok(text)
      case Some(raw) =>
        var translated := CleanOutput(raw);
        if IsValidTranslation(translated, text) then Ok(translated) else Ok(text)
  }

  /** A translation that replaces the text is a trimmed piece of the
      model's answer, non-empty and at most four times the text's length. */
  lemma TranslationFromAnswer(loaded: bool, text: string, target: string, model: Model)
    requires Translate(loaded, text, target, model).Ok?
    ensures var r := Translate(loaded, text, target, model).value;
      r != text ==>
        var raw := model(Prompt(text, target), MaxTokens(text)).value;
        IsInfix(r, raw) && Trimmed(r) && 0 < |r| <= 4 * |text|
  {
    var r := Translate(loaded, text, target, model).value;
    if r != text {
      var raw := model(Prompt(text, target), MaxTokens(text)).value;
      CleanOutputShape(raw);
      KeptAnswerBounded(r, text);
    }
  }

  /** One block of `translate_text_blocks`: a copy of the block whose
      non-blank 'text' is translated. A 'text' that is not a string has no
      `strip` and raises AttributeError. */
  function TranslateBlock(loaded: bool, block: Dict, target: string, model: Model): (r: Result<Dict>)
    ensures r.Err? <==>
      (Get(block, "text").Some? && !Get(block, "text").value.VStr?)
      || (Get(block, "text").Some? && Get(block, "text").value.VStr?
          && !IsBlank(Get(block, "text").value.s) && !loaded)
    ensures r.Ok? ==> Keys(r.value) == Keys(block)
    ensures r.Ok? && (Get(block, "text").None? || IsBlank(Get(block, "text").value.s)) ==> r.value == block
    ensures r.Ok? && Get(block, "text").Some? && !IsBlank(Get(block, "text").value.s) ==>
      Translate(loaded, Get(block, "text").value.s, target, model).Ok?
      && Get(r.value, "text") == Some(VStr(Translate(loaded, Get(block, "text").value.s, target, model).value))
  {
    match Get(block, "text")
    case None => Ok(block)
    case Some(v) =>
      if !v.VStr? then Err(AttributeError)
      else if IsBlank(v.s) then
        assert ShouldSkip(v.s);
        Ok(block)
      else
        match Translate(loaded, v.s, target, model)
        case Err(e) => Err(e)
        case Ok(t) =>
          GetSomeHasKey(block, "text");
          KeysPutExisting(block, "text", VStr(t));
          GetPutSame(block, "text", VStr(t));
          Ok(Put(block, "text", VStr(t)))
  }

  lemma {:induction false} GetSomeHasKey(d: Dict, k: string)
    requires Get(d, k).Some?
    ensures HasKey(d, k)
  {
    if d[0].0 != k {
      GetSomeHasKey(d[1..], k);
    }
  }

  /** `translate_text_blocks`: the blocks translated one by one, in order;
      the first block that raises ends the whole call. */
  function TranslatedBlocks(loaded: bool, blocks: seq<Dict>, target: string, model: Model): Result<seq<Dict>>
  {
    if blocks == [] then Ok([])
    else
      var done :- TranslatedBlocks(loaded, blocks[..|blocks| - 1], target, model);
      var last :- TranslateBlock(loaded, blocks[|blocks| - 1], target, model);
      Ok(done + [last])
  }

  /** A successful call returns one block per input block, each the
      input's own translation; so only non-blank 'text' values change and
      every block keeps its keys. */
  lemma {:induction false} TranslatedBlocksPointwise(loaded: bool, blocks: seq<Dict>, target: string, model: Model)
    requires TranslatedBlocks(loaded, blocks, target, model).Ok?
    ensures var r := TranslatedBlocks(loaded, blocks, target, model).value;
      |r| == |blocks|
      && forall i :: 0 <= i < |blocks| ==> TranslateBlock(loaded, blocks[i], target, model) == Ok(r[i])
  {
    if blocks != [] {
      var front := blocks[..|blocks| - 1];
      TranslatedBlocksPointwise(loaded, front, target, model);
      var r := TranslatedBlocks(loaded, blocks, target, model).value;
      var done := TranslatedBlocks(loaded, front, target, model).value;
      forall i | 0 <= i < |blocks|
        ensures TranslateBlock(loaded, blocks[i], target, model) == Ok(r[i])
      {
        if i < |blocks| - 1 {
          assert blocks[i] == front[i] && r[i] == done[i];
        }
      }
    }
  }

  /** With the model loaded and every 'text' a string, translating blocks
      never fails. */
  lemma {:induction false} LoadedBlocksSucceed(blocks: seq<Dict>, target: string, model: Model)
    requires forall i :: 0 <= i < |blocks| && Get(blocks[i], "text").Some? ==> Get(blocks[i], "text").value.VStr?
    ensures TranslatedBlocks(true, blocks, target, model).Ok?
  {
    if blocks != [] {
      var front := blocks[..|blocks| - 1];
      assert forall i :: 0 <= i < |front| ==> front[i] == blocks[i];
      LoadedBlocksSucceed(front, target, model);
      assert TranslateBlock(true, blocks[|blocks| - 1], target, model).Ok?;
    }
  }

  /** Once a prefix of the blocks fails, the whole call fails the same
      way. */
  lemma {:induction false} FailureSticks(loaded: bool, blocks: seq<Dict>, n: nat, target: string, model: Model)
    requires n <= |blocks| && TranslatedBlocks(loaded, blocks[..n], target, model).Err?
    ensures TranslatedBlocks(loaded, blocks, target, model) == TranslatedBlocks(loaded, blocks[..n], target, model)
    decreases |blocks| - n
  {
    if n < |blocks| {
      assert blocks[..n + 1][..n] == blocks[..n];
      FailureSticks(loaded, blocks, n + 1, target, model);
    } else {
      assert blocks[..n] == blocks;
    }
  }

  // ---------------------------------------------------------------------
  // The service

  /** What happens when the service tries to load the model: it is
      loaded, the download fails with the message the downloader left, the
      inference library is missing, or loading raises with a message. */
  datatype LoadOutcome = Loaded | DownloadFailed(message: string) | LibraryMissing | LoadFailed(message: string)

  const LIBRARY_MISSING: string := "llama-cpp-python not installed. Run: pip install llama-cpp-python"

  class TranslationService {
    var modelLoaded: bool
    var loading: bool
    var loadError: Option<string>
    var documentContext: Option<string>

    /** A loaded model is not being loaded. */
    predicate Valid()
      reads this
    {
      modelLoaded ==> !loading
    }

    constructor()
      ensures !modelLoaded && !loading && loadError == None && documentContext == None
      ensures Valid()
    {
      modelLoaded := false;
      loading := false;
      loadError := None;
      documentContext := None;
    }

    /** `load_model`: True at once when already loaded, False at once while
      another load is in progress; otherwise the outcome decides, the
      in-progress flag is cleared again, and a failure leaves its message. */
    method LoadModel(outcome: LoadOutcome) returns (ok: bool)
      requires Valid()
      modifies this
      ensures Valid()
      ensures documentContext == old(documentContext)
      ensures old(modelLoaded) ==> ok && modelLoaded && !loading && loadError == old(loadError)
      ensures !old(modelLoaded) && old(loading) ==>
        !ok && !modelLoaded && loading && loadError == old(loadError)
      ensures !old(modelLoaded) && !old(loading) ==>
        !loading && ok == outcome.Loaded? && modelLoaded == ok
        && loadError == match outcome
                        case Loaded => None
                        case DownloadFailed(m) => Some(m)
                        case LibraryMissing => Some(LIBRARY_MISSING)
                        case LoadFailed(m) => Some("Failed to load model: " + m)
    {
      if modelLoaded {
        return true;
      }
      if loading {
        return false;
      }
      loading := true;
      loadError := None;
      match outcome
      case Loaded =>
        modelLoaded := true;
        loading := false;
        ok := true;
      case DownloadFailed(m) =>
        loadError := Some(m);
        loading := false;
        ok := false;
      case LibraryMissing =>
        loadError := Some(LIBRARY_MISSING);
        loading := false;
        ok := false;
      case LoadFailed(m) =>
        loadError := Some("Failed to load model: " + m);
        loading := false;
        ok := false;
    }

    /** `unload_model`: the model is no longer loaded, so the next
      translation raises. */
    method UnloadModel()
      requires Valid()
      modifies this
      ensures Valid()
      ensures !modelLoaded
      ensures loading == old(loading) && loadError == old(loadError) && documentContext == old(documentContext)
      ensures forall text, target, model :: Translate(modelLoaded, text, target, model) == Err(RuntimeError)
    {
      modelLoaded := false;
    }

    method SetDocumentContext(context: string)
      modifies this
      ensures documentContext == Some(context)
      ensures modelLoaded == old(modelLoaded) && loading == old(loading) && loadError == old(loadError)
    {
      documentContext := Some(context);
    }

    method ClearDocumentContext()
      modifies this
      ensures documentContext == None
      ensures modelLoaded == old(modelLoaded) && loading == old(loading) && loadError == old(loadError)
    {
      documentContext := None;
    }

    function GetDocumentContext(): Option<string>
      reads this
    {
      documentContext
    }

    /** `translate_text_blocks` with the service's loaded flag: the loop
      computes exactly the block-by-block translation. */
    method TranslateTextBlocks(blocks: seq<Dict>, target: string, model: Model) returns (r: Result<seq<Dict>>)
      ensures r == TranslatedBlocks(modelLoaded, blocks, target, model)
    {
      var done: seq<Dict> := [];
      var i := 0;
      while i < |blocks|
        invariant 0 <= i <= |blocks|
        invariant TranslatedBlocks(modelLoaded, blocks[..i], target, model) == Ok(done)
      {
        var b := TranslateBlock(modelLoaded, blocks[i], target, model);
        assert blocks[..i + 1][..i] == blocks[..i];
        if b.Err? {
          FailureSticks(modelLoaded, blocks, i + 1, target, model);
          return Err(b.error);
        }
        done := done + [b.value];
        i := i + 1;
      }
      assert blocks[..i] == blocks;
      r := Ok(done);
    }
  }

  /** The document context is None until set, reads back as set, and is
      None again after clearing. */
  method ContextLifecycle(context: string) returns (before: Option<string>, during: Option<string>, after: Option<string>)
    ensures before == None && during == Some(context) && after == None
  {
    var service := new TranslationService();
    before := service.GetDocumentContext();
    service.SetDocumentContext(context);
    during := service.GetDocumentContext();
    service.ClearDocumentContext();
    after := service.GetDocumentContext();
  }
}
