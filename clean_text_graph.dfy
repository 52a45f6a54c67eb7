/**
 * The language-model-driven cleaner: the model picks, per review, which of
 * the optional cleaning steps to run; the chosen steps run in the listed
 * order, then spelling correction and lemmatisation always run. Reviews are
 * processed in batches of 100 whose results are written back by slice.
 * HTML parsing, mojibake repair, emoji removal, the spell checker, the
 * lemmatiser and SHA-256 are parameters; whitespace normalisation, the
 * control step (a substitution of literal text, see ControlStep) and the
 * word-level glue around the spell checker and the lemmatiser are modelled.
 */
module CleanTextGraph {
  import opened Wrappers
  import opened Text
  import opened Py
  import opened Reviews
  import opened Batching
  import opened OpenAiClient

  // ---------------------------------------------------------------------------
  // whitespace_step

  /**
   * Every character of the `\s` class of the `regex` package is a plain
   * space, and no two of them are adjacent.
   */
  predicate SingleSpaced(s: string) {
    (forall i :: 0 <= i < |s| && IsRegexSpace(s[i]) ==> s[i] == ' ') &&
    (forall i :: 0 <= i < |s| - 1 ==> !(IsRegexSpace(s[i]) && IsRegexSpace(s[i + 1])))
  }

  /**
   * `re.sub(r"\s+", " ", s)` with the `regex` package: each maximal run of
   * `\s` characters becomes one space. U+001C..U+001F are not in that
   * class and stay as they are.
   */
  function Collapse(s: string): (r: string)
    ensures s == [] <==> r == []
    decreases |s|
  {
    if s == [] then []
    else if IsRegexSpace(s[0]) then
      var t := DropWhile(s, RegexSpace);
      assert |t| < |s| by { assert In(RegexSpace, s[0]); }
      " " + Collapse(t)
    else [s[0]] + Collapse(s[1..])
  }

  /** A space or non-space character in front of a single-spaced text that does not start with a space after a space. */
  lemma ConsSingleSpaced(h: char, ct: string)
    requires SingleSpaced(ct)
    requires IsRegexSpace(h) ==> h == ' ' && (ct != [] ==> !IsRegexSpace(ct[0]))
    ensures SingleSpaced([h] + ct)
  {
    var r := [h] + ct;
    assert forall i :: 1 <= i < |r| ==> r[i] == ct[i - 1];
  }

  /** The collapsed text is single-spaced and starts with whitespace exactly when the input does. */
  lemma {:induction false} CollapseShape(s: string)
    ensures SingleSpaced(Collapse(s))
    ensures s != [] ==> (IsRegexSpace(Collapse(s)[0]) <==> IsRegexSpace(s[0]))
    decreases |s|
  {
    if s != [] {
      if IsRegexSpace(s[0]) {
        var t := DropWhile(s, RegexSpace);
        assert |t| < |s| by { assert In(RegexSpace, s[0]); }
        CollapseShape(t);
        assert t != [] ==> !IsRegexSpace(t[0]);
        ConsSingleSpaced(' ', Collapse(t));
        assert Collapse(s) == [' '] + Collapse(t);
      } else {
        CollapseShape(s[1..]);
        ConsSingleSpaced(s[0], Collapse(s[1..]));
        assert Collapse(s) == [s[0]] + Collapse(s[1..]);
      }
    }
  }

  /** `whitespace_step`: collapse `\s` runs, then str.strip(), which also removes U+001C..U+001F at the ends. */
  function WhitespaceStep(s: string): string {
    Strip(Collapse(s))
  }

  lemma SingleSpacedSlice(s: string, lo: nat, hi: nat)
    requires SingleSpaced(s) && lo <= hi <= |s|
    ensures SingleSpaced(s[lo..hi])
  {
    var t := s[lo..hi];
    assert forall i :: 0 <= i < |t| ==> t[i] == s[lo + i];
  }

  lemma StripSingleSpaced(c: string)
    requires SingleSpaced(c)
    ensures SingleSpaced(Strip(c))
  {
    var d := DropWhile(c, PySpace);
    SingleSpacedSlice(c, |c| - |d|, |c|);
    var e := DropWhileEnd(d, PySpace);
    SingleSpacedSlice(d, 0, |e|);
  }

  /**
   * The normalised text has no str.isspace() character at either end, and
   * every `\s` character in it is a single plain space between two
   * characters outside `\s`.
   */
  lemma WhitespaceStepShape(s: string)
    ensures var r := WhitespaceStep(s);
      SingleSpaced(r) && (r != [] ==> !IsPySpace(r[0]) && !IsPySpace(r[|r| - 1]))
  {
    var c := Collapse(s);
    CollapseShape(s);
    StripSingleSpaced(c);
    var r := StripBy(c, PySpace);
    assert WhitespaceStep(s) == r;
    if r != [] {
      assert !In(PySpace, r[0]) && !In(PySpace, r[|r| - 1]);
      assert !IsPySpace(r[0]) && !IsPySpace(r[|r| - 1]);
    }
  }

  /** On single-spaced text the collapse keeps the first character and goes on with the rest. */
  lemma CollapseCons(t: string)
    requires SingleSpaced(t) && t != []
    ensures Collapse(t) == [t[0]] + Collapse(t[1..])
  {
    var rest := t[1..];
    if IsRegexSpace(t[0]) {
      assert In(RegexSpace, t[0]);
      assert DropWhile(t, RegexSpace) == DropWhile(rest, RegexSpace);
      assert rest != [] ==> rest[0] == t[1] && !In(RegexSpace, rest[0]);
      assert DropWhile(rest, RegexSpace) == rest;
    }
  }

  lemma {:induction false} CollapseFixpoint(t: string)
    requires SingleSpaced(t)
    ensures Collapse(t) == t
    decreases |t|
  {
    if t != [] {
      SingleSpacedSlice(t, 1, |t|);
      CollapseFixpoint(t[1..]);
      CollapseCons(t);
      assert t == [t[0]] + t[1..];
    }
  }

  lemma StripFixpoint(t: string)
    requires t != [] ==> !IsPySpace(t[0]) && !IsPySpace(t[|t| - 1])
    ensures Strip(t) == t
  {
    if t != [] {
      assert DropWhile(t, PySpace) == t;
      assert DropWhileEnd(t, PySpace) == t;
    }
  }

  /** Normalising whitespace twice is the same as once. */
  lemma WhitespaceStepIdempotent(s: string)
    ensures WhitespaceStep(WhitespaceStep(s)) == WhitespaceStep(s)
  {
    var t := WhitespaceStep(s);
    WhitespaceStepShape(s);
    CollapseFixpoint(t);
    StripFixpoint(t);
  }

  /** U+001C is whitespace to str.strip() but not to the `regex` package's `\s`: inside a text it survives. */
  lemma InfoSeparatorKeptInside()
    ensures WhitespaceStep("a\U{1C}b") == "a\U{1C}b"
  {
    var t := "a\U{1C}b";
    assert !IsRegexSpace(t[0]) && !IsRegexSpace(t[1]) && !IsRegexSpace(t[2]);
    CollapseFixpoint(t);
    StripFixpoint(t);
  }

  /** ... while at the ends of a text it is removed by the final strip. */
  lemma InfoSeparatorStrippedAtEnds()
    ensures WhitespaceStep("\U{1C}a") == "a"
  {
    var t := "\U{1C}a";
    assert !IsRegexSpace(t[0]) && !IsRegexSpace(t[1]);
    CollapseFixpoint(t);
    assert In(PySpace, t[0]) && !In(PySpace, t[1]);
    assert DropWhile(t, PySpace) == DropWhile(t[1..], PySpace) == "a";
  }

  // ---------------------------------------------------------------------------
  // control_step

  /**
   * The raw pattern `\\p{C}+` escapes its backslash, so it matches the
   * literal text `\p{C` followed by one or more `}`; this says a match
   * starts at the front of `s`.
   */
  predicate ControlMatchAt(s: string) {
    |s| >= 5 && s[0] == '\\' && s[1] == 'p' && s[2] == '{' && s[3] == 'C' && s[4] == '}'
  }

  /** The closing braces a match of the control pattern consumes, greedily. */
  function DropBraces(s: string): (r: string)
    ensures |r| <= |s|
    ensures r != [] ==> r[0] != '}'
    ensures s != [] && s[0] == '}' ==> |r| < |s|
  {
    if s != [] && s[0] == '}' then DropBraces(s[1..]) else s
  }

  /**
   * `control_step`: `re.sub` of the pattern above by a space, scanning left
   * to right for non-overlapping matches. No control character is removed.
   */
  function ControlStep(s: string): (r: string)
    ensures |r| <= |s|
    decreases |s|
  {
    if ControlMatchAt(s) then " " + ControlStep(DropBraces(s[4..]))
    else if s == [] then []
    else [s[0]] + ControlStep(s[1..])
  }

  /** A text without a backslash, control characters included, passes through the control step unchanged. */
  lemma {:induction false} ControlStepWithoutBackslash(s: string)
    requires forall i :: 0 <= i < |s| ==> s[i] != '\\'
    ensures ControlStep(s) == s
    decreases |s|
  {
    if s != [] {
      ControlStepWithoutBackslash(s[1..]);
      assert s == [s[0]] + s[1..];
    }
  }

  /** A bell character between two letters is kept. */
  lemma ControlCharacterKept()
    ensures ControlStep("a\U{7}b") == "a\U{7}b"
  {
    var s := "a\U{7}b";
    assert s[0] != '\\' && s[1] != '\\' && s[2] != '\\';
    ControlStepWithoutBackslash(s);
  }

  lemma BracesThenLetter()
    ensures DropBraces("}}y") == "y"
  {
    var u := "}}y";
    var v := u[1..];
    var w := v[1..];
    assert u[0] == '}' && v[0] == '}' && w == "y" && w[0] != '}';
    assert DropBraces(w) == w;
    assert DropBraces(v) == DropBraces(w);
    assert DropBraces(u) == DropBraces(v);
  }

  /** The pattern text, with its closing braces, at the front of a text becomes a space. */
  lemma PatternAtFront()
    ensures ControlStep("\\p{C}}y") == " y"
  {
    var t := "\\p{C}}y";
    assert ControlMatchAt(t);
    assert t[4..] == "}}y";
    BracesThenLetter();
    var y := "y";
    assert y[0] != '\\';
    ControlStepWithoutBackslash(y);
  }

  /** Only the literal pattern text, with all its closing braces, becomes a space. */
  lemma LiteralPatternReplaced()
    ensures ControlStep("x\\p{C}}y") == "x y"
  {
    var s := "x\\p{C}}y";
    assert !ControlMatchAt(s);
    assert s[1..] == "\\p{C}}y";
    PatternAtFront();
  }



  // ---------------------------------------------------------------------------
  // spell_step and lemmatize_step

  /** The steps the cleaner does not model: text transformers and the checkers it consults. */
  datatype Cleaners = Cleaners(
    html: string -> string,
    encoding: string -> string,
    emoji: string -> string,
    known: string -> bool,               // `w in spell`
    correction: string -> Option<string>, // `spell.correction(w)`
    lemmatize: string -> string,
    hash: string -> string)

  /** One word after spelling correction: known words and words without a correction stay as they are. */
  function SpellWord(c: Cleaners, w: string): string {
    if c.known(w) then w else c.correction(w).GetOr(w)
  }

  function SpellWords(c: Cleaners, ws: seq<string>): (r: seq<string>)
    ensures |r| == |ws| && forall i :: 0 <= i < |ws| ==> r[i] == SpellWord(c, ws[i])
  {
    seq(|ws|, i requires 0 <= i < |ws| => SpellWord(c, ws[i]))
  }

  /** `spell_step`: split on whitespace, correct each word, join with single spaces. */
  function SpellStep(c: Cleaners, text: string): string {
    Join(" ", SpellWords(c, Split(text)))
  }

  /** `lemmatize_step`: split on whitespace, lemmatise each word, join with single spaces. */
  function LemmatizeStep(c: Cleaners, text: string): string {
    var ws := Split(text);
    Join(" ", seq(|ws|, i requires 0 <= i < |ws| => c.lemmatize(ws[i])))
  }

  /** Every correction the checker offers is a single word. */
  ghost predicate CorrectionsAreWords(c: Cleaners) {
    forall w :: c.correction(w).Some? ==> IsWord(c.correction(w).value)
  }

  /**
   * Spelling correction keeps the number of words, and keeps each word that
   * is known or has no correction; the other words become their correction.
   */
  lemma SpellStepKeepsWords(c: Cleaners, text: string)
    requires CorrectionsAreWords(c)
    ensures |Split(SpellStep(c, text))| == |Split(text)|
    ensures forall i :: 0 <= i < |Split(text)| ==>
      Split(SpellStep(c, text))[i] == (if c.known(Split(text)[i]) || c.correction(Split(text)[i]).None? then Split(text)[i]
                                       else c.correction(Split(text)[i]).value)
  {
    var ws := Split(text);
    SplitYieldsWords(text);
    var corrected := SpellWords(c, ws);
    assert forall i :: 0 <= i < |corrected| ==> IsWord(corrected[i]);
    SplitJoin(corrected);
  }

  // ---------------------------------------------------------------------------
  // Step dispatch for one review

  /** The five optional steps the dispatcher knows. */
  datatype OptionalStep = Html | Encoding | Emoji | Control | Whitespace

  /** The optional step a listed value names, if any (only the exact strings match). */
  function StepOf(step: Json): Option<OptionalStep> {
    match step
    case JStr(name) =>
      if name == "html" then Some(Html)
      else if name == "encoding" then Some(Encoding)
      else if name == "emoji" then Some(Emoji)
      else if name == "control" then Some(Control)
      else if name == "whitespace" then Some(Whitespace)
      else None
    case _ => None
  }

  function Transform(c: Cleaners, k: OptionalStep, text: string): string {
    match k
    case Html => c.html(text)
    case Encoding => c.encoding(text)
    case Emoji => c.emoji(text)
    case Control => ControlStep(text)
    case Whitespace => WhitespaceStep(text)
  }

  /** One listed step: an optional step by name; any other value does nothing. */
  function ApplyStep(c: Cleaners, step: Json, text: string): string {
    match StepOf(step)
    case Some(k) => Transform(c, k, text)
    case None => text
  }

  /** The listed steps in order, each applied as often as it is listed. */
  function ApplySteps(c: Cleaners, steps: seq<Json>, text: string): string
    decreases |steps|
  {
    if steps == [] then text
    else ApplyStep(c, steps[|steps| - 1], ApplySteps(c, steps[..|steps| - 1], text))
  }

  /** The listed values that name an optional step, in order. */
  function OptionalSteps(steps: seq<Json>): (r: seq<Json>)
    ensures forall i :: 0 <= i < |r| ==> StepOf(r[i]).Some?
  {
    if steps == [] then []
    else OptionalSteps(steps[..|steps| - 1]) + (if StepOf(steps[|steps| - 1]).Some? then [steps[|steps| - 1]] else [])
  }

  /** Names other than the five optional steps ("langdetect", "pii", ...) are ignored. */
  lemma {:induction false} OnlyOptionalStepsApply(c: Cleaners, steps: seq<Json>, text: string)
    ensures ApplySteps(c, steps, text) == ApplySteps(c, OptionalSteps(steps), text)
    decreases |steps|
  {
    if steps != [] {
      var init := steps[..|steps| - 1];
      var last := steps[|steps| - 1];
      OnlyOptionalStepsApply(c, init, text);
      var o := OptionalSteps(init);
      if StepOf(last).Some? {
        var o2 := o + [last];
        assert OptionalSteps(steps) == o2;
        assert o2[..|o2| - 1] == o;
        assert ApplySteps(c, o2, text) == ApplyStep(c, last, ApplySteps(c, o, text));
      } else {
        assert OptionalSteps(steps) == o + [];
        assert o + [] == o;
      }
    }
  }

  /** A step listed after the others runs on their result. */
  lemma ApplyStepsSnoc(c: Cleaners, steps: seq<Json>, step: Json, text: string)
    ensures ApplySteps(c, steps + [step], text) == ApplyStep(c, step, ApplySteps(c, steps, text))
  {
    var s := steps + [step];
    assert s[..|s| - 1] == steps && s[|s| - 1] == step;
  }

  /** "whitespace" names the whitespace step: it differs from the other names in its first letter. */
  lemma WhitespaceNamed(c: Cleaners, x: string)
    ensures StepOf(JStr("whitespace")) == Some(Whitespace)
    ensures ApplyStep(c, JStr("whitespace"), x) == WhitespaceStep(x)
  {
    var w := "whitespace";
    assert w[0] == 'w';
    assert w != "html" && w != "encoding" && w != "emoji" && w != "control" by {
      assert "html"[0] != 'w' && "encoding"[0] != 'w' && "emoji"[0] != 'w' && "control"[0] != 'w';
    }
  }

  /** Listing "whitespace" twice in a row is the same as listing it once. */
  lemma RepeatedWhitespaceStep(c: Cleaners, steps: seq<Json>, text: string)
    ensures ApplySteps(c, steps + [JStr("whitespace"), JStr("whitespace")], text)
         == ApplySteps(c, steps + [JStr("whitespace")], text)
  {
    var ws := JStr("whitespace");
    var a := steps + [ws];
    assert steps + [ws, ws] == a + [ws];
    var x := ApplySteps(c, steps, text);
    ApplyStepsSnoc(c, steps, ws, text);
    ApplyStepsSnoc(c, a, ws, text);
    WhitespaceNamed(c, x);
    WhitespaceNamed(c, WhitespaceStep(x));
    WhitespaceStepIdempotent(x);
  }

  /** The record for one review: its chosen steps, spelling, lemmatisation; `lang` is "en" and `hash` is of the original text. */
  function CleanText(c: Cleaners, steps: seq<Json>, original: string): (r: Cleaned)
    ensures r.lang == "en" && r.hash == c.hash(original) && r.clean.Some?
  {
    Cleaned(Some(LemmatizeStep(c, SpellStep(c, ApplySteps(c, steps, original)))), "en", c.hash(original))
  }

  /** The per-review loop body: rebinds the text once per listed step, then spells, lemmatises and hashes. */
  method CleanOne(c: Cleaners, steps: seq<Json>, original: string) returns (r: Cleaned)
    ensures r == CleanText(c, steps, original)
  {
    var text := original;
    for k := 0 to |steps|
      invariant text == ApplySteps(c, steps[..k], original)
    {
      assert steps[..k + 1][..k] == steps[..k];
      text := ApplyStep(c, steps[k], text);
    }
    assert steps[..|steps|] == steps;
    text := SpellStep(c, text);
    text := LemmatizeStep(c, text);
    r := Cleaned(Some(text), "en", c.hash(original));
  }

  // ---------------------------------------------------------------------------
  // clean_reviews_langgraph

  const DefaultBatchSize: int := 100

  /** The step-selection call for one batch: one step list per review (as answered), or the exception it raised. */
  type StepSelector = seq<string> -> Result<seq<seq<Json>>, PyError>

  /** `get_cleaning_steps_batch` with its key, model and parser fixed: the selector the cleaner calls once per batch. */
  function StepSelection(apiKey: Option<string>, llm: seq<string> -> Result<string, PyError>,
                         parse: string -> Option<Json>): StepSelector
  {
    batch => GetCleaningStepsBatch(batch, apiKey, llm, parse)
  }

  /** `step_lists[j] if j < len(step_lists) else []`. */
  function StepsFor(lists: seq<seq<Json>>, j: nat): seq<Json> {
    if j < |lists| then lists[j] else []
  }

  /** The record of review `j` of a batch, given the batch's step lists. */
  function CleanSlot(c: Cleaners, lists: seq<seq<Json>>): (nat, string) -> Option<Cleaned> {
    (j: nat, original: string) => Some(CleanText(c, StepsFor(lists, j), original))
  }

  /** The records of one batch, given its step lists: one per review, in order. */
  function CleanBatch(c: Cleaners, lists: seq<seq<Json>>, batch: seq<string>): (r: seq<Option<Cleaned>>)
    ensures |r| == |batch|
  {
    seq(|batch|, j requires 0 <= j < |batch| => Some(CleanText(c, StepsFor(lists, j), batch[j])))
  }

  /** The loop's running form of a batch's records is the batch's records. */
  lemma LoopRecordsAreBatch(c: Cleaners, lists: seq<seq<Json>>, batch: seq<string>)
    ensures MapIndexed(batch, CleanSlot(c, lists)) == CleanBatch(c, lists, batch)
  {
    var m := MapIndexed(batch, CleanSlot(c, lists));
    forall j | 0 <= j < |batch| ensures m[j] == CleanBatch(c, lists, batch)[j] {
      MapIndexedAt(batch, CleanSlot(c, lists), j);
    }
  }

  /** The per-batch loop: one record per review of the batch, in order. */
  method ProcessBatch(c: Cleaners, lists: seq<seq<Json>>, batch: seq<string>) returns (out: seq<Option<Cleaned>>)
    ensures out == CleanBatch(c, lists, batch)
  {
    out := [];
    ghost var slot := CleanSlot(c, lists);
    for j := 0 to |batch|
      invariant out == MapIndexed(batch[..j], slot)
    {
      var one := CleanOne(c, StepsFor(lists, j), batch[j]);
      MapIndexedSnoc(batch, slot, j);
      assert slot(j, batch[j]) == Some(one);
      out := out + [Some(one)];
    }
    assert batch[..|batch|] == batch;
    LoopRecordsAreBatch(c, lists, batch);
  }

  /** The batches from `i` on, in order; the first failing step-selection call fails the whole run. */
  function CleanFrom(out: seq<Option<Cleaned>>, reviews: seq<string>, size: nat, i: nat,
                     c: Cleaners, sel: StepSelector): Result<seq<Option<Cleaned>>, PyError>
    requires size > 0
    decreases |reviews| - i
  {
    if i >= |reviews| then Success(out)
    else
      var batch := Batch(reviews, i, size);
      match sel(batch)
      case Failure(e) => Failure(e)
      case Success(lists) => CleanFrom(SliceAssign(out, i, i + size, CleanBatch(c, lists, batch)), reviews, size, i + size, c, sel)
  }

  /**
   * `clean_reviews_langgraph`: ValueError for a zero batch size, the None
   * slots untouched for a negative one, and otherwise every batch in order.
   */
  method CleanReviewsLanggraph(reviews: seq<string>, batchSize: int, c: Cleaners, sel: StepSelector)
    returns (r: Result<seq<Option<Cleaned>>, PyError>)
    ensures batchSize == 0 ==> r.Failure? && r.error.ValueError?
    ensures batchSize < 0 ==> r == Success(seq(|reviews|, _ => None))
    ensures batchSize > 0 ==> r == CleanFrom(seq(|reviews|, _ => None), reviews, batchSize, 0, c, sel)
  {
    var cleaned: seq<Option<Cleaned>> := seq(|reviews|, _ => None);
    if batchSize == 0 {
      return Failure(ValueError("range() arg 3 must not be zero"));
    }
    if batchSize < 0 {
      return Success(cleaned);
    }
    var i: nat := 0;
    while i < |reviews|
      invariant CleanFrom(cleaned, reviews, batchSize, i, c, sel) == CleanFrom(seq(|reviews|, _ => None), reviews, batchSize, 0, c, sel)
      decreases |reviews| - i
    {
      var batch := Batch(reviews, i, batchSize);
      var stepLists := sel(batch);
      if stepLists.Failure? {
        return Failure(stepLists.error);
      }
      var batchCleaned := ProcessBatch(c, stepLists.value, batch);
      cleaned := SliceAssign(cleaned, i, i + batchSize, batchCleaned);
      i := i + batchSize;
    }
    return Success(cleaned);
  }

  /** Every batch's step-selection call from `i` on succeeds. */
  predicate SelectionSucceeds(reviews: seq<string>, size: nat, i: nat, sel: StepSelector)
    requires size > 0
    decreases |reviews| - i
  {
    i >= |reviews| || (sel(Batch(reviews, i, size)).Success? && SelectionSucceeds(reviews, size, i + size, sel))
  }

  /** The batch worker once every selection call is known to succeed. */
  function SelectedWorker(c: Cleaners, sel: StepSelector): (nat, seq<string>) -> seq<Option<Cleaned>>
  {
    (start: nat, batch: seq<string>) =>
      CleanBatch(c, if sel(batch).Success? then sel(batch).value else [], batch)
  }

  /** The batches from `i` on fail exactly when some selection call among them fails. */
  lemma {:induction false} CleanFromSucceeds(out: seq<Option<Cleaned>>, reviews: seq<string>, size: nat, i: nat,
                                             c: Cleaners, sel: StepSelector)
    requires size > 0
    ensures CleanFrom(out, reviews, size, i, c, sel).Success? <==> SelectionSucceeds(reviews, size, i, sel)
    decreases |reviews| - i
  {
    if i < |reviews| {
      var batch := Batch(reviews, i, size);
      if sel(batch).Success? {
        var out' := SliceAssign(out, i, i + size, CleanBatch(c, sel(batch).value, batch));
        assert CleanFrom(out, reviews, size, i, c, sel) == CleanFrom(out', reviews, size, i + size, c, sel);
        assert SelectionSucceeds(reviews, size, i, sel) == SelectionSucceeds(reviews, size, i + size, sel);
        CleanFromSucceeds(out', reviews, size, i + size, c, sel);
      }
    }
  }

  /** The selected worker returns one record per review of every batch. */
  lemma {:induction false} SelectedWorkerWellSized(reviews: seq<string>, size: nat, i: nat, c: Cleaners, sel: StepSelector)
    requires size > 0
    ensures WellSized(reviews, size, i, SelectedWorker(c, sel))
    decreases |reviews| - i
  {
    if i < |reviews| {
      var batch := Batch(reviews, i, size);
      var w := SelectedWorker(c, sel);
      assert |w(i, batch)| == |CleanBatch(c, if sel(batch).Success? then sel(batch).value else [], batch)|;
      SelectedWorkerWellSized(reviews, size, i + size, c, sel);
    }
  }

  /** When every selection call succeeds, the cleaner is the generic batch runner with the selected worker. */
  lemma {:induction false} CleanFromIsRunBatches(out: seq<Option<Cleaned>>, reviews: seq<string>, size: nat, i: nat,
                                                 c: Cleaners, sel: StepSelector)
    requires size > 0 && SelectionSucceeds(reviews, size, i, sel)
    ensures CleanFrom(out, reviews, size, i, c, sel) == Success(RunBatches(out, reviews, size, i, SelectedWorker(c, sel)))
    decreases |reviews| - i
  {
    if i < |reviews| {
      var batch := Batch(reviews, i, size);
      var w := SelectedWorker(c, sel);
      var lists := sel(batch).value;
      var out' := SliceAssign(out, i, i + size, CleanBatch(c, lists, batch));
      assert w(i, batch) == CleanBatch(c, lists, batch);
      assert CleanFrom(out, reviews, size, i, c, sel) == CleanFrom(out', reviews, size, i + size, c, sel);
      assert RunBatches(out, reviews, size, i, w) == RunBatches(out', reviews, size, i + size, w);
      CleanFromIsRunBatches(out', reviews, size, i + size, c, sel);
    }
  }

  /** Slot `k` of a successful run is the record its batch produced for it. */
  lemma CleanedSlot(out: seq<Option<Cleaned>>, reviews: seq<string>, size: nat, c: Cleaners, sel: StepSelector, k: nat, m: nat, s: nat)
    requires size > 0 && k < |reviews| && |out| == |reviews|
    requires s == m * size && s <= k < s + size
    requires SelectionSucceeds(reviews, size, 0, sel)
    ensures var b := Batch(reviews, s, size);
      var r := RunBatches(out, reviews, size, 0, SelectedWorker(c, sel));
      |r| == |reviews| && r[k] == SelectedWorker(c, sel)(s, b)[k - s]
  {
    var w := SelectedWorker(c, sel);
    SelectedWorkerWellSized(reviews, size, 0, c, sel);
    BatchedSlot(out, reviews, size, w, m, s, k);
  }

  /**
   * The cleaner fails exactly when some batch's step-selection call fails.
   * Otherwise it returns one record per review, and the record in slot `k`
   * is review `k` cleaned with the step list at its position in its batch's
   * answer (none when that answer is shorter).
   */
  lemma CleanedAligned(reviews: seq<string>, size: nat, c: Cleaners, sel: StepSelector, k: nat, m: nat, s: nat)
    requires size > 0 && k < |reviews|
    requires s == m * size && s <= k < s + size
    ensures var r := CleanFrom(seq(|reviews|, _ => None), reviews, size, 0, c, sel);
      r.Success? <==> SelectionSucceeds(reviews, size, 0, sel)
    ensures var r := CleanFrom(seq(|reviews|, _ => None), reviews, size, 0, c, sel);
      r.Success? ==> (|r.value| == |reviews| &&
        sel(Batch(reviews, s, size)).Success? &&
        r.value[k] == Some(CleanText(c, StepsFor(sel(Batch(reviews, s, size)).value, k - s), reviews[k])))
  {
    var out: seq<Option<Cleaned>> := seq(|reviews|, _ => None);
    CleanFromSucceeds(out, reviews, size, 0, c, sel);
    if SelectionSucceeds(reviews, size, 0, sel) {
      CleanFromIsRunBatches(out, reviews, size, 0, c, sel);
      CleanedSlot(out, reviews, size, c, sel, k, m, s);
      SlotRecord(reviews, size, c, sel, k, m, s);
    }
  }

  /** What the selected worker produces for review `k`, inside the batch starting at `s`. */
  lemma SlotRecord(reviews: seq<string>, size: nat, c: Cleaners, sel: StepSelector, k: nat, m: nat, s: nat)
    requires size > 0 && k < |reviews|
    requires s == m * size && s <= k < s + size
    requires SelectionSucceeds(reviews, size, 0, sel)
    ensures var b := Batch(reviews, s, size);
      sel(b).Success? && k - s < |b| &&
      SelectedWorker(c, sel)(s, b)[k - s] == Some(CleanText(c, StepsFor(sel(b).value, k - s), reviews[k]))
  {
    var b := Batch(reviews, s, size);
    assert sel(b).Success? by {
      SelectionAt(reviews, size, 0, sel, m);
    }
    var lists := sel(b).value;
    assert SelectedWorker(c, sel)(s, b) == CleanBatch(c, lists, b);
    BatchSlot(reviews, s, size, k);
    CleanBatchAt(c, lists, b, k - s, reviews[k]);
  }

  /** Review `k` sits at position `k - s` of the batch starting at `s` that holds it. */
  lemma BatchSlot<T>(xs: seq<T>, s: nat, size: nat, k: nat)
    requires s <= k < s + size && k < |xs|
    ensures k - s < |Batch(xs, s, size)| && Batch(xs, s, size)[k - s] == xs[k]
  {
  }

  lemma CleanBatchAt(c: Cleaners, lists: seq<seq<Json>>, b: seq<string>, j: nat, original: string)
    requires j < |b| && b[j] == original
    ensures CleanBatch(c, lists, b)[j] == Some(CleanText(c, StepsFor(lists, j), original))
  {
  }

  lemma {:induction false} SelectionAt(reviews: seq<string>, size: nat, i: nat, sel: StepSelector, m: nat)
    requires size > 0 && SelectionSucceeds(reviews, size, i, sel) && i + m * size < |reviews|
    ensures sel(Batch(reviews, i + m * size, size)).Success?
    decreases m
  {
    if m > 0 {
      assert i + m * size == (i + size) + (m - 1) * size;
      SelectionAt(reviews, size, i + size, sel, m - 1);
    }
  }
}
