/**
 * The SKU form of the start page and of the agent input: the validator
 * both share, and the submit handlers that send a request only for a
 * value the validator accepts.
 */
module SkuInput {
  import opened Wrappers
  import opened Text

  const Required := "SKU is required."
  const InvalidFormat := "Invalid SKU format."
  const StartFailed := "Failed to start analysis."

  /** A character of `[\w\-]`: an ASCII letter or digit, `_` or `-`. */
  predicate IsSkuChar(c: char) {
    IsWordChar(c) || c == '-'
  }

  predicate AllSkuChars(s: string) {
    forall i :: 0 <= i < |s| ==> IsSkuChar(s[i])
  }

  /**
   * `validateSku`: a blank value is required, a trimmed value with a
   * character outside `[\w\-]` is malformed, and anything else is accepted
   * (the empty message).
   */
  function ValidateSku(value: string): (msg: string)
    ensures msg == Required <==> forall i :: 0 <= i < |value| ==> IsJsSpace(value[i])
    ensures msg == InvalidFormat <==> Trim(value) != [] && !AllSkuChars(Trim(value))
    ensures msg == "" <==> Trim(value) != [] && AllSkuChars(Trim(value))
  {
    var t := Trim(value);
    if t == [] then Required
    else if !AllSkuChars(t) then InvalidFormat
    else ""
  }

  lemma {:induction false} TrimIdempotent(s: string)
    ensures Trim(Trim(s)) == Trim(s)
  {
    var t := Trim(s);
    if t != [] {
      assert DropWhile(t, JsSpace) == t;
      assert DropWhileEnd(t, JsSpace) == t;
    }
  }

  /** Whitespace around a value changes nothing in its validation. */
  lemma PaddingIgnored(value: string)
    ensures ValidateSku(value) == ValidateSku(Trim(value))
  {
    TrimIdempotent(value);
  }

  /**
   * A non-empty run of `[\w\-]` with any JavaScript whitespace around it
   * is accepted.
   */
  lemma PaddedWordAccepted(pre: string, core: string, post: string)
    requires forall i :: 0 <= i < |pre| ==> IsJsSpace(pre[i])
    requires forall i :: 0 <= i < |post| ==> IsJsSpace(post[i])
    requires core != [] && AllSkuChars(core)
    ensures Trim(pre + core + post) == core
    ensures ValidateSku(pre + core + post) == ""
  {
    var v := pre + core + post;
    var d := core + post;
    assert v[|pre|..] == d;
    assert v[|pre|] == core[0];
    DropWhileStops(v, |pre|);
    assert d[|core| - 1] == core[|core| - 1];
    assert forall i :: |core| <= i < |d| ==> d[i] == post[i - |core|];
    DropWhileEndStops(d, |core|);
    assert d[..|core|] == core;
    assert Trim(v) == core;
  }

  lemma {:induction false} DropWhileStops(s: string, n: nat)
    requires n < |s| && !IsJsSpace(s[n]) && forall i :: 0 <= i < n ==> IsJsSpace(s[i])
    ensures DropWhile(s, JsSpace) == s[n..]
    decreases n
  {
    if n > 0 {
      DropWhileStops(s[1..], n - 1);
      assert s[1..][n - 1..] == s[n..];
    }
  }

  lemma {:induction false} DropWhileEndStops(s: string, n: nat)
    requires 0 < n <= |s| && !IsJsSpace(s[n - 1]) && forall i :: n <= i < |s| ==> IsJsSpace(s[i])
    ensures DropWhileEnd(s, JsSpace) == s[..n]
    decreases |s| - n
  {
    if n < |s| {
      DropWhileEndStops(s[..|s| - 1], n);
      assert s[..|s| - 1][..n] == s[..n];
    }
  }

  // ---------------------------------------------------------------------------
  // The submit handlers

  /**
   * What the start page does on submit: the message it shows, the URL it
   * posts to (if any) and the page it moves to (if any).
   */
  datatype Outcome = Outcome(message: string, posted: Option<string>, redirect: Option<string>)

  /**
   * The start page's `handleSubmit`. The answer to the POST is a parameter:
   * the job id, or the failure with the server's `detail` if it sent one.
   */
  function HomeSubmit(sku: string, apiBase: string, reply: Result<string, Option<string>>): (o: Outcome)
    ensures o.posted.Some? <==> ValidateSku(sku) == ""
    ensures o.posted.None? ==> o.message == ValidateSku(sku) && o.redirect.None?
    ensures o.posted.Some? ==> o.posted.value == apiBase + "/api/analyze/" + sku
    ensures o.redirect.Some? <==> o.posted.Some? && reply.Success?
    ensures o.redirect.Some? ==> o.redirect.value == "/processing?jobId=" + reply.value && o.message == ""
    ensures o.posted.Some? && reply.Failure? ==>
      o.message != "" && (o.message == StartFailed || reply.error == Some(o.message))
  {
    var err := ValidateSku(sku);
    if err != "" then Outcome(err, None, None)
    else
      var url := apiBase + "/api/analyze/" + sku;
      match reply
      case Success(jobId) => Outcome("", Some(url), Some("/processing?jobId=" + jobId))
      case Failure(detail) =>
        Outcome(if detail.Some? && detail.value != "" then detail.value else StartFailed, Some(url), None)
  }

  /** The agent input's `handleSubmit`: the message shown and the SKU `startAnalysis` receives, if any. */
  function AgentSubmit(sku: string): (r: (string, Option<string>))
    ensures r.0 == ValidateSku(sku)
    ensures r.1.Some? <==> r.0 == ""
    ensures r.1.Some? ==> r.1.value == sku
  {
    var err := ValidateSku(sku);
    (err, if err == "" then Some(sku) else None)
  }

  /**
   * Both forms send the value exactly as typed: a padded SKU passes
   * validation, and the padding the validator trimmed away goes into the
   * request.
   */
  lemma PaddedSkuSentAsTyped(core: string, apiBase: string, reply: Result<string, Option<string>>)
    requires core != [] && AllSkuChars(core)
    ensures Trim(" " + core + " ") == core
    ensures HomeSubmit(" " + core + " ", apiBase, reply).posted == Some(apiBase + "/api/analyze/" + (" " + core + " "))
    ensures AgentSubmit(" " + core + " ").1 == Some(" " + core + " ")
  {
    var v := " " + core + " ";
    PaddedWordAccepted(" ", core, " ");
    assert ValidateSku(v) == "";
  }
}
