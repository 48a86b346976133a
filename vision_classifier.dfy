/** The vision step of the audit: the photo is sent to a cascade of
    vision-model backends (every Gemini model in order, then every Groq
    model in order) until one of them answers with JSON. The SDK calls are
    an oracle `call`, and `JSON.parse` of a reply is an oracle `parse`. */
module VisionClassifier {
  import opened JsStrings
  import opened JsValues

  /** The fields the endpoint reads from a model's JSON reply. An absent
      field is `None`; `kind` is the reply's `type` field. */
  datatype Analysis = Analysis(
    isFood: Option<bool>,
    dishName: Option<string>,
    kind: Option<string>,
    ingredients: Option<seq<string>>,
    freshness: Option<string>,
    calories: Option<int>,
    protein: Option<int>,
    fat: Option<int>,
    reason: Option<string>,
    error: Option<string>)

  /** What `JSON.parse` of a reply yields: a falsy value (`null`, `false`,
      `0`, `""`), which the endpoint treats like no analysis at all, or a
      truthy value read as an `Analysis` (a value that is not an object
      reads as one with every field absent). */
  datatype ReplyValue = Falsy | Value(analysis: Analysis)

  datatype Parsed = Json(value: ReplyValue) | SyntaxError(errText: string)

  /** `JSON.parse` of a model reply. */
  type ReplyParser = string -> Parsed

  datatype Provider = Gemini | Groq

  /** One vision model of one provider. */
  datatype Backend = Backend(provider: Provider, model: string)

  /** What one SDK call does: reply with a text (for Groq, the message
      content, `""` when there is none), or throw an error whose `String(e)`
      is `errText`. */
  datatype Outcome = Reply(text: string) | Threw(errText: string)

  /** The SDK call for a backend and the image payload it is given. */
  type Caller = (Backend, string) -> Outcome

  /** How one backend fared; the endpoint logs the two failures differently
      and moves on to the next backend after either. */
  datatype Verdict = Answered(value: ReplyValue) | RateLimited(errText: string) | Errored(errText: string)

  datatype Attempt = Attempt(backend: Backend, verdict: Verdict)

  /** `process.env.GEMINI_API_KEY` and `process.env.GROQ_API_KEY`. */
  datatype ApiKeys = ApiKeys(gemini: Option<string>, groq: Option<string>)

  const GeminiModels: seq<string> := [
    "gemini-2.0-flash",
    "gemini-2.0-flash-lite",
    "gemini-2.5-flash",
    "gemini-2.5-flash-lite",
    "gemini-2.0-flash-001"
  ]

  const GroqVisionModels: seq<string> := [
    "meta-llama/llama-4-scout-17b-16e-instruct",
    "meta-llama/llama-4-maverick-17b-128e-instruct"
  ]

  const UnavailableError: string :=
    "All AI providers are currently unavailable. Gemini quota exceeded and Groq failed. Please wait a few minutes and try again."

  /** The answer when every provider failed: not food, with the error text. */
  const Unavailable: Analysis :=
    Analysis(Some(false), None, None, None, None, None, None, None, None, Some(UnavailableError))

  const DataImagePrefix: string := "data:image/"
  const Base64Marker: string := ";base64,"
  const GroqImagePrefix: string := "data:image/jpeg;base64,"

  /** The backends of one provider, one per model, in the given order. */
  function BackendsOf(p: Provider, models: seq<string>): (bs: seq<Backend>)
    ensures |bs| == |models|
    ensures forall i :: 0 <= i < |bs| ==> bs[i].provider == p && bs[i].model == models[i]
  {
    seq(|models|, i requires 0 <= i < |models| => Backend(p, models[i]))
  }

  /** Gemini is skipped when its key is missing, empty or starts with "TODO". */
  predicate GeminiKeyUsable(keys: ApiKeys) {
    keys.gemini.Some? && keys.gemini.value != "" && !StartsWith(keys.gemini.value, "TODO")
  }

  /** Groq is skipped when its key is missing or empty. */
  predicate GroqKeyUsable(keys: ApiKeys) {
    keys.groq.Some? && keys.groq.value != ""
  }

  /** The backends the cascade may try, in the order it tries them. */
  function CascadeOrder(keys: ApiKeys): (bs: seq<Backend>)
    ensures |bs| == (if GeminiKeyUsable(keys) then |GeminiModels| else 0)
                  + (if GroqKeyUsable(keys) then |GroqVisionModels| else 0)
    // every Gemini backend comes before every Groq backend
    ensures forall i, j :: 0 <= i < j < |bs| && bs[j].provider == Gemini ==> bs[i].provider == Gemini
    ensures forall i :: 0 <= i < |bs| ==>
      (bs[i].provider == Gemini ==> GeminiKeyUsable(keys) && bs[i].model in GeminiModels)
      && (bs[i].provider == Groq ==> GroqKeyUsable(keys) && bs[i].model in GroqVisionModels)
  {
    (if GeminiKeyUsable(keys) then BackendsOf(Gemini, GeminiModels) else [])
    + (if GroqKeyUsable(keys) then BackendsOf(Groq, GroqVisionModels) else [])
  }

  /** The error texts each provider's catch block reads as a rate limit. */
  predicate IsRateLimitError(p: Provider, errText: string) {
    match p
    case Gemini =>
      Contains(errText, "429") || Contains(errText, "quota")
      || Contains(errText, "Too Many Requests") || Contains(errText, "RESOURCE_EXHAUSTED")
    case Groq =>
      Contains(errText, "429") || Contains(errText, "rate_limit")
  }

  /** The image as each SDK receives it: Gemini takes the bare base64 text as
      inline data, Groq a data URL. */
  function Payload(b: Backend, content: string): (payload: string)
    ensures b.provider == Gemini ==> payload == content
    ensures b.provider == Groq ==> StartsWith(payload, GroqImagePrefix) && payload[|GroqImagePrefix|..] == content
  {
    match b.provider
    case Gemini => content
    case Groq => GroqImagePrefix + content
  }

  function Failure(p: Provider, errText: string): (v: Verdict)
    ensures !v.Answered?
    ensures v.RateLimited? <==> IsRateLimitError(p, errText)
  {
    if IsRateLimitError(p, errText) then RateLimited(errText) else Errored(errText)
  }

  /** One iteration of a provider's loop: call the SDK, then `JSON.parse`
      the reply; an error thrown by either lands in the same catch block. */
  function TryBackend(b: Backend, content: string, call: Caller, parse: ReplyParser): (v: Verdict)
    ensures v.Answered? <==>
      call(b, Payload(b, content)).Reply? && parse(call(b, Payload(b, content)).text).Json?
    ensures v.Answered? ==> v.value == parse(call(b, Payload(b, content)).text).value
    ensures v.RateLimited? ==> IsRateLimitError(b.provider, v.errText)
    ensures v.Errored? ==> !IsRateLimitError(b.provider, v.errText)
  {
    match call(b, Payload(b, content))
    case Threw(e) => Failure(b.provider, e)
    case Reply(text) =>
      match parse(text)
      case Json(value) => Answered(value)
      case SyntaxError(e) => Failure(b.provider, e)
  }

  predicate Answers(b: Backend, content: string, call: Caller, parse: ReplyParser) {
    TryBackend(b, content, call, parse).Answered?
  }

  /** The reply of the first backend in `bs` that answers, if any. */
  function FirstAnswer(bs: seq<Backend>, content: string, call: Caller, parse: ReplyParser): Option<ReplyValue> {
    if bs == [] then None
    else
      var v := TryBackend(bs[0], content, call, parse);
      if v.Answered? then Some(v.value) else FirstAnswer(bs[1..], content, call, parse)
  }

  /** The attempts the loop makes over `bs`: every backend up to and
      including the first that answers. */
  function Attempts(bs: seq<Backend>, content: string, call: Caller, parse: ReplyParser): seq<Attempt> {
    if bs == [] then []
    else
      var v := TryBackend(bs[0], content, call, parse);
      [Attempt(bs[0], v)] + (if v.Answered? then [] else Attempts(bs[1..], content, call, parse))
  }

  /** No answer exactly when no backend answers. */
  lemma {:induction false} FirstAnswerNoneIff(bs: seq<Backend>, content: string, call: Caller, parse: ReplyParser)
    ensures FirstAnswer(bs, content, call, parse) == None <==>
      forall i :: 0 <= i < |bs| ==> !Answers(bs[i], content, call, parse)
  {
    if bs != [] {
      FirstAnswerNoneIff(bs[1..], content, call, parse);
      assert forall i :: 1 <= i < |bs| ==> bs[i] == bs[1..][i - 1];
    }
  }

  /** The answer is the reply of the first backend that answers. */
  lemma {:induction false} FirstAnswerIsFirst(bs: seq<Backend>, content: string, call: Caller, parse: ReplyParser, k: nat)
    requires k < |bs| && Answers(bs[k], content, call, parse)
    requires forall i :: 0 <= i < k ==> !Answers(bs[i], content, call, parse)
    ensures FirstAnswer(bs, content, call, parse) == Some(TryBackend(bs[k], content, call, parse).value)
  {
    if k > 0 {
      assert forall i :: 0 <= i < k - 1 ==> bs[1..][i] == bs[i + 1];
      FirstAnswerIsFirst(bs[1..], content, call, parse, k - 1);
    }
  }

  /** The attempts follow `bs` in order, each with that backend's verdict;
      they stop at the first answer, and run through all of `bs` when no
      backend answers. */
  lemma {:induction false} AttemptsShape(bs: seq<Backend>, content: string, call: Caller, parse: ReplyParser)
    ensures var a := Attempts(bs, content, call, parse);
      |a| <= |bs|
      && (forall i :: 0 <= i < |a| ==> a[i] == Attempt(bs[i], TryBackend(bs[i], content, call, parse)))
      && (forall i :: 0 <= i < |a| - 1 ==> !a[i].verdict.Answered?)
      && (FirstAnswer(bs, content, call, parse) == None <==> |a| == |bs| && (a == [] || !a[|a| - 1].verdict.Answered?))
      && (FirstAnswer(bs, content, call, parse).Some? ==>
            a[|a| - 1].verdict == Answered(FirstAnswer(bs, content, call, parse).value))
  {
    if bs != [] {
      var v := TryBackend(bs[0], content, call, parse);
      if !v.Answered? {
        AttemptsShape(bs[1..], content, call, parse);
        var rest := Attempts(bs[1..], content, call, parse);
        var a := Attempts(bs, content, call, parse);
        assert a == [Attempt(bs[0], v)] + rest;
        assert forall i :: 1 <= i < |a| ==> a[i] == rest[i - 1] && bs[i] == bs[1..][i - 1];
      }
    }
  }

  /** Trying `xs` and then `ys` answers as trying `xs + ys` does. */
  lemma {:induction false} FirstAnswerAppend(xs: seq<Backend>, ys: seq<Backend>, content: string, call: Caller, parse: ReplyParser)
    ensures FirstAnswer(xs + ys, content, call, parse) ==
      (if FirstAnswer(xs, content, call, parse).Some? then FirstAnswer(xs, content, call, parse)
       else FirstAnswer(ys, content, call, parse))
  {
    if xs == [] {
      assert xs + ys == ys;
    } else {
      assert (xs + ys)[0] == xs[0];
      assert (xs + ys)[1..] == xs[1..] + ys;
      FirstAnswerAppend(xs[1..], ys, content, call, parse);
    }
  }

  /** Trying `xs` and then, if none answered, `ys` makes the attempts
      trying `xs + ys` makes. */
  lemma {:induction false} AttemptsAppend(xs: seq<Backend>, ys: seq<Backend>, content: string, call: Caller, parse: ReplyParser)
    ensures Attempts(xs + ys, content, call, parse) ==
      Attempts(xs, content, call, parse)
      + (if FirstAnswer(xs, content, call, parse).Some? then [] else Attempts(ys, content, call, parse))
  {
    if xs == [] {
      assert xs + ys == ys;
    } else {
      assert (xs + ys)[0] == xs[0];
      assert (xs + ys)[1..] == xs[1..] + ys;
      AttemptsAppend(xs[1..], ys, content, call, parse);
    }
  }

  /** Trying `bs` from index `i` on: the backend at `i`, then the rest. */
  lemma CascadeStep(bs: seq<Backend>, i: nat, content: string, call: Caller, parse: ReplyParser)
    requires i < |bs|
    ensures var v := TryBackend(bs[i], content, call, parse);
      FirstAnswer(bs[i..], content, call, parse)
        == (if v.Answered? then Some(v.value) else FirstAnswer(bs[i + 1..], content, call, parse))
      && Attempts(bs[i..], content, call, parse)
        == [Attempt(bs[i], v)] + (if v.Answered? then [] else Attempts(bs[i + 1..], content, call, parse))
  {
    assert bs[i..][0] == bs[i];
    assert bs[i..][1..] == bs[i + 1..];
  }

  /** The provider loop over `GEMINI_MODELS` or `GROQ_VISION_MODELS`: try
      each backend in turn and return at the first that answers. */
  method TryModels(bs: seq<Backend>, content: string, call: Caller, parse: ReplyParser)
    returns (answer: Option<ReplyValue>, attempts: seq<Attempt>)
    ensures answer == FirstAnswer(bs, content, call, parse)
    ensures attempts == Attempts(bs, content, call, parse)
  {
    attempts := [];
    var i := 0;
    while i < |bs|
      invariant 0 <= i <= |bs|
      invariant FirstAnswer(bs, content, call, parse) == FirstAnswer(bs[i..], content, call, parse)
      invariant Attempts(bs, content, call, parse) == attempts + Attempts(bs[i..], content, call, parse)
    {
      var v := TryBackend(bs[i], content, call, parse);
      CascadeStep(bs, i, content, call, parse);
      if v.Answered? {
        assert Attempts(bs[i..], content, call, parse) == [Attempt(bs[i], v)];
        return Some(v.value), attempts + [Attempt(bs[i], v)];
      }
      var rest := Attempts(bs[i + 1..], content, call, parse);
      assert attempts + ([Attempt(bs[i], v)] + rest) == (attempts + [Attempt(bs[i], v)]) + rest;
      attempts := attempts + [Attempt(bs[i], v)];
      i := i + 1;
    }
    return None, attempts;
  }

  /** `tryGemini`: every Gemini model in order, unless the key is unusable. */
  method TryGemini(keys: ApiKeys, content: string, call: Caller, parse: ReplyParser)
    returns (answer: Option<ReplyValue>, attempts: seq<Attempt>)
    ensures !GeminiKeyUsable(keys) ==> answer == None && attempts == []
    ensures GeminiKeyUsable(keys) ==>
      answer == FirstAnswer(BackendsOf(Gemini, GeminiModels), content, call, parse)
      && attempts == Attempts(BackendsOf(Gemini, GeminiModels), content, call, parse)
  {
    if !GeminiKeyUsable(keys) {
      return None, [];
    }
    answer, attempts := TryModels(BackendsOf(Gemini, GeminiModels), content, call, parse);
  }

  /** `tryGroq`: every Groq vision model in order, unless the key is unusable. */
  method TryGroq(keys: ApiKeys, content: string, call: Caller, parse: ReplyParser)
    returns (answer: Option<ReplyValue>, attempts: seq<Attempt>)
    ensures !GroqKeyUsable(keys) ==> answer == None && attempts == []
    ensures GroqKeyUsable(keys) ==>
      answer == FirstAnswer(BackendsOf(Groq, GroqVisionModels), content, call, parse)
      && attempts == Attempts(BackendsOf(Groq, GroqVisionModels), content, call, parse)
  {
    if !GroqKeyUsable(keys) {
      return None, [];
    }
    answer, attempts := TryModels(BackendsOf(Groq, GroqVisionModels), content, call, parse);
  }

  predicate IsWordChar(c: char) {
    ('a' <= c <= 'z') || ('A' <= c <= 'Z') || ('0' <= c <= '9') || c == '_'
  }

  /** The longest prefix of `s` made of word characters (`\w*`). */
  function WordRun(s: string): (w: string)
    ensures |w| <= |s| && w == s[..|w|]
    ensures forall i :: 0 <= i < |w| ==> IsWordChar(w[i])
    ensures |w| < |s| ==> !IsWordChar(s[|w|])
  {
    if s != [] && IsWordChar(s[0]) then [s[0]] + WordRun(s[1..]) else []
  }

  /** `p` matches `data:image\/\w+;base64,` in full. */
  predicate IsDataUriPrefix(p: string) {
    |p| > |DataImagePrefix| + |Base64Marker|
    && StartsWith(p, DataImagePrefix) && EndsWith(p, Base64Marker)
    && forall i :: |DataImagePrefix| <= i < |p| - |Base64Marker| ==> IsWordChar(p[i])
  }

  /** `s.replace(/^data:image\/\w+;base64,/, "")`. */
  function StripDataUriPrefix(s: string): (r: string)
    ensures |r| <= |s| && r == s[|s| - |r|..]
    ensures r != s ==> IsDataUriPrefix(s[..|s| - |r|])
  {
    if StartsWith(s, DataImagePrefix) then
      var w := WordRun(s[|DataImagePrefix|..]);
      var at := |DataImagePrefix| + |w|;
      if w != [] && StartsWith(s[at..], Base64Marker) then
        var p := s[..at + |Base64Marker|];
        assert forall i :: |DataImagePrefix| <= i < at ==> p[i] == w[i - |DataImagePrefix|];
        assert p[|p| - |Base64Marker|..] == s[at..][..|Base64Marker|];
        s[at + |Base64Marker|..]
      else s
    else s
  }

  /** A text that starts with a data-URI prefix loses exactly that prefix:
      the regular expression has one match at most, and it is this one. */
  lemma {:induction false} StripRemovesDataUriPrefix(p: string, rest: string)
    requires IsDataUriPrefix(p)
    ensures StripDataUriPrefix(p + rest) == rest
  {
    var s := p + rest;
    var n := |DataImagePrefix|;
    var at := |p| - |Base64Marker|;
    assert s[..n] == p[..n];
    var w := WordRun(s[n..]);
    assert forall i :: n <= i < at ==> s[n..][i - n] == p[i];
    assert s[at] == ';';
    WordRunStops(s[n..], at - n);
    assert |w| == at - n;
    assert s[n + |w|..][..|Base64Marker|] == p[at..];
    assert s[at + |Base64Marker|..] == rest;
  }

  /** The text is left as it is exactly when it does not start with a
      data-URI prefix. */
  lemma {:induction false} StripKeepsOnlyPlainText(s: string)
    ensures StripDataUriPrefix(s) == s <==> forall k :: 0 <= k <= |s| ==> !IsDataUriPrefix(s[..k])
  {
    if k :| 0 <= k <= |s| && IsDataUriPrefix(s[..k]) {
      assert s == s[..k] + s[k..];
      StripRemovesDataUriPrefix(s[..k], s[k..]);
    }
  }

  lemma {:induction false} WordRunStops(s: string, k: nat)
    requires k < |s| && !IsWordChar(s[k])
    requires forall i :: 0 <= i < k ==> IsWordChar(s[i])
    ensures |WordRun(s)| == k
  {
    if k > 0 {
      WordRunStops(s[1..], k - 1);
    }
  }

  /** The analysis the cascade settles on: the first answer over the usable
      backends, or `Unavailable` when none answers. */
  function Classify(photo: string, keys: ApiKeys, call: Caller, parse: ReplyParser): ReplyValue {
    match FirstAnswer(CascadeOrder(keys), StripDataUriPrefix(photo), call, parse)
    case Some(v) => v
    case None => Value(Unavailable)
  }

  /** `analyzeImageWithGemini`: strip the data-URI prefix, try Gemini, then
      Groq, then give up with `Unavailable`. */
  method AnalyzeImage(photo: string, keys: ApiKeys, call: Caller, parse: ReplyParser)
    returns (result: ReplyValue, attempts: seq<Attempt>)
    ensures result == Classify(photo, keys, call, parse)
    ensures attempts == Attempts(CascadeOrder(keys), StripDataUriPrefix(photo), call, parse)
  {
    var content := StripDataUriPrefix(photo);
    var gs := if GeminiKeyUsable(keys) then BackendsOf(Gemini, GeminiModels) else [];
    var qs := if GroqKeyUsable(keys) then BackendsOf(Groq, GroqVisionModels) else [];
    FirstAnswerAppend(gs, qs, content, call, parse);
    AttemptsAppend(gs, qs, content, call, parse);
    assert CascadeOrder(keys) == gs + qs;
    var gemini, geminiAttempts := TryGemini(keys, content, call, parse);
    if gemini.Some? {
      return gemini.value, geminiAttempts;
    }
    var groq, groqAttempts := TryGroq(keys, content, call, parse);
    attempts := geminiAttempts + groqAttempts;
    if groq.Some? {
      return groq.value, attempts;
    }
    return Value(Unavailable), attempts;
  }

  /** Groq is consulted only when no Gemini model answers: when one does,
      the result is the first Gemini answer and no Groq model is tried. */
  lemma {:induction false} GeminiAnswerWins(photo: string, keys: ApiKeys, call: Caller, parse: ReplyParser)
    requires GeminiKeyUsable(keys)
    requires FirstAnswer(BackendsOf(Gemini, GeminiModels), StripDataUriPrefix(photo), call, parse).Some?
    ensures Classify(photo, keys, call, parse) ==
      FirstAnswer(BackendsOf(Gemini, GeminiModels), StripDataUriPrefix(photo), call, parse).value
    ensures forall a :: a in Attempts(CascadeOrder(keys), StripDataUriPrefix(photo), call, parse) ==>
      a.backend.provider == Gemini
  {
    var content := StripDataUriPrefix(photo);
    var gs := BackendsOf(Gemini, GeminiModels);
    var qs := if GroqKeyUsable(keys) then BackendsOf(Groq, GroqVisionModels) else [];
    FirstAnswerAppend(gs, qs, content, call, parse);
    AttemptsAppend(gs, qs, content, call, parse);
    assert CascadeOrder(keys) == gs + qs;
    AttemptsShape(gs, content, call, parse);
  }

  /** When every usable backend fails, the result is the not-food
      `Unavailable` analysis and every usable backend was tried once. */
  lemma {:induction false} AllProvidersFail(photo: string, keys: ApiKeys, call: Caller, parse: ReplyParser)
    requires forall b :: b in CascadeOrder(keys) ==> !Answers(b, StripDataUriPrefix(photo), call, parse)
    ensures Classify(photo, keys, call, parse) == Value(Unavailable)
    ensures Classify(photo, keys, call, parse).analysis.isFood == Some(false)
    ensures |Attempts(CascadeOrder(keys), StripDataUriPrefix(photo), call, parse)| == |CascadeOrder(keys)|
  {
    var bs := CascadeOrder(keys);
    var content := StripDataUriPrefix(photo);
    FirstAnswerNoneIff(bs, content, call, parse);
    AttemptsShape(bs, content, call, parse);
  }
}
