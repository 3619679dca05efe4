/** The text-generation routes: srv.js `/api/full-analysis` (a text branch
    and an image branch run side by side) and `/api/optimise`, and the
    serveur.js `/api/detail` and `/api/optimise`.

    Prompts and SDK parameters are not modelled: every remote call is an
    oracle sequence of attempt outcomes, and the waits are returned instead
    of slept. */
module Analysis {
  import opened Common
  import opened Retry

  /** The one field of a chat completion the routes read,
      `choices[0]?.message?.content`. */
  datatype Completion = Completion(content: Option<string>)

  const TextFallback: string := "Analyse textuelle non générée."
  const TextErrorPrefix: string := "<div class=\"error-message\">Erreur: Le service d'analyse textuelle (Groq) a échoué. "
  const TextErrorSuffix: string := "</div>"

  /** The text branch of `/api/full-analysis`: three attempts under the
      quota-aware wrapper; a failure is turned into an error banner, so the
      branch itself never fails. */
  function TextAnalysis(outcomes: seq<Attempt<Completion>>): (r: (string, Run<Completion>))
    requires DefaultMaxRetries <= |outcomes|
    ensures r.1 == RetryApiCall(AbortOnQuota, DefaultMaxRetries, outcomes)
    ensures r.0 != ""
    ensures r.1.settled.Returned? ==> r.0 == StringOr(r.1.settled.value.content, TextFallback)
    ensures r.1.settled.Rethrown? ==> r.0 == TextErrorPrefix + r.1.settled.error.message + TextErrorSuffix
  {
    var run := RetryApiCall(AbortOnQuota, DefaultMaxRetries, outcomes);
    match run.settled
    case Returned(c) => (StringOr(c.content, TextFallback), run)
    case Rethrown(e) => (TextErrorPrefix + e.message + TextErrorSuffix, run)
    case FellThrough => assert false; ("", run)
  }

  // ---------------------------------------------------------------- image

  /** The first response part carrying `inlineData`. */
  datatype InlineData = InlineData(mimeType: string, data: Option<string>)

  datatype ImageAttempt = Responded(part: Option<InlineData>) | ImageThrew(error: CallError)

  /** The branch's value: 'disabled', 'not_generated', 'error' or a data URI. */
  datatype MediaTag = Disabled | NotGenerated | Failed | DataUri(mimeType: string, data: string)

  datatype ImageOutcome = Resolved(tag: MediaTag) | Rejected(error: CallError)

  datatype ImageRun = ImageRun(outcome: ImageOutcome, calls: nat, delays: seq<int>)

  const MaxImageRetries: nat := 5
  const EmptyResponseDelay: int := 500
  const ImageFailureDelay: int := 1000

  predicate HasImage(a: ImageAttempt)
  {
    a.Responded? && a.part.Some? && Truthy(a.part.value.data)
  }

  predicate EmptyResponse(a: ImageAttempt)
  {
    a.Responded? && !HasImage(a)
  }

  /** An attempt (0-based index `j`) after which the loop goes on. */
  predicate Retryable(a: ImageAttempt, j: nat)
  {
    j < MaxImageRetries - 1 && (EmptyResponse(a) || (a.ImageThrew? && !IsQuota(a.error)))
  }

  /** One pass of the loop body: it leaves the loop (`break`, `return` or
      `throw`, the last pass also after its wait) or goes on to the next
      attempt after a wait, with `mediaUrl` updated. */
  datatype Step = Leave(outcome: ImageOutcome, delays: seq<int>) | Next(mediaUrl: MediaTag, wait: int)

  /** The body of the loop on attempt `i`, `current` being the `mediaUrl`
      so far. */
  function ImageStep(a: ImageAttempt, i: nat, current: MediaTag): (s: Step)
    requires i < MaxImageRetries
    ensures s.Next? <==> Retryable(a, i)
    ensures s.Next? ==> s.wait == WaitAfter(a)
  {
    if HasImage(a) then Leave(Resolved(DataUri(a.part.value.mimeType, a.part.value.data.value)), [])
    else if a.ImageThrew? && IsQuota(a.error) then Leave(Resolved(Failed), [])
    else if i == MaxImageRetries - 1 then
      // the last attempt: an empty response still waits, a failure is rethrown
      if a.Responded? then Leave(Resolved(current), [EmptyResponseDelay]) else Leave(Rejected(a.error), [])
    else if a.ImageThrew? then Next(Failed, ImageFailureDelay)
    else Next(current, EmptyResponseDelay)
  }

  /** The loop from attempt `i` on, `current` being the `mediaUrl` so far. */
  function ImageLoop(attempts: seq<ImageAttempt>, i: nat, current: MediaTag): (r: ImageRun)
    requires i < MaxImageRetries <= |attempts|
    ensures i < r.calls <= MaxImageRetries
    ensures !Retryable(attempts[r.calls - 1], r.calls - 1)
    decreases MaxImageRetries - i
  {
    match ImageStep(attempts[i], i, current)
    case Leave(outcome, delays) => ImageRun(outcome, i + 1, delays)
    case Next(next, wait) =>
      var rest := ImageLoop(attempts, i + 1, next);
      ImageRun(rest.outcome, rest.calls, [wait] + rest.delays)
  }

  /** The loop leaves at the first attempt it does not retry: every attempt
      before the last one made went on to the next, so the first inline
      image, the first 429 or the fifth attempt ends it. */
  lemma {:induction false} ImageLoopFirst(attempts: seq<ImageAttempt>, i: nat, current: MediaTag)
    requires i < MaxImageRetries <= |attempts|
    ensures var r := ImageLoop(attempts, i, current);
      forall j :: i <= j < r.calls - 1 ==> Retryable(attempts[j], j)
    decreases MaxImageRetries - i
  {
    match ImageStep(attempts[i], i, current)
    case Leave(_, _) =>
    case Next(next, _) => ImageLoopFirst(attempts, i + 1, next);
  }

  /** The wait after an empty response or a failed attempt. */
  function WaitAfter(a: ImageAttempt): int
  {
    if a.ImageThrew? then ImageFailureDelay else EmptyResponseDelay
  }

  /** Some attempt from the i-th to the fifth threw. */
  predicate ThrewFrom(attempts: seq<ImageAttempt>, i: nat)
    requires MaxImageRetries <= |attempts|
    decreases MaxImageRetries - i
  {
    i < MaxImageRetries && (attempts[i].ImageThrew? || ThrewFrom(attempts, i + 1))
  }

  /** A loop that stops on an image resolves to its data URI. */
  lemma {:induction false} ImageLoopImage(attempts: seq<ImageAttempt>, i: nat, current: MediaTag)
    requires i < MaxImageRetries <= |attempts|
    ensures var r := ImageLoop(attempts, i, current);
      var last := attempts[r.calls - 1];
      HasImage(last) ==> r.outcome == Resolved(DataUri(last.part.value.mimeType, last.part.value.data.value))
    decreases MaxImageRetries - i
  {
    var r := ImageLoop(attempts, i, current);
    if Retryable(attempts[i], i) {
      var next := ImageStep(attempts[i], i, current).mediaUrl;
      var rest := ImageLoop(attempts, i + 1, next);
      assert r.outcome == rest.outcome && r.calls == rest.calls;
      ImageLoopImage(attempts, i + 1, next);
    } else {
      assert r.calls == i + 1;
    }
  }

  /** A loop that stops on a quota error resolves to 'error'. */
  lemma {:induction false} ImageLoopQuota(attempts: seq<ImageAttempt>, i: nat, current: MediaTag)
    requires i < MaxImageRetries <= |attempts|
    ensures var r := ImageLoop(attempts, i, current);
      var last := attempts[r.calls - 1];
      last.ImageThrew? && IsQuota(last.error) ==> r.outcome == Resolved(Failed)
    decreases MaxImageRetries - i
  {
    var r := ImageLoop(attempts, i, current);
    if Retryable(attempts[i], i) {
      var next := ImageStep(attempts[i], i, current).mediaUrl;
      var rest := ImageLoop(attempts, i + 1, next);
      assert r.outcome == rest.outcome && r.calls == rest.calls;
      ImageLoopQuota(attempts, i + 1, next);
    } else {
      assert r.calls == i + 1;
    }
  }

  /** A failure that is not a quota error is rethrown, and only on the fifth
      attempt. */
  lemma {:induction false} ImageLoopRejects(attempts: seq<ImageAttempt>, i: nat, current: MediaTag)
    requires i < MaxImageRetries <= |attempts|
    ensures var r := ImageLoop(attempts, i, current);
      var last := attempts[r.calls - 1];
      last.ImageThrew? && !IsQuota(last.error) ==> r.calls == MaxImageRetries && r.outcome == Rejected(last.error)
    decreases MaxImageRetries - i
  {
    var r := ImageLoop(attempts, i, current);
    if Retryable(attempts[i], i) {
      var next := ImageStep(attempts[i], i, current).mediaUrl;
      var rest := ImageLoop(attempts, i + 1, next);
      assert r.outcome == rest.outcome && r.calls == rest.calls;
      ImageLoopRejects(attempts, i + 1, next);
    } else {
      assert r.calls == i + 1;
    }
  }

  /** Five attempts without an image or a quota error end on the fifth
      response being empty: the branch then resolves to 'error' if any
      attempt threw and keeps the value carried in otherwise. */
  lemma {:induction false} ImageLoopEmptyEnd(attempts: seq<ImageAttempt>, i: nat, current: MediaTag)
    requires i < MaxImageRetries <= |attempts|
    ensures var r := ImageLoop(attempts, i, current);
      EmptyResponse(attempts[r.calls - 1]) ==>
        && r.calls == MaxImageRetries
        && r.outcome == Resolved(if current == Failed || ThrewFrom(attempts, i) then Failed else current)
    decreases MaxImageRetries - i
  {
    var r := ImageLoop(attempts, i, current);
    if Retryable(attempts[i], i) {
      var next := ImageStep(attempts[i], i, current).mediaUrl;
      var rest := ImageLoop(attempts, i + 1, next);
      assert r.outcome == rest.outcome && r.calls == rest.calls;
      ImageLoopEmptyEnd(attempts, i + 1, next);
    } else {
      assert r.calls == i + 1;
    }
  }

  /** The number of waits: one after every retried attempt, plus a final
      one when the last attempt came back empty. */
  lemma {:induction false} ImageLoopDelayCount(attempts: seq<ImageAttempt>, i: nat, current: MediaTag)
    requires i < MaxImageRetries <= |attempts|
    ensures var r := ImageLoop(attempts, i, current);
      |r.delays| == (if EmptyResponse(attempts[r.calls - 1]) then r.calls - i else r.calls - 1 - i)
    decreases MaxImageRetries - i
  {
    var r := ImageLoop(attempts, i, current);
    var a := attempts[i];
    if Retryable(a, i) {
      var next := ImageStep(a, i, current).mediaUrl;
      var rest := ImageLoop(attempts, i + 1, next);
      ImageLoopDelayCount(attempts, i + 1, next);
      assert r.calls == rest.calls && |r.delays| == 1 + |rest.delays|;
    } else {
      assert r.calls == i + 1;
    }
  }

  /** The waits themselves, in order: 1000 ms after a failure and 500 ms
      after an empty response. */
  lemma {:induction false} ImageLoopDelays(attempts: seq<ImageAttempt>, i: nat, current: MediaTag)
    requires i < MaxImageRetries <= |attempts|
    ensures var r := ImageLoop(attempts, i, current);
      && i + |r.delays| <= |attempts|
      && r.delays == Waits(attempts, i, |r.delays|)
    decreases MaxImageRetries - i
  {
    var r := ImageLoop(attempts, i, current);
    var a := attempts[i];
    if Retryable(a, i) {
      var next := ImageStep(a, i, current).mediaUrl;
      var rest := ImageLoop(attempts, i + 1, next);
      ImageLoopDelays(attempts, i + 1, next);
      assert r.delays == [WaitAfter(a)] + rest.delays;
      assert Waits(attempts, i, |r.delays|) == [WaitAfter(a)] + Waits(attempts, i + 1, |rest.delays|);
    } else if EmptyResponse(a) {
      assert r.delays == [EmptyResponseDelay];
      assert Waits(attempts, i, 1) == [WaitAfter(a)];
    } else {
      assert r.delays == [];
    }
  }

  /** The waits after attempts i, i + 1, ..., i + n - 1. */
  function Waits(attempts: seq<ImageAttempt>, i: nat, n: nat): (w: seq<int>)
    requires i + n <= |attempts|
    ensures |w| == n
    decreases n
  {
    if n == 0 then [] else [WaitAfter(attempts[i])] + Waits(attempts, i + 1, n - 1)
  }

  /** The image branch: without a Gemini client it resolves to 'disabled'
      without calling anything; otherwise up to five attempts. */
  function ImageGeneration(enabled: bool, attempts: seq<ImageAttempt>): (r: ImageRun)
    requires MaxImageRetries <= |attempts|
    ensures !enabled ==> r == ImageRun(Resolved(Disabled), 0, [])
    ensures enabled ==> 0 < r.calls <= MaxImageRetries && r.outcome != Resolved(Disabled)
    ensures r.outcome.Rejected? ==> enabled && r.calls == MaxImageRetries
    ensures enabled ==>
      && !Retryable(attempts[r.calls - 1], r.calls - 1)
      && forall j :: 0 <= j < r.calls - 1 ==> Retryable(attempts[j], j)
  {
    if !enabled then ImageRun(Resolved(Disabled), 0, [])
    else
      ImageLoopFirst(attempts, 0, NotGenerated);
      ImageLoop(attempts, 0, NotGenerated)
  }

  /** The string the branch resolves to. */
  function MediaText(tag: MediaTag): string
  {
    match tag
    case Disabled => "disabled"
    case NotGenerated => "not_generated"
    case Failed => "error"
    case DataUri(mime, data) => "data:" + mime + ";base64," + data
  }

  /** The `mediaUrl` field of the reply: 'disabled' and 'error' become null. */
  function MediaUrlField(tag: MediaTag): Option<string>
  {
    var text := MediaText(tag);
    if text == "disabled" || text == "error" then None else Some(text)
  }

  /** The null test on the text matches exactly the two failure tags: no
      data URI can read 'disabled' or 'error'. */
  lemma MediaUrlNullExactly(tag: MediaTag)
    ensures MediaUrlField(tag).None? <==> tag.Disabled? || tag.Failed?
    ensures MediaUrlField(tag).Some? ==> MediaUrlField(tag).value == MediaText(tag)
  {
    if tag.DataUri? {
      var text := MediaText(tag);
      assert text[1] == 'a';
      assert "disabled"[1] == 'i';
    }
  }

  /** Five non-quota failures in a row reject the branch, after four
      one-second waits. */
  lemma FiveFailuresReject(attempts: seq<ImageAttempt>)
    requires MaxImageRetries <= |attempts|
    requires forall j :: 0 <= j < MaxImageRetries ==> attempts[j].ImageThrew? && !IsQuota(attempts[j].error)
    ensures var r := ImageGeneration(true, attempts);
      && r.outcome == Rejected(attempts[MaxImageRetries - 1].error)
      && r.calls == MaxImageRetries
      && r.delays == [ImageFailureDelay, ImageFailureDelay, ImageFailureDelay, ImageFailureDelay]
  {
    var r := ImageGeneration(true, attempts);
    assert !Retryable(attempts[r.calls - 1], r.calls - 1);
  }

  // ------------------------------------------------------- full analysis

  datatype FullAnalysisReply =
    | TopicMissing                                   // 400
    | Analysed(detail: string, mediaUrl: Option<string>)
    | Unhandled(error: CallError)                    // Promise.all rejects; the handler's promise rejects uncaught

  datatype FullAnalysisRun = FullAnalysisRun(reply: FullAnalysisReply, textCalls: nat, imageCalls: nat)

  /** `/api/full-analysis`. */
  function FullAnalysis(topic: Option<string>, textOutcomes: seq<Attempt<Completion>>,
                        imageEnabled: bool, imageAttempts: seq<ImageAttempt>): (r: FullAnalysisRun)
    requires DefaultMaxRetries <= |textOutcomes| && MaxImageRetries <= |imageAttempts|
    ensures r.reply == TopicMissing <==> !Truthy(topic)
    ensures !Truthy(topic) ==> r.textCalls == 0 && r.imageCalls == 0
    ensures Truthy(topic) ==>
      && 0 < r.textCalls <= DefaultMaxRetries
      && r.imageCalls <= MaxImageRetries
      && (r.imageCalls == 0 <==> !imageEnabled)
    ensures r.reply.Unhandled? <==> Truthy(topic) && ImageGeneration(imageEnabled, imageAttempts).outcome.Rejected?
    ensures r.reply.Analysed? ==>
      && r.reply.detail == TextAnalysis(textOutcomes).0
      && r.reply.detail != ""
      && r.reply.mediaUrl == MediaUrlField(ImageGeneration(imageEnabled, imageAttempts).outcome.tag)
  {
    if !Truthy(topic) then FullAnalysisRun(TopicMissing, 0, 0)
    else
      var (detail, textRun) := TextAnalysis(textOutcomes);
      var image := ImageGeneration(imageEnabled, imageAttempts);
      match image.outcome
      case Rejected(e) => FullAnalysisRun(Unhandled(e), textRun.calls, image.calls)
      case Resolved(tag) => FullAnalysisRun(Analysed(detail, MediaUrlField(tag)), textRun.calls, image.calls)
  }

  /** With image generation switched off the reply carries a null
      `mediaUrl` and only the text branch calls out. */
  lemma NoImageClient(topic: Option<string>, textOutcomes: seq<Attempt<Completion>>, imageAttempts: seq<ImageAttempt>)
    requires DefaultMaxRetries <= |textOutcomes| && MaxImageRetries <= |imageAttempts|
    requires Truthy(topic)
    ensures var r := FullAnalysis(topic, textOutcomes, false, imageAttempts);
      r.reply.Analysed? && r.reply.mediaUrl.None? && r.imageCalls == 0
  {
    MediaUrlNullExactly(Disabled);
  }

  // ------------------------------------------------- detail and optimise

  /** The reply of `/api/detail` and `/api/optimise`. */
  datatype GenerationReply =
    | ParamMissing
    | Generated(text: string)
    | GenerationFailed(message: string)
  {
    function Status(): int
    {
      match this
      case ParamMissing => 400
      case Generated(_) => 200
      case GenerationFailed(_) => 500
    }
  }

  /** The wording one route uses. */
  datatype Wording = Wording(fallback: string, errorPrefix: string)

  const DetailWording: Wording := Wording(
    "Pas de détail généré.",
    "Erreur lors de la génération des détails par le modèle. Vérifiez la clé API et les logs. Détails: ")

  const OptimiseWording: Wording := Wording(
    "Pas de solution générée.",
    "Erreur lors de la génération des solutions par le modèle. Vérifiez la clé API et les logs. Détails: ")

  /** One generation route: the query parameter is required; then three
      attempts under the given policy; a rethrown error becomes a 500. */
  function GenerationRoute(policy: RetryPolicy, wording: Wording, param: Option<string>,
                           outcomes: seq<Attempt<Completion>>): (r: (GenerationReply, nat))
    requires DefaultMaxRetries <= |outcomes|
    requires wording.fallback != ""
    ensures r.0 == ParamMissing <==> !Truthy(param)
    ensures !Truthy(param) ==> r.1 == 0
    ensures Truthy(param) ==> r.1 == RetryApiCall(policy, DefaultMaxRetries, outcomes).calls
    ensures r.0.Generated? ==>
      && r.0.text != ""
      && outcomes[r.1 - 1].Succeeded?
      && r.0.text == StringOr(outcomes[r.1 - 1].value.content, wording.fallback)
    ensures r.0.GenerationFailed? ==>
      && outcomes[r.1 - 1].Threw?
      && r.0.message == wording.errorPrefix + outcomes[r.1 - 1].error.message
  {
    if !Truthy(param) then (ParamMissing, 0)
    else
      var run := RetryApiCall(policy, DefaultMaxRetries, outcomes);
      match run.settled
      case Returned(c) => (Generated(StringOr(c.content, wording.fallback)), run.calls)
      case Rethrown(e) => (GenerationFailed(wording.errorPrefix + e.message), run.calls)
      case FellThrough => assert false; (ParamMissing, run.calls)
  }

  /** serveur.js `/api/detail?text=…`. */
  function Detail(text: Option<string>, outcomes: seq<Attempt<Completion>>): (r: (GenerationReply, nat))
    requires DefaultMaxRetries <= |outcomes|
    ensures r.0.Status() == 400 <==> !Truthy(text)
    ensures r.0.Generated? ==>
      && 0 < r.1 <= |outcomes| && outcomes[r.1 - 1].Succeeded?
      && r.0.text == StringOr(outcomes[r.1 - 1].value.content, "Pas de détail généré.")
    ensures r.0.GenerationFailed? ==> r.1 == DefaultMaxRetries
  {
    GenerationRoute(RetryEveryFailure, DetailWording, text, outcomes)
  }

  /** `/api/optimise?detail=…`, in srv.js (quota-aware) or serveur.js. */
  function Optimise(policy: RetryPolicy, detail: Option<string>, outcomes: seq<Attempt<Completion>>): (r: (GenerationReply, nat))
    requires DefaultMaxRetries <= |outcomes|
    ensures r.0.Status() == 400 <==> !Truthy(detail)
    ensures r.0.Generated? ==>
      && 0 < r.1 <= |outcomes| && outcomes[r.1 - 1].Succeeded?
      && r.0.text == StringOr(outcomes[r.1 - 1].value.content, "Pas de solution générée.")
    ensures r.0.GenerationFailed? && policy == RetryEveryFailure ==> r.1 == DefaultMaxRetries
  {
    GenerationRoute(policy, OptimiseWording, detail, outcomes)
  }

  /** The two `/api/optimise` handlers answer alike unless a 429 occurs. */
  lemma OptimiseVariantsAgree(detail: Option<string>, outcomes: seq<Attempt<Completion>>)
    requires DefaultMaxRetries <= |outcomes|
    requires forall j :: 0 <= j < DefaultMaxRetries && outcomes[j].Threw? ==> !IsQuota(outcomes[j].error)
    ensures Optimise(AbortOnQuota, detail, outcomes) == Optimise(RetryEveryFailure, detail, outcomes)
  {
    PoliciesAgreeWithoutQuota(DefaultMaxRetries, outcomes);
  }

  /** A quota error on the first attempt: srv.js answers 500 after one
      call, serveur.js keeps trying while the failures last. */
  lemma OptimiseQuotaAbort(detail: Option<string>, outcomes: seq<Attempt<Completion>>, e: CallError)
    requires DefaultMaxRetries <= |outcomes|
    requires Truthy(detail)
    requires forall j :: 0 <= j < DefaultMaxRetries ==> outcomes[j] == Threw(e)
    requires IsQuota(e)
    ensures Optimise(AbortOnQuota, detail, outcomes) == (GenerationFailed(OptimiseWording.errorPrefix + e.message), 1)
    ensures Optimise(RetryEveryFailure, detail, outcomes) == (GenerationFailed(OptimiseWording.errorPrefix + e.message), 3)
  {
    QuotaOnFirstAttempt(DefaultMaxRetries, outcomes, e);
  }
}
