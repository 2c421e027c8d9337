/**
 * generateVoiceOver (src/services/ai/tts.service.ts:30-53): synthesize the segments one after
 * another, in order, reporting progress after each one. Speech synthesis is a parameter: a
 * function from the request to the outcome of the awaited promise.
 */
module TtsVoiceOver {
  import opened ErrorHandler

  /** TTSVoice. */
  datatype Voice = Alloy | Echo | Fable | Onyx | Nova | Shimmer

  /** TTSRequest. */
  datatype SpeechRequest = SpeechRequest(text: string, voice: Voice, speed: real)

  /** An audio Blob: its bytes and MIME type. */
  datatype Blob = Blob(bytes: seq<bv8>, mimeType: string)

  /** How an awaited promise settles. */
  datatype Outcome<T> = Resolved(value: T) | Rejected(reason: Thrown)

  /** The request made for segment `i`. */
  function RequestFor(segments: seq<string>, i: nat, voice: Voice, speed: real): (r: SpeechRequest)
    requires i < |segments|
    ensures r.text == segments[i] && r.voice == voice && r.speed == speed
  {
    SpeechRequest(segments[i], voice, speed)
  }

  /** The calls `onProgress(1, n)`, ..., `onProgress(k, n)`, or none without a callback. */
  function ProgressReports(k: nat, n: nat, hasProgress: bool): (r: seq<(nat, nat)>)
    ensures hasProgress ==> |r| == k && forall i :: 0 <= i < k ==> r[i] == (i + 1, n)
    ensures !hasProgress ==> r == []
  {
    if !hasProgress then [] else seq(k, i => (i + 1, n))
  }

  /**
   * One blob per segment, in segment order, when every synthesis resolves; otherwise the
   * rejection of the first failing segment, after progress for the segments before it. The
   * requests after a failing one are never made. `hasProgress` says whether the optional
   * `onProgress` callback was passed; by default it was not, and nothing is reported.
   */
  method GenerateVoiceOver(segments: seq<string>, synthesize: SpeechRequest -> Outcome<Blob>,
                           voice: Voice := Nova, speed: real := 1.0, hasProgress: bool := false)
    returns (result: Outcome<seq<Blob>>, progress: seq<(nat, nat)>)
    ensures result.Resolved? <==> forall i :: 0 <= i < |segments| ==> synthesize(RequestFor(segments, i, voice, speed)).Resolved?
    ensures result.Resolved? ==>
      && |result.value| == |segments|
      && (forall i :: 0 <= i < |segments| ==> synthesize(RequestFor(segments, i, voice, speed)) == Resolved(result.value[i]))
      && progress == ProgressReports(|segments|, |segments|, hasProgress)
    ensures result.Rejected? ==> exists k ::
      && 0 <= k < |segments|
      && (forall i :: 0 <= i < k ==> synthesize(RequestFor(segments, i, voice, speed)).Resolved?)
      && synthesize(RequestFor(segments, k, voice, speed)) == Rejected(result.reason)
      && progress == ProgressReports(k, |segments|, hasProgress)
  {
    var blobs: seq<Blob> := [];
    progress := [];
    for i := 0 to |segments|
      invariant |blobs| == i
      invariant forall j :: 0 <= j < i ==> synthesize(RequestFor(segments, j, voice, speed)) == Resolved(blobs[j])
      invariant progress == ProgressReports(i, |segments|, hasProgress)
    {
      var outcome := synthesize(SpeechRequest(segments[i], voice, speed));
      if outcome.Rejected? {
        result := Rejected(outcome.reason);
        assert synthesize(RequestFor(segments, i, voice, speed)) == Rejected(result.reason);
        return;
      }
      blobs := blobs + [outcome.value];
      if hasProgress {
        progress := progress + [(i + 1, |segments|)];
      }
    }
    result := Resolved(blobs);
  }
}
