/**
 * The audio-generation hook of src/hooks/useAudioGeneration.ts: a four-field state record
 * replaced step by step, with object URLs revoked before they are dropped.
 *
 * `generateAudio` awaits the synthesis, so it runs in two steps: BeginGenerate up to the await,
 * FinishGenerate with the settled outcome after it. The object URL that `createAudioURL` mints
 * for the new blob is a parameter.
 */
module AudioGeneration {
  import opened Wrappers
  import opened ErrorHandler
  import opened TtsVoiceOver

  const GenerateFailedMessage := "Failed to generate audio"
  const DefaultFileName := "audio.mp3"

  class AudioGenerationHook {
    var isGenerating: bool
    var audioUrl: Option<string>
    var audioBlob: Option<Blob>
    var error: Option<string>
    /** The URLs handed to `URL.revokeObjectURL`, in order. */
    var revoked: seq<string>
    /** The calls to `downloadAudio`: blob and file name. */
    var downloads: seq<(Blob, string)>

    /** A URL and a blob come and go together; an error means there is no audio; while generating there is neither. */
    ghost predicate Valid()
      reads this
    {
      && (audioUrl.Some? <==> audioBlob.Some?)
      && (error.Some? ==> audioUrl.None?)
      && (isGenerating ==> audioUrl.None? && error.None?)
    }

    /** The state record the hook starts from and `clear` restores. */
    ghost predicate IsInitial()
      reads this
    {
      !isGenerating && audioUrl.None? && audioBlob.None? && error.None?
    }

    /**
     * The URL to revoke before the current one is dropped: `if (state.audioUrl)` tests
     * truthiness, so an empty-string URL is dropped without being revoked.
     */
    function Revocation(): (r: seq<string>)
      reads this
      ensures |r| <= 1
      ensures r != [] <==> audioUrl.Some? && audioUrl.value != ""
      ensures r != [] ==> r[0] == audioUrl.value
    {
      if audioUrl.Some? && audioUrl.value != "" then [audioUrl.value] else []
    }

    constructor()
      ensures IsInitial() && Valid()
      ensures revoked == [] && downloads == []
    {
      isGenerating, audioUrl, audioBlob, error := false, None, None, None;
      revoked, downloads := [], [];
    }

    /** generateAudio up to the await: revoke the old URL, then the generating state. */
    method BeginGenerate()
      modifies this
      ensures revoked == old(revoked) + old(Revocation())
      ensures isGenerating && audioUrl.None? && audioBlob.None? && error.None?
      ensures downloads == old(downloads)
      ensures Valid()
    {
      if audioUrl.Some? && audioUrl.value != "" {
        revoked := revoked + [audioUrl.value];
      }
      isGenerating, audioUrl, audioBlob, error := true, None, None, None;
    }

    /**
     * generateAudio after the await: on success the blob and its URL and no error, on failure no
     * audio and the thrown message, or the fixed one when the thrown value is not an Error.
     */
    method FinishGenerate(outcome: Outcome<Blob>, url: string)
      modifies this
      ensures !isGenerating
      ensures outcome.Resolved? ==> audioUrl == Some(url) && audioBlob == Some(outcome.value) && error.None?
      ensures outcome.Rejected? ==>
        audioUrl.None? && audioBlob.None? && error == Some(MessageOr(outcome.reason, GenerateFailedMessage))
      ensures revoked == old(revoked) && downloads == old(downloads)
      ensures Valid()
    {
      match outcome
      case Resolved(blob) =>
        isGenerating, audioUrl, audioBlob, error := false, Some(url), Some(blob), None;
      case Rejected(reason) =>
        var message := if IsError(reason) then reason.message else GenerateFailedMessage;
        isGenerating, audioUrl, audioBlob, error := false, None, None, Some(message);
    }

    /** generateAudio as one call, with synthesis and URL creation as parameters. */
    method GenerateAudio(text: string, voice: Voice, synthesize: SpeechRequest -> Outcome<Blob>,
                         createAudioUrl: Blob -> string, speed: real := 1.0)
      modifies this
      ensures revoked == old(revoked) + old(Revocation())
      ensures !isGenerating
      ensures var outcome := synthesize(SpeechRequest(text, voice, speed));
        && (outcome.Resolved? ==>
          audioUrl == Some(createAudioUrl(outcome.value)) && audioBlob == Some(outcome.value) && error.None?)
        && (outcome.Rejected? ==>
          audioUrl.None? && audioBlob.None? && error == Some(MessageOr(outcome.reason, GenerateFailedMessage)))
      ensures downloads == old(downloads)
      ensures Valid()
    {
      BeginGenerate();
      var outcome := synthesize(SpeechRequest(text, voice, speed));
      var url := if outcome.Resolved? then createAudioUrl(outcome.value) else "";
      FinishGenerate(outcome, url);
    }

    /** download: hand the blob to `downloadAudio`, or do nothing when there is none. */
    method Download(filename: string := DefaultFileName)
      modifies this
      ensures downloads == old(downloads) + (if old(audioBlob).Some? then [(old(audioBlob).value, filename)] else [])
      ensures isGenerating == old(isGenerating) && audioUrl == old(audioUrl) && audioBlob == old(audioBlob)
      ensures error == old(error) && revoked == old(revoked)
    {
      if audioBlob.Some? {
        downloads := downloads + [(audioBlob.value, filename)];
      }
    }

    /** clear: revoke the URL and return to the initial state. */
    method Clear()
      modifies this
      ensures revoked == old(revoked) + old(Revocation())
      ensures IsInitial() && Valid()
      ensures downloads == old(downloads)
    {
      if audioUrl.Some? && audioUrl.value != "" {
        revoked := revoked + [audioUrl.value];
      }
      isGenerating, audioUrl, audioBlob, error := false, None, None, None;
    }
  }
}
