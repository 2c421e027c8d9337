/**
 * splitTextForTTS (src/services/ai/tts.service.ts:70-109): greedy packing of sentences into
 * segments of at most `maxLength` characters, with a comma fallback for an over-long sentence.
 *
 * The packing is specified as a left fold over the sentences whose state is the list of segments
 * pushed so far, UNTRIMMED, and the current segment; the method SplitTextForTTS runs the
 * source's two loops and is proved to return those segments trimmed.
 */
module TtsSegments {
  import opened JsString
  import opened TtsSentences

  /** The source's default for `maxLength`. */
  const DefaultMaxLength: int := 4000

  /** The loop state: segments pushed so far (before trimming) and `currentSegment`. */
  datatype Packing = Packing(done: seq<string>, current: string)

  const Start := Packing([], "")

  /** `if (currentSegment) segments.push(currentSegment)`, then an empty current segment. */
  function Flush(p: Packing): Packing
  {
    Packing(if p.current != "" then p.done + [p.current] else p.done, "")
  }

  /** Every segment pushed so far is non-empty, as `if (currentSegment)` guarantees. */
  predicate PushesNonEmpty(p: Packing) {
    forall k :: 0 <= k < |p.done| ==> p.done[k] != ""
  }

  /**
   * One turn of the loop over comma parts (lines 86-95): pushed segments are kept, at most one is
   * added, and the part ends up in the current segment.
   */
  function AddPart(p: Packing, part: string, maxLength: int): (r: Packing)
    ensures p.done <= r.done && |r.done| <= |p.done| + 1
    ensures r.current == part || r.current == p.current + part
    ensures PushesNonEmpty(p) ==> PushesNonEmpty(r)
  {
    if |p.current + part| > maxLength then Packing(Flush(p).done, part)
    else Packing(p.done, p.current + part)
  }

  function AddParts(p: Packing, parts: seq<string>, maxLength: int): (r: Packing)
    ensures p.done <= r.done
    ensures PushesNonEmpty(p) ==> PushesNonEmpty(r)
    decreases |parts|
  {
    if parts == [] then p
    else AddPart(AddParts(p, parts[..|parts| - 1], maxLength), parts[|parts| - 1], maxLength)
  }

  /** One turn of the loop over sentences (lines 77-101): pushed segments are never changed. */
  function AddSentence(p: Packing, sentence: string, maxLength: int): (r: Packing)
    ensures p.done <= r.done
    ensures PushesNonEmpty(p) ==> PushesNonEmpty(r)
  {
    if |p.current + sentence| > maxLength then
      if |sentence| > maxLength then AddParts(Flush(p), Split(sentence, ','), maxLength)
      else Packing(Flush(p).done, sentence)
    else Packing(p.done, p.current + sentence)
  }

  function AddSentences(p: Packing, sentences: seq<string>, maxLength: int): (r: Packing)
    ensures p.done <= r.done
    ensures PushesNonEmpty(p) ==> PushesNonEmpty(r)
    decreases |sentences|
  {
    if sentences == [] then p
    else AddSentence(AddSentences(p, sentences[..|sentences| - 1], maxLength), sentences[|sentences| - 1], maxLength)
  }

  /** The segments splitTextForTTS pushes, before `.trim()`: none of them is empty. */
  function RawSegments(text: string, maxLength: int := DefaultMaxLength): (r: seq<string>)
    ensures forall k :: 0 <= k < |r| ==> r[k] != ""
  {
    Flush(AddSentences(Start, Sentences(text), maxLength)).done
  }

  /** The result of splitTextForTTS: one trimmed segment per pushed segment. */
  function Segments(text: string, maxLength: int := DefaultMaxLength): (r: seq<string>)
    ensures |r| == |RawSegments(text, maxLength)|
    ensures forall k :: 0 <= k < |r| ==> IsTrimmed(r[k])
  {
    TrimAll(RawSegments(text, maxLength))
  }

  lemma AddSentencesStep(sentences: seq<string>, n: nat, maxLength: int)
    requires n < |sentences|
    ensures AddSentences(Start, sentences[..n + 1], maxLength)
         == AddSentence(AddSentences(Start, sentences[..n], maxLength), sentences[n], maxLength)
  {
    assert sentences[..n + 1][..n] == sentences[..n];
  }

  lemma AddPartsStep(p: Packing, parts: seq<string>, m: nat, maxLength: int)
    requires m < |parts|
    ensures AddParts(p, parts[..m + 1], maxLength) == AddPart(AddParts(p, parts[..m], maxLength), parts[m], maxLength)
  {
    assert parts[..m + 1][..m] == parts[..m];
  }

  lemma TrimAllPush(raw: seq<string>, s: string)
    ensures TrimAll(raw + [s]) == TrimAll(raw) + [Trim(s)]
  {
  }

  /**
   * The loop over the comma parts of an over-long sentence (lines 85-95), entered with an empty
   * current segment.
   */
  method PackCommaParts(segments0: seq<string>, ghost raw0: seq<string>, parts: seq<string>, maxLength: int)
    returns (segments: seq<string>, ghost raw: seq<string>, currentSegment: string)
    requires segments0 == TrimAll(raw0)
    ensures AddParts(Packing(raw0, ""), parts, maxLength) == Packing(raw, currentSegment)
    ensures segments == TrimAll(raw)
  {
    segments, raw, currentSegment := segments0, raw0, "";
    for m := 0 to |parts|
      invariant AddParts(Packing(raw0, ""), parts[..m], maxLength) == Packing(raw, currentSegment)
      invariant segments == TrimAll(raw)
    {
      var part := parts[m];
      AddPartsStep(Packing(raw0, ""), parts, m, maxLength);
      if |currentSegment + part| > maxLength {
        if currentSegment != "" {
          TrimAllPush(raw, currentSegment);
          segments := segments + [Trim(currentSegment)];
          raw := raw + [currentSegment];
        }
        currentSegment := part;
      } else {
        currentSegment := currentSegment + part;
      }
    }
    assert parts[..|parts|] == parts;
  }

  /** splitTextForTTS as the source runs it. */
  method SplitTextForTTS(text: string, maxLength: int := DefaultMaxLength) returns (segments: seq<string>)
    ensures segments == Segments(text, maxLength)
    ensures forall i :: 0 <= i < |segments| ==> IsTrimmed(segments[i])
  {
    segments := [];
    var sentences := Sentences(text);
    var currentSegment := "";
    ghost var raw: seq<string> := [];
    for n := 0 to |sentences|
      invariant AddSentences(Start, sentences[..n], maxLength) == Packing(raw, currentSegment)
      invariant segments == TrimAll(raw)
    {
      var sentence := sentences[n];
      ghost var before := Packing(raw, currentSegment);
      AddSentencesStep(sentences, n, maxLength);
      if |currentSegment + sentence| > maxLength {
        if currentSegment != "" {
          TrimAllPush(raw, currentSegment);
          segments := segments + [Trim(currentSegment)];
          raw := raw + [currentSegment];
          currentSegment := "";
        }
        assert Packing(raw, currentSegment) == Flush(before);
        if |sentence| > maxLength {
          segments, raw, currentSegment := PackCommaParts(segments, raw, Split(sentence, ','), maxLength);
        } else {
          currentSegment := sentence;
        }
      } else {
        currentSegment := currentSegment + sentence;
      }
    }
    assert sentences[..|sentences|] == sentences;
    if currentSegment != "" {
      TrimAllPush(raw, currentSegment);
      segments := segments + [Trim(currentSegment)];
      raw := raw + [currentSegment];
    }
  }
}
