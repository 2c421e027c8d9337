/** What splitTextForTTS (src/services/ai/tts.service.ts:70-109) does and does not promise. */
module TtsSegmentLemmas {
  import opened Wrappers
  import opened JsString
  import opened TtsSentences
  import opened TtsSegments

  /** Empty text gives no segment, whatever `maxLength` is. */
  lemma EmptyTextHasNoSegments(maxLength: int)
    ensures Segments("", maxLength) == []
  {
    assert Matches("") == [];
    assert Sentences("") == [""];
    assert AddSentences(Start, [""], maxLength) == AddSentence(Start, "", maxLength);
    if maxLength < 0 {
      assert Split("", ',') == [""];
      assert AddParts(Start, [""], maxLength) == AddPart(Start, "", maxLength);
    }
  }

  // ---------------------------------------------------------------------------------------------
  // The length bound

  /**
   * A sentence the packer can place without exceeding `maxLength`: it fits as a whole, or each of
   * its comma parts does.
   */
  predicate PieceFits(sentence: string, maxLength: int) {
    |sentence| <= maxLength || forall part :: part in Split(sentence, ',') ==> |part| <= maxLength
  }

  /** Every pushed segment fits, and so does the current one unless it is empty. */
  predicate FitsIn(p: Packing, maxLength: int) {
    && (forall d :: d in p.done ==> |d| <= maxLength)
    && (p.current == "" || |p.current| <= maxLength)
  }

  lemma {:induction false} AddPartsFit(p: Packing, parts: seq<string>, maxLength: int)
    requires FitsIn(p, maxLength)
    requires forall part :: part in parts ==> |part| <= maxLength
    ensures FitsIn(AddParts(p, parts, maxLength), maxLength)
    decreases |parts|
  {
    if parts != [] {
      var init := parts[..|parts| - 1];
      assert forall part :: part in init ==> part in parts;
      AddPartsFit(p, init, maxLength);
      assert parts[|parts| - 1] in parts;
    }
  }

  lemma {:induction false} AddSentencesFit(p: Packing, sentences: seq<string>, maxLength: int)
    requires FitsIn(p, maxLength)
    requires forall s :: s in sentences ==> PieceFits(s, maxLength)
    ensures FitsIn(AddSentences(p, sentences, maxLength), maxLength)
    decreases |sentences|
  {
    if sentences != [] {
      var init, s := sentences[..|sentences| - 1], sentences[|sentences| - 1];
      assert forall x :: x in init ==> x in sentences;
      AddSentencesFit(p, init, maxLength);
      assert s in sentences;
      var q := AddSentences(p, init, maxLength);
      if |q.current + s| > maxLength && |s| > maxLength {
        AddPartsFit(Flush(q), Split(s, ','), maxLength);
      }
    }
  }

  /**
   * The length bound holds when every piece fits: in particular when every matched sentence has
   * at most `maxLength` characters.
   */
  lemma SegmentsFitWhenPiecesFit(text: string, maxLength: int)
    requires forall s :: s in Sentences(text) ==> PieceFits(s, maxLength)
    ensures forall i :: 0 <= i < |Segments(text, maxLength)| ==> |Segments(text, maxLength)[i]| <= maxLength
  {
    AddSentencesFit(Start, Sentences(text), maxLength);
  }



  // ---------------------------------------------------------------------------------------------
  // Which characters reach the output

  /** What a sentence contributes to the output: itself, or, when over-long, itself without commas. */
  function Expand(sentence: string, maxLength: int): string
  {
    if |sentence| > maxLength then Without(sentence, ',') else sentence
  }

  function ExpandAll(sentences: seq<string>, maxLength: int): string
    decreases |sentences|
  {
    if sentences == [] then ""
    else ExpandAll(sentences[..|sentences| - 1], maxLength) + Expand(sentences[|sentences| - 1], maxLength)
  }

  /** The text of a packing: its pushed segments, then its current segment. */
  function TextOf(p: Packing): string
  {
    Concat(p.done) + p.current
  }

  lemma FlushKeepsText(p: Packing)
    ensures TextOf(Flush(p)) == TextOf(p)
  {
    if p.current != "" {
      ConcatAppend(p.done, p.current);
    }
  }

  lemma {:induction false} AddPartsText(p: Packing, parts: seq<string>, maxLength: int)
    ensures TextOf(AddParts(p, parts, maxLength)) == TextOf(p) + Concat(parts)
    decreases |parts|
  {
    if parts == [] {
      assert TextOf(p) + Concat(parts) == TextOf(p);
    } else {
      var init, part := parts[..|parts| - 1], parts[|parts| - 1];
      assert init + [part] == parts;
      AddPartsText(p, init, maxLength);
      AddPartsTextStep(p, init, part, maxLength);
    }
  }

  lemma AddPartsTextStep(p: Packing, init: seq<string>, part: string, maxLength: int)
    requires TextOf(AddParts(p, init, maxLength)) == TextOf(p) + Concat(init)
    ensures TextOf(AddParts(p, init + [part], maxLength)) == TextOf(p) + Concat(init + [part])
  {
    var parts := init + [part];
    assert parts[..|parts| - 1] == init && parts[|parts| - 1] == part;
    ConcatAppend(init, part);
    AddPartText(AddParts(p, init, maxLength), part, maxLength);
  }

  lemma AddPartText(q: Packing, part: string, maxLength: int)
    ensures TextOf(AddPart(q, part, maxLength)) == TextOf(q) + part
  {
    var r := AddPart(q, part, maxLength);
    if |q.current + part| > maxLength {
      FlushKeepsText(q);
      assert TextOf(r) == TextOf(Flush(q)) + part;
    } else {
      assert TextOf(r) == TextOf(q) + part;
    }
  }

  lemma {:induction false} AddSentencesText(p: Packing, sentences: seq<string>, maxLength: int)
    ensures TextOf(AddSentences(p, sentences, maxLength)) == TextOf(p) + ExpandAll(sentences, maxLength)
    decreases |sentences|
  {
    if sentences == [] {
      assert TextOf(p) + ExpandAll(sentences, maxLength) == TextOf(p);
    } else {
      var init, s := sentences[..|sentences| - 1], sentences[|sentences| - 1];
      var q := AddSentences(p, init, maxLength);
      calc {
        TextOf(AddSentences(p, sentences, maxLength));
        TextOf(AddSentence(q, s, maxLength));
        { AddSentenceText(q, s, maxLength); }
        TextOf(q) + Expand(s, maxLength);
        { AddSentencesText(p, init, maxLength); }
        (TextOf(p) + ExpandAll(init, maxLength)) + Expand(s, maxLength);
        TextOf(p) + (ExpandAll(init, maxLength) + Expand(s, maxLength));
        TextOf(p) + ExpandAll(sentences, maxLength);
      }
    }
  }

  lemma AddSentenceText(q: Packing, s: string, maxLength: int)
    ensures TextOf(AddSentence(q, s, maxLength)) == TextOf(q) + Expand(s, maxLength)
  {
    var r := AddSentence(q, s, maxLength);
    if |q.current + s| > maxLength {
      FlushKeepsText(q);
      if |s| > maxLength {
        AddPartsText(Flush(q), Split(s, ','), maxLength);
      } else {
        assert TextOf(r) == TextOf(Flush(q)) + s;
      }
    } else {
      assert TextOf(r) == Concat(q.done) + (q.current + s);
    }
  }

  /**
   * The untrimmed segments spell the sentences in order, except that an over-long sentence (one
   * longer than `maxLength`) loses its commas.
   */
  lemma RawSegmentsSpellSentences(text: string, maxLength: int)
    ensures Concat(RawSegments(text, maxLength)) == ExpandAll(Sentences(text), maxLength)
  {
    var p := AddSentences(Start, Sentences(text), maxLength);
    AddSentencesText(Start, Sentences(text), maxLength);
    assert TextOf(Start) == "";
    FlushKeepsText(p);
    assert TextOf(Flush(p)) == Concat(Flush(p).done) + "";
    assert TextOf(p) == ExpandAll(Sentences(text), maxLength);
    assert Concat(Flush(p).done) == ExpandAll(Sentences(text), maxLength);
    assert RawSegments(text, maxLength) == Flush(p).done;
  }

  lemma {:induction false} ExpandAllFitting(sentences: seq<string>, maxLength: int)
    requires forall s :: s in sentences ==> |s| <= maxLength
    ensures ExpandAll(sentences, maxLength) == Concat(sentences)
    decreases |sentences|
  {
    if sentences != [] {
      var init, s := sentences[..|sentences| - 1], sentences[|sentences| - 1];
      assert forall x :: x in init ==> x in sentences;
      assert s in sentences;
      ExpandAllFitting(init, maxLength);
      ConcatAppend(init, s);
      assert init + [s] == sentences;
    }
  }

  lemma ConcatNonEmpty(ss: seq<string>)
    requires ss != [] && ss[0] != ""
    ensures Concat(ss) != ""
  {
  }

  /**
   * When every sentence fits, the untrimmed segments spell the text from its first
   * non-terminator through its last terminator (the whole text when nothing matches); in
   * particular whatever follows the last terminator is not in the output.
   */
  lemma RawSegmentsSpellText(text: string, maxLength: int)
    requires forall s :: s in Sentences(text) ==> |s| <= maxLength
    ensures Matches(text) != [] ==> TerminatorRunEnd(text, 0) < LastTerminatorEnd(text)
    ensures var f, e := TerminatorRunEnd(text, 0), LastTerminatorEnd(text);
      Concat(RawSegments(text, maxLength)) == if Matches(text) == [] then text else text[f..e]
  {
    RawSegmentsSpellSentences(text, maxLength);
    ExpandAllFitting(Sentences(text), maxLength);
    MatchesCoverText(text);
    var m := Matches(text);
    if m == [] {
      assert Concat([text]) == text + Concat([]);
    } else {
      assert IsSentence(m[0]);
      ConcatNonEmpty(m);
    }
  }

  /** Text without terminators after a closing terminator leaves the result unchanged. */
  lemma TextAfterLastTerminatorIgnored(prefix: string, tail: string, maxLength: int)
    requires |prefix| > 0 && IsTerminator(prefix[|prefix| - 1])
    requires exists a :: 0 <= a < |prefix| && !IsTerminator(prefix[a])
    requires forall t :: 0 <= t < |tail| ==> !IsTerminator(tail[t])
    ensures Segments(prefix + tail, maxLength) == Segments(prefix, maxLength)
  {
    var a :| 0 <= a < |prefix| && !IsTerminator(prefix[a]);
    assert a != |prefix| - 1;
    SomeMatch(prefix, 0, a, |prefix| - 1);
    MatchFromIgnoresTail(prefix, tail, 0);
    SameMatchesSameSegments(prefix + tail, prefix, maxLength);
  }

  /** The segments depend on the text only through its matches, once there are some. */
  lemma SameMatchesSameSegments(t1: string, t2: string, maxLength: int)
    requires MatchFrom(t1, 0) == MatchFrom(t2, 0) != []
    ensures Segments(t1, maxLength) == Segments(t2, maxLength)
  {
    assert Sentences(t1) == Sentences(t2);
  }

  // ---------------------------------------------------------------------------------------------
  // Short texts

  lemma {:induction false} NoOverflow(sentences: seq<string>, maxLength: int)
    requires |Concat(sentences)| <= maxLength
    ensures AddSentences(Start, sentences, maxLength) == Packing([], Concat(sentences))
    decreases |sentences|
  {
    if sentences != [] {
      var init, s := sentences[..|sentences| - 1], sentences[|sentences| - 1];
      ConcatAppend(init, s);
      assert init + [s] == sentences;
      NoOverflow(init, maxLength);
    }
  }

  /** When all the sentences together fit, they form one segment (none when they are empty). */
  lemma AtMostOneSegmentWhenAllFits(text: string, maxLength: int)
    requires |Concat(Sentences(text))| <= maxLength
    ensures var all := Concat(Sentences(text));
      Segments(text, maxLength) == if all == "" then [] else [Trim(all)]
    ensures |Segments(text, maxLength)| <= 1
  {
    NoOverflow(Sentences(text), maxLength);
  }


  /**
   * A text without a sentence (say, without `.`, `!` or `?`, or with all its terminators in
   * front) that fits is one segment: the whole text, trimmed, text after its terminators
   * included.
   */
  lemma TextWithoutSentenceIsOneSegment(text: string, maxLength: int)
    requires text != ""
    requires forall a, b :: 0 <= a < b < |text| && !IsTerminator(text[a]) ==> !IsTerminator(text[b])
    requires |text| <= maxLength
    ensures Segments(text, maxLength) == [Trim(text)]
  {
    NoMatchIff(text);
    OneSentenceSegment(text, maxLength);
  }

  /** A text whose sentences are itself alone, and that fits, is one segment. */
  lemma OneSentenceSegment(text: string, maxLength: int)
    requires text != "" && |text| <= maxLength && Matches(text) == []
    ensures Segments(text, maxLength) == [Trim(text)]
  {
    calc {
      Segments(text, maxLength);
      TrimAll(Flush(AddSentences(Start, Sentences(text), maxLength)).done);
      TrimAll(Flush(AddSentences(Start, [text], maxLength)).done);
      { OneSentenceFits(text, maxLength); }
      TrimAll([text]);
      [Trim(text)];
    }
  }

  /** A single sentence that fits is the single segment. */
  lemma OneSentenceFits(sentence: string, maxLength: int)
    requires sentence != "" && |sentence| <= maxLength
    ensures Flush(AddSentences(Start, [sentence], maxLength)).done == [sentence]
  {
    var single: seq<string> := [sentence];
    assert single[..0] == [];
    assert "" + sentence == sentence;
    assert AddSentences(Start, single, maxLength) == AddSentence(Start, sentence, maxLength);
  }

  /**
   * An over-long sentence `a,b` is cut at its comma, and the comma is dropped. Nothing bounds
   * the two halves: when one of them is longer than `maxLength`, so is its untrimmed segment.
   */
  lemma OverlongSentenceCutAtComma(a: string, b: string, maxLength: int)
    requires IsSentence(a + "," + b)
    requires ',' !in a && ',' !in b && a != ""
    requires |a| + |b| > maxLength
    ensures Segments(a + "," + b, maxLength) == [Trim(a), Trim(b)]
  {
    var text := a + "," + b;
    SentenceMatchesWhole(text);
    assert b != "" by {
      assert text[|text| - 1] != ',';
    }
    SplitWithoutSeparator(b, ',');
    SplitAtFirst(a, ',', b);
    TwoCommaParts(text, a, b, maxLength);
  }

  /**
   * The limit is not a bound on the result: a comma-free sentence whose trimmed form is longer
   * than `maxLength` is one segment, and that segment is longer than `maxLength`.
   */
  lemma CommaFreeSentenceExceedsLimit(w: string, maxLength: int)
    requires IsSentence(w) && ',' !in w && |Trim(w)| > maxLength
    ensures Segments(w, maxLength) == [Trim(w)]
    ensures |Segments(w, maxLength)[0]| > maxLength
  {
    assert |w| > maxLength;
    SentenceMatchesWhole(w);
    assert Sentences(w) == [w];
    OverlongAloneIsCommaParts(w, maxLength);
    SplitWithoutSeparator(w, ',');
    OnePartPacking(w, maxLength);
    assert RawSegments(w, maxLength) == [w];
    TrimAllOne(w);
  }

  lemma TrimAllOne(s: string)
    ensures TrimAll([s]) == [Trim(s)]
  {
    var r := TrimAll([s]);
    assert |r| == 1 && r[0] == Trim(s);
  }

  /** A lone part longer than `maxLength` becomes the current segment, with nothing pushed. */
  lemma OnePartPacking(part: string, maxLength: int)
    requires |part| > maxLength
    ensures AddParts(Start, [part], maxLength) == Packing([], part)
  {
    var one: seq<string> := [part];
    AddPartsStep(Start, one, 0, maxLength);
    assert one[..1] == one && one[..0] == [];
    assert "" + part == part;
  }

  /** `splitTextForTTS("abcd.", 3)` is `["abcd."]`, five characters against a limit of three. */
  lemma WordLongerThanLimit()
    ensures Segments("abcd.", 3) == ["abcd."]
  {
    var w := "abcd.";
    assert IsTrimmed(w) by {
      assert !IsWhitespace(w[0]) && !IsWhitespace(w[|w| - 1]);
    }
    assert IsSentence(w);
    CommaFreeSentenceExceedsLimit(w, 3);
  }

  /** An over-long lone sentence with two comma parts that do not fit together is those two parts. */
  lemma TwoCommaParts(text: string, a: string, b: string, maxLength: int)
    requires Matches(text) == [text] && Split(text, ',') == [a, b]
    requires a != "" && b != "" && |text| > maxLength && |a| + |b| > maxLength
    ensures Segments(text, maxLength) == [Trim(a), Trim(b)]
  {
    TwoCommaPartsRaw(text, a, b, maxLength);
    TrimmedPair(RawSegments(text, maxLength), a, b);
  }

  lemma TrimmedPair(raw: seq<string>, a: string, b: string)
    requires raw == [a, b]
    ensures TrimAll(raw) == [Trim(a), Trim(b)]
  {
    var r, t := TrimAll(raw), [Trim(a), Trim(b)];
    forall i | 0 <= i < 2
      ensures r[i] == t[i]
    {
      assert raw[i] == if i == 0 then a else b;
    }
    assert |r| == |t|;
  }

  lemma TwoCommaPartsRaw(text: string, a: string, b: string, maxLength: int)
    requires Matches(text) == [text] && Split(text, ',') == [a, b]
    requires a != "" && b != "" && |text| > maxLength && |a| + |b| > maxLength
    ensures RawSegments(text, maxLength) == [a, b]
  {
    assert Sentences(text) == [text];
    OverlongAloneIsCommaParts(text, maxLength);
    TwoPartsPacking(a, b, maxLength);
  }

  /** A lone sentence longer than `maxLength` is packed by its comma parts. */
  lemma OverlongAloneIsCommaParts(sentence: string, maxLength: int)
    requires |sentence| > maxLength
    ensures AddSentences(Start, [sentence], maxLength) == AddParts(Start, Split(sentence, ','), maxLength)
  {
    var single: seq<string> := [sentence];
    assert single[..0] == [];
    assert "" + sentence == sentence;
  }

  /** Two parts that do not fit together: the first is pushed, the second is current. */
  lemma TwoPartsPacking(a: string, b: string, maxLength: int)
    requires a != "" && |a| + |b| > maxLength
    ensures AddParts(Start, [a, b], maxLength) == Packing([a], b)
  {
    var parts := [a, b];
    AddPartsStep(Start, parts, 1, maxLength);
    AddPartsStep(Start, parts, 0, maxLength);
    assert parts[..2] == parts && parts[..1] == [a] && parts[..0] == [];
    assert "" + a == a;
    assert |a + b| == |a| + |b|;
    var none: seq<string> := [];
    assert none + [a] == [a];
  }
}
