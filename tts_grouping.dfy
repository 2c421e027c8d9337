/**
 * No sentence is split across segments when every sentence fits: the untrimmed segments of
 * splitTextForTTS (src/services/ai/tts.service.ts:76-106) are the matched sentences cut into
 * consecutive, non-empty groups, each group packed into one segment, and a group is closed only
 * when its next sentence would not fit beside it.
 */
module TtsGrouping {
  import opened JsString
  import opened TtsSentences
  import opened TtsSegments

  /** The groups, one after another. */
  function Flatten(groups: seq<seq<string>>): seq<string>
    decreases |groups|
  {
    if groups == [] then [] else Flatten(groups[..|groups| - 1]) + groups[|groups| - 1]
  }

  lemma FlattenAppend(groups: seq<seq<string>>, g: seq<string>)
    ensures Flatten(groups + [g]) == Flatten(groups) + g
  {
    assert (groups + [g])[..|groups|] == groups;
  }

  /**
   * Each segment is the concatenation of its non-empty group and fits in `maxLength`, and a
   * segment was closed only because the first sentence of the next group would have made it too
   * long.
   */
  ghost predicate Packs(groups: seq<seq<string>>, segments: seq<string>, maxLength: int) {
    && |groups| == |segments|
    && (forall i :: 0 <= i < |groups| ==> groups[i] != [] && segments[i] == Concat(groups[i]) && |segments[i]| <= maxLength)
    && (forall i :: 0 <= i < |groups| - 1 ==> |segments[i]| + |groups[i + 1][0]| > maxLength)
  }

  /** `segments` packs `sentences` greedily, group by group and in order. */
  ghost predicate IsGreedyPacking(groups: seq<seq<string>>, sentences: seq<string>, segments: seq<string>, maxLength: int) {
    Flatten(groups) == sentences && Packs(groups, segments, maxLength)
  }

  lemma PacksAppend(groups: seq<seq<string>>, segments: seq<string>, g: seq<string>, segment: string, maxLength: int)
    requires Packs(groups, segments, maxLength)
    requires g != [] && segment == Concat(g) && |segment| <= maxLength
    requires groups != [] ==> |segments[|groups| - 1]| + |g[0]| > maxLength
    ensures Packs(groups + [g], segments + [segment], maxLength)
  {
    var gs, ss := groups + [g], segments + [segment];
    forall i | 0 <= i < |gs|
      ensures gs[i] != [] && ss[i] == Concat(gs[i]) && |ss[i]| <= maxLength
    {
      if i < |groups| {
        assert gs[i] == groups[i] && ss[i] == segments[i];
      }
    }
    forall i | 0 <= i < |gs| - 1
      ensures |ss[i]| + |gs[i + 1][0]| > maxLength
    {
      assert ss[i] == segments[i];
      if i + 1 < |groups| {
        assert gs[i + 1] == groups[i + 1];
      }
    }
  }

  /** The loop state after some sentences: closed groups for the pushed segments, plus an open one. */
  ghost predicate GreedyState(groups: seq<seq<string>>, open: seq<string>, sentences: seq<string>, p: Packing, maxLength: int) {
    && Flatten(groups) + open == sentences
    && Packs(groups, p.done, maxLength)
    && p.current == Concat(open)
    && |p.current| <= maxLength
    && (open == [] ==> groups == [])
    && (open != [] ==> p.current != "")
    && (open != [] && groups != [] ==> |p.done[|groups| - 1]| + |open[0]| > maxLength)
  }

  /** A sentence that does not fit beside the open group closes it and opens its own. */
  lemma GreedyClose(groups: seq<seq<string>>, open: seq<string>, sentences: seq<string>, p: Packing, s: string, maxLength: int)
    returns (groups': seq<seq<string>>, open': seq<string>)
    requires GreedyState(groups, open, sentences, p, maxLength)
    requires s != "" && |s| <= maxLength && |p.current + s| > maxLength
    ensures GreedyState(groups', open', sentences + [s], AddSentence(p, s, maxLength), maxLength)
  {
    assert open != [];
    groups', open' := groups + [open], [s];
    PacksAppend(groups, p.done, open, p.current, maxLength);
    FlattenAppend(groups, open);
    assert AddSentence(p, s, maxLength) == Packing(p.done + [p.current], s);
    assert Concat([s]) == s + Concat([]);
    assert (p.done + [p.current])[|groups|] == p.current;
  }

  /** A sentence that fits beside the open group joins it. */
  lemma GreedyExtend(groups: seq<seq<string>>, open: seq<string>, sentences: seq<string>, p: Packing, s: string, maxLength: int)
    returns (groups': seq<seq<string>>, open': seq<string>)
    requires GreedyState(groups, open, sentences, p, maxLength)
    requires s != "" && |p.current + s| <= maxLength
    ensures GreedyState(groups', open', sentences + [s], AddSentence(p, s, maxLength), maxLength)
  {
    groups', open' := groups, open + [s];
    ConcatAppend(open, s);
    assert AddSentence(p, s, maxLength) == Packing(p.done, p.current + s);
    assert Flatten(groups') + open' == (Flatten(groups) + open) + [s];
    assert open' != [] && open'[0] == (if open == [] then s else open[0]);
  }

  lemma GreedyStep(groups: seq<seq<string>>, open: seq<string>, sentences: seq<string>, p: Packing, s: string, maxLength: int,
                   sentences': seq<string>, p': Packing)
    returns (groups': seq<seq<string>>, open': seq<string>)
    requires GreedyState(groups, open, sentences, p, maxLength)
    requires s != "" && |s| <= maxLength
    requires sentences' == sentences + [s] && p' == AddSentence(p, s, maxLength)
    ensures GreedyState(groups', open', sentences', p', maxLength)
  {
    if |p.current + s| > maxLength {
      groups', open' := GreedyClose(groups, open, sentences, p, s, maxLength);
    } else {
      groups', open' := GreedyExtend(groups, open, sentences, p, s, maxLength);
    }
  }

  lemma {:induction false} GreedyFold(sentences: seq<string>, maxLength: int)
    returns (groups: seq<seq<string>>, open: seq<string>)
    requires forall i :: 0 <= i < |sentences| ==> sentences[i] != "" && |sentences[i]| <= maxLength
    requires maxLength >= 0
    ensures GreedyState(groups, open, sentences, AddSentences(Start, sentences, maxLength), maxLength)
    decreases |sentences|
  {
    if sentences == [] {
      groups, open := [], [];
    } else {
      var n := |sentences| - 1;
      var init, s := sentences[..n], sentences[n];
      assert forall i :: 0 <= i < |init| ==> init[i] == sentences[i];
      var g, o := GreedyFold(init, maxLength);
      var p := AddSentences(Start, init, maxLength);
      assert init + [s] == sentences;
      assert AddSentences(Start, sentences, maxLength) == AddSentence(p, s, maxLength);
      groups, open := GreedyStep(g, o, init, p, s, maxLength, sentences, AddSentences(Start, sentences, maxLength));
    }
  }

  lemma GreedyFlush(groups: seq<seq<string>>, open: seq<string>, sentences: seq<string>, p: Packing, maxLength: int)
    returns (all: seq<seq<string>>)
    requires GreedyState(groups, open, sentences, p, maxLength)
    ensures IsGreedyPacking(all, sentences, Flush(p).done, maxLength)
  {
    if open == [] {
      all := [];
    } else {
      all := groups + [open];
      FlattenAppend(groups, open);
      PacksAppend(groups, p.done, open, p.current, maxLength);
    }
  }

  /**
   * When every sentence has at most `maxLength` characters, the untrimmed segments are a greedy
   * packing of the sentences: no sentence is split across segments.
   */
  lemma SentencesNotSplit(text: string, maxLength: int)
    requires text != ""
    requires forall i :: 0 <= i < |Sentences(text)| ==> |Sentences(text)[i]| <= maxLength
    ensures exists groups :: IsGreedyPacking(groups, Sentences(text), RawSegments(text, maxLength), maxLength)
  {
    var sentences := Sentences(text);
    assert sentences[0] in sentences;
    assert forall i :: 0 <= i < |sentences| ==> sentences[i] in sentences;
    var groups, open := GreedyFold(sentences, maxLength);
    var all := GreedyFlush(groups, open, sentences, AddSentences(Start, sentences, maxLength), maxLength);
    assert IsGreedyPacking(all, Sentences(text), RawSegments(text, maxLength), maxLength);
  }
}
