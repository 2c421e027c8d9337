/**
 * The sentence matcher of splitTextForTTS: `text.match(/[^.!?]+[.!?]+/g) || [text]`
 * (src/services/ai/tts.service.ts:72), written as the regular-expression engine runs it.
 */
module TtsSentences {
  import opened Wrappers
  import opened JsString

  /** A member of the class `[.!?]`. */
  predicate IsTerminator(c: char) {
    c == '.' || c == '!' || c == '?'
  }

  /**
   * The language of `[^.!?]+[.!?]+`: a non-empty run of non-terminators followed by a
   * non-empty run of terminators.
   */
  predicate IsSentence(w: string) {
    && |w| > 0
    && !IsTerminator(w[0])
    && IsTerminator(w[|w| - 1])
    && forall a, b :: 0 <= a < b < |w| && IsTerminator(w[a]) ==> IsTerminator(w[b])
  }

  /** Where the greedy `[^.!?]+` starting at `i` stops. */
  function NonTerminatorRunEnd(text: string, i: nat): (j: nat)
    requires i <= |text|
    ensures i <= j <= |text|
    ensures forall t :: i <= t < j ==> !IsTerminator(text[t])
    ensures j == |text| || IsTerminator(text[j])
    decreases |text| - i
  {
    if i == |text| || IsTerminator(text[i]) then i else NonTerminatorRunEnd(text, i + 1)
  }

  /** Where the greedy `[.!?]+` starting at `i` stops. */
  function TerminatorRunEnd(text: string, i: nat): (k: nat)
    requires i <= |text|
    ensures i <= k <= |text|
    ensures forall t :: i <= t < k ==> IsTerminator(text[t])
    ensures k == |text| || !IsTerminator(text[k])
    decreases |text| - i
  {
    if i == |text| || !IsTerminator(text[i]) then i else TerminatorRunEnd(text, i + 1)
  }

  /**
   * One attempt of the pattern anchored at `i`, returning the end of the match. The greedy
   * `[^.!?]+` takes the whole run of non-terminators; giving characters back cannot help,
   * because `[.!?]+` would then start on a non-terminator. So the attempt fails exactly when
   * there is no such run at `i` or the run reaches the end of the text.
   */
  function TryMatchAt(text: string, i: nat): (r: Option<nat>)
    requires i <= |text|
    ensures r.Some? ==> i < r.value <= |text| && IsSentence(text[i..r.value])
    ensures r.Some? ==> r.value == |text| || !IsTerminator(text[r.value])
    ensures r.Some? ==> forall k :: r.value < k <= |text| ==> !IsSentence(text[i..k])
    ensures r.None? ==> forall k :: i < k <= |text| ==> !IsSentence(text[i..k])
  {
    var j := NonTerminatorRunEnd(text, i);
    if j == i || j == |text| then
      assert forall k :: i < k <= |text| ==> !IsSentence(text[i..k]) by {
        forall k | i < k <= |text| ensures !IsSentence(text[i..k]) {
          if j == i {
            assert text[i..k][0] == text[i];
          } else {
            assert text[i..k][k - i - 1] == text[k - 1];
          }
        }
      }
      None
    else
      var k := TerminatorRunEnd(text, j);
      var w := text[i..k];
      assert IsSentence(w) by {
        assert w[0] == text[i];
        assert w[|w| - 1] == text[k - 1];
        forall a, b | 0 <= a < b < |w| && IsTerminator(w[a]) ensures IsTerminator(w[b]) {
          assert w[a] == text[i + a] && w[b] == text[i + b];
        }
      }
      assert forall k' :: k < k' <= |text| ==> !IsSentence(text[i..k']) by {
        forall k' | k < k' <= |text| ensures !IsSentence(text[i..k']) {
          var w' := text[i..k'];
          assert w'[j - i] == text[j] && w'[k - i] == text[k];
        }
      }
      Some(k)
  }

  /**
   * The matches of the global pattern from position `i` on: after a match the search resumes at
   * its end, after a failed attempt one position further on.
   */
  function MatchFrom(text: string, i: nat): (r: seq<string>)
    requires i <= |text|
    ensures forall s :: s in r ==> IsSentence(s)
    decreases |text| - i
  {
    if i == |text| then []
    else
      match TryMatchAt(text, i)
      case Some(k) => [text[i..k]] + MatchFrom(text, k)
      case None => MatchFrom(text, i + 1)
  }

  /** `text.match(/[^.!?]+[.!?]+/g)`, with `null` written as the empty sequence. */
  function Matches(text: string): (r: seq<string>)
    ensures forall s :: s in r ==> IsSentence(s)
  {
    MatchFrom(text, 0)
  }

  /** The sentences splitTextForTTS packs: the matches, or the whole text when there are none. */
  function Sentences(text: string): (r: seq<string>)
    ensures r != []
    ensures text != "" ==> forall s :: s in r ==> s != ""
  {
    var m := Matches(text);
    if m == [] then [text] else m
  }
  /** One past the last terminator of `text`, or 0 when it has none. */
  function LastTerminatorEnd(text: string): (e: nat)
    ensures e <= |text|
    ensures e > 0 ==> IsTerminator(text[e - 1])
    ensures forall t :: e <= t < |text| ==> !IsTerminator(text[t])
  {
    if text == [] then 0
    else if IsTerminator(text[|text| - 1]) then |text|
    else
      var e := LastTerminatorEnd(text[..|text| - 1]);
      assert forall t :: e <= t < |text| - 1 ==> text[..|text| - 1][t] == text[t];
      e
  }

  /** A failed attempt on a terminator moves the search on by one, so a run of them is skipped. */
  lemma {:induction false} SkipTerminators(text: string, i: nat)
    requires i <= |text|
    ensures MatchFrom(text, i) == MatchFrom(text, TerminatorRunEnd(text, i))
    decreases |text| - i
  {
    if i < |text| && IsTerminator(text[i]) {
      SkipTerminators(text, i + 1);
    }
  }

  /** From the start of a run of non-terminators, the matches spell the text up to its last terminator. */
  lemma {:induction false} CoverFrom(text: string, i: nat)
    requires i <= |text|
    requires i == |text| || !IsTerminator(text[i])
    ensures Concat(MatchFrom(text, i)) == if i < LastTerminatorEnd(text) then text[i..LastTerminatorEnd(text)] else ""
    decreases |text| - i
  {
    var e := LastTerminatorEnd(text);
    if i == |text| {
    } else if NonTerminatorRunEnd(text, i) == |text| {
      NoTerminatorNoMatch(text, i);
      assert e <= i;
    } else {
      var k := CoverStep(text, i);
      CoverFrom(text, k);
      CoverJoin(text, i, k, e, Concat(MatchFrom(text, i)), Concat(MatchFrom(text, k)));
    }
  }

  /** The text up to a match's end, followed by what the rest covers, is the text up to `e`. */
  lemma CoverJoin(text: string, i: nat, k: nat, e: nat, whole: string, rest: string)
    requires i < k <= e <= |text|
    requires whole == text[i..k] + rest
    requires rest == if k < e then text[k..e] else ""
    ensures whole == text[i..e]
  {
    if k < e {
      assert text[i..k] + text[k..e] == text[i..e];
    } else {
      assert text[i..k] + "" == text[i..e];
    }
  }

  /** A successful attempt at `i` contributes the text up to its end, which is at most the last terminator's end. */
  lemma CoverStep(text: string, i: nat) returns (k: nat)
    requires i < |text| && !IsTerminator(text[i]) && NonTerminatorRunEnd(text, i) < |text|
    ensures i < k <= LastTerminatorEnd(text) && (k == |text| || !IsTerminator(text[k]))
    ensures Concat(MatchFrom(text, i)) == text[i..k] + Concat(MatchFrom(text, k))
  {
    var j := NonTerminatorRunEnd(text, i);
    k := TerminatorRunEnd(text, j);
    var rest := MatchFrom(text, k);
    assert TryMatchAt(text, i) == Some(k);
    assert MatchFrom(text, i) == [text[i..k]] + rest;
    assert ([text[i..k]] + rest)[1..] == rest;
    assert IsTerminator(text[k - 1]);
  }

  /**
   * The sentences matched in `text` are, one after another, exactly the text from its first
   * non-terminator through its last terminator: leading terminators and everything after the
   * last terminator are left out.
   */
  lemma MatchesCoverText(text: string)
    ensures var f, e := TerminatorRunEnd(text, 0), LastTerminatorEnd(text);
      Concat(Matches(text)) == if f < e then text[f..e] else ""
  {
    SkipTerminators(text, 0);
    CoverFrom(text, TerminatorRunEnd(text, 0));
  }

  /** Without a terminator from `i` on, no attempt succeeds. */
  lemma {:induction false} NoTerminatorNoMatch(text: string, i: nat)
    requires i <= |text|
    requires forall t :: i <= t < |text| ==> !IsTerminator(text[t])
    ensures MatchFrom(text, i) == []
    decreases |text| - i
  {
    if i < |text| {
      NoTerminatorNoMatch(text, i + 1);
    }
  }

  /** A non-terminator followed later by a terminator gives at least one match. */
  lemma {:induction false} SomeMatch(text: string, i: nat, a: nat, b: nat)
    requires i <= a < b < |text|
    requires !IsTerminator(text[a]) && IsTerminator(text[b])
    ensures MatchFrom(text, i) != []
    decreases |text| - i
  {
    if i < a && TryMatchAt(text, i).None? {
      SomeMatch(text, i + 1, a, b);
    } else if i == a {
      assert NonTerminatorRunEnd(text, a) <= b;
    }
  }

  /**
   * Text without terminators appended after a terminator changes no match: the search over it
   * fails at every position.
   */
  lemma {:induction false} MatchFromIgnoresTail(prefix: string, tail: string, i: nat)
    requires i <= |prefix| && |prefix| > 0 && IsTerminator(prefix[|prefix| - 1])
    requires forall t :: 0 <= t < |tail| ==> !IsTerminator(tail[t])
    ensures MatchFrom(prefix + tail, i) == MatchFrom(prefix, i)
    decreases |prefix| - i
  {
    var text := prefix + tail;
    if i == |prefix| {
      NoTerminatorNoMatch(text, i);
    } else {
      TryMatchIgnoresTail(prefix, tail, i);
      match TryMatchAt(prefix, i) {
        case Some(k) =>
          MatchFromIgnoresTail(prefix, tail, k);
          assert MatchFrom(text, i) == [text[i..k]] + MatchFrom(text, k);
        case None =>
          MatchFromIgnoresTail(prefix, tail, i + 1);
          assert MatchFrom(text, i) == MatchFrom(text, i + 1);
      }
    }
  }

  /** Before the last terminator, an attempt sees only the prefix. */
  lemma TryMatchIgnoresTail(prefix: string, tail: string, i: nat)
    requires i < |prefix| && IsTerminator(prefix[|prefix| - 1])
    requires forall t :: 0 <= t < |tail| ==> !IsTerminator(tail[t])
    ensures TryMatchAt(prefix + tail, i) == TryMatchAt(prefix, i)
    ensures TryMatchAt(prefix, i).Some? ==> (prefix + tail)[i..TryMatchAt(prefix, i).value] == prefix[i..TryMatchAt(prefix, i).value]
  {
    var text := prefix + tail;
    var j := NonTerminatorRunEnd(prefix, i);
    NonTerminatorRunIgnoresTail(prefix, tail, i);
    if j > i {
      TerminatorRunIgnoresTail(prefix, tail, j);
      var k := TerminatorRunEnd(prefix, j);
      assert text[i..k] == prefix[i..k];
    }
  }

  lemma NonTerminatorRunIgnoresTail(prefix: string, tail: string, i: nat)
    requires i < |prefix| && IsTerminator(prefix[|prefix| - 1])
    ensures NonTerminatorRunEnd(prefix, i) < |prefix|
    ensures NonTerminatorRunEnd(prefix + tail, i) == NonTerminatorRunEnd(prefix, i)
  {
    var text := prefix + tail;
    var j, j' := NonTerminatorRunEnd(prefix, i), NonTerminatorRunEnd(text, i);
    assert j < |prefix|;
    assert text[j] == prefix[j];
  }

  lemma TerminatorRunIgnoresTail(prefix: string, tail: string, j: nat)
    requires j < |prefix|
    requires forall t :: 0 <= t < |tail| ==> !IsTerminator(tail[t])
    ensures TerminatorRunEnd(prefix + tail, j) == TerminatorRunEnd(prefix, j)
  {
    var text := prefix + tail;
    var k, k' := TerminatorRunEnd(prefix, j), TerminatorRunEnd(text, j);
    if k < |prefix| {
      assert text[k] == prefix[k];
    } else if |tail| > 0 {
      assert text[k] == tail[0];
    }
  }

  /** With no terminator after a non-terminator from `i` on, no attempt succeeds. */
  lemma {:induction false} NoSentenceNoMatch(text: string, i: nat)
    requires i <= |text|
    requires forall a, b :: i <= a < b < |text| && !IsTerminator(text[a]) ==> !IsTerminator(text[b])
    ensures MatchFrom(text, i) == []
    decreases |text| - i
  {
    if i < |text| {
      NoSentenceNoMatch(text, i + 1);
    }
  }

  /** The pattern matches nowhere exactly when no non-terminator is followed by a terminator. */
  lemma NoMatchIff(text: string)
    ensures Matches(text) == [] <==>
      forall a, b :: 0 <= a < b < |text| && !IsTerminator(text[a]) ==> !IsTerminator(text[b])
  {
    if forall a, b :: 0 <= a < b < |text| && !IsTerminator(text[a]) ==> !IsTerminator(text[b]) {
      NoSentenceNoMatch(text, 0);
    } else {
      var a, b :| 0 <= a < b < |text| && !IsTerminator(text[a]) && IsTerminator(text[b]);
      SomeMatch(text, 0, a, b);
    }
  }

  /** A text that is one sentence is matched whole. */
  lemma SentenceMatchesWhole(text: string)
    requires IsSentence(text)
    ensures Matches(text) == [text]
  {
    assert text[0..|text|] == text;
    var k := TryMatchAt(text, 0).value;
    assert text[0..k] == text;
    assert MatchFrom(text, k) == [];
    assert MatchFrom(text, 0) == [text[0..k]] + MatchFrom(text, k);
  }
}
