/**
 * The judge's replies as the evaluation agent reads them: the text it hands
 * to the JSON parser (fences cut away), the single-digit score fallback when
 * that text does not parse, and the zero scores when nothing can be read.
 * The model's reply and the JSON parser are parameters.
 */
module Eval {
  import opened Wrappers
  import opened Strings

  /** The fence that opens a block tagged as JSON. */
  const JsonFence: string := "```json"

  /** A `json` fence starts with a plain fence. */
  lemma JsonFenceStartsFence(s: string, i: int)
    requires OccursAt(s, JsonFence, i)
    ensures OccursAt(s, Fence, i)
  {
    assert s[i..i + 3] == s[i..i + 7][..3];
  }

  lemma NoFenceNoJsonFence(s: string)
    requires !Contains(s, Fence)
    ensures !Contains(s, JsonFence)
  {
    forall i ensures !OccursAt(s, JsonFence, i) {
      if OccursAt(s, JsonFence, i) {
        JsonFenceStartsFence(s, i);
      }
    }
  }

  lemma JsonFenceHasFence(s: string)
    requires Contains(s, JsonFence)
    ensures Contains(s, Fence)
  {
    var i := Find(s, JsonFence).value;
    JsonFenceStartsFence(s, i);
    ContainsAt(s, Fence, i);
  }

  /** The text `evaluate_rag` parses: its fence handling applied to the stripped reply. */
  function RagPayload(response: string): (content: string)
    ensures !Contains(Strip(response), Fence) ==> content == Strip(response)
    ensures Contains(Strip(response), Fence) ==> !Contains(content, Fence)
  {
    FencedContent(Strip(response))
  }

  /**
   * When `text` holds a `json` fence, the stripped text after the first one
   * up to the next fence; otherwise, when it holds a plain fence, the stripped
   * text between the first two fences; otherwise `text` itself.
   */
  function FencedContent(text: string): (content: string)
    ensures !Contains(text, Fence) ==> content == text
    ensures Contains(text, Fence) ==> !Contains(content, Fence)
  {
    if Contains(text, JsonFence) then
      JsonFenceHasFence(text);
      var piece := Split(Split(text, JsonFence)[1], Fence)[0];
      SplitPiecesFree(Split(text, JsonFence)[1], Fence);
      StripFenceFree(piece);
      Strip(piece)
    else if Contains(text, Fence) then
      var piece := Split(Split(text, Fence)[1], Fence)[0];
      SplitPiecesFree(Split(text, Fence)[1], Fence);
      StripFenceFree(piece);
      Strip(piece)
    else
      text
  }

  /**
   * A reply whose stripped text is `pre`, a `json` fence, `body`, a fence and
   * `post` is judged on the stripped `body`, provided nothing in front holds
   * a fence, the body holds none and does not end in a backtick, and the text
   * after the closing fence does not start with one.
   */
  lemma JsonFencedRag(response: string, pre: string, body: string, post: string)
    requires Strip(response) == pre + JsonFence + body + Fence + post
    requires !Contains(pre, Fence) && (pre == [] || pre[|pre| - 1] != '`')
    requires !Contains(body, Fence) && (body == [] || body[|body| - 1] != '`')
    requires post == [] || post[0] != '`'
    ensures RagPayload(response) == Strip(body)
  {
    JsonFencedText(Strip(response), pre, body, post);
  }

  lemma JsonFencedText(text: string, pre: string, body: string, post: string)
    requires text == pre + JsonFence + body + Fence + post
    requires !Contains(pre, Fence) && (pre == [] || pre[|pre| - 1] != '`')
    requires !Contains(body, Fence) && (body == [] || body[|body| - 1] != '`')
    requires post == [] || post[0] != '`'
    ensures FencedContent(text) == Strip(body)
  {
    var rest := body + Fence + post;
    FirstJsonFence(pre, rest);
    assert text == pre + JsonFence + rest;
    FirstJsonFenceAt(text, |pre|);
    assert Split(text, JsonFence)[1] == Before(rest, JsonFence) by {
      assert text[|pre| + 7..] == rest;
      SplitHead(rest, JsonFence);
    }
    BodyBeforeFence(body, post);
  }

  /** In `pre + JsonFence + rest` with such a `pre`, the first `json` fence is the one after `pre`. */
  lemma FirstJsonFence(pre: string, rest: string)
    requires !Contains(pre, Fence) && (pre == [] || pre[|pre| - 1] != '`')
    ensures OccursAt(pre + JsonFence + rest, JsonFence, |pre|)
    ensures forall j :: j < |pre| ==> !OccursAt(pre + JsonFence + rest, JsonFence, j)
  {
    var s := pre + JsonFence + rest;
    assert s == pre + Fence + ("json" + rest);
    assert s[|pre|..|pre| + 7] == JsonFence;
    FenceAfter(pre, "json" + rest);
    forall j | j < |pre| ensures !OccursAt(s, JsonFence, j) {
      if OccursAt(s, JsonFence, j) {
        JsonFenceStartsFence(s, j);
      }
    }
  }

  /** When the first `json` fence of `s` is at `i`, `s` splits there first. */
  lemma FirstJsonFenceAt(s: string, i: nat)
    requires OccursAt(s, JsonFence, i)
    requires forall j :: j < i ==> !OccursAt(s, JsonFence, j)
    ensures Split(s, JsonFence) == [s[..i]] + Split(s[i + 7..], JsonFence)
  {
    assert Find(s, JsonFence) == Some(i);
  }

  /** Cutting `body + Fence + post` at its first `json` fence and then at its first fence leaves `body`. */
  lemma BodyBeforeFence(body: string, post: string)
    requires !Contains(body, Fence) && (body == [] || body[|body| - 1] != '`')
    requires post == [] || post[0] != '`'
    ensures Split(Before(body + Fence + post, JsonFence), Fence)[0] == body
  {
    var rest := body + Fence + post;
    var m := Before(rest, JsonFence);
    FenceAfter(body, post);
    var n := |body|;
    assert post != [] ==> rest[n + 3] == post[0];
    if Contains(rest, JsonFence) {
      JsonFenceStartsFence(rest, |m|);
      assert |m| >= n;
      if n < |m| < n + 3 {
        FenceCharAt(rest, |m|, n + 3);
      }
    }
    assert |m| == n || |m| >= n + 3;
    if |m| == n {
      assert m == body;
      SplitHead(m, Fence);
    } else {
      assert m == body + Fence + m[n + 3..];
      FenceAfter(body, m[n + 3..]);
      SplitHead(m, Fence);
    }
  }

  /**
   * A reply with no `json` fence whose stripped text is `pre`, a fence,
   * `body` and a fence (and anything after) is judged on the stripped `body`.
   */
  lemma PlainFencedRag(response: string, pre: string, body: string, post: string)
    requires Strip(response) == pre + Fence + body + Fence + post
    requires !Contains(Strip(response), JsonFence)
    requires !Contains(pre, Fence) && (pre == [] || pre[|pre| - 1] != '`')
    requires !Contains(body, Fence) && (body == [] || body[|body| - 1] != '`')
    ensures RagPayload(response) == Strip(body)
  {
    PlainFencedText(Strip(response), pre, body, post);
  }

  lemma PlainFencedText(text: string, pre: string, body: string, post: string)
    requires text == pre + Fence + body + Fence + post
    requires !Contains(text, JsonFence)
    requires !Contains(pre, Fence) && (pre == [] || pre[|pre| - 1] != '`')
    requires !Contains(body, Fence) && (body == [] || body[|body| - 1] != '`')
    ensures FencedContent(text) == Strip(body)
  {
    var rest := body + Fence + post;
    assert text == pre + Fence + rest;
    FenceAfter(pre, rest);
    assert Find(text, Fence) == Some(|pre|);
    assert text[|pre| + 3..] == rest;
    assert Split(text, Fence)[1] == Before(rest, Fence) by {
      SplitHead(rest, Fence);
    }
    FenceAfter(body, post);
    SplitHead(body, Fence);
  }

  predicate IsDigit(c: char) {
    '0' <= c <= '9'
  }

  /** `\s*(\d)` at the front of `s`: the digit that follows the leading whitespace. */
  function DigitAfterSpace(s: string): (d: Option<nat>)
    ensures d.Some? ==> d.value <= 9
  {
    if s == [] then None
    else if IsDigit(s[0]) then Some((s[0] as int - '0' as int) as nat)
    else if IsSpace(s[0]) then DigitAfterSpace(s[1..])
    else None
  }

  /** Whitespace then a digit reads as that digit, whatever follows. */
  lemma {:induction false} DigitAfterSpaces(spaces: string, c: char, rest: string)
    requires forall i :: 0 <= i < |spaces| ==> IsSpace(spaces[i])
    requires IsDigit(c)
    ensures DigitAfterSpace(spaces + [c] + rest) == Some((c as int - '0' as int) as nat)
    decreases |spaces|
  {
    var s := spaces + [c] + rest;
    if spaces != [] {
      assert s[1..] == spaces[1..] + [c] + rest;
      DigitAfterSpaces(spaces[1..], c, rest);
    } else {
      assert s[0] == c;
    }
  }

  /** `re.search(key + r'\s*(\d)', text)`: the digit of the leftmost match, if any. */
  function SearchScore(text: string, key: string): (d: Option<nat>)
    ensures d.Some? ==> d.value <= 9
    decreases |text|
  {
    if StartsWith(text, key) && DigitAfterSpace(text[|key|..]).Some? then DigitAfterSpace(text[|key|..])
    else if text == [] then None
    else SearchScore(text[1..], key)
  }

  /** The search reports the digit after the first occurrence of the key that is followed by one. */
  lemma {:induction false} SearchScoreFirst(text: string, key: string, i: nat)
    requires OccursAt(text, key, i) && DigitAfterSpace(text[i + |key|..]).Some?
    requires forall j :: 0 <= j < i && OccursAt(text, key, j) ==> DigitAfterSpace(text[j + |key|..]).None?
    ensures SearchScore(text, key) == DigitAfterSpace(text[i + |key|..])
    decreases i
  {
    if i == 0 {
      assert text[..|key|] == key;
    } else {
      assert !(StartsWith(text, key) && DigitAfterSpace(text[|key|..]).Some?) by {
        if StartsWith(text, key) {
          assert OccursAt(text, key, 0);
        }
      }
      var t := text[1..];
      assert t[i - 1..i - 1 + |key|] == text[i..i + |key|];
      assert t[i - 1 + |key|..] == text[i + |key|..];
      forall j | 0 <= j < i - 1 && OccursAt(t, key, j) ensures DigitAfterSpace(t[j + |key|..]).None? {
        assert t[j..j + |key|] == text[j + 1..j + 1 + |key|];
        assert OccursAt(text, key, j + 1);
        assert t[j + |key|..] == text[j + 1 + |key|..];
      }
      SearchScoreFirst(t, key, i - 1);
    }
  }

  /** A text without the key yields no score. */
  lemma {:induction false} SearchScoreMissing(text: string, key: string)
    requires !Contains(text, key)
    ensures SearchScore(text, key) == None
    decreases |text|
  {
    assert !OccursAt(text, key, 0);
    if text != [] {
      if Contains(text[1..], key) {
        assert text[1..|text|] == text[1..];
        ContainsInSlice(text, 1, |text|, key);
      }
      SearchScoreMissing(text[1..], key);
    }
  }

  const FaithfulnessKey: string := "\"faithfulness\":"
  const AnswerRelevanceKey: string := "\"answer_relevance\":"
  const ContextRelevanceKey: string := "\"context_relevance\":"

  /** Where an evaluation's reasoning came from: the judge itself, or the digit fallback. */
  datatype Reasoning = Judged(text: string) | ExtractedByRegex

  datatype RagEvaluation = RagEvaluation(faithfulness: int, answerRelevance: int, contextRelevance: int, reasoning: Reasoning)

  /**
   * `evaluate_rag` after the judge has replied: what the parser makes of the
   * payload, or else one digit per score read off the raw reply, 0 for each
   * score whose key is not followed by a digit.
   */
  function EvaluateRag(response: string, parse: string -> Option<RagEvaluation>): (e: RagEvaluation)
    ensures parse(RagPayload(response)).Some? ==> e == parse(RagPayload(response)).value
    ensures parse(RagPayload(response)).None? ==>
      && e.reasoning == ExtractedByRegex
      && 0 <= e.faithfulness <= 9 && 0 <= e.answerRelevance <= 9 && 0 <= e.contextRelevance <= 9
  {
    match parse(RagPayload(response))
    case Some(e) => e
    case None =>
      RagEvaluation(
        SearchScore(response, FaithfulnessKey).GetOr(0),
        SearchScore(response, AnswerRelevanceKey).GetOr(0),
        SearchScore(response, ContextRelevanceKey).GetOr(0),
        ExtractedByRegex)
  }

  /** When the payload does not parse and the reply names no score, every score is 0. */
  lemma RagScoresZero(response: string, parse: string -> Option<RagEvaluation>)
    requires parse(RagPayload(response)).None?
    requires !Contains(response, FaithfulnessKey) && !Contains(response, AnswerRelevanceKey)
    requires !Contains(response, ContextRelevanceKey)
    ensures var e := EvaluateRag(response, parse);
      e.faithfulness == 0 && e.answerRelevance == 0 && e.contextRelevance == 0
  {
    SearchScoreMissing(response, FaithfulnessKey);
    SearchScoreMissing(response, AnswerRelevanceKey);
    SearchScoreMissing(response, ContextRelevanceKey);
  }

  /** When the payload does not parse, a score is the digit after the first occurrence of its key that has one. */
  lemma RagScoreFallback(response: string, parse: string -> Option<RagEvaluation>, i: nat)
    requires parse(RagPayload(response)).None?
    requires OccursAt(response, FaithfulnessKey, i) && DigitAfterSpace(response[i + |FaithfulnessKey|..]).Some?
    requires forall j :: 0 <= j < i && OccursAt(response, FaithfulnessKey, j) ==>
      DigitAfterSpace(response[j + |FaithfulnessKey|..]).None?
    ensures EvaluateRag(response, parse).faithfulness == DigitAfterSpace(response[i + |FaithfulnessKey|..]).value
  {
    SearchScoreFirst(response, FaithfulnessKey, i);
  }

  /** The text `evaluate_replanning` parses: every `json` fence removed, then every fence, then stripped. */
  function ReplanPayload(response: string): (cleaned: string)
    ensures !Contains(cleaned, Fence)
    ensures !Contains(response, Fence) ==> cleaned == Strip(response)
  {
    var untagged := Replace(response, JsonFence, "");
    RemoveFencesComplete(untagged);
    StripFenceFree(Replace(untagged, Fence, ""));
    UnfencedUntouched(response);
    Strip(Replace(untagged, Fence, ""))
  }

  lemma UnfencedUntouched(s: string)
    ensures !Contains(s, Fence) ==> Replace(Replace(s, JsonFence, ""), Fence, "") == s
  {
    if !Contains(s, Fence) {
      NoFenceNoJsonFence(s);
      ReplaceAbsent(s, JsonFence, "");
      ReplaceAbsent(s, Fence, "");
    }
  }

  /** A reply that is a `json` fence, a body and a closing fence is judged on the stripped body. */
  lemma ReplanFenced(body: string)
    requires !Contains(body, Fence) && (body == [] || body[|body| - 1] != '`')
    ensures ReplanPayload(JsonFence + body + Fence) == Strip(body)
  {
    DropJsonTag(body);
    DropClosingFence(body);
  }

  lemma DropJsonTag(body: string)
    requires !Contains(body, Fence)
    ensures Replace(JsonFence + body + Fence, JsonFence, "") == body + Fence
  {
    var rest := body + Fence;
    var s := JsonFence + rest;
    assert s[..7] == JsonFence && s[7..] == rest;
    SplitLeading(s, JsonFence);
    FenceFreeNoJsonFence(body);
    assert Split(s, JsonFence) == ["", rest];
    JoinAroundEmpty(rest);
    assert s == JsonFence + body + Fence;
  }

  /** A fence-free text followed by one fence holds no `json` fence. */
  lemma FenceFreeNoJsonFence(body: string)
    requires !Contains(body, Fence)
    ensures !Contains(body + Fence, JsonFence)
  {
    var rest := body + Fence;
    forall k ensures !OccursAt(rest, JsonFence, k) {
      if OccursAt(rest, JsonFence, k) {
        JsonFenceStartsFence(rest, k);
        assert rest[k..k + 3] == body[k..k + 3];
        assert OccursAt(body, Fence, k);
      }
    }
  }

  /** Joining an empty piece and a text with nothing between them gives the text. */
  lemma JoinAroundEmpty(rest: string)
    ensures Join(["", rest], "") == rest
  {
    assert ["", rest][1..] == [rest];
  }

  lemma DropClosingFence(body: string)
    requires !Contains(body, Fence) && (body == [] || body[|body| - 1] != '`')
    ensures Replace(body + Fence, Fence, "") == body
  {
    var rest := body + Fence;
    FenceAfter(body, "");
    assert body + Fence + "" == rest;
    assert Find(rest, Fence) == Some(|body|);
    assert rest[|body| + 3..] == "";
    assert Split(rest, Fence) == [body, ""];
    assert [body, ""][1..] == [""];
    assert Join([body, ""], "") == body + "" + Join([""], "");
    assert Replace(rest, Fence, "") == Join([body, ""], "");
  }

  datatype ReplanEvaluation = ReplanEvaluation(constraintSatisfaction: int, reasoning: ReplanReasoning)

  /** Why a replanning score is what it is. */
  datatype ReplanReasoning = JudgedReplan(text: string) | FailedToParse | NoCandidates

  /** `evaluate_replanning` after the judge has replied: the parsed evaluation, or satisfaction 0. */
  function EvaluateReplanning(response: string, parse: string -> Option<ReplanEvaluation>): (e: ReplanEvaluation)
    ensures parse(ReplanPayload(response)).Some? ==> e == parse(ReplanPayload(response)).value
    ensures parse(ReplanPayload(response)).None? ==> e.constraintSatisfaction == 0 && e.reasoning == FailedToParse
  {
    match parse(ReplanPayload(response))
    case Some(e) => e
    case None => ReplanEvaluation(0, FailedToParse)
  }
}
