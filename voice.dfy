/**
 * Voice choice for narration and the clean-up of narration text: the voice
 * library, the gender and tone match of `select_voice_id`, the personality
 * fallback of `generate_audio`, and the removal of `[SFX: ...]` cues.
 */
module Voice {
  import opened Wrappers
  import opened Strings
  import opened Sequences

  datatype VoiceInfo = VoiceInfo(name: string, id: string, gender: string, style: string, tags: seq<string>)

  const AutumnId: string := "EXAVITQu4vr4xnSDxMaL"

  /** The gender `generate_audio` asks for. */
  const Female: string := "female"

  /** `VOICE_LIBRARY`, in its insertion order. */
  const Library: seq<VoiceInfo> := [
    VoiceInfo("autumn", AutumnId, "female", "emotional", ["art", "warm", "reflective", "ghost"]),
    VoiceInfo("jane", "21m00Tcm4TlvDq8ikWAM", "female", "professional", ["history", "audiobook", "educational"]),
    VoiceInfo("henry", "TxGEqnHWrfWFTfGW9XjX", "male", "soft", ["friendly", "soothing", "professional"]),
    VoiceInfo("quentin", "ErXwobaYiN019PkySvjV", "male", "well-rounded", ["educational", "narrator", "history"]),
    VoiceInfo("drew", "29vD33N1CtxCmqQRPOHJ", "male", "energetic", ["fun", "romantic", "comedy"])
  ]

  /** `s.lower().strip()`. */
  function Normalize(s: string): string {
    Strip(Lower(s))
  }

  /** The voices of one gender, in library order. */
  function OfGender(voices: seq<VoiceInfo>, gender: string): (r: seq<VoiceInfo>)
    ensures forall v :: v in r <==> v in voices && v.gender == gender
    ensures IsSubsequence(r, voices)
  {
    if voices == [] then []
    else
      var rest := OfGender(voices[1..], gender);
      assert voices == [voices[0]] + voices[1..];
      if voices[0].gender == gender then
        assert ([voices[0]] + rest)[1..] == rest;
        [voices[0]] + rest
      else rest
  }

  /** A list with one more voice at the end keeps that voice at the end exactly when it has the gender. */
  lemma {:induction false} OfGenderAppend(voices: seq<VoiceInfo>, v: VoiceInfo, gender: string)
    ensures OfGender(voices + [v], gender) == OfGender(voices, gender) + (if v.gender == gender then [v] else [])
  {
    if voices == [] {
      assert [] + [v] == [v] && [v][1..] == [];
    } else {
      assert (voices + [v])[0] == voices[0] && (voices + [v])[1..] == voices[1..] + [v];
      OfGenderAppend(voices[1..], v, gender);
    }
  }

  /** The voices of the requested gender, or the whole library when there is none. */
  function Candidates(gender: string): (r: seq<VoiceInfo>)
    ensures r != [] && IsSubsequence(r, Library) && forall v :: v in r ==> v in Library
    ensures (exists v :: v in Library && v.gender == gender) ==>
      r == OfGender(Library, gender) && forall v :: v in r <==> v in Library && v.gender == gender
    ensures !(exists v :: v in Library && v.gender == gender) ==> r == Library
  {
    var matching := OfGender(Library, gender);
    assert Library[0] in Library;
    assert matching != [] ==> matching[0] in matching;
    if matching != [] then matching
    else
      SubsequenceRefl(Library);
      Library
  }

  /** A voice's fit for a tone: 2 when the tone is part of its style, 2 when it is one of its tags, 1 for each special pairing. */
  function ToneScore(v: VoiceInfo, tone: string): (score: int)
    ensures 0 <= score <= 5
  {
    (if Contains(v.style, tone) then 2 else 0)
    + (if tone in v.tags then 2 else 0)
    + (if tone == "spooky" && v.style == "deep" then 1 else 0)
    + (if tone == "fun" && v.style == "energetic" then 1 else 0)
  }

  /** `voices[k]` has the highest score, and no earlier voice has it. */
  ghost predicate IsFirstBest(voices: seq<VoiceInfo>, tone: string, k: int) {
    && 0 <= k < |voices|
    && (forall j :: 0 <= j < |voices| ==> ToneScore(voices[j], tone) <= ToneScore(voices[k], tone))
    && (forall j :: 0 <= j < k ==> ToneScore(voices[j], tone) < ToneScore(voices[k], tone))
  }

  /** The loop of `select_voice_id`: a strictly better score replaces the pick, starting below every score. */
  method FirstBest(voices: seq<VoiceInfo>, tone: string) returns (best: nat)
    requires voices != []
    ensures IsFirstBest(voices, tone, best)
  {
    best := 0;
    var maxScore := -1;
    var i := 0;
    while i < |voices|
      invariant 0 <= i <= |voices| && 0 <= best < |voices|
      invariant i == 0 ==> best == 0 && maxScore == -1
      invariant i > 0 ==> best < i && maxScore == ToneScore(voices[best], tone)
      invariant forall j :: 0 <= j < i ==> ToneScore(voices[j], tone) <= maxScore
      invariant forall j :: 0 <= j < best ==> ToneScore(voices[j], tone) < maxScore
    {
      var score := ToneScore(voices[i], tone);
      if score > maxScore {
        maxScore := score;
        best := i;
      }
      i := i + 1;
    }
  }

  /**
   * `select_voice_id`: among the voices of the normalised gender (all voices
   * when none has it), the first with the best score for the normalised tone.
   */
  method SelectVoiceId(gender: string, tone: string) returns (id: string, ghost chosen: nat)
    ensures var voices := Candidates(Normalize(gender));
      IsFirstBest(voices, Normalize(tone), chosen) && id == voices[chosen].id
    ensures exists v :: v in Library && v.id == id
  {
    var voices := Candidates(Normalize(gender));
    var best := FirstBest(voices, Normalize(tone));
    id, chosen := voices[best].id, best;
    assert voices[best] in voices;
  }

  /** `style_map.get(personality, 'soft')`. */
  function StyleFor(personality: string): string {
    if personality == "friendly" then "soft"
    else if personality == "serious" then "strong"
    else if personality == "fun" then "energetic"
    else if personality == "creepy" then "deep"
    else "soft"
  }

  /** Every tone the personality fallback can ask for. */
  lemma StyleForValues(personality: string)
    ensures StyleFor(personality) in ["soft", "strong", "energetic", "deep"]
  {
  }

  /**
   * For every tone the fallback asks for, both female voices score zero, so
   * the first of them, autumn, wins.
   */
  lemma FallbackPicksAutumn(tone: string, k: int)
    requires tone in ["soft", "strong", "energetic", "deep"]
    requires IsFirstBest(Candidates(Female), tone, k)
    ensures Candidates(Female)[k].id == AutumnId
  {
    FemaleVoices();
    FemaleScoresZero(tone);
    assert ToneScore(Library[0], tone) == ToneScore(Library[1], tone);
  }

  lemma FemaleScoresZero(tone: string)
    requires tone in ["soft", "strong", "energetic", "deep"]
    ensures ToneScore(Library[0], tone) == 0 && ToneScore(Library[1], tone) == 0
  {
    AutumnScoresZero(tone);
    JaneScoresZero(tone);
  }

  lemma AutumnScoresZero(tone: string)
    requires tone in ["soft", "strong", "energetic", "deep"]
    ensures ToneScore(Library[0], tone) == 0
  {
    NotInStyle("emotional", tone);
    AutumnFacts();
  }

  lemma JaneScoresZero(tone: string)
    requires tone in ["soft", "strong", "energetic", "deep"]
    ensures ToneScore(Library[1], tone) == 0
  {
    NotInStyle("professional", tone);
    JaneFacts();
  }

  lemma AutumnFacts()
    ensures Library[0].style == "emotional" && Library[0].tags == ["art", "warm", "reflective", "ghost"]
  {
  }

  lemma JaneFacts()
    ensures Library[1].style == "professional" && Library[1].tags == ["history", "audiobook", "educational"]
  {
  }

  /** The female voices are the first two of the library, autumn then jane. */
  lemma FemaleVoices()
    ensures Candidates(Female) == Library[..2]
  {
    assert OfGender(Library[4..], Female) == [];
    assert OfGender(Library[3..], Female) == [];
    assert OfGender(Library[2..], Female) == [];
    assert OfGender(Library[1..], Female) == [Library[1]];
  }

  /** None of the fallback tones is part of a female voice's style. */
  lemma NotInStyle(style: string, tone: string)
    requires style in ["emotional", "professional"] && tone in ["soft", "strong", "energetic", "deep"]
    ensures !Contains(style, tone)
  {
    NoOpeningPair(style, tone);
  }

  /** A text in which the first two characters of `t` never stand side by side does not contain `t`. */
  lemma NoOpeningPair(s: string, t: string)
    requires |t| >= 2
    requires forall j :: 0 <= j < |s| - 1 ==> s[j] != t[0] || s[j + 1] != t[1]
    ensures !Contains(s, t)
  {
    forall j ensures !OccursAt(s, t, j) {
      if 0 <= j && j + |t| <= |s| {
        assert s[j..j + |t|][0] == s[j] && s[j..j + |t|][1] == s[j + 1];
      }
    }
  }

  /** Lower-case text is already normal. */
  lemma NormalizeFixed(s: string)
    requires forall i :: 0 <= i < |s| ==> 'a' <= s[i] <= 'z'
    ensures Normalize(s) == s
  {
    var l := Lower(s);
    assert forall i :: 0 <= i < |s| ==> l[i] == s[i];
    assert l == s;
    assert forall i :: 0 <= i < |s| ==> !IsSpace(s[i]);
  }

  /**
   * The voice `generate_audio` speaks with: the given id when it is
   * non-empty, otherwise the best female voice for the personality's style,
   * which for every personality is autumn.
   */
  method AudioVoiceId(personality: string, voiceId: Option<string>) returns (id: string)
    ensures voiceId.Some? && voiceId.value != "" ==> id == voiceId.value
    ensures voiceId.None? || voiceId.value == "" ==> id == AutumnId
  {
    if voiceId.Some? && voiceId.value != "" {
      return voiceId.value;
    }
    ghost var chosen;
    id, chosen := SelectVoiceId(Female, StyleFor(personality));
    FallbackVoice(personality, chosen);
  }

  /** The first best female voice for a personality's style is autumn. */
  lemma FallbackVoice(personality: string, chosen: int)
    requires IsFirstBest(Candidates(Normalize(Female)), Normalize(StyleFor(personality)), chosen)
    ensures Candidates(Normalize(Female))[chosen].id == AutumnId
  {
    FemaleIsNormal();
    StyleIsNormal(personality);
    StyleForValues(personality);
    FallbackPicksAutumn(StyleFor(personality), chosen);
  }

  lemma FemaleIsNormal()
    ensures Normalize(Female) == Female
  {
    FemaleLowerCase();
    NormalizeFixed(Female);
  }

  lemma FemaleLowerCase()
    ensures forall i :: 0 <= i < |Female| ==> 'a' <= Female[i] <= 'z'
  {
  }

  /** Every style the fallback asks for is already lower case and stripped. */
  lemma StyleIsNormal(personality: string)
    ensures Normalize(StyleFor(personality)) == StyleFor(personality)
  {
    var tone := StyleFor(personality);
    if tone == "soft" {
      NormalizeFixed("soft");
    } else if tone == "strong" {
      NormalizeFixed("strong");
    } else if tone == "energetic" {
      NormalizeFixed("energetic");
    } else {
      NormalizeFixed("deep");
    }
  }

  const SfxOpen: string := "[SFX:"

  /** The index of the first `]` in `s` with no line break before it. */
  function CloseBracket(s: string): (r: Option<nat>)
    ensures r.Some? ==> r.value < |s| && s[r.value] == ']'
    ensures r.Some? ==> forall i :: 0 <= i < r.value ==> s[i] != ']' && s[i] != '\n'
    ensures r.None? ==> forall i :: 0 <= i < |s| && s[i] == ']' ==> exists j :: 0 <= j < i && s[j] == '\n'
  {
    if s == [] || s[0] == '\n' then None
    else if s[0] == ']' then Some(0)
    else
      match CloseBracket(s[1..])
      case None =>
        assert forall i :: 1 <= i < |s| ==> s[i] == s[1..][i - 1];
        None
      case Some(k) => Some(k + 1)
  }

  /** The length of the `[SFX:...]` cue that `s` opens with, if it opens with one (the pattern `\[SFX:.*?\]`). */
  function CueLength(s: string): (r: Option<nat>)
    ensures r.Some? ==> 6 <= r.value <= |s| && StartsWith(s, SfxOpen) && s[r.value - 1] == ']'
  {
    if !StartsWith(s, SfxOpen) then None
    else
      match CloseBracket(s[5..])
      case None => None
      case Some(k) => Some(5 + k + 1)
  }

  /** `re.sub(r'\[SFX:.*?\]', '', s)`: one left-to-right pass that drops each cue it meets. */
  function RemoveCues(s: string): (r: string)
    ensures |r| <= |s|
    decreases |s|
  {
    if s == [] then []
    else
      match CueLength(s)
      case Some(n) => RemoveCues(s[n..])
      case None => [s[0]] + RemoveCues(s[1..])
  }

  /** The text sent to speech: the cues removed, then the surrounding whitespace. */
  function SpeechText(text: string): string {
    Strip(RemoveCues(text))
  }

  /** A cue at the front is dropped whole. */
  lemma RemoveCuesDropsCue(body: string, rest: string)
    requires forall i :: 0 <= i < |body| ==> body[i] != ']' && body[i] != '\n'
    ensures RemoveCues(SfxOpen + body + "]" + rest) == RemoveCues(rest)
  {
    var s := SfxOpen + body + "]" + rest;
    assert s[..5] == SfxOpen;
    var after := s[5..];
    assert after == body + "]" + rest;
    assert after[|body|] == ']';
    assert CloseBracket(after) == Some(|body|) by {
      BracketAt(after, |body|);
    }
    assert s[5 + |body| + 1..] == rest;
  }

  lemma BracketAt(s: string, k: nat)
    requires k < |s| && s[k] == ']' && forall i :: 0 <= i < k ==> s[i] != ']' && s[i] != '\n'
    ensures CloseBracket(s) == Some(k)
    decreases k
  {
    if k > 0 {
      BracketAt(s[1..], k - 1);
    }
  }

  /** Text in which no cue opens reaches speech only stripped. */
  lemma NoCueOnlyStripped(text: string)
    requires !Contains(text, SfxOpen)
    ensures RemoveCues(text) == text
    ensures SpeechText(text) == Strip(text)
  {
    NoCueKept(text);
  }

  lemma {:induction false} NoCueKept(text: string)
    requires !Contains(text, SfxOpen)
    ensures RemoveCues(text) == text
    decreases |text|
  {
    if text != [] {
      NoCueInTail(text);
      NoCueKept(text[1..]);
      assert text == [text[0]] + text[1..];
    }
  }

  /** Text without a cue does not open with one, and neither does its tail contain one. */
  lemma NoCueInTail(text: string)
    requires text != [] && !Contains(text, SfxOpen)
    ensures CueLength(text).None? && !Contains(text[1..], SfxOpen)
  {
    assert !OccursAt(text, SfxOpen, 0);
    if Contains(text[1..], SfxOpen) {
      assert text[1..|text|] == text[1..];
      ContainsInSlice(text, 1, |text|, SfxOpen);
    }
  }

}
