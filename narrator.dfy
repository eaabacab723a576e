/**
 * The narrator's persona lookup: the four character personas, looked up by
 * the lower-cased personality value, with a generic sentence for any other.
 */
module Narrator {
  import opened Strings
  import opened State

  const HenryPersona: string := "You are Henry, a chill local guide. Casual tone, like talking to a friend. Don't oversell anything."
  const QuentinPersona: string := "You are Quentin, a historian. Thoughtful and knowledgeable, but not preachy. Keep it conversational."
  const DrewPersona: string := "You are Drew, an explorer. Upbeat when something's genuinely interesting, otherwise just helpful."
  const AutumnPersona: string := "You are Autumn, a storyteller. A hint of drama when it fits, but mostly straightforward."

  /** `CHARACTER_PERSONAS`. */
  const CharacterPersonas: map<string, string> := map[
    "henry" := HenryPersona,
    "quentin" := QuentinPersona,
    "drew" := DrewPersona,
    "autumn" := AutumnPersona
  ]

  /** The sentence used for a personality with no persona, keeping the value as it was given. */
  function GenericPersona(value: string): string {
    "You are a tour guide with a " + value + " personality."
  }

  /** `_get_persona_prompt`: the persona of the lower-cased value, or the generic sentence. */
  function PersonaPrompt(value: string): (prompt: string)
    ensures Lower(value) in CharacterPersonas ==> prompt == CharacterPersonas[Lower(value)]
    ensures Lower(value) !in CharacterPersonas ==> prompt == GenericPersona(value)
  {
    var key := Lower(value);
    if key in CharacterPersonas then CharacterPersonas[key] else GenericPersona(value)
  }

  /** The lookup ignores the case of ASCII letters in the value. */
  lemma PersonaCaseInsensitive(a: string, b: string)
    requires Lower(a) == Lower(b) && Lower(a) in CharacterPersonas
    ensures PersonaPrompt(a) == PersonaPrompt(b)
  {
  }

  /** Each character's name, in any case, selects its own persona. */
  lemma CharacterNames(value: string)
    ensures Lower(value) == "henry" ==> PersonaPrompt(value) == HenryPersona
    ensures Lower(value) == "quentin" ==> PersonaPrompt(value) == QuentinPersona
    ensures Lower(value) == "drew" ==> PersonaPrompt(value) == DrewPersona
    ensures Lower(value) == "autumn" ==> PersonaPrompt(value) == AutumnPersona
  {
  }

  /**
   * No guide personality names a character, so the narrator always falls
   * back to the generic sentence for the tour's personality.
   */
  lemma GuidePersonalitiesAreGeneric(p: GuidePersonality)
    ensures PersonaPrompt(p.Value()) == GenericPersona(p.Value())
  {
    var value := p.Value();
    assert forall i :: 0 <= i < |value| ==> 'a' <= value[i] <= 'z';
    LowerFixed(value);
    assert value !in CharacterPersonas by {
      FirstLetters(value, p);
    }
  }

  lemma FirstLetters(value: string, p: GuidePersonality)
    requires value == p.Value()
    ensures value !in {"henry", "quentin", "drew", "autumn"}
  {
    assert value[0] in {'f', 's', 'd'};
    if value[0] == 'd' {
      assert value[1] == 'r' && value[2] == 'a';
    }
  }

  /** Lower-case text is its own lower case. */
  lemma LowerFixed(s: string)
    requires forall i :: 0 <= i < |s| ==> 'a' <= s[i] <= 'z'
    ensures Lower(s) == s
  {
  }
}
