/**
  The pure text functions of server.py: the moderation heuristics `is_dangerous_message`
  and `is_mean_message`, the team-format parser and the button configuration lookup.

  The accented self-harm patterns are stored in server.py as mis-decoded bytes: the file
  holds "mu\U{221A}\U{A9}rete" and "m\U{221A}\U{B0}tate" where "muérete" and "mátate" were
  meant, so real accented input never matches them.  `...AsWritten` members model the
  file as it stands; the members without that suffix use the intended spelling.
*/
module ServerText {
  import opened Wrappers
  import opened Text
  import TeamFormat

  // ---- Moderation ----

  /** The self-harm list of `is_mean_message` as the file spells it. */
  const SelfHarmPatternsAsWritten: seq<string> := [
    "kill yourself", "kys", "mu\U{221A}\U{A9}rete", "muerete", "m\U{221A}\U{B0}tate", "matate"
  ]

  /** The self-harm list of `is_mean_message` with its accents intact. */
  const SelfHarmPatterns: seq<string> := [
    "kill yourself", "kys", "mu\U{E9}rete", "muerete", "m\U{E1}tate", "matate"
  ]

  /** The threats `is_dangerous_message` adds to the self-harm list. */
  const ThreatPatterns: seq<string> := ["i will kill", "te voy a matar", "voy a matarte", "voy a matarlos"]

  /** `mean_tokens`. */
  const MeanTokens: seq<string> := [
    "idiot", "stupid", "stfu", "shut up", "fuck", "fucking", "bitch",
    "noob", "n00b", "trash", "sucks", "suck", "loser", "troll",
    "pendejo", "cabron", "culero", "puta"
  ]

  /** `is_dangerous_message` over a given self-harm list. */
  predicate DangerousWith(text: string, selfHarm: seq<string>)
  {
    if text == "" then false
    else ContainsAny(Lower(text), selfHarm + ThreatPatterns)
  }

  /** The caps heuristic: not already lower-case and more than `max(10, len // 3)` capitals. */
  predicate ShoutsInCaps(text: string) {
    Lower(text) != text && CountUpper(text) > (if 10 > |text| / 3 then 10 else |text| / 3)
  }

  /** At least four `!` or at least four `?`. */
  predicate HeavyPunctuation(text: string) {
    CountChar(text, '!') >= 4 || CountChar(text, '?') >= 4
  }

  /** `is_mean_message` over a given self-harm list, checks in source order. */
  predicate MeanWith(text: string, selfHarm: seq<string>)
  {
    if text == "" then false
    else
      var lower := Lower(text);
      if ContainsAny(lower, selfHarm) then false
      else if ContainsAny(lower, MeanTokens) then true
      else if ShoutsInCaps(text) then true
      else HeavyPunctuation(text)
  }

  /**
    `is_dangerous_message` as the file stands: false for empty text, otherwise true
    exactly when the lower-cased text contains one of the file's ten patterns.
  */
  predicate IsDangerousMessageAsWritten(text: string)
    ensures IsDangerousMessageAsWritten(text) <==>
      text != "" && exists k :: 0 <= k < 10 && Contains(Lower(text), (SelfHarmPatternsAsWritten + ThreatPatterns)[k])
  {
    DangerousWith(text, SelfHarmPatternsAsWritten)
  }

  /**
    `is_mean_message` as the file stands: never for empty text or text holding one of
    the file's self-harm spellings; otherwise an insult token, the caps heuristic or
    heavy punctuation.
  */
  predicate IsMeanMessageAsWritten(text: string)
    ensures IsMeanMessageAsWritten(text) <==>
      text != ""
      && (forall k :: 0 <= k < |SelfHarmPatternsAsWritten| ==> !Contains(Lower(text), SelfHarmPatternsAsWritten[k]))
      && ((exists k :: 0 <= k < |MeanTokens| && Contains(Lower(text), MeanTokens[k]))
          || ShoutsInCaps(text) || HeavyPunctuation(text))
  {
    MeanWith(text, SelfHarmPatternsAsWritten)
  }

  /**
    `is_dangerous_message` with the intended patterns: false for empty text, otherwise
    true exactly when the lower-cased text contains one of the ten patterns.
  */
  predicate IsDangerousMessage(text: string)
    ensures IsDangerousMessage(text) <==>
      text != "" && exists k :: 0 <= k < 10 && Contains(Lower(text), (SelfHarmPatterns + ThreatPatterns)[k])
  {
    DangerousWith(text, SelfHarmPatterns)
  }

  /**
    `is_mean_message` with the intended patterns: never for empty text or text holding a
    self-harm pattern; otherwise an insult token, the caps heuristic or heavy punctuation.
  */
  predicate IsMeanMessage(text: string)
    ensures IsMeanMessage(text) <==>
      text != ""
      && (forall k :: 0 <= k < |SelfHarmPatterns| ==> !Contains(Lower(text), SelfHarmPatterns[k]))
      && ((exists k :: 0 <= k < |MeanTokens| && Contains(Lower(text), MeanTokens[k]))
          || ShoutsInCaps(text) || HeavyPunctuation(text))
  {
    MeanWith(text, SelfHarmPatterns)
  }

  /** Text with a self-harm pattern is dangerous and never mean, whatever insults it also holds. */
  lemma SelfHarmOverride(text: string, k: nat)
    requires k < |SelfHarmPatterns| && Contains(Lower(text), SelfHarmPatterns[k])
    ensures IsDangerousMessage(text) && !IsMeanMessage(text)
  {
    assert (SelfHarmPatterns + ThreatPatterns)[k] == SelfHarmPatterns[k];
  }

  /** The same holds of the file as written, for its own spelling of the patterns. */
  lemma SelfHarmOverrideAsWritten(text: string, k: nat)
    requires k < |SelfHarmPatternsAsWritten| && Contains(Lower(text), SelfHarmPatternsAsWritten[k])
    ensures IsDangerousMessageAsWritten(text) && !IsMeanMessageAsWritten(text)
  {
    assert (SelfHarmPatternsAsWritten + ThreatPatterns)[k] == SelfHarmPatternsAsWritten[k];
  }

  /** "muérete" (with its accent) is missed by the file as written and caught as intended. */
  lemma AccentedSelfHarmMissed()
    ensures !IsDangerousMessageAsWritten("mu\U{E9}rete")
    ensures IsDangerousMessage("mu\U{E9}rete")
  {
    var t := "mu\U{E9}rete";
    assert Lower(t) == t;
    assert OccursAt(t, SelfHarmPatterns[2], 0);
    assert (SelfHarmPatterns + ThreatPatterns)[2] == SelfHarmPatterns[2];
    var pats := SelfHarmPatternsAsWritten + ThreatPatterns;
    forall k | 0 <= k < |pats|
      ensures !Contains(t, pats[k])
    {
      NotContainedLonger(t, pats[k]);
    }
  }

  /** None of the file's patterns occurs in "muérete". */
  lemma NotContainedLonger(t: string, p: string)
    requires t == "mu\U{E9}rete"
    requires p in SelfHarmPatternsAsWritten + ThreatPatterns
    ensures !Contains(t, p)
  {
    if |p| > |t| {
      NotContainedIf(t, p, 0);
    } else if p == "muerete" {
      NotContainedIf(t, p, 0);
    } else if p == "kys" {
      NotContainedIf(t, p, 0);
    } else {
      assert p == "m\U{221A}\U{B0}tate" || p == "matate";
      NotContainedIf(t, p, 1);
    }
  }

  /**
    The same miss decides `is_mean_message`: "muérete idiota" should be spared as a
    self-harm message, but as written the insult wins and the bot roasts it.
  */
  lemma AccentedInsultRoastedAsWritten()
    ensures IsMeanMessageAsWritten("mu\U{E9}rete idiota")
    ensures !IsMeanMessage("mu\U{E9}rete idiota")
  {
    var t := "mu\U{E9}rete idiota";
    InsultTextFacts(t);
    InsultTextOccurrences(t);
    NoSelfHarmAsWrittenIn(t);
    assert Contains(t, MeanTokens[0]);
    SelfHarmOverride(t, 2);
  }

  /** "muérete idiota" is already lower-case and has the shape `NoSelfHarmAsWrittenIn` needs. */
  lemma InsultTextFacts(t: string)
    requires t == "mu\U{E9}rete idiota"
    ensures Lower(t) == t
    ensures 'k' !in t && '\U{221A}' !in t
    ensures |t| >= 7 && 'm' !in t[1..] && t[1] != 'a' && t[2] != 'e'
  {
  }

  /** Where the accented verb and the insult sit in "muérete idiota". */
  lemma InsultTextOccurrences(t: string)
    requires t == "mu\U{E9}rete idiota"
    ensures OccursAt(t, "idiot", 8) && OccursAt(t, "mu\U{E9}rete", 0)
  {
    assert t[8..13] == "idiot";
    assert t[0..7] == "mu\U{E9}rete";
  }

  /**
    None of the file's self-harm spellings occurs in a text without `k` or `√` whose
    only `m` opens it and is not followed by `a`, nor by `u` then `e`.
  */
  lemma NoSelfHarmAsWrittenIn(t: string)
    requires 'k' !in t && '\U{221A}' !in t
    requires |t| >= 7 && 'm' !in t[1..] && t[1] != 'a' && t[2] != 'e'
    ensures !ContainsAny(t, SelfHarmPatternsAsWritten)
  {
    forall k | 0 <= k < |SelfHarmPatternsAsWritten|
      ensures !Contains(t, SelfHarmPatternsAsWritten[k])
    {
      NotContainedAsWritten(t, SelfHarmPatternsAsWritten[k]);
    }
  }

  /** One of the file's self-harm spellings against a text of the shape above. */
  lemma NotContainedAsWritten(t: string, p: string)
    requires 'k' !in t && '\U{221A}' !in t
    requires |t| >= 7 && 'm' !in t[1..] && t[1] != 'a' && t[2] != 'e'
    requires p in SelfHarmPatternsAsWritten
    ensures !Contains(t, p)
  {
    if p == "kill yourself" || p == "kys" {
      NotContainedIf(t, p, 0);
    } else if p == "muerete" {
      NotContainedAfterStart(t, p, 2);
    } else if p == "matate" {
      NotContainedAfterStart(t, p, 1);
    } else if p == "mu\U{221A}\U{A9}rete" {
      NotContainedIf(t, p, 2);
    } else {
      NotContainedIf(t, p, 1);
    }
  }

  /**
    A pattern whose first character appears in the text only at its start occurs, if at
    all, at the start; a differing character `i` rules that out too.
  */
  lemma NotContainedAfterStart(t: string, p: string, i: nat)
    requires i < |p| <= |t| && t[i] != p[i] && p[0] !in t[1..]
    ensures !Contains(t, p)
  {
    forall j | 0 <= j
      ensures !OccursAt(t, p, j)
    {
      if j + |p| <= |t| {
        if j == 0 {
          assert t[..|p|][i] == t[i];
        } else {
          assert t[j..j + |p|][0] == t[1..][j - 1];
        }
      }
    }
  }

  /**
    A pattern is not in a text that is shorter, that has the same length and differs, or
    that lacks one of the pattern's characters.
  */
  lemma NotContainedIf(t: string, p: string, i: nat)
    requires |p| > |t| || (|p| == |t| && p != t) || (i < |p| && p[i] !in t)
    ensures !Contains(t, p)
  {
    if i < |p| && p[i] !in t {
      forall j | 0 <= j
        ensures !OccursAt(t, p, j)
      {
        if j + |p| <= |t| {
          assert t[j..j + |p|][i] == t[j + i];
          assert t[j + i] in t;
        }
      }
    }
  }

  /** Without a self-harm pattern, four exclamation marks make a message mean. */
  lemma ExclamationsAreMean(text: string)
    requires CountChar(text, '!') >= 4
    requires forall k :: 0 <= k < |SelfHarmPatterns| ==> !Contains(Lower(text), SelfHarmPatterns[k])
    ensures IsMeanMessage(text)
  {
  }

  /** The caps heuristic only fires on text holding more than ten capitals. */
  lemma CapsNeedCapitals(text: string)
    requires ShoutsInCaps(text)
    ensures CountUpper(text) > 10 && exists i :: 0 <= i < |text| && IsUpperChar(text[i])
  {
    LowerChangesIffUpper(text);
  }

  // ---- Team format ----

  /**
    server.py's `parse_team_format`: the leftmost `(\d+)v(\d+)(?:v\d+)*` match, either case
    of `v`; `None` when nothing matches or the teams are uneven.
  */
  function ParseTeamFormat(text: string): (r: Option<TeamFormat.Teams>)
    ensures TeamFormat.SearchFrom(text, 0, true).None? ==> r.None?
    ensures TeamFormat.SearchFrom(text, 0, true).Some? ==>
              var sizes := TeamFormat.SearchFrom(text, 0, true).value;
              && (r.Some? <==> TeamFormat.Uniform(sizes))
              && (r.Some? ==> r.value.teamSize == sizes[0] && r.value.numTeams == |sizes|)
    ensures r.Some? ==> r.value.numTeams >= 2 && r.value.totalNeeded == r.value.teamSize * r.value.numTeams
  {
    match TeamFormat.SearchFrom(text, 0, true)
    case None => None
    case Some(sizes) => TeamFormat.FromSizes(sizes)
  }

  /** Parsing `NvNv...vN` with `k >= 2` groups yields `(N, k, N * k)`; uneven formats yield None. */
  lemma ParseRendered(sizes: seq<nat>)
    requires |sizes| >= 2
    ensures TeamFormat.Uniform(sizes) ==>
              ParseTeamFormat(TeamFormat.Render(sizes))
              == Some(TeamFormat.Teams(sizes[0], |sizes|, sizes[0] * |sizes|))
    ensures !TeamFormat.Uniform(sizes) ==> ParseTeamFormat(TeamFormat.Render(sizes)).None?
  {
    TeamFormat.SearchRender(sizes, true);
  }

  /** '2v2' gives (2, 2, 4). */
  lemma ParseExampleTwoTeams()
    ensures ParseTeamFormat("2v2") == Some(TeamFormat.Teams(2, 2, 4))
  {
    ParseRendered([2, 2]);
    assert TeamFormat.ShowNat(2) == "2";
    assert TeamFormat.RenderTail([2]) == "v2";
    assert TeamFormat.Render([2, 2]) == "2v2";
  }

  // ---- Buttons ----

  /** One entry of `BUTTON_CONFIGS`. */
  datatype ButtonConfig = ButtonConfig(prompt: string, acknowledgment: string, includeUserMention: bool)

  /** `BUTTON_CONFIGS` (the acknowledgments keep the file's byte sequences). */
  const ButtonConfigs: map<string, ButtonConfig> := map[
    "revo_yes" := ButtonConfig(
      "The user clicked YES on the revocation button. Generate a friendly confirmation message explaining that their revocation has been processed.",
      "Procesando tu respuesta... \U{201A}\U{FA}\U{D6}",
      true),
    "revo_no" := ButtonConfig(
      "The user clicked NO on the revocation button. Generate a friendly message acknowledging that they chose not to proceed with the revocation.",
      "Understood. Canceling revocation... \U{201A}\U{F9}\U{E5}",
      true)
  ]

  /** The fallback configuration built for an unknown button id. */
  function DefaultButtonConfig(customId: string): ButtonConfig {
    ButtonConfig(
      "The user clicked a button with ID: " + customId + ". Generate an appropriate response.",
      "Processing your request... \U{201A}\U{E8}\U{2265}",
      false)
  }

  /**
    `get_button_config(custom_id)`: the stored entry for the two revocation buttons,
    otherwise a default that does not mention the user and names the id in its prompt.
  */
  function GetButtonConfig(customId: string): (r: ButtonConfig)
    ensures customId == "revo_yes" || customId == "revo_no" ==> r == ButtonConfigs[customId]
    ensures customId != "revo_yes" && customId != "revo_no" ==>
              !r.includeUserMention && Contains(r.prompt, customId)
    ensures r.includeUserMention <==> customId in ButtonConfigs
  {
    if customId in ButtonConfigs then ButtonConfigs[customId]
    else
      var r := DefaultButtonConfig(customId);
      assert OccursAt(r.prompt, customId, 35);
      r
  }
}
