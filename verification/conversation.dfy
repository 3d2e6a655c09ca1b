/**
  The conversation helpers of gateway_bot.py: the per-guild, bounded and time-windowed
  context of recent transcriptions, its rendering for the reply prompt, and the
  heuristic that decides whether a transcription is addressed to the bot.
*/
module Conversation {
  import opened Wrappers
  import opened Text
  import opened Discord

  /** One remembered utterance: `{'username', 'text', 'timestamp'}`. */
  datatype ContextEntry = ContextEntry(username: string, text: string, timestamp: Time)

  /** `conversation_context`: guild id -> recent entries, oldest first. */
  type ContextStore = map<Guild, seq<ContextEntry>>

  /** `CONTEXT_MAX_ENTRIES`. */
  const ContextMaxEntries: nat := 5

  /** `CONTEXT_TIMEOUT`, in seconds. */
  const ContextTimeout: real := 300.0

  /** The entries of `entries` whose timestamp is strictly after `cutoff`, in order. */
  function Fresh(entries: seq<ContextEntry>, cutoff: Time): (r: seq<ContextEntry>)
    ensures |r| <= |entries|
    ensures forall x :: x in r <==> x in entries && x.timestamp > cutoff
  {
    if entries == [] then []
    else
      var last := entries[|entries| - 1];
      Fresh(entries[..|entries| - 1], cutoff) + (if last.timestamp > cutoff then [last] else [])
  }

  /** Appending an entry younger than the cutoff appends it to the kept entries. */
  lemma FreshAppendYoung(entries: seq<ContextEntry>, e: ContextEntry, cutoff: Time)
    requires e.timestamp > cutoff
    ensures Fresh(entries + [e], cutoff) == Fresh(entries, cutoff) + [e]
  {
    assert (entries + [e])[..|entries|] == entries;
  }

  /** The last `n` elements of `xs` (all of them when there are fewer): Python's `xs[-n:]`. */
  function LastN<T>(xs: seq<T>, n: nat): (r: seq<T>)
    ensures |r| == if |xs| < n then |xs| else n
    ensures r == xs[|xs| - |r|..]
  {
    if |xs| > n then xs[|xs| - n..] else xs
  }

  /** The entries stored for `g`, or none. */
  function EntriesOf(ctx: ContextStore, g: Guild): seq<ContextEntry> {
    Get(ctx, g, [])
  }

  /**
    The entry list of one guild after `add_to_context` at time `now`: the new entry is
    appended, every entry not younger than `now - CONTEXT_TIMEOUT` is dropped, and of the
    rest only the last five are kept, in their original order.
  */
  function AddEntry(entries: seq<ContextEntry>, entry: ContextEntry, now: Time): (r: seq<ContextEntry>)
    requires entry.timestamp == now
    ensures 1 <= |r| <= ContextMaxEntries
    ensures r[|r| - 1] == entry
    ensures forall x :: x in r ==> x.timestamp > now - ContextTimeout
    ensures forall x :: x in r ==> x in entries || x == entry
    ensures var kept := Fresh(entries + [entry], now - ContextTimeout);
            |r| == (if |kept| < ContextMaxEntries then |kept| else ContextMaxEntries)
            && r == kept[|kept| - |r|..]
  {
    var kept := Fresh(entries + [entry], now - ContextTimeout);
    FreshAppendYoung(entries, entry, now - ContextTimeout);
    var window := LastN(kept, ContextMaxEntries);
    assert forall x :: x in window ==> x in kept;
    window
  }

  /** `add_to_context(g, username, text)` at time `now`; other guilds are untouched. */
  function AddToContext(ctx: ContextStore, g: Guild, username: string, text: string, now: Time): (r: ContextStore)
    ensures g in r && r[g] == AddEntry(EntriesOf(ctx, g), ContextEntry(username, text, now), now)
    ensures forall h :: h != g ==> (h in r <==> h in ctx) && (h in ctx ==> r[h] == ctx[h])
  {
    ctx[g := AddEntry(EntriesOf(ctx, g), ContextEntry(username, text, now), now)]
  }

  /** One prompt line, `f"{username}: {text}"`. */
  function Line(e: ContextEntry): string {
    e.username + ": " + e.text
  }

  /** The prompt lines of `entries`, in order. */
  function Lines(entries: seq<ContextEntry>): (r: seq<string>)
    ensures |r| == |entries|
    ensures forall i :: 0 <= i < |entries| ==> r[i] == Line(entries[i])
  {
    seq(|entries|, i requires 0 <= i < |entries| => Line(entries[i]))
  }

  /** A string ends with `suffix`. */
  predicate EndsWith(s: string, suffix: string) {
    |suffix| <= |s| && s[|s| - |suffix|..] == suffix
  }

  /**
    `get_context_summary(g)`: the empty string when the guild has no entries, otherwise
    the last five entries as `username: text` lines joined by newlines, most recent last.
  */
  function GetContextSummary(ctx: ContextStore, g: Guild): (r: string)
    ensures r == "" <==> g !in ctx || ctx[g] == []
    ensures g in ctx && ctx[g] != [] ==> EndsWith(r, Line(ctx[g][|ctx[g]| - 1]))
  {
    if g !in ctx || ctx[g] == [] then ""
    else
      var lines := Lines(LastN(ctx[g], 5));
      JoinEndsWithLast(lines, "\n");
      Join(lines, "\n")
  }

  /** After `add_to_context`, the prompt summary ends with the line just added. */
  lemma SummaryAfterAdd(ctx: ContextStore, g: Guild, username: string, text: string, now: Time)
    ensures var s := GetContextSummary(AddToContext(ctx, g, username, text, now), g);
            s != "" && EndsWith(s, username + ": " + text)
  {
  }

  /** A context built by any sequence of additions stays within both bounds. */
  lemma ContextBoundsAfterAdds(ctx: ContextStore, g: Guild, adds: seq<(string, string, Time)>)
    requires adds != []
    ensures var r := AddAll(ctx, g, adds);
            g in r && |r[g]| <= ContextMaxEntries
            && forall x :: x in r[g] ==> x.timestamp > adds[|adds| - 1].2 - ContextTimeout
  {
  }

  /** Fold `add_to_context` over `(username, text, now)` triples, in order. */
  function AddAll(ctx: ContextStore, g: Guild, adds: seq<(string, string, Time)>): ContextStore {
    if adds == [] then ctx
    else
      var a := adds[|adds| - 1];
      AddToContext(AddAll(ctx, g, adds[..|adds| - 1]), g, a.0, a.1, a.2)
  }

  /** `BOT_TRIGGER_NAMES`. */
  const BotTriggerNames: seq<string> := [
    "golfito", "golfobot", "golfostreams", "bot", "streams",
    "golfo", "golf", "compa", "compadre", "amigo", "bro",
    "asistente", "ayudante", "ai"
  ]

  /** `ATTENTION_WORDS`. */
  const AttentionWords: seq<string> := ["oye", "hey", "escucha", "ey", "eh", "mira", "ve", "ven", "oiga", "hola"]

  /** The `question_words` list of `is_addressing_bot`. */
  const QuestionWords: seq<string> := [
    "qué", "que", "cómo", "como", "cuál", "cual", "dónde", "donde",
    "cuándo", "cuando", "por qué", "porque", "quién", "quien"
  ]

  /**
    `is_addressing_bot(text)`, with its three checks in source order.  Naming the bot is
    enough; without a name, an attention word is needed.
  */
  predicate IsAddressingBot(text: string)
    ensures ContainsAny(Lower(text), BotTriggerNames) ==> IsAddressingBot(text)
    ensures IsAddressingBot(text) ==> ContainsAny(Lower(text), BotTriggerNames) || ContainsAny(Lower(text), AttentionWords)
  {
    if text == "" then false
    else
      var lower := Lower(text);
      if ContainsAny(lower, BotTriggerNames) then true
      else if Contains(lower, "golfo") && ContainsAny(lower, AttentionWords) then true
      else ContainsAny(lower, AttentionWords) && ContainsAny(lower, QuestionWords) && WordCount(lower) <= 20
  }

  /**
    The addressing rule stated without the 'golfo' + attention-word check: that check can
    never decide the answer, because 'golfo' is itself a trigger name.
  */
  lemma AddressingRule(text: string)
    ensures IsAddressingBot(text) <==>
      text != "" &&
      var lower := Lower(text);
      (ContainsAny(lower, BotTriggerNames)
       || (ContainsAny(lower, AttentionWords) && ContainsAny(lower, QuestionWords) && WordCount(lower) <= 20))
  {
    if text != "" && Contains(Lower(text), "golfo") {
      assert BotTriggerNames[5] == "golfo";
    }
  }

  /** A transcription naming the bot, such as "oye golfobot que hora es", is addressed to it. */
  lemma AddressingExample()
    ensures IsAddressingBot("oye golfobot que hora es")
  {
    var t := "oye golfobot que hora es";
    var l := Lower(t);
    assert l[4..12] == "golfobot" by {
      forall k | 0 <= k < 8
        ensures l[4..12][k] == "golfobot"[k]
      {
        assert t[4 + k] == "golfobot"[k];
      }
    }
    assert OccursAt(l, BotTriggerNames[1], 4);
    assert Contains(l, BotTriggerNames[1]);
  }
}
