# GolfoBot voice core, modelled in Dafny

GolfoBot is a Discord bot that listens in voice channels, transcribes what people say,
and sometimes answers out loud. It also moderates text messages and keeps an Age of
Empires III community database. This project models three groups of its logic as pure
Dafny functions over immutable state, and proves properties about them:

- **The voice state machine of `gateway_bot.py`.** The module-level maps (listeners,
  per-speaker audio buffers, last-speech times, the processing set, the conversation
  context, packet and reconnect times, the reconnecting and speaking sets) form one
  `VoiceState` record. Each event handler is one transition:
  - packet ingestion, with its filters and the 250-packet FIFO buffer;
  - the end-of-speech check and `process_speech`. That function is split at its two
    awaits into `BeginSpeech` (up to the transcription), `FinishSpeech` (the context
    update and the reply decision) and `Release` (its `finally` block, which runs only
    after the reply has been sent and spoken).
  - teardown and start of listening;
  - the speaking flag around `tts_play`;
  - one tick of the voice health monitor.
- **The text helpers both bots use**: the bounded conversation context, the
  "is the bot being addressed" heuristic, the moderation predicates of `server.py`, the
  two `parse_team_format` parsers (the regex search is modelled as a leftmost-match
  scanner), and the button configuration lookup.
- **The vote and upsert rules of `aoe3/database.py`** over in-memory tables. The central
  invariant is that each strategy's `votes` counter equals the sum of its vote rows,
  with one row per (strategy, voter).

Nothing that the source awaits or calls out to is modelled. The clock (`now`), the
transcript, the 20% random chime-in, the keepalive send and the reconnect steps are all
inputs to the functions.

The model follows the code in these places:
- An admitted packet updates the guild's packet time and creates an empty buffer before
  its payload is inspected, so a packet with no audio still has an effect.
- Packets with ssrc 0 are dropped.
- A drained speaker keeps its last-speech time, and its processing marker, until the
  `finally` block, which runs after the awaited reply. Speech that arrives while the
  reply is pending is therefore left in the buffer until the speaker talks again.
- `stop_voice_listening` does not clear the speaking flag.
- The health monitor does not exempt guilds where the bot is speaking from the
  packet timeout.

Modules: `Wrappers`, `Discord` (ids and time), `Text` (Python string primitives),
`Conversation`, `TeamFormat`, `ServerText`, `GatewayTeams`, `VoiceState`,
`VoiceCapture`, `Playback`, `HealthMonitor`, `Aoe3Db`.

## Model

| member | source | states |
|---|---|---|
| Conversation.AddEntry | gateway_bot.py:221-241 | After an addition at `now`, the guild keeps between 1 and 5 entries, all younger than `now - 300`. The new entry is last, and every entry was either already there or is the new one. The result is the newest suffix of the entries that survive the age cutoff. |
| Conversation.AddToContext | gateway_bot.py:221-241 | Only the addressed guild's list changes. Every other guild keeps its entries. |
| Conversation.GetContextSummary | gateway_bot.py:244-253 | Empty exactly when the guild has no entries. Otherwise it ends with the newest entry's `username: text` line. |
| Conversation.IsAddressingBot | gateway_bot.py:255-286 | Text naming a trigger name is addressed, and addressed text holds a trigger name or an attention word. |
| Conversation.AddressingRule | gateway_bot.py:255-286 | Addressed iff the text is non-empty and its lower-case form contains a trigger name, or contains an attention word and a question word in at most 20 words. The 'golfo' plus attention-word branch never decides the result. |
| Conversation.AddressingExample | gateway_bot.py:212-216 | "oye golfobot que hora es" is addressed to the bot. |
| Text.LowerChangesIffUpper | server.py:272 | `s.lower() != s` holds exactly when `s` has an upper-case character. |
| TeamFormat.FirstMatch | server.py:373 | The position found is the leftmost one where the pattern matches: no match starts between the search start and it, and one starts there unless it is the end of the text. |
| TeamFormat.SearchFrom | server.py:373 | The search returns no match exactly when no position has one, and otherwise at least two sizes. |
| TeamFormat.SearchRender | server.py:373-379 | Searching a rendered `NvNv…vN` string finds the sizes it was rendered from. |
| ServerText.IsDangerousMessage | server.py:323-341 | False for empty text. Otherwise true exactly when the lower-cased text contains one of the ten patterns (accented spellings as intended). |
| ServerText.IsMeanMessage | server.py:237-278 | False for empty text and for text containing a self-harm pattern (accented spellings as intended). Otherwise true exactly when an insult token occurs, the caps rule fires, or there are at least four `!` or four `?`. |
| ServerText.IsDangerousMessageAsWritten | server.py:323-341 | False for empty text. Otherwise true exactly when the lower-cased text contains one of the ten patterns as the file spells them. |
| ServerText.IsMeanMessageAsWritten | server.py:237-278 | The same rule as `IsMeanMessage`, with the self-harm patterns as the file spells them. |
| ServerText.SelfHarmOverride | server.py:252-257 | Text containing a self-harm pattern is dangerous and never mean, whatever insults it also holds. |
| ServerText.SelfHarmOverrideAsWritten | server.py:252-257 | The same override holds for the patterns exactly as the file spells them. |
| ServerText.ExclamationsAreMean | server.py:275-276 | Without a self-harm pattern, four `!` make a message mean. |
| ServerText.CapsNeedCapitals | server.py:272-273 | The caps rule only fires on text with more than ten capitals. |
| ServerText.ParseTeamFormat | server.py:365-390 | No match gives None. For the leftmost match, a result exists exactly when its sizes are all equal, and then the team size is the first size and the count is the number of sizes. A result has at least two teams and total = size × count. |
| ServerText.ParseRendered | server.py:365-390 | Parsing `NvNv…vN` with k ≥ 2 groups yields (N, k, N·k) when the sizes are equal, and None when they are not. |
| ServerText.ParseExampleTwoTeams | server.py:373-390 | '2v2' gives (2, 2, 4). |
| ServerText.GetButtonConfig | server.py:161-181 | 'revo_yes' and 'revo_no' give their stored entries. Any other id gets a default that does not mention the user and whose prompt contains the id. The mention flag is set exactly for the stored ids. |
| ServerText.AccentedSelfHarmMissed | server.py:334-340 | "muérete" is not dangerous under the file's spelling of the patterns, and is dangerous under the intended spelling. |
| ServerText.AccentedInsultRoastedAsWritten | server.py:252-264 | "muérete idiota" is mean under the file's spelling of the patterns, and is spared under the intended spelling. |
| GatewayTeams.PairSearch | gateway_bot.py:670-672 | The retry search `(\d+)v(\d+)` finds nothing exactly when no position has a pair. |
| GatewayTeams.FallbackNeverFires | gateway_bot.py:668-673 | When the first search fails, the retry fails too. |
| GatewayTeams.GatewayParseTeamFormat | gateway_bot.py:666-686 | No match of the first pattern gives None, the retry included. For its leftmost match, a result exists exactly when the sizes are all equal, and then the team size is the first size and the count is the number of sizes. A result has at least two teams and total = size × count. |
| GatewayTeams.CountTeams | gateway_bot.py:678-686 | None for no sizes or uneven sizes. Otherwise (size, count, size × count), the same as the server's tail whenever there are at least two sizes. |
| GatewayTeams.GatewayAgreesWithServer | gateway_bot.py:666-686 | The gateway parser applied to lower-cased text agrees with the server parser applied to the original text. |
| VoiceState.StopVoiceListening | gateway_bot.py:618-630 | A guild with no listener is left alone. Otherwise its listener goes, and every buffered speaker of the guild loses its buffer, last-speech time and processing marker. Other guilds keep everything, and the invariant is preserved. |
| VoiceState.StartVoiceListening | gateway_bot.py:555-616 | The same client is a no-op. Otherwise the old listener is torn down first. The new client is recorded exactly when the sink starts, and a failure leaves the guild without a listener. |
| VoiceCapture.Push | gateway_bot.py:361-365 | One append keeps the newest packets of `buffer + [chunk]`, at most 250 of them. |
| VoiceCapture.PushAllKeepsNewest | gateway_bot.py:361-365 | After any run of packets, the buffer is exactly the last 250 of everything received, in arrival order. |
| VoiceCapture.Ingest | gateway_bot.py:298-374 | A packet that fails any of the four filters changes nothing. An admitted packet sets the guild's packet time and ensures the speaker has a buffer. With audio, it pushes the audio, stamps the speaker's last-speech time and schedules a check. Other speakers and fields are unchanged. |
| VoiceCapture.SpeechEnded | gateway_bot.py:375-385 | The test `check_speech_end` makes after its sleep: the speaker has a last-speech time, is not being processed, and has been quiet for at least a second. |
| VoiceCapture.AudioPostponesEnd | gateway_bot.py:376-386 | No end-of-speech check passes within a second of a packet with audio. |
| VoiceCapture.ConcatAppend | gateway_bot.py:411 | Joining two runs of chunks is concatenating their joins, so chunks are combined in order. |
| VoiceCapture.BeginSpeech | gateway_bot.py:388-409 | A busy speaker, or one with nothing buffered, is left alone. Otherwise the buffer empties. Fewer than 5 packets are noise and the cleanup runs; 5 or more are joined in order and the speaker stays marked. |
| VoiceCapture.SecondTriggerIsNoop | gateway_bot.py:392-393 | While a capture is being transcribed, another trigger for the same speaker changes nothing, and no end-of-speech check passes. |
| VoiceCapture.FinishSpeech | gateway_bot.py:411-437 | A non-blank transcript is added to the context. A reply is requested iff the text addresses the bot or the chime-in fires, and it carries a context summary ending with the new line. Nothing else changes: the speaker stays marked and keeps its last-speech time. |
| VoiceCapture.Release | gateway_bot.py:442-446 | The speaker loses its processing marker and its last-speech time, and nothing else changes. |
| VoiceCapture.ProcessSpeechCleansUp | gateway_bot.py:388-446 | After a full run with a capture, the speaker has an empty buffer, no marker and no last-speech time. |
| VoiceCapture.SpeechDuringReplyIsStranded | gateway_bot.py:375-446 | While the reply is pending, a packet from the speaker is buffered but no end-of-speech check passes; after the `finally`, none passes either, and the packet stays in the buffer. |
| Playback.TtsBegin | gateway_bot.py:718-727 | A client that is not connected returns False and changes nothing. Otherwise the guild is marked as speaking and nothing else changes. |
| Playback.TtsEnd | gateway_bot.py:1008-1020 | On both the success and the error path, the flag is cleared for any non-zero guild id, and the call returns whether playback succeeded. |
| Playback.SpeakingBracket | gateway_bot.py:716-1020 | Between begin and end the guild's packets are ignored. Afterwards the guild is no longer speaking. |
| HealthMonitor.AfterKeepalive | gateway_bot.py:1145-1154 | A keepalive is recorded exactly when one is due, a socket exists and the send returned. |
| HealthMonitor.Reconnect | gateway_bot.py:1156-1208 | The in-progress set is restored. Only a successful reconnect leaves a listener, and it resets the reconnect time, the packet time and the keepalive. A failed sink start stamps the reconnect time only. The monitor stops after a lost race exactly when the as-written `return` is modelled. On every outcome the guild's buffers, last-speech times and processing markers are what `stop_voice_listening` leaves, and every other guild keeps its listener, reconnect time and packet time. |
| HealthMonitor.CheckConnection | gateway_bot.py:1137-1208 | Disconnected clients are skipped. Without a due reconnect only the keepalive step happens. With one, the voice state and keepalive map are those the reconnect of the guild leaves after the keepalive step, and the monitor stops only after a lost race under the as-written `return`. The in-progress set is unchanged. |
| HealthMonitor.Tick | gateway_bot.py:1137-1208 | A stopped monitor does nothing. A tick never restarts the monitor, and with `continue` it never stops it. The voice-state invariant is kept. |
| HealthMonitor.KeepaliveOnlyWhenDue | gateway_bot.py:1145-1154 | A changed keepalive time means a keepalive was due and sent, or a reconnect succeeded. |
| HealthMonitor.TickRestoresReconnecting | gateway_bot.py:1162-1208 | A whole tick leaves the in-progress set as it found it. |
| HealthMonitor.RaceStopsMonitorAsWritten | gateway_bot.py:1185-1190 | As written, a lost race on the first client ends the tick there and stops the monitor. |
| HealthMonitor.RaceContinuesCorrected | gateway_bot.py:1185-1190 | With `continue`, the monitor keeps running and later clients are still checked. |
| HealthMonitor.RaceStrandsSecondGuild | gateway_bot.py:1185-1190 | Concrete case: a second silent guild is never reconnected as written, and is reconnected with `continue`. |
| Aoe3Db.TallyUpdate | aoe3/database.py:535-558 | Replacing a vote row moves its strategy's tally by the difference of the values, and leaves other tallies unchanged. |
| Aoe3Db.VoteStrategy | aoe3/database.py:517-562 | Unconfigured gives False, and a bad value gives ValueError. Success happens exactly when the strategy exists and the voter has a row or is a player; it leaves the voter's value stored and moves the counter by new minus old. Every other (strategy, voter) pair keeps its current vote, other strategies, players, civilizations and the next id are unchanged. A new vote by a non-player is an IntegrityError. Failures change nothing. The counter-equals-tally and uniqueness invariant is preserved. |
| Aoe3Db.UpdateKeepsConsistent | aoe3/database.py:535-560 | A re-vote in place keeps every counter equal to its tally and the rows unique. |
| Aoe3Db.AppendKeepsConsistent | aoe3/database.py:541-560 | A first vote appended keeps every counter equal to its tally and the rows unique. |
| Aoe3Db.VoteAgainKeepsCounts | aoe3/database.py:535-560 | A vote equal to the voter's current vote leaves every counter unchanged. |
| Aoe3Db.RevoteSameValueKeepsCounts | aoe3/database.py:535-559 | Casting the same vote again leaves every counter unchanged. |
| Aoe3Db.AddStrategy | aoe3/database.py:475-497 | A new strategy gets a fresh id and a zero counter, which equals its tally; players, votes and civilizations are unchanged. Unconfigured gives RuntimeError, and a non-player author is an IntegrityError. |
| Aoe3Db.RegisterPlayer | aoe3/database.py:242-277 | An existing player gets both usernames, and the URL only when one is given. A new player gets the given or the default URL. Unconfigured gives RuntimeError, and an AoE3 username taken by another player is an IntegrityError. Only the registered player changes. |
| Aoe3Db.RegisterIdempotent | aoe3/database.py:242-277 | Registering the same details twice is registering them once. |
| Aoe3Db.UpdatePlayerElo | aoe3/database.py:314-338 | Unknown or unconfigured changes nothing. Given fields are overwritten, the others are kept, the check time becomes `now`, and no other player changes. |
| Aoe3Db.UpsertCivilization | aoe3/database.py:423-448 | Unconfigured gives RuntimeError, and no name gives KeyError. An existing row gets every supplied column except the name, plus a fresh timestamp, and keeps every column not supplied. A new row is inserted when all keys are columns and the name is not NULL, and holds exactly the supplied keys plus `last_updated`. Only that civilization changes. |
| Aoe3Db.UpsertTwice | aoe3/database.py:423-448 | Upserting the same data twice at the same time is upserting it once. |

## Left out

- Audio transport, Opus decoding, the TTS engines, speech recognition, the LLM and HTTP calls: these are foreign libraries and services. Their results are inputs.
- asyncio scheduling: each handler, or each stretch of one between two awaits, is one atomic transition. Between `BeginSpeech` and `FinishSpeech`, and between `FinishSpeech` and `Release`, any other event may run. A reconnect inside a health-monitor tick is modelled start to finish, without the events that could run during its awaits.
- The `check_speech_end` sleep of 1.2 s: the check is evaluated at the `now` passed in.
- Logging, the `_first_packet_logged` marker, periodic garbage collection and the `'active'` entry of `voice_listeners`: none of these affects behaviour.
- `respond_to_speech` beyond the request it is asked to send: the HTTP call and the playback of the answer are not modelled.
- Text.Lower: `str.lower`, `str.isupper` and `str.isspace` are modelled only for ASCII and the Latin-1 Supplement, which covers the Spanish and English text the bot handles.
- TeamFormat.SearchFrom: `\d` is modelled as the ASCII digits only, although Python also accepts other Unicode decimal digits.
- Conversation.GetContextSummary: states emptiness and that the summary ends with the newest entry's line. It does not state the layout of the earlier lines.
- HealthMonitor.Tick: states when the monitor keeps running and that the voice-state invariant is kept. What it does to each client is stated by `CheckConnection` and the tick lemmas.
- Conversation.IsAddressingBot: its own contract states only the two bounds above. The exact rule is stated by `AddressingRule`.
- Playback.TtsEnd: a guild id of 0 keeps the flag, because of the `if guild_id:` test. Discord ids are never 0.
- Aoe3Db: SQLAlchemy's autoflush may raise the foreign-key `IntegrityError` at the second query rather than at commit. Either way the store is unchanged, but a new vote on a missing strategy may raise instead of returning False.
- Aoe3Db.RegisterPlayer, Aoe3Db.AddStrategy, Aoe3Db.UpdatePlayerElo and Aoe3Db.UpsertCivilization: column widths are not modelled. The columns are `String(100)`/`String(255)` and 32-bit `Integer`, and an over-long name or an out-of-range elo fails at commit on a database that enforces them, with the store unchanged. The model returns Ok for such values. Whether the error is raised at all depends on the database engine, which is not part of the model.
- Aoe3Db: `datetime.utcnow()` timestamps are the `now` passed in, as a real number of seconds.
- Aoe3Db: concurrent sessions are not modelled, nor are the query helpers (`get_*`, `ilike` filters, ordering and limits), matches, `init_db` and the engine setup.
- The other text paths of the bots (`preprocess_laugh`, voice styling, message routing) are not part of the core.

## Findings

| source | as written | input that shows it | evidently intended | confidence | as-written member | corrected member |
|---|---|---|---|---|---|---|
| server.py:335 | The self-harm patterns of `is_dangerous_message` are stored as mis-decoded text, "mu√©rete" and "m√°tate". | The message "muérete" is neither dangerous nor excluded from roasting. | Match "muérete" and "mátate". | high, not executed | ServerText.AccentedSelfHarmMissed | ServerText.IsDangerousMessage |
| server.py:253 | The same mis-decoded spellings in `is_mean_message`'s self-harm list. | The message "muérete idiota" is roasted as mean instead of being spared. | Spare text holding "muérete" or "mátate". | high, not executed | ServerText.AccentedInsultRoastedAsWritten | ServerText.IsMeanMessage |
| gateway_bot.py:1187-1190 | `return` when another join already reconnected the guild. This ends the whole `voice_health_monitor` coroutine. | Two connected guilds. The first has just been rejoined by hand; the second has two members and no packets for over 60 s. The second is never reconnected, and no later tick runs. | `continue` with the next voice client. | high, not executed | HealthMonitor.RaceStopsMonitorAsWritten | HealthMonitor.RaceContinuesCorrected |
