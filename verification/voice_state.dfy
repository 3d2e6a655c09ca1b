/**
  The module-level voice state of gateway_bot.py as one immutable record, and the two
  operations that attach and detach a guild's listener.

  Every handler of the bot runs on one event loop and touches this state only between
  awaits, so each handler (or each stretch of one between two awaits) is modelled as a
  single transition from one record to the next.
*/
module VoiceState {
  import opened Wrappers
  import opened Discord
  import opened Conversation

  /** `MAX_AUDIO_BUFFER_PACKETS`. */
  const MaxAudioBufferPackets: nat := 250

  /** The decoded PCM bytes of one voice packet. */
  type Pcm = seq<bv8>

  /** The state shared by the voice handlers. */
  datatype VoiceState = VoiceState(
    listeners: map<Guild, VoiceClientId>,         // voice_listeners (only the 'vc' entry)
    audioBuffers: map<SpeakerKey, seq<Pcm>>,      // audio_buffers
    lastSpeechTime: map<SpeakerKey, Time>,        // last_speech_time
    processing: set<SpeakerKey>,                  // processing_speech
    context: ContextStore,                        // conversation_context
    lastPacketTime: map<Guild, Time>,             // last_voice_packet_time
    reconnecting: set<Guild>,                     // voice_reconnect_in_progress
    speaking: set<Guild>,                         // bot_is_speaking
    reconnectTime: map<Guild, Time>               // voice_reconnect_time
  )

  /** The state at start-up: every map and set empty. */
  const Initial: VoiceState :=
    VoiceState(map[], map[], map[], {}, map[], map[], {}, {}, map[])

  /**
    The invariant the handlers keep: buffers hold at most 250 packets, and a speaker
    has a last-speech time or a processing marker only while it has a buffer.
  */
  predicate Wf(s: VoiceState) {
    (forall k :: k in s.audioBuffers ==> |s.audioBuffers[k]| <= MaxAudioBufferPackets)
    && s.lastSpeechTime.Keys <= s.audioBuffers.Keys
    && s.processing <= s.audioBuffers.Keys
  }

  lemma InitialWf()
    ensures Wf(Initial)
  {
  }

  /** The buffer of `key`, or the empty list when it has none. */
  function BufferOf(s: VoiceState, key: SpeakerKey): seq<Pcm> {
    Get(s.audioBuffers, key, [])
  }

  /** The buffered speakers of guild `g`. */
  function GuildKeys(s: VoiceState, g: Guild): set<SpeakerKey> {
    set k | k in s.audioBuffers && k.0 == g
  }

  /**
    `stop_voice_listening(g)`: nothing happens when `g` has no listener.  Otherwise the
    listener goes, and every buffered speaker of `g` loses its buffer, its last-speech
    time and its processing marker; other guilds keep everything.
  */
  function StopVoiceListening(s: VoiceState, g: Guild): (r: VoiceState)
    ensures g !in s.listeners ==> r == s
    ensures g in s.listeners ==>
              && g !in r.listeners
              && (forall h :: h != g ==> (h in r.listeners <==> h in s.listeners))
              && (forall h :: h in r.listeners ==> r.listeners[h] == s.listeners[h])
              && (forall k :: k in r.audioBuffers <==> k in s.audioBuffers && k.0 != g)
              && (forall k :: k in r.audioBuffers ==> r.audioBuffers[k] == s.audioBuffers[k])
              && (forall k :: k in r.lastSpeechTime <==>
                               k in s.lastSpeechTime && (k.0 != g || k !in s.audioBuffers))
              && (forall k :: k in r.lastSpeechTime ==> r.lastSpeechTime[k] == s.lastSpeechTime[k])
              && (forall k :: k in r.processing <==>
                               k in s.processing && (k.0 != g || k !in s.audioBuffers))
    ensures r.context == s.context && r.lastPacketTime == s.lastPacketTime
    ensures r.reconnecting == s.reconnecting && r.speaking == s.speaking
    ensures r.reconnectTime == s.reconnectTime
    ensures Wf(s) ==> Wf(r)
  {
    if g !in s.listeners then s
    else
      var gone := GuildKeys(s, g);
      s.(listeners := s.listeners - {g},
         audioBuffers := s.audioBuffers - gone,
         lastSpeechTime := s.lastSpeechTime - gone,
         processing := s.processing - gone)
  }

  /** In a well-formed state, teardown leaves no speaker of the guild behind. */
  lemma StopClearsGuild(s: VoiceState, g: Guild, u: User)
    requires Wf(s) && g in s.listeners
    ensures var r := StopVoiceListening(s, g);
            (g, u) !in r.audioBuffers && (g, u) !in r.lastSpeechTime && (g, u) !in r.processing
  {
  }

  /** Stopping twice is stopping once. */
  lemma StopIdempotent(s: VoiceState, g: Guild)
    ensures StopVoiceListening(StopVoiceListening(s, g), g) == StopVoiceListening(s, g)
  {
  }

  /** The result of a transition that can raise: the state it leaves and whether it returned normally. */
  datatype Step = Step(state: VoiceState, ok: bool)

  /**
    `start_voice_listening(vc)` for guild `g`: nothing happens when `g` already listens
    with this client.  Otherwise a listener on another client is torn down first, and
    `vc` is recorded when the sink starts (`started`); when it does not, the function
    re-raises and `g` is left without a listener.
  */
  function StartVoiceListening(s: VoiceState, g: Guild, vc: VoiceClientId, started: bool): (r: Step)
    ensures g in s.listeners && s.listeners[g] == vc ==> r == Step(s, true)
    ensures !(g in s.listeners && s.listeners[g] == vc) ==>
              && r.ok == started
              && (started ==> g in r.state.listeners && r.state.listeners[g] == vc)
              && (!started ==> g !in r.state.listeners)
              && (forall h :: h != g ==> (h in r.state.listeners <==> h in s.listeners))
              && (forall h :: h != g && h in s.listeners ==> r.state.listeners[h] == s.listeners[h])
              && (g in s.listeners ==> forall k :: k in s.audioBuffers && k.0 == g ==> k !in r.state.audioBuffers)
    ensures r.state.context == s.context && r.state.lastPacketTime == s.lastPacketTime
    ensures r.state.reconnecting == s.reconnecting && r.state.speaking == s.speaking
    ensures r.state.reconnectTime == s.reconnectTime
    ensures Wf(s) ==> Wf(r.state)
  {
    if g in s.listeners && s.listeners[g] == vc then Step(s, true)
    else
      var cleared := StopVoiceListening(s, g);
      if started then Step(cleared.(listeners := cleared.listeners[g := vc]), true)
      else Step(cleared, false)
  }
}
