/**
  The speaking bracket of gateway_bot.py's `tts_play`: the guild is marked as speaking
  before synthesis and playback, and unmarked afterwards on the normal and the error
  path alike, so that packet ingestion pauses while the bot talks.  Synthesis and
  playback themselves are one step whose success is an input.
*/
module Playback {
  import opened Wrappers
  import opened Discord
  import opened VoiceState
  import VoiceCapture

  /** The voice client handed to `tts_play`: missing or disconnected, or connected in a guild. */
  datatype Client = NotConnected | Connected(guild: Guild)

  /**
    `tts_play` up to the synthesis: `None` (the call returns False) when the client is
    not connected, leaving the state alone; otherwise the guild is marked as speaking
    and nothing else changes.
  */
  function TtsBegin(s: VoiceState, client: Client): (r: Option<VoiceState>)
    ensures client.NotConnected? <==> r.None?
    ensures r.Some? ==> r.value.speaking == s.speaking + {client.guild}
                        && r.value == s.(speaking := r.value.speaking)
  {
    match client
    case NotConnected => None
    case Connected(g) => Some(s.(speaking := s.speaking + {g}))
  }

  /**
    The end of `tts_play` for guild `g`, after synthesis and playback succeeded (`played`)
    or raised: either way the flag is cleared (`if guild_id:`, so a guild id of 0 keeps
    it) and the call returns whether playback succeeded.
  */
  function TtsEnd(s: VoiceState, g: Guild, played: bool): (r: Step)
    ensures r.ok == played
    ensures g != 0 ==> g !in r.state.speaking
    ensures forall h :: h != g ==> (h in r.state.speaking <==> h in s.speaking)
    ensures r.state == s.(speaking := r.state.speaking)
  {
    Step(if g != 0 then s.(speaking := s.speaking - {g}) else s, played)
  }

  /**
    The bracket as a whole: between begin and end the guild's packets are ignored, and
    afterwards the guild no longer counts as speaking, whether playback succeeded or not.
  */
  lemma SpeakingBracket(s: VoiceState, g: Guild, member: Option<VoiceCapture.Member>,
                        p: VoiceCapture.Packet, now: Time, played: bool)
    requires Wf(s) && g != 0
    ensures var mid := TtsBegin(s, Connected(g)).value;
            && VoiceCapture.Ingest(mid, g, member, p, now) == VoiceCapture.Ingested(mid, false)
            && TtsEnd(mid, g, played).state == s.(speaking := s.speaking - {g})
            && TtsEnd(mid, g, played).ok == played
  {
    var mid := TtsBegin(s, Connected(g)).value;
    assert g in mid.speaking;
    assert mid.speaking - {g} == s.speaking - {g};
  }
}
