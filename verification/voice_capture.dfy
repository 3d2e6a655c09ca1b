/**
  Voice capture in gateway_bot.py: `VoiceListener.on_voice_member_packet` buffers the
  decoded packets of each speaker, `check_speech_end` waits for a quiet second, and
  `process_speech` drains the buffer, transcribes it and decides whether to reply.

  `process_speech` awaits the transcription and then the reply, so it is split at those
  awaits: `BeginSpeech` is the part before the transcription (the guards and the drain),
  `FinishSpeech` the part between the two awaits (the context update and the reply
  decision), and `Release` the `finally` block, which runs once the reply has been sent
  and spoken, or straight away when there is no reply.  The transcript and the 20%
  random chime-in are inputs.
*/
module VoiceCapture {
  import opened Wrappers
  import opened Discord
  import opened Text
  import opened Conversation
  import opened VoiceState

  /** `RECONNECT_GRACE_PERIOD`, in seconds. */
  const ReconnectGracePeriod: real := 3.0

  /** The quiet period after the last packet before speech counts as finished. */
  const SpeechEndQuiet: real := 1.0

  /** Buffers with fewer packets are dropped as noise. */
  const MinSpeechChunks: nat := 5

  /** The speaking member as the packet handler sees it. */
  datatype Member = Member(id: User, isBot: bool, displayName: string)

  /**
    What a packet carries: no `pcm` or `data` attribute at all, an attribute holding
    `None`, or decoded bytes.
  */
  datatype Audio = NoAudio | NullAudio | Decoded(data: Pcm)

  /** A received packet; `ssrc` is `None` when the packet has no such attribute. */
  datatype Packet = Packet(ssrc: Option<int>, audio: Audio)

  /**
    The packet passes the four filters that change nothing when they reject: a human
    member, a non-zero ssrc, outside the grace period after a reconnect, and the bot
    not speaking in the guild.
  */
  predicate Admitted(s: VoiceState, g: Guild, member: Option<Member>, p: Packet, now: Time) {
    && member.Some? && !member.value.isBot
    && p.ssrc != Some(0)
    && !(g in s.reconnectTime && now - s.reconnectTime[g] < ReconnectGracePeriod)
    && g !in s.speaking
  }

  /** The packet carries at least one byte of audio. */
  predicate HasPcm(p: Packet) {
    p.audio.Decoded? && |p.audio.data| > 0
  }

  /**
    Appending one packet to a buffer, dropping the oldest packet first when the buffer
    is full: the result is the newest packets of `buf + [c]`, at most 250 of them.
  */
  function Push(buf: seq<Pcm>, c: Pcm): (r: seq<Pcm>)
    requires |buf| <= MaxAudioBufferPackets
    ensures |r| == if |buf| < MaxAudioBufferPackets then |buf| + 1 else MaxAudioBufferPackets
    ensures r == (buf + [c])[|buf| + 1 - |r|..]
  {
    if |buf| >= MaxAudioBufferPackets then buf[1..] + [c] else buf + [c]
  }

  /** Pushing packets one at a time, oldest first. */
  function PushAll(buf: seq<Pcm>, cs: seq<Pcm>): (r: seq<Pcm>)
    requires |buf| <= MaxAudioBufferPackets
    ensures |r| <= MaxAudioBufferPackets
    decreases |cs|
  {
    if cs == [] then buf else PushAll(Push(buf, cs[0]), cs[1..])
  }

  /** One push keeps the newest 250 packets of the buffer and the new one. */
  lemma PushIsLastN(buf: seq<Pcm>, c: Pcm)
    requires |buf| <= MaxAudioBufferPackets
    ensures Push(buf, c) == LastN(buf + [c], MaxAudioBufferPackets)
  {
  }

  /** Keeping the last `n` of `xs`, then appending and keeping the last `n` again, forgets nothing more. */
  lemma {:induction false} LastNAppend<T>(xs: seq<T>, ys: seq<T>, n: nat)
    ensures LastN(LastN(xs, n) + ys, n) == LastN(xs + ys, n)
  {
    var a := LastN(xs, n);
    if |xs| > n {
      assert a + ys == (xs + ys)[|xs| - n..];
    } else {
      assert a == xs;
    }
  }

  /**
    The buffer is a FIFO window: after any run of packets it holds exactly the newest
    250 of everything received, in arrival order.
  */
  lemma {:induction false} PushAllKeepsNewest(buf: seq<Pcm>, cs: seq<Pcm>)
    requires |buf| <= MaxAudioBufferPackets
    ensures PushAll(buf, cs) == LastN(buf + cs, MaxAudioBufferPackets)
    decreases |cs|
  {
    if cs == [] {
      assert buf + cs == buf;
    } else {
      var b := Push(buf, cs[0]);
      calc {
        PushAll(buf, cs);
        PushAll(b, cs[1..]);
        { PushAllKeepsNewest(b, cs[1..]); }
        LastN(b + cs[1..], MaxAudioBufferPackets);
        { PushIsLastN(buf, cs[0]); }
        LastN(LastN(buf + [cs[0]], MaxAudioBufferPackets) + cs[1..], MaxAudioBufferPackets);
        { LastNAppend(buf + [cs[0]], cs[1..], MaxAudioBufferPackets); }
        LastN(buf + [cs[0]] + cs[1..], MaxAudioBufferPackets);
        { assert buf + [cs[0]] + cs[1..] == buf + cs; }
        LastN(buf + cs, MaxAudioBufferPackets);
      }
    }
  }

  /** The state after a packet, and whether a `check_speech_end` task was scheduled. */
  datatype Ingested = Ingested(state: VoiceState, scheduled: bool)

  /**
    `on_voice_member_packet` for guild `g` at time `now`.  A rejected packet changes
    nothing.  An admitted one records `now` as the guild's last packet time and gives
    the speaker a buffer; when it carries audio, the audio is pushed onto that buffer,
    `now` becomes the speaker's last-speech time and an end-of-speech check is
    scheduled.  No other entry changes.
  */
  function Ingest(s: VoiceState, g: Guild, member: Option<Member>, p: Packet, now: Time): (r: Ingested)
    requires Wf(s)
    ensures !Admitted(s, g, member, p, now) ==> r == Ingested(s, false)
    ensures Admitted(s, g, member, p, now) ==>
              var key := (g, member.value.id);
              && r.state.lastPacketTime == s.lastPacketTime[g := now]
              && key in r.state.audioBuffers
              && (forall k :: k != key ==> (k in r.state.audioBuffers <==> k in s.audioBuffers))
              && (forall k :: k != key && k in s.audioBuffers ==> r.state.audioBuffers[k] == s.audioBuffers[k])
              && r.scheduled == HasPcm(p)
              && (HasPcm(p) ==> r.state.audioBuffers[key] == Push(BufferOf(s, key), p.audio.data)
                                && r.state.lastSpeechTime == s.lastSpeechTime[key := now])
              && (!HasPcm(p) ==> r.state.audioBuffers[key] == BufferOf(s, key)
                                 && r.state.lastSpeechTime == s.lastSpeechTime)
    ensures r.state.listeners == s.listeners && r.state.processing == s.processing
    ensures r.state.context == s.context && r.state.reconnecting == s.reconnecting
    ensures r.state.speaking == s.speaking && r.state.reconnectTime == s.reconnectTime
    ensures Wf(r.state)
  {
    if !Admitted(s, g, member, p, now) then Ingested(s, false)
    else
      var key := (g, member.value.id);
      var seen := Touch(s, g, key, now);
      if !HasPcm(p) then Ingested(seen, false)
      else Ingested(Record(seen, key, p.audio.data, now), true)
  }

  /** An admitted packet's first effect: the guild's packet time and the speaker's (possibly new) buffer. */
  function Touch(s: VoiceState, g: Guild, key: SpeakerKey, now: Time): (r: VoiceState)
    requires Wf(s)
    ensures Wf(r) && key in r.audioBuffers
  {
    s.(lastPacketTime := s.lastPacketTime[g := now],
       audioBuffers := s.audioBuffers[key := BufferOf(s, key)])
  }

  /** Pushing the audio and stamping the speaker's last-speech time. */
  function Record(s: VoiceState, key: SpeakerKey, c: Pcm, now: Time): (r: VoiceState)
    requires Wf(s) && key in s.audioBuffers
    ensures Wf(r)
  {
    s.(audioBuffers := s.audioBuffers[key := Push(s.audioBuffers[key], c)],
       lastSpeechTime := s.lastSpeechTime[key := now])
  }

  /** While the bot speaks in a guild, that guild's packets change nothing. */
  lemma SpeakingMutesIngest(s: VoiceState, g: Guild, member: Option<Member>, p: Packet, now: Time)
    requires Wf(s) && g in s.speaking
    ensures Ingest(s, g, member, p, now) == Ingested(s, false)
  {
  }

  /** Within three seconds of a reconnect, the guild's packets change nothing. */
  lemma GraceMutesIngest(s: VoiceState, g: Guild, member: Option<Member>, p: Packet, now: Time)
    requires Wf(s) && g in s.reconnectTime && now < s.reconnectTime[g] + ReconnectGracePeriod
    ensures Ingest(s, g, member, p, now) == Ingested(s, false)
  {
  }

  /**
    `check_speech_end`'s test, taken after its 1.2 s sleep: the speaker has a last-speech
    time, is not being processed, and has been quiet for at least a second.
  */
  predicate SpeechEnded(s: VoiceState, key: SpeakerKey, now: Time) {
    key in s.lastSpeechTime && key !in s.processing && now - s.lastSpeechTime[key] >= SpeechEndQuiet
  }

  /** A packet with audio postpones the end of speech: no check passes within a second of it. */
  lemma AudioPostponesEnd(s: VoiceState, g: Guild, m: Member, p: Packet, t: Time, now: Time)
    requires Wf(s) && Admitted(s, g, Some(m), p, t) && HasPcm(p)
    ensures SpeechEnded(Ingest(s, g, Some(m), p, t).state, (g, m.id), now) ==> now >= t + SpeechEndQuiet
  {
  }

  /** `b''.join(chunks)`. */
  function Concat(chunks: seq<Pcm>): (r: Pcm)
    ensures chunks == [] ==> r == []
    ensures chunks != [] ==> |r| >= |chunks[|chunks| - 1]|
  {
    if chunks == [] then [] else Concat(chunks[..|chunks| - 1]) + chunks[|chunks| - 1]
  }

  /** Joining two runs of packets is joining each and concatenating. */
  lemma {:induction false} ConcatAppend(a: seq<Pcm>, b: seq<Pcm>)
    ensures Concat(a + b) == Concat(a) + Concat(b)
    decreases |b|
  {
    if b == [] {
      assert a + b == a;
    } else {
      assert (a + b)[..|a + b| - 1] == a + b[..|b| - 1];
      ConcatAppend(a, b[..|b| - 1]);
    }
  }

  /** What the synchronous start of `process_speech` found. */
  datatype Capture =
    | Busy                    // the speaker is already being processed
    | NothingBuffered         // no buffer, or an empty one
    | Noise(chunks: nat)      // fewer than five packets: dropped
    | Captured(audio: Pcm)    // the drained audio, handed to transcription

  datatype Begun = Begun(state: VoiceState, capture: Capture)

  /**
    `process_speech` up to the transcription await.  A speaker already in processing, or
    with nothing buffered, is left alone.  Otherwise the buffer is emptied; fewer than
    five packets are noise, and the early return runs the `finally` block (the marker
    and the last-speech time go); five or more are joined in order for transcription
    and the speaker stays marked as processing.
  */
  function BeginSpeech(s: VoiceState, key: SpeakerKey): (r: Begun)
    requires Wf(s)
    ensures key in s.processing ==> r == Begun(s, Busy)
    ensures key !in s.processing && BufferOf(s, key) == [] ==> r == Begun(s, NothingBuffered)
    ensures key !in s.processing && BufferOf(s, key) != [] ==>
              var chunks := s.audioBuffers[key];
              && r.state.audioBuffers == s.audioBuffers[key := []]
              && (|chunks| < MinSpeechChunks ==>
                    && r.capture == Noise(|chunks|)
                    && r.state.processing == s.processing
                    && r.state.lastSpeechTime == s.lastSpeechTime - {key})
              && (|chunks| >= MinSpeechChunks ==>
                    && r.capture == Captured(Concat(chunks))
                    && r.state.processing == s.processing + {key}
                    && r.state.lastSpeechTime == s.lastSpeechTime)
    ensures r.state.listeners == s.listeners && r.state.context == s.context
    ensures r.state.lastPacketTime == s.lastPacketTime && r.state.reconnecting == s.reconnecting
    ensures r.state.speaking == s.speaking && r.state.reconnectTime == s.reconnectTime
    ensures Wf(r.state)
  {
    if key in s.processing then Begun(s, Busy)
    else if key !in s.audioBuffers || s.audioBuffers[key] == [] then Begun(s, NothingBuffered)
    else
      var chunks := s.audioBuffers[key];
      var drained := s.(audioBuffers := s.audioBuffers[key := []]);
      if |chunks| < MinSpeechChunks then
        Begun(drained.(lastSpeechTime := drained.lastSpeechTime - {key}), Noise(|chunks|))
      else
        Begun(drained.(processing := drained.processing + {key}), Captured(Concat(chunks)))
  }

  /**
    The re-entrancy guard: while a capture is being transcribed, a second trigger for
    the same speaker changes nothing, and no end-of-speech check for it passes.
  */
  lemma SecondTriggerIsNoop(s: VoiceState, key: SpeakerKey, now: Time)
    requires Wf(s) && BeginSpeech(s, key).capture.Captured?
    ensures var mid := BeginSpeech(s, key).state;
            BeginSpeech(mid, key) == Begun(mid, Busy) && !SpeechEnded(mid, key, now)
  {
  }

  /** What `respond_to_speech` is asked to send: the text, the speaker, the guild and the context lines. */
  datatype ReplyRequest = ReplyRequest(content: string, username: string, guild: Guild, context: Option<string>)

  datatype Finished = Finished(state: VoiceState, reply: Option<ReplyRequest>)

  /** The transcription produced text with a non-whitespace character. */
  predicate Heard(transcript: Option<string>) {
    transcript.Some? && !IsBlank(transcript.value)
  }

  /**
    `process_speech` after the transcription await, at time `now`.  A non-blank transcript
    is added to the guild's context under the speaker's display name, and a reply is
    requested when the text addresses the bot or the random chime-in fires; the request
    carries the context summary when it is non-empty.  Nothing else changes: the speaker
    stays marked as processing, and keeps its last-speech time, until `Release`.
  */
  function FinishSpeech(s: VoiceState, key: SpeakerKey, displayName: string, transcript: Option<string>,
                        randomReply: bool, now: Time): (r: Finished)
    requires Wf(s)
    ensures Heard(transcript) ==> r.state.context == AddToContext(s.context, key.0, displayName, transcript.value, now)
    ensures !Heard(transcript) ==> r.state.context == s.context
    ensures r.reply.Some? <==> Heard(transcript) && (IsAddressingBot(transcript.value) || randomReply)
    ensures r.reply.Some? ==>
              && r.reply.value.content == transcript.value
              && r.reply.value.username == displayName && r.reply.value.guild == key.0
              && r.reply.value.context.Some?
              && EndsWith(r.reply.value.context.value, displayName + ": " + transcript.value)
    ensures r.state == s.(context := r.state.context)
    ensures Wf(r.state)
  {
    if !Heard(transcript) then Finished(s, None)
    else
      var text := transcript.value;
      var ctx := AddToContext(s.context, key.0, displayName, text, now);
      var reply := if IsAddressingBot(text) || randomReply then Some(Reply(s.context, key.0, displayName, text, now)) else None;
      Finished(s.(context := ctx), reply)
  }

  /** The `finally` of `process_speech`: the speaker is no longer processing and its last-speech time goes. */
  function Release(s: VoiceState, key: SpeakerKey): (r: VoiceState)
    requires Wf(s)
    ensures Wf(r)
    ensures r.processing == s.processing - {key} && r.lastSpeechTime == s.lastSpeechTime - {key}
    ensures r == s.(processing := r.processing, lastSpeechTime := r.lastSpeechTime)
  {
    s.(processing := s.processing - {key}, lastSpeechTime := s.lastSpeechTime - {key})
  }

  /**
    The request `respond_to_speech` is asked to send once `text` from `displayName` has
    been added at `now` to the context `ctx`: the context summary goes along when it is
    non-empty, which, right after the addition, it always is.
  */
  function Reply(ctx: ContextStore, g: Guild, displayName: string, text: string, now: Time): (r: ReplyRequest)
    ensures r.content == text && r.username == displayName && r.guild == g
    ensures r.context.Some? && EndsWith(r.context.value, displayName + ": " + text)
  {
    var summary := GetContextSummary(AddToContext(ctx, g, displayName, text, now), g);
    SummaryAfterAdd(ctx, g, displayName, text, now);
    ReplyRequest(text, displayName, g, if summary != "" then Some(summary) else None)
  }

  /**
    One whole `process_speech` run with a capture: whatever the transcript, the speaker
    ends with an empty buffer, no processing marker and no last-speech time.
  */
  lemma ProcessSpeechCleansUp(s: VoiceState, key: SpeakerKey, name: string, transcript: Option<string>,
                              randomReply: bool, now: Time)
    requires Wf(s) && key !in s.processing && BufferOf(s, key) != []
    ensures var b := BeginSpeech(s, key);
            var f := FinishSpeech(b.state, key, name, transcript, randomReply, now);
            var done := Release(f.state, key);
            b.capture.Captured? ==>
              key !in done.processing && key !in done.lastSpeechTime
              && done.audioBuffers[key] == [] && done.processing == s.processing
  {
  }

  /**
    Speech that arrives while the reply is pending is stranded.  Until `Release` the
    speaker is still marked as processing, so no end-of-speech check for it passes;
    `Release` then drops its last-speech time, so no later check passes either, and the
    audio stays in the buffer until the speaker talks again.
  */
  lemma SpeechDuringReplyIsStranded(s: VoiceState, g: Guild, m: Member, name: string,
                                    transcript: Option<string>, randomReply: bool, now: Time,
                                    p: Packet, t: Time, later: Time)
    requires Wf(s) && BeginSpeech(s, (g, m.id)).capture.Captured?
    ensures var key := (g, m.id);
            var f := FinishSpeech(BeginSpeech(s, key).state, key, name, transcript, randomReply, now).state;
            var i := Ingest(f, g, Some(m), p, t).state;
            var done := Release(i, key);
            && !SpeechEnded(i, key, later)
            && !SpeechEnded(done, key, later)
            && done.audioBuffers == i.audioBuffers
            && (Admitted(f, g, Some(m), p, t) && HasPcm(p) ==> done.audioBuffers[key] == [p.audio.data])
  {
  }
}
