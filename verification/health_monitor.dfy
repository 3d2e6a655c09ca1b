/**
  One tick of gateway_bot.py's `voice_health_monitor`: for each connected voice client,
  a keepalive when the last one is over 30 s old, and a forced reconnect when the channel
  has company but no packet has arrived for over a minute.

  The awaited steps (the keepalive send, disconnecting, connecting, starting the sink)
  are inputs saying how each turned out.  A reconnect runs from start to finish inside
  the tick, as the monitor awaits it before looking at the next client.

  In the branch that finds the guild already reconnected, the source says `return`
  inside the loop over clients, which ends the monitor coroutine itself: no later
  client is checked in that tick and no later tick ever runs.  `continueAfterRace`
  selects between that behaviour (`false`) and the evidently intended `continue`
  (`true`).
*/
module HealthMonitor {
  import opened Wrappers
  import opened Discord
  import opened VoiceState

  /** `VOICE_KEEPALIVE_INTERVAL`, in seconds. */
  const KeepaliveInterval: real := 30.0

  /** `VOICE_PACKET_TIMEOUT`, in seconds. */
  const PacketTimeout: real := 60.0

  /** The monitor's state: the shared voice state, its local `last_keepalive` map, and whether it still runs. */
  datatype Monitor = Monitor(voice: VoiceState, lastKeepalive: map<Guild, Time>, running: bool)

  /** One entry of `client.voice_clients` as the tick sees it. */
  datatype Connection = Connection(guild: Guild, connected: bool, hasSocket: bool, members: nat)

  /** How the awaited reconnect steps turned out. */
  datatype ReconnectOutcome =
    | AlreadyReconnected                                    // another join won the race
    | ConnectFailed                                         // connecting, or a teardown step before it, raised
    | ListenFailed(connectedAt: Time, vc: VoiceClientId)    // connected, but starting the sink raised
    | Reconnected(connectedAt: Time, vc: VoiceClientId)     // connected and listening again

  /** The outcomes for one client: whether the keepalive send returned normally, and the reconnect. */
  datatype Effects = Effects(keepaliveSent: bool, reconnect: ReconnectOutcome)

  /** A keepalive is due when the last one for the guild (0 if none) is over 30 s old. */
  predicate KeepaliveDue(m: Monitor, g: Guild, now: Time) {
    now - Get(m.lastKeepalive, g, 0.0) > KeepaliveInterval
  }

  /**
    A reconnect starts when the channel holds someone besides the bot, no packet has
    arrived for over a minute (0 if never), and no reconnect of the guild is underway.
  */
  predicate ReconnectDue(m: Monitor, c: Connection, now: Time) {
    c.members > 1
    && now - Get(m.voice.lastPacketTime, c.guild, 0.0) > PacketTimeout
    && c.guild !in m.voice.reconnecting
  }

  /** The keepalive map after the keepalive step. */
  function AfterKeepalive(m: Monitor, c: Connection, sent: bool, now: Time): (r: map<Guild, Time>)
    ensures KeepaliveDue(m, c.guild, now) && c.hasSocket && sent ==> r == m.lastKeepalive[c.guild := now]
    ensures !(KeepaliveDue(m, c.guild, now) && c.hasSocket && sent) ==> r == m.lastKeepalive
  {
    if KeepaliveDue(m, c.guild, now) && c.hasSocket && sent then m.lastKeepalive[c.guild := now]
    else m.lastKeepalive
  }

  /**
    The reconnect of guild `g` from the moment it is marked in progress and its
    listener is stopped, through the awaited steps, to the `finally` that unmarks it.
    Returns the voice state, the keepalive map and whether the monitor keeps running.
  */
  function Reconnect(v: VoiceState, ka: map<Guild, Time>, g: Guild, outcome: ReconnectOutcome,
                     now: Time, continueAfterRace: bool): (r: (VoiceState, map<Guild, Time>, bool))
    requires Wf(v) && g !in v.reconnecting
    ensures r.0.reconnecting == v.reconnecting
    ensures g !in r.0.listeners || (outcome.Reconnected? && r.0.listeners[g] == outcome.vc)
    ensures outcome.Reconnected? ==>
              && g in r.0.listeners && r.0.listeners[g] == outcome.vc
              && g in r.0.reconnectTime && r.0.reconnectTime[g] == outcome.connectedAt
              && g in r.0.lastPacketTime && r.0.lastPacketTime[g] == now
              && r.1 == ka[g := now]
    ensures outcome.ListenFailed? ==>
              && g in r.0.reconnectTime && r.0.reconnectTime[g] == outcome.connectedAt
              && r.0.lastPacketTime == v.lastPacketTime && r.1 == ka
    ensures outcome.AlreadyReconnected? || outcome.ConnectFailed? ==>
              r.0.reconnectTime == v.reconnectTime && r.0.lastPacketTime == v.lastPacketTime && r.1 == ka
    ensures r.2 <==> !outcome.AlreadyReconnected? || continueAfterRace
    ensures StopFields(v, r.0, g)
    ensures OtherGuildsKept(v, r.0, g)
    ensures Wf(r.0)
  {
    if outcome.AlreadyReconnected? || outcome.ConnectFailed? then
      (Abandoned(v, g), ka, outcome.ConnectFailed? || continueAfterRace)
    else if outcome.ListenFailed? then
      (Relistened(v, g, outcome.connectedAt, outcome.vc, false), ka, true)
    else
      (Resumed(v, g, outcome.connectedAt, outcome.vc, now), ka[g := now], true)
  }

  /** A reconnect that connected at `t` and is listening again: the packet timer restarts at `now`. */
  function Resumed(v: VoiceState, g: Guild, t: Time, vc: VoiceClientId, now: Time): (r: VoiceState)
    requires Wf(v) && g !in v.reconnecting
    ensures Wf(r) && r.reconnecting == v.reconnecting
    ensures g in r.listeners && r.listeners[g] == vc
    ensures g in r.reconnectTime && r.reconnectTime[g] == t
    ensures g in r.lastPacketTime && r.lastPacketTime[g] == now
    ensures StopFields(v, r, g)
    ensures OtherGuildsKept(v, r, g)
  {
    var listening := Relistened(v, g, t, vc, true);
    listening.(lastPacketTime := listening.lastPacketTime[g := now])
  }

  /**
    The speaker data a reconnect of `g` leaves: what `stop_voice_listening(g)` leaves of
    the buffers, last-speech times and processing markers, with the speaking flags and
    the context untouched.
  */
  predicate StopFields(v: VoiceState, r: VoiceState, g: Guild) {
    var stopped := StopVoiceListening(v, g);
    && r.audioBuffers == stopped.audioBuffers
    && r.lastSpeechTime == stopped.lastSpeechTime
    && r.processing == stopped.processing
    && r.speaking == v.speaking && r.context == v.context
  }

  /** Every guild other than `g` keeps its listener, its reconnect time and its packet time. */
  predicate OtherGuildsKept(v: VoiceState, r: VoiceState, g: Guild) {
    && r.listeners - {g} == v.listeners - {g}
    && r.reconnectTime - {g} == v.reconnectTime - {g}
    && r.lastPacketTime - {g} == v.lastPacketTime - {g}
  }

  /**
    Marked as reconnecting, torn down, then unmarked by the `finally`: what a reconnect
    that never connects leaves behind.
  */
  function Abandoned(v: VoiceState, g: Guild): (r: VoiceState)
    requires Wf(v) && g !in v.reconnecting
    ensures Wf(r) && r.reconnecting == v.reconnecting && g !in r.listeners
    ensures StopFields(v, r, g) && r.reconnectTime == v.reconnectTime && r.lastPacketTime == v.lastPacketTime
    ensures OtherGuildsKept(v, r, g)
  {
    var stopped := StopVoiceListening(v.(reconnecting := v.reconnecting + {g}), g);
    stopped.(reconnecting := stopped.reconnecting - {g})
  }

  /**
    A reconnect that connected at `t`: the reconnect time is stamped and listening is
    started on `vc`, which holds exactly when the sink starts (`started`).
  */
  function Relistened(v: VoiceState, g: Guild, t: Time, vc: VoiceClientId, started: bool): (r: VoiceState)
    requires Wf(v) && g !in v.reconnecting
    ensures Wf(r) && r.reconnecting == v.reconnecting
    ensures started ==> g in r.listeners && r.listeners[g] == vc
    ensures !started ==> g !in r.listeners
    ensures g in r.reconnectTime && r.reconnectTime[g] == t && r.lastPacketTime == v.lastPacketTime
    ensures StopFields(v, r, g)
    ensures OtherGuildsKept(v, r, g)
  {
    var stopped := Abandoned(v, g);
    var stamped := stopped.(reconnectTime := stopped.reconnectTime[g := t]);
    StartVoiceListening(stamped, g, vc, started).state
  }

  /**
    The body of the loop over clients for one client `c`: a disconnected client is
    skipped; otherwise the keepalive step, then the reconnect when it is due.
  */
  function CheckConnection(m: Monitor, c: Connection, e: Effects, now: Time, continueAfterRace: bool): (r: Monitor)
    requires Wf(m.voice)
    ensures !c.connected ==> r == m
    ensures c.connected && !ReconnectDue(m, c, now) ==>
              r == m.(lastKeepalive := AfterKeepalive(m, c, e.keepaliveSent, now))
    ensures c.connected && ReconnectDue(m, c, now) ==>
              var res := Reconnect(m.voice, AfterKeepalive(m, c, e.keepaliveSent, now), c.guild, e.reconnect,
                                   now, continueAfterRace);
              && r.voice == res.0 && r.lastKeepalive == res.1
              && (r.running <==> m.running && (!e.reconnect.AlreadyReconnected? || continueAfterRace))
    ensures r.voice.reconnecting == m.voice.reconnecting
    ensures Wf(r.voice)
  {
    if !c.connected then m
    else
      var ka := AfterKeepalive(m, c, e.keepaliveSent, now);
      if !ReconnectDue(m, c, now) then m.(lastKeepalive := ka)
      else
        var res := Reconnect(m.voice, ka, c.guild, e.reconnect, now, continueAfterRace);
        Monitor(res.0, res.1, m.running && res.2)
  }

  /** A keepalive is recorded only when one was due and the send went through (or a reconnect reset it). */
  lemma KeepaliveOnlyWhenDue(m: Monitor, c: Connection, e: Effects, now: Time, fix: bool)
    requires Wf(m.voice) && c.connected
    requires c.guild !in m.lastKeepalive || CheckConnection(m, c, e, now, fix).lastKeepalive != m.lastKeepalive
    requires c.guild in CheckConnection(m, c, e, now, fix).lastKeepalive
    ensures (KeepaliveDue(m, c.guild, now) && c.hasSocket && e.keepaliveSent)
            || (ReconnectDue(m, c, now) && e.reconnect.Reconnected?)
  {
  }

  /** Without a due reconnect, the tick leaves the voice state alone. */
  lemma NoReconnectUnlessDue(m: Monitor, c: Connection, e: Effects, now: Time, fix: bool)
    requires Wf(m.voice) && !ReconnectDue(m, c, now)
    ensures CheckConnection(m, c, e, now, fix).voice == m.voice
  {
  }

  /** The loop over `client.voice_clients`, stopping once the monitor has returned. */
  function Tick(m: Monitor, conns: seq<Connection>, effects: seq<Effects>, now: Time, continueAfterRace: bool): (r: Monitor)
    requires Wf(m.voice) && |effects| == |conns|
    ensures !m.running ==> r == m
    ensures r.running ==> m.running
    ensures continueAfterRace ==> r.running == m.running
    ensures Wf(r.voice)
    decreases |conns|
  {
    if conns == [] || !m.running then m
    else Tick(CheckConnection(m, conns[0], effects[0], now, continueAfterRace), conns[1..], effects[1..], now, continueAfterRace)
  }

  /** A tick leaves the in-progress set as it found it: every reconnect it starts, it also unmarks. */
  lemma {:induction false} TickRestoresReconnecting(m: Monitor, conns: seq<Connection>, effects: seq<Effects>,
                                                    now: Time, fix: bool)
    requires Wf(m.voice) && |effects| == |conns|
    ensures Tick(m, conns, effects, now, fix).voice.reconnecting == m.voice.reconnecting
    decreases |conns|
  {
    if conns != [] && m.running {
      TickRestoresReconnecting(CheckConnection(m, conns[0], effects[0], now, fix), conns[1..], effects[1..], now, fix);
    }
  }

  /**
    As written, a lost race on the first client ends the monitor: the tick stops there,
    whatever the later clients need, and the monitor no longer runs.
  */
  lemma RaceStopsMonitorAsWritten(m: Monitor, conns: seq<Connection>, effects: seq<Effects>, now: Time)
    requires Wf(m.voice) && |effects| == |conns| && conns != [] && m.running
    requires conns[0].connected && ReconnectDue(m, conns[0], now)
    requires effects[0].reconnect.AlreadyReconnected?
    ensures var r := Tick(m, conns, effects, now, false);
            r == CheckConnection(m, conns[0], effects[0], now, false) && !r.running
  {
    var first := CheckConnection(m, conns[0], effects[0], now, false);
    assert !first.running;
  }

  /**
    With `continue`, a lost race only skips that client: the monitor keeps running
    and every later client is still checked.
  */
  lemma RaceContinuesCorrected(m: Monitor, conns: seq<Connection>, effects: seq<Effects>, now: Time)
    requires Wf(m.voice) && |effects| == |conns| && conns != [] && m.running
    requires conns[0].connected && ReconnectDue(m, conns[0], now)
    requires effects[0].reconnect.AlreadyReconnected?
    ensures var first := CheckConnection(m, conns[0], effects[0], now, true);
            first.running
            && Tick(m, conns, effects, now, true) == Tick(first, conns[1..], effects[1..], now, true)
  {
  }

  /** A concrete instance: the second guild's silent channel is never reconnected as written. */
  lemma RaceStrandsSecondGuild()
    ensures var m := Monitor(Initial, map[], true);
            var conns := [Connection(1, true, true, 2), Connection(2, true, true, 2)];
            var effects := [Effects(true, AlreadyReconnected), Effects(true, Reconnected(100.0, 7))];
            && !Tick(m, conns, effects, 100.0, false).running
            && 2 !in Tick(m, conns, effects, 100.0, false).voice.listeners
            && Tick(m, conns, effects, 100.0, true).voice.listeners == map[2 := 7]
  {
    var m := Monitor(Initial, map[], true);
    InitialWf();
    var conns := [Connection(1, true, true, 2), Connection(2, true, true, 2)];
    var effects := [Effects(true, AlreadyReconnected), Effects(true, Reconnected(100.0, 7))];
    RaceStopsMonitorAsWritten(m, conns, effects, 100.0);
    var first := CheckConnection(m, conns[0], effects[0], 100.0, true);
    assert first.voice.listeners == map[];
    var second := CheckConnection(first, conns[1], effects[1], 100.0, true);
    assert second.voice.listeners == map[2 := 7];
    assert Tick(m, conns, effects, 100.0, true) == Tick(second, [], [], 100.0, true);
  }
}
