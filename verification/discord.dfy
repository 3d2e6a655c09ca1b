/** Identifiers and clock values shared by the gateway bot's state. */
module Discord {

  /** A guild (server) id. Discord snowflakes are non-negative integers. */
  type Guild = nat

  /** A user id. */
  type User = nat

  /** Identity of one voice-client object; two joins of the same guild have different ids. */
  type VoiceClientId = nat

  /** A `time.time()` reading, in seconds. */
  type Time = real

  /** The per-speaker key `(guild_id, user_id)`. */
  type SpeakerKey = (Guild, User)
}
