/**
  The store behind aoe3/database.py, as in-memory tables: players keyed by Discord id,
  strategies keyed by their generated id, the strategy votes as a list of rows, and
  civilizations keyed by name.  Each operation runs in one session and either commits
  all of its changes or none; `configured` says whether a database URL was set.

  Table constraints (unique AoE3 username, the foreign keys of votes and strategies)
  are checked when the session writes; a violation raises `IntegrityError` and leaves
  the store as it was.
*/
module Aoe3Db {
  import opened Wrappers
  import opened Discord

  /** The exceptions the operations raise. */
  datatype DbError = RuntimeError | ValueError | IntegrityError | KeyError | TypeError

  /** A row of `players`. */
  datatype Player = Player(
    discordUsername: string,
    aoe3Username: string,
    profileUrl: Option<string>,
    elo1v1: Option<int>,
    eloTeam: Option<int>,
    favoriteCiv: Option<string>,
    lastCheckedAt: Option<Time>,
    registeredAt: Time)

  /** A row of `strategies`; `votes` is the stored counter. */
  datatype Strategy = Strategy(civ: string, vsCiv: Option<string>, mapName: Option<string>,
                               text: string, author: User, votes: int)

  /** A row of `strategy_votes`. */
  datatype Vote = Vote(strategyId: nat, voter: User, value: int, votedAt: Time)

  /** A value of a civilization column (text, a JSON list of strings, a timestamp, or NULL). */
  datatype Value = Null | Str(s: string) | StrList(items: seq<string>) | Timestamp(t: Time)

  /** A civilization row: column name -> value. */
  type CivRow = map<string, Value>

  datatype Db = Db(
    configured: bool,
    players: map<User, Player>,
    strategies: map<nat, Strategy>,
    votes: seq<Vote>,
    civs: map<Value, CivRow>,       // keyed by the row's `name`
    nextStrategyId: nat)

  /** The outcome of an operation: the store afterwards and what the call returned or raised. */
  datatype Outcome<T> = Outcome(db: Db, result: Result<T, DbError>)

  // ---- Votes ----

  /** The sum of the stored vote values for strategy `sid`. */
  function Tally(votes: seq<Vote>, sid: nat): int {
    if votes == [] then 0
    else
      var last := votes[|votes| - 1];
      Tally(votes[..|votes| - 1], sid) + (if last.strategyId == sid then last.value else 0)
  }

  /** Replacing a vote row by one for the same strategy moves the tally by the difference. */
  lemma {:induction false} TallyUpdate(votes: seq<Vote>, i: nat, v: Vote, sid: nat)
    requires i < |votes| && votes[i].strategyId == v.strategyId
    ensures Tally(votes[i := v], sid)
            == Tally(votes, sid) + (if v.strategyId == sid then v.value - votes[i].value else 0)
    decreases |votes|
  {
    var n := |votes| - 1;
    if i < n {
      assert votes[i := v][..n] == votes[..n][i := v];
      TallyUpdate(votes[..n], i, v, sid);
    } else {
      assert votes[i := v][..n] == votes[..n];
    }
  }

  /** A strategy no row refers to has a zero tally. */
  lemma {:induction false} TallyAbsent(votes: seq<Vote>, sid: nat)
    requires forall i :: 0 <= i < |votes| ==> votes[i].strategyId != sid
    ensures Tally(votes, sid) == 0
    decreases |votes|
  {
    if votes != [] {
      TallyAbsent(votes[..|votes| - 1], sid);
    }
  }

  /** At most one vote row per (strategy, voter), the unique index of `strategy_votes`. */
  predicate UniqueVotes(votes: seq<Vote>) {
    forall i, j :: 0 <= i < j < |votes| ==>
      votes[i].strategyId != votes[j].strategyId || votes[i].voter != votes[j].voter
  }

  /** Every strategy's stored counter equals the tally of its vote rows. */
  predicate CountersMatch(db: Db) {
    forall sid :: sid in db.strategies ==> db.strategies[sid].votes == Tally(db.votes, sid)
  }

  /** Vote rows hold -1 or 1 and refer to an existing strategy and player. */
  predicate VotesValid(db: Db) {
    forall i :: 0 <= i < |db.votes| ==>
      && (db.votes[i].value == -1 || db.votes[i].value == 1)
      && db.votes[i].strategyId in db.strategies
      && db.votes[i].voter in db.players
  }

  /** Strategy ids are below the next id to hand out, and authors are players. */
  predicate StrategiesValid(db: Db) {
    forall sid :: sid in db.strategies ==> sid < db.nextStrategyId && db.strategies[sid].author in db.players
  }

  /** No two players share an AoE3 username. */
  predicate UsernamesUnique(players: map<User, Player>) {
    forall a, b :: a in players && b in players && a != b ==> players[a].aoe3Username != players[b].aoe3Username
  }

  /** Every civilization row holds only mapped columns and is stored under its own name. */
  predicate CivsKeyed(civs: map<Value, CivRow>) {
    forall n :: n in civs ==> civs[n].Keys <= CivColumns && "name" in civs[n] && civs[n]["name"] == n
  }

  /** The invariant every operation keeps. */
  predicate Consistent(db: Db) {
    && CountersMatch(db)
    && UniqueVotes(db.votes)
    && VotesValid(db)
    && StrategiesValid(db)
    && UsernamesUnique(db.players)
    && CivsKeyed(db.civs)
  }

  /** The row index of `voter`'s vote on `sid`, if any. */
  function FindVote(votes: seq<Vote>, sid: nat, voter: User): (r: Option<nat>)
    ensures r.Some? ==> r.value < |votes| && votes[r.value].strategyId == sid && votes[r.value].voter == voter
    ensures r.None? ==> forall i :: 0 <= i < |votes| ==> votes[i].strategyId != sid || votes[i].voter != voter
  {
    if votes == [] then None
    else if votes[|votes| - 1].strategyId == sid && votes[|votes| - 1].voter == voter then Some(|votes| - 1)
    else FindVote(votes[..|votes| - 1], sid, voter)
  }

  /** The value of `voter`'s current vote on `sid`, 0 when there is none. */
  function CurrentVote(db: Db, sid: nat, voter: User): int {
    match FindVote(db.votes, sid, voter)
    case None => 0
    case Some(i) => db.votes[i].value
  }

  /** The store after row `i` is replaced by `v`, a vote on the same strategy, and the counter follows. */
  function Revoted(db: Db, i: nat, v: Vote): (r: Db)
    requires i < |db.votes| && v.strategyId in db.strategies
    ensures r.strategies.Keys == db.strategies.Keys && |r.votes| == |db.votes| && r.votes[i] == v
    ensures forall k :: 0 <= k < |db.votes| && k != i ==> r.votes[k] == db.votes[k]
    ensures forall t :: t in db.strategies && t != v.strategyId ==> r.strategies[t] == db.strategies[t]
    ensures forall t :: t in db.strategies ==> r.strategies[t].author == db.strategies[t].author
    ensures r.players == db.players && r.civs == db.civs && r.configured == db.configured
    ensures r.nextStrategyId == db.nextStrategyId
  {
    var s := db.strategies[v.strategyId];
    db.(votes := db.votes[i := v],
        strategies := db.strategies[v.strategyId := s.(votes := s.votes + v.value - db.votes[i].value)])
  }

  /** The store after the first vote `v` of its voter on its strategy is appended, and the counter follows. */
  function Appended(db: Db, v: Vote): (r: Db)
    requires v.strategyId in db.strategies
    ensures r.strategies.Keys == db.strategies.Keys && r.votes == db.votes + [v]
    ensures forall t :: t in db.strategies && t != v.strategyId ==> r.strategies[t] == db.strategies[t]
    ensures forall t :: t in db.strategies ==> r.strategies[t].author == db.strategies[t].author
    ensures r.players == db.players && r.civs == db.civs && r.configured == db.configured
    ensures r.nextStrategyId == db.nextStrategyId
  {
    var s := db.strategies[v.strategyId];
    db.(votes := db.votes + [v], strategies := db.strategies[v.strategyId := s.(votes := s.votes + v.value)])
  }

  /**
    `vote_strategy(sid, voter, value)` at time `now`.  Unconfigured: False before any
    check.  A value other than -1 or 1 raises `ValueError`.  A missing strategy: False,
    nothing committed.  A first vote by someone who is not a player violates the foreign
    key.  Otherwise the voter's row holds `value` (updated in place or appended) and the
    strategy's counter moves by `value` minus the previous vote (0 if none).
  */
  function VoteStrategy(db: Db, sid: nat, voter: User, value: int, now: Time): (r: Outcome<bool>)
    requires Consistent(db)
    ensures !db.configured ==> r == Outcome(db, Ok(false))
    ensures db.configured && value != 1 && value != -1 ==> r == Outcome(db, Err(ValueError))
    ensures r.result == Ok(true) <==>
              && db.configured && (value == 1 || value == -1) && sid in db.strategies
              && (FindVote(db.votes, sid, voter).Some? || voter in db.players)
    ensures r.result == Err(IntegrityError) <==>
              && db.configured && (value == 1 || value == -1) && sid in db.strategies
              && FindVote(db.votes, sid, voter).None? && voter !in db.players
    ensures r.result != Ok(true) ==> r.db == db
    ensures r.result == Ok(true) ==>
              && sid in r.db.strategies
              && r.db.strategies[sid].votes == db.strategies[sid].votes + value - CurrentVote(db, sid, voter)
              && CurrentVote(r.db, sid, voter) == value
              && r.db.strategies.Keys == db.strategies.Keys
              && r.db.strategies[sid] == db.strategies[sid].(votes := r.db.strategies[sid].votes)
              && (forall t :: t in db.strategies && t != sid ==> r.db.strategies[t] == db.strategies[t])
              && (forall t: nat, u: User :: (t, u) != (sid, voter) ==> CurrentVote(r.db, t, u) == CurrentVote(db, t, u))
              && r.db.configured && r.db.nextStrategyId == db.nextStrategyId
              && r.db.players == db.players && r.db.civs == db.civs
    ensures Consistent(r.db)
  {
    if !db.configured then Outcome(db, Ok(false))
    else if value != 1 && value != -1 then Outcome(db, Err(ValueError))
    else if sid !in db.strategies then Outcome(db, Ok(false))
    else
      var v := Vote(sid, voter, value, now);
      match FindVote(db.votes, sid, voter)
      case Some(i) =>
        UpdateKeepsConsistent(db, i, v);
        RevotedKeepsOthers(db, i, v);
        Outcome(Revoted(db, i, v), Ok(true))
      case None =>
        if voter !in db.players then Outcome(db, Err(IntegrityError))
        else
          AppendKeepsConsistent(db, v);
          AppendedKeepsOthers(db, v);
          Outcome(Appended(db, v), Ok(true))
  }

  lemma RevotedCounters(db: Db, i: nat, v: Vote)
    requires CountersMatch(db) && i < |db.votes| && v.strategyId in db.strategies
    requires db.votes[i].strategyId == v.strategyId
    ensures CountersMatch(Revoted(db, i, v))
  {
    var r := Revoted(db, i, v);
    forall t | t in r.strategies
      ensures r.strategies[t].votes == Tally(r.votes, t)
    {
      TallyUpdate(db.votes, i, v, t);
    }
  }

  lemma RevotedRows(db: Db, i: nat, v: Vote)
    requires UniqueVotes(db.votes) && VotesValid(db) && i < |db.votes| && v.strategyId in db.strategies
    requires db.votes[i].strategyId == v.strategyId && db.votes[i].voter == v.voter
    requires v.value == 1 || v.value == -1
    ensures UniqueVotes(Revoted(db, i, v).votes) && VotesValid(Revoted(db, i, v))
  {
    var r := Revoted(db, i, v);
    assert forall k :: 0 <= k < |r.votes| ==>
      r.votes[k].strategyId == db.votes[k].strategyId && r.votes[k].voter == db.votes[k].voter;
  }

  lemma RevotedFound(db: Db, i: nat, v: Vote)
    requires UniqueVotes(db.votes) && i < |db.votes| && v.strategyId in db.strategies
    requires FindVote(db.votes, v.strategyId, v.voter) == Some(i)
    ensures FindVote(Revoted(db, i, v).votes, v.strategyId, v.voter) == Some(i)
  {
    var r := Revoted(db, i, v);
    var found := FindVote(r.votes, v.strategyId, v.voter);
    assert r.votes[i] == v;
    var j := found.value;
    assert db.votes[j].strategyId == v.strategyId && db.votes[j].voter == v.voter;
  }

  /** The in-place re-vote keeps the store consistent and records the new value. */
  lemma UpdateKeepsConsistent(db: Db, i: nat, v: Vote)
    requires Consistent(db) && v.strategyId in db.strategies && (v.value == 1 || v.value == -1)
    requires FindVote(db.votes, v.strategyId, v.voter) == Some(i)
    ensures Consistent(Revoted(db, i, v)) && CurrentVote(Revoted(db, i, v), v.strategyId, v.voter) == v.value
  {
    RevotedCounters(db, i, v);
    RevotedRows(db, i, v);
    RevotedFound(db, i, v);
    SameStrategiesValid(db, Revoted(db, i, v));
  }

  /** Finding a vote looks only at each row's strategy and voter. */
  lemma {:induction false} FindVoteSameKeys(a: seq<Vote>, b: seq<Vote>, sid: nat, voter: User)
    requires |a| == |b|
    requires forall k :: 0 <= k < |a| ==> a[k].strategyId == b[k].strategyId && a[k].voter == b[k].voter
    ensures FindVote(a, sid, voter) == FindVote(b, sid, voter)
    decreases |a|
  {
    if a != [] {
      FindVoteSameKeys(a[..|a| - 1], b[..|b| - 1], sid, voter);
    }
  }

  /** A re-vote leaves every other (strategy, voter) pair's current vote as it was. */
  lemma RevotedKeepsOthers(db: Db, i: nat, v: Vote)
    requires i < |db.votes| && v.strategyId in db.strategies
    requires db.votes[i].strategyId == v.strategyId && db.votes[i].voter == v.voter
    ensures forall t: nat, u: User :: (t, u) != (v.strategyId, v.voter) ==>
              CurrentVote(Revoted(db, i, v), t, u) == CurrentVote(db, t, u)
  {
    var r := Revoted(db, i, v);
    forall t: nat, u: User | (t, u) != (v.strategyId, v.voter)
      ensures CurrentVote(r, t, u) == CurrentVote(db, t, u)
    {
      FindVoteSameKeys(r.votes, db.votes, t, u);
    }
  }

  /** A first vote leaves every other (strategy, voter) pair's current vote as it was. */
  lemma AppendedKeepsOthers(db: Db, v: Vote)
    requires v.strategyId in db.strategies
    ensures forall t: nat, u: User :: (t, u) != (v.strategyId, v.voter) ==>
              CurrentVote(Appended(db, v), t, u) == CurrentVote(db, t, u)
  {
    var r := Appended(db, v);
    assert r.votes[..|r.votes| - 1] == db.votes;
  }

  /** Strategy validity only looks at the strategies' keys and authors, the players and the next id. */
  lemma SameStrategiesValid(db: Db, r: Db)
    requires StrategiesValid(db) && r.strategies.Keys == db.strategies.Keys
    requires forall t :: t in db.strategies ==> r.strategies[t].author == db.strategies[t].author
    requires r.players == db.players && r.nextStrategyId == db.nextStrategyId
    ensures StrategiesValid(r)
  {
  }

  lemma AppendedCounters(db: Db, v: Vote)
    requires CountersMatch(db) && v.strategyId in db.strategies
    ensures CountersMatch(Appended(db, v))
  {
    var r := Appended(db, v);
    assert r.votes[..|r.votes| - 1] == db.votes;
  }

  lemma AppendedRows(db: Db, v: Vote)
    requires UniqueVotes(db.votes) && VotesValid(db) && v.strategyId in db.strategies && v.voter in db.players
    requires FindVote(db.votes, v.strategyId, v.voter).None? && (v.value == 1 || v.value == -1)
    ensures UniqueVotes(Appended(db, v).votes) && VotesValid(Appended(db, v))
  {
  }

  /** Appending a first vote keeps the store consistent and records the value. */
  lemma AppendKeepsConsistent(db: Db, v: Vote)
    requires Consistent(db) && v.strategyId in db.strategies && v.voter in db.players
    requires FindVote(db.votes, v.strategyId, v.voter).None? && (v.value == 1 || v.value == -1)
    ensures Consistent(Appended(db, v)) && CurrentVote(Appended(db, v), v.strategyId, v.voter) == v.value
  {
    AppendedCounters(db, v);
    AppendedRows(db, v);
    var r := Appended(db, v);
    SameStrategiesValid(db, r);
    assert FindVote(r.votes, v.strategyId, v.voter) == Some(|db.votes|);
  }

  /** A vote equal to the voter's current one leaves every counter where it was. */
  lemma VoteAgainKeepsCounts(db: Db, sid: nat, voter: User, value: int, now: Time)
    requires Consistent(db) && db.configured && sid in db.strategies && (value == 1 || value == -1)
    requires CurrentVote(db, sid, voter) == value
    ensures VoteStrategy(db, sid, voter, value, now).db.strategies == db.strategies
  {
    var r := VoteStrategy(db, sid, voter, value, now).db;
    assert FindVote(db.votes, sid, voter).Some?;
    forall t | t in db.strategies
      ensures r.strategies[t] == db.strategies[t]
    {
    }
  }

  /** Casting the same vote again leaves every counter where it was. */
  lemma RevoteSameValueKeepsCounts(db: Db, sid: nat, voter: User, value: int, t1: Time, t2: Time)
    requires Consistent(db) && db.configured && sid in db.strategies && (value == 1 || value == -1)
    requires voter in db.players
    ensures var once := VoteStrategy(db, sid, voter, value, t1).db;
            VoteStrategy(once, sid, voter, value, t2).db.strategies == once.strategies
  {
    var once := VoteStrategy(db, sid, voter, value, t1);
    assert once.result == Ok(true);
    VoteAgainKeepsCounts(once.db, sid, voter, value, t2);
  }

  /**
    `add_strategy`: a new strategy with a zero counter under the next id; raises
    `RuntimeError` when unconfigured and violates the author foreign key for a
    non-player.
  */
  function AddStrategy(db: Db, civ: string, text: string, author: User, vsCiv: Option<string>,
                       mapName: Option<string>): (r: Outcome<nat>)
    requires Consistent(db)
    ensures !db.configured ==> r == Outcome(db, Err(RuntimeError))
    ensures db.configured && author !in db.players ==> r == Outcome(db, Err(IntegrityError))
    ensures r.result.Ok? ==>
              && r.result.value !in db.strategies
              && r.db.strategies == db.strategies[r.result.value := Strategy(civ, vsCiv, mapName, text, author, 0)]
              && Tally(r.db.votes, r.result.value) == 0
              && r.db.players == db.players && r.db.votes == db.votes && r.db.civs == db.civs
              && r.db.configured && r.db.nextStrategyId > r.result.value
    ensures r.result.Ok? <==> db.configured && author in db.players
    ensures Consistent(r.db)
  {
    if !db.configured then Outcome(db, Err(RuntimeError))
    else if author !in db.players then Outcome(db, Err(IntegrityError))
    else
      var id := db.nextStrategyId;
      var st := Strategy(civ, vsCiv, mapName, text, author, 0);
      NewStrategyKeepsConsistent(db, st);
      Outcome(db.(strategies := db.strategies[id := st], nextStrategyId := id + 1), Ok(id))
  }

  /** A strategy by a player, with a zero counter, under the next id keeps the store consistent. */
  lemma NewStrategyKeepsConsistent(db: Db, st: Strategy)
    requires Consistent(db) && st.author in db.players && st.votes == 0
    ensures db.nextStrategyId !in db.strategies && Tally(db.votes, db.nextStrategyId) == 0
    ensures Consistent(db.(strategies := db.strategies[db.nextStrategyId := st], nextStrategyId := db.nextStrategyId + 1))
  {
    var id := db.nextStrategyId;
    TallyAbsent(db.votes, id);
  }

  // ---- Players ----

  /** Python truthiness of an optional string: present and non-empty. */
  predicate Given(s: Option<string>) {
    s.Some? && s.value != ""
  }

  /** The profile URL a new player gets when none is given. */
  function DefaultProfileUrl(aoe3Username: string): string {
    "https://aoe3-homecity.com/player/" + aoe3Username
  }

  /** Another player already holds the AoE3 username. */
  predicate UsernameTaken(db: Db, discordId: User, aoe3Username: string) {
    exists other :: other in db.players && other != discordId && db.players[other].aoe3Username == aoe3Username
  }

  /**
    `register_player` at time `now`.  Unconfigured: `RuntimeError`.  An existing player
    gets both usernames replaced and the profile URL only when one is given; a new one is
    created with the given URL or the default one built from the AoE3 username.  A
    username another player holds violates the unique constraint.
  */
  function RegisterPlayer(db: Db, discordId: User, discordUsername: string, aoe3Username: string,
                          profileUrl: Option<string>, now: Time): (r: Outcome<Player>)
    requires Consistent(db)
    ensures !db.configured ==> r == Outcome(db, Err(RuntimeError))
    ensures db.configured && UsernameTaken(db, discordId, aoe3Username) ==> r == Outcome(db, Err(IntegrityError))
    ensures r.result.Ok? <==> db.configured && !UsernameTaken(db, discordId, aoe3Username)
    ensures r.result.Ok? ==>
              var p := r.result.value;
              && r.db == db.(players := db.players[discordId := p])
              && p.discordUsername == discordUsername && p.aoe3Username == aoe3Username
              && (Given(profileUrl) ==> p.profileUrl == profileUrl)
              && (discordId in db.players ==>
                    var old_ := db.players[discordId];
                    && (!Given(profileUrl) ==> p.profileUrl == old_.profileUrl)
                    && p.elo1v1 == old_.elo1v1 && p.eloTeam == old_.eloTeam
                    && p.favoriteCiv == old_.favoriteCiv && p.lastCheckedAt == old_.lastCheckedAt
                    && p.registeredAt == old_.registeredAt)
              && (discordId !in db.players ==>
                    && (!Given(profileUrl) ==> p.profileUrl == Some(DefaultProfileUrl(aoe3Username)))
                    && p.elo1v1.None? && p.eloTeam.None? && p.favoriteCiv.None? && p.lastCheckedAt.None?
                    && p.registeredAt == now)
    ensures Consistent(r.db)
  {
    if !db.configured then Outcome(db, Err(RuntimeError))
    else if UsernameTaken(db, discordId, aoe3Username) then Outcome(db, Err(IntegrityError))
    else
      var p :=
        if discordId in db.players then
          var q := db.players[discordId];
          q.(discordUsername := discordUsername, aoe3Username := aoe3Username,
             profileUrl := if Given(profileUrl) then profileUrl else q.profileUrl)
        else
          Player(discordUsername, aoe3Username,
                 Some(if Given(profileUrl) then profileUrl.value else DefaultProfileUrl(aoe3Username)),
                 None, None, None, None, now);
      PutPlayerKeepsConsistent(db, discordId, p);
      Outcome(db.(players := db.players[discordId := p]), Ok(p))
  }

  /** Storing a player whose AoE3 username no other player holds keeps the store consistent. */
  lemma PutPlayerKeepsConsistent(db: Db, id: User, p: Player)
    requires Consistent(db) && !UsernameTaken(db, id, p.aoe3Username)
    ensures Consistent(db.(players := db.players[id := p]))
  {
    var r := db.(players := db.players[id := p]);
    assert UsernamesUnique(r.players);
    assert CountersMatch(r) && VotesValid(r) && StrategiesValid(r);
  }

  /** Registering the same details twice is registering them once. */
  lemma RegisterIdempotent(db: Db, id: User, name: string, aoe3: string, url: Option<string>, t1: Time, t2: Time)
    requires Consistent(db) && db.configured && !UsernameTaken(db, id, aoe3)
    ensures var once := RegisterPlayer(db, id, name, aoe3, url, t1);
            RegisterPlayer(once.db, id, name, aoe3, url, t2) == once
  {
    var once := RegisterPlayer(db, id, name, aoe3, url, t1);
    assert !UsernameTaken(once.db, id, aoe3);
  }

  /**
    `update_player_elo` at time `now`: nothing when unconfigured or the player is unknown;
    otherwise each given field is overwritten, the others are kept, and the check time
    becomes `now`.  No other player changes.
  */
  function UpdatePlayerElo(db: Db, discordId: User, elo1v1: Option<int>, eloTeam: Option<int>,
                           favoriteCiv: Option<string>, now: Time): (r: Db)
    requires Consistent(db)
    ensures !db.configured || discordId !in db.players ==> r == db
    ensures db.configured && discordId in db.players ==>
              var p := db.players[discordId];
              && r.players.Keys == db.players.Keys
              && var q := r.players[discordId];
              && (forall o :: o in db.players && o != discordId ==> r.players[o] == db.players[o])
              && q.elo1v1 == (if elo1v1.Some? then elo1v1 else p.elo1v1)
              && q.eloTeam == (if eloTeam.Some? then eloTeam else p.eloTeam)
              && q.favoriteCiv == (if favoriteCiv.Some? then favoriteCiv else p.favoriteCiv)
              && q.lastCheckedAt == Some(now)
              && q.discordUsername == p.discordUsername && q.aoe3Username == p.aoe3Username
              && q.profileUrl == p.profileUrl && q.registeredAt == p.registeredAt
              && r == db.(players := r.players)
    ensures Consistent(r)
  {
    if !db.configured || discordId !in db.players then db
    else
      var p := db.players[discordId];
      var q := p.(elo1v1 := if elo1v1.Some? then elo1v1 else p.elo1v1,
                  eloTeam := if eloTeam.Some? then eloTeam else p.eloTeam,
                  favoriteCiv := if favoriteCiv.Some? then favoriteCiv else p.favoriteCiv,
                  lastCheckedAt := Some(now));
      assert !UsernameTaken(db, discordId, q.aoe3Username);
      PutPlayerKeepsConsistent(db, discordId, q);
      db.(players := db.players[discordId := q])
  }

  /** An update with no values only refreshes the check time. */
  lemma EmptyEloUpdateOnlyTouchesTime(db: Db, id: User, now: Time)
    requires Consistent(db) && db.configured && id in db.players
    ensures UpdatePlayerElo(db, id, None, None, None, now)
            == db.(players := db.players[id := db.players[id].(lastCheckedAt := Some(now))])
  {
  }

  // ---- Civilizations ----

  /** The mapped columns of `civilizations`. */
  const CivColumns: set<string> := {
    "id", "name", "description", "bonuses", "unique_units", "unique_buildings",
    "home_city_cards", "strengths", "weaknesses", "last_updated"
  }

  /** The existing row after an update: supplied columns overwritten except `name`, then the timestamp. */
  function UpdatedCiv(row: CivRow, civData: map<string, Value>, now: Time): (r: CivRow)
    requires "name" in row
    ensures r.Keys == ((row.Keys + civData.Keys) * CivColumns) + {"last_updated"}
    ensures r.Keys <= CivColumns
    ensures r["last_updated"] == Timestamp(now)
    ensures "name" in r && r["name"] == row["name"]
    ensures forall k :: k in r && k != "last_updated" && k != "name" && k in civData ==> r[k] == civData[k]
    ensures forall k :: k in r && k != "last_updated" && (k == "name" || k !in civData) ==> r[k] == row[k]
  {
    map k | k in ((row.Keys + civData.Keys) * CivColumns) + {"last_updated"} ::
      if k == "last_updated" then Timestamp(now)
      else if k != "name" && k in civData then civData[k]
      else row[k]
  }

  /** A new row: the supplied columns, with `last_updated` defaulting to `now`. */
  function NewCiv(civData: map<string, Value>, now: Time): (r: CivRow)
    requires civData.Keys <= CivColumns
    ensures r.Keys == civData.Keys + {"last_updated"} && r.Keys <= CivColumns
    ensures forall k :: k in civData ==> r[k] == civData[k]
    ensures "last_updated" !in civData ==> r["last_updated"] == Timestamp(now)
  {
    if "last_updated" in civData then civData else civData["last_updated" := Timestamp(now)]
  }

  /**
    `upsert_civilization(civ_data)` at time `now`.  Unconfigured: `RuntimeError`; no
    `name` key: `KeyError`.  An existing row (same name) gets every supplied column
    except `name` and a fresh `last_updated`; keys that are not columns are ignored.  A
    new row is built from the data, which raises `TypeError` on a key that is not a
    column, and violates NOT NULL when the name is NULL.
  */
  function UpsertCivilization(db: Db, civData: map<string, Value>, now: Time): (r: Outcome<CivRow>)
    requires Consistent(db)
    ensures !db.configured ==> r == Outcome(db, Err(RuntimeError))
    ensures db.configured && "name" !in civData ==> r == Outcome(db, Err(KeyError))
    ensures r.result.Err? ==> r.db == db
    ensures r.result.Ok? ==>
              var name := civData["name"];
              && name in r.db.civs && r.result.value == r.db.civs[name]
              && r.db == db.(civs := db.civs[name := r.result.value])
              && "name" in r.result.value && r.result.value["name"] == name
              && "last_updated" in r.result.value
              && r.result.value["last_updated"] ==
                   (if name in db.civs || "last_updated" !in civData then Timestamp(now) else civData["last_updated"])
              && (forall k :: k in civData && k in CivColumns && k != "last_updated" ==>
                   k in r.result.value && r.result.value[k] == civData[k])
              && (name in db.civs ==>
                    var prev := db.civs[name];
                    && r.result.value.Keys == (prev.Keys + civData.Keys) * CivColumns + {"last_updated"}
                    && (forall k :: k in prev && k != "last_updated" && k !in civData ==> r.result.value[k] == prev[k]))
              && (name !in db.civs ==> r.result.value.Keys == civData.Keys + {"last_updated"})
    ensures db.configured && "name" in civData && civData["name"] in db.civs ==> r.result.Ok?
    ensures db.configured && "name" in civData && civData["name"] !in db.civs ==>
              (r.result.Ok? <==> civData.Keys <= CivColumns && civData["name"] != Null)
    ensures Consistent(r.db)
  {
    if !db.configured then Outcome(db, Err(RuntimeError))
    else if "name" !in civData then Outcome(db, Err(KeyError))
    else
      var name := civData["name"];
      if name in db.civs then
        var row := db.civs[name];
        var updated := UpdatedCiv(row, civData, now);
        StoreCivKeepsConsistent(db, name, updated);
        Outcome(db.(civs := db.civs[name := updated]), Ok(updated))
      else if !(civData.Keys <= CivColumns) then Outcome(db, Err(TypeError))
      else if name == Null then Outcome(db, Err(IntegrityError))
      else
        var row := NewCiv(civData, now);
        StoreCivKeepsConsistent(db, name, row);
        Outcome(db.(civs := db.civs[name := row]), Ok(row))
  }

  /** Storing a row of mapped columns under its own name keeps the store consistent. */
  lemma StoreCivKeepsConsistent(db: Db, name: Value, row: CivRow)
    requires Consistent(db) && row.Keys <= CivColumns && "name" in row && row["name"] == name
    ensures Consistent(db.(civs := db.civs[name := row]))
  {
    var r := db.(civs := db.civs[name := row]);
    assert CivsKeyed(r.civs);
    assert CountersMatch(r) && VotesValid(r) && StrategiesValid(r);
  }

  /** Updating a row with data it already holds, at the time it was last updated, gives the row back. */
  lemma UpdatedCivUnchanged(row: CivRow, civData: map<string, Value>, now: Time)
    requires "name" in row && row.Keys <= CivColumns && "last_updated" !in civData
    requires "last_updated" in row && row["last_updated"] == Timestamp(now)
    requires forall k :: k in civData && k in CivColumns ==> k in row && row[k] == civData[k]
    ensures UpdatedCiv(row, civData, now) == row
  {
    var r := UpdatedCiv(row, civData, now);
    assert r.Keys == row.Keys;
  }

  /** Upserting the same data again at the same time changes nothing further. */
  lemma UpsertTwice(db: Db, civData: map<string, Value>, now: Time)
    requires Consistent(db) && "last_updated" !in civData
    requires UpsertCivilization(db, civData, now).result.Ok?
    ensures var once := UpsertCivilization(db, civData, now);
            UpsertCivilization(once.db, civData, now) == once
  {
    var once := UpsertCivilization(db, civData, now);
    var name := civData["name"];
    var row := once.db.civs[name];
    UpdatedCivUnchanged(row, civData, now);
    assert once.db.civs[name := row] == once.db.civs;
  }
}
