/** The state invariant every public call preserves, and the properties that
    relate a call's state before and after: ids are never reused, archived
    games never come back, occupied cells never change, and the stats only
    grow. */
module Invariants {
  import opened Base
  import opened Config
  import opened Board
  import opened Game
  import opened StatsLedger
  import opened Settlement
  import opened GameContract

  /** The contract's invariant:
      - the turn bound is derived from the game bound;
      - every active game has an id below `nextGameId` and is well-formed;
      - every archived game has an allocated id and is not active. */
  ghost predicate Valid(s: Contract) {
    && s.maxTurnDuration == s.maxGameDuration / MAX_NUM_TURNS
    && (forall id | id in s.games :: id < s.nextGameId && s.games[id].Valid())
    && (forall id | id in s.storedGames :: id < s.nextGameId && id !in s.games)
  }

  lemma NewValid(config: Option<Config>)
    ensures New(config).Ok? ==> Valid(New(config).value)
  {
  }

  /** A state that differs from a valid one only by retiring active games
      into the archive (and by its ledger) is valid. */
  lemma ShrinkValid(s: Contract, s': Contract)
    requires Valid(s)
    requires s'.nextGameId == s.nextGameId && s'.availablePlayers == s.availablePlayers
    requires s'.maxTurnDuration == s.maxTurnDuration && s'.maxGameDuration == s.maxGameDuration
    requires forall id | id in s'.games :: id in s.games && s'.games[id] == s.games[id]
    requires forall id | id in s'.storedGames :: id in s.storedGames || (id in s.games && id !in s'.games)
    ensures Valid(s')
  {
  }

  lemma ConcludeValid(s: Contract, id: GameId, g: Game, winner: Option<AccountId>, first: AccountId, second: AccountId)
    requires Valid(s) && id in s.games
    ensures Valid(Conclude(s, id, g, winner, first, second).next)
  {
    ShrinkValid(s, Conclude(s, id, g, winner, first, second).next);
  }

  lemma ForceStopValid(s: Contract, id: GameId, g: Game, winner: AccountId, loser: AccountId)
    requires Valid(s) && id in s.games
    ensures Valid(ForceStop(s, id, g, winner, loser).next)
  {
    ShrinkValid(s, ForceStop(s, id, g, winner, loser).next);
  }

  /** The game sweep keeps the invariant. */
  lemma SweepGamesValid(s: Contract, now: Timestamp, n: nat)
    requires Valid(s) && n <= U64_LIMIT
    ensures Valid(SweepGames(s, now, n).next)
  {
    ShrinkValid(s, SweepGames(s, now, n).next);
  }

  lemma MakeAvailableValid(s: Contract, env: Env, config: Option<GameConfigNear>)
    requires Valid(s)
    ensures MakeAvailable(s, env, config).Ok? ==> Valid(MakeAvailable(s, env, config).value.next)
  {
  }

  lemma MakeUnavailableValid(s: Contract, env: Env)
    requires Valid(s)
    ensures MakeUnavailable(s, env).Ok? ==> Valid(MakeUnavailable(s, env).value.next)
  {
  }

  lemma StartGameValid(s: Contract, env: Env, opponent: AccountId)
    requires Valid(s)
    ensures StartGame(s, env, opponent).Ok? ==> Valid(StartGame(s, env, opponent).value.next)
  {
  }

  lemma MakeMoveValid(s: Contract, env: Env, id: GameId, row: nat, col: nat)
    requires Valid(s)
    ensures MakeMove(s, env, id, row, col).Ok? ==> Valid(MakeMove(s, env, id, row, col).value.next)
  {
    SweepGamesValid(s, env.now, s.nextGameId);
    PlayValid(PingExpiredGames(s, env.now).next, env, id, row, col);
  }

  lemma PlayValid(s: Contract, env: Env, id: GameId, row: nat, col: nat)
    requires Valid(s)
    ensures Play(s, env, id, row, col).Ok? ==> Valid(Play(s, env, id, row, col).value.next)
  {
    if Play(s, env, id, row, col).Ok? {
      var g := s.games[id];
      var g1 := ApplyMove(g, row, col);
      if g1.board.winner.Some? {
        ConcludeValid(s, id, g1.(state := Finished), WinnerAccount(g1, g1.board.winner.value),
                      g1.players.0.account, g1.players.1.account);
      } else if TurnTimedOut(g.lastTurnAt, env.now, g.initiatedAt, s.maxTurnDuration, s.maxGameDuration) == Ok(true) {
        ForceStopValid(s, id, g, g.Opponent(env.caller), env.caller);
      } else {
        ApplyMoveKeepsTurnOrder(g, row, col);
        var g2 := g1.(totalTurns := g1.totalTurns + 1, lastTurnAt := env.now,
                      currentDuration := env.now - g1.initiatedAt);
        ReplaceValid(s, id, g2);
      }
    }
  }

  /** Replacing an active game by another well-formed one keeps the invariant. */
  lemma ReplaceValid(s: Contract, id: GameId, g: Game)
    requires Valid(s) && id in s.games && g.Valid()
    ensures Valid(s.(games := s.games[id := g]))
  {
  }

  lemma GiveUpValid(s: Contract, env: Env, id: GameId)
    requires Valid(s)
    ensures GiveUp(s, env, id).Ok? ==> Valid(GiveUp(s, env, id).value.next)
  {
    if GiveUp(s, env, id).Ok? {
      var g := s.games[id];
      var winner := if env.caller == g.players.0.account then g.players.1.account else g.players.0.account;
      ConcludeValid(s, id, g.(state := Finished), Some(winner), g.players.0.account, g.players.1.account);
    }
  }

  /** Under either lateness test. */
  lemma StopGameValid(s: Contract, env: Env, id: GameId, corrected: bool)
    requires Valid(s)
    ensures StopGame(s, env, id, corrected).Ok? ==> Valid(StopGame(s, env, id, corrected).value.next)
  {
    if StopGame(s, env, id, corrected).Ok? {
      ForceStopValid(s, id, s.games[id], env.caller, s.games[id].Opponent(env.caller));
    }
  }

  /** Every public call, successful or not, keeps the invariant. */
  lemma ApplyValid(s: Contract, env: Env, call: Call)
    requires Valid(s)
    ensures Valid(Apply(s, env, call))
  {
    match call
    case MakeAvailableCall(c) => MakeAvailableValid(s, env, c);
    case MakeUnavailableCall => MakeUnavailableValid(s, env);
    case StartGameCall(o) => StartGameValid(s, env, o);
    case MakeMoveCall(id, row, col) => MakeMoveValid(s, env, id, row, col);
    case GiveUpCall(id) => GiveUpValid(s, env, id);
    case StopGameCall(id) => StopGameValid(s, env, id, false);
  }
}
