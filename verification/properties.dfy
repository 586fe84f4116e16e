/** Properties of the public calls over valid states: what a move, a
    resignation and a forced stop do to the game, its archive entry and the
    players' stats; what stays fixed across every call; sweep idempotence;
    and the register-then-withdraw round trip. */
module Properties {
  import opened Base
  import opened Config
  import opened Board
  import opened Game
  import opened StatsLedger
  import opened Settlement
  import opened GameContract
  import opened Invariants

  // ---------------------------------------------------------------------
  // Across every call
  // ---------------------------------------------------------------------

  /** The id counter never goes down; only a successful `start_game` moves
      it, by exactly one. */
  lemma IdsOnlyAdvance(s: Contract, env: Env, call: Call)
    ensures var s' := Apply(s, env, call);
            s'.nextGameId == s.nextGameId || (call.StartGameCall? && s'.nextGameId == s.nextGameId + 1)
  {
  }

  /** A started game takes an id no active or archived game has. */
  lemma StartGameFreshId(s: Contract, env: Env, opponent: AccountId)
    requires Valid(s) && StartGame(s, env, opponent).Ok?
    ensures StartGame(s, env, opponent).value.value !in s.games
    ensures StartGame(s, env, opponent).value.value !in s.storedGames
    ensures forall id | id in StartGame(s, env, opponent).value.next.games ::
              id < StartGame(s, env, opponent).value.next.nextGameId
  {
    StartGameValid(s, env, opponent);
  }

  /** An archived game stays archived, unchanged, and never becomes active again. */
  lemma ArchiveIsFinal(s: Contract, env: Env, call: Call, id: GameId)
    requires Valid(s) && id in s.storedGames
    ensures id in Apply(s, env, call).storedGames
    ensures Apply(s, env, call).storedGames[id] == s.storedGames[id]
    ensures id !in Apply(s, env, call).games
  {
    match call
    case MakeMoveCall(mid, row, col) =>
      if MakeMove(s, env, mid, row, col).Ok? {
        MoveKeepsArchive(s, env, mid, row, col, id);
      }
    case GiveUpCall(gid) =>
    case StopGameCall(gid) =>
    case StartGameCall(o) =>
    case MakeAvailableCall(c) =>
    case MakeUnavailableCall =>
  }

  lemma MoveKeepsArchive(s: Contract, env: Env, mid: GameId, row: nat, col: nat, id: GameId)
    requires Valid(s) && id in s.storedGames && MakeMove(s, env, mid, row, col).Ok?
    ensures id in MakeMove(s, env, mid, row, col).value.next.storedGames
    ensures MakeMove(s, env, mid, row, col).value.next.storedGames[id] == s.storedGames[id]
    ensures id !in MakeMove(s, env, mid, row, col).value.next.games
  {
    var s1 := PingExpiredGames(s, env.now).next;
    assert id in s1.storedGames && s1.storedGames[id] == s.storedGames[id] && id !in s1.games;
    assert mid in s1.games;
  }

  /** An allocated id that is no longer active never becomes active again. */
  lemma EndedStaysEnded(s: Contract, env: Env, call: Call, id: GameId)
    requires Valid(s) && id < s.nextGameId && id !in s.games
    ensures id !in Apply(s, env, call).games
  {
  }

  /** No call changes an occupied cell of a game that stays active. */
  lemma OccupiedCellsStay(s: Contract, env: Env, call: Call, id: GameId)
    requires Valid(s) && id in s.games && id in Apply(s, env, call).games
    ensures Extends(s.games[id].board.tiles, Apply(s, env, call).games[id].board.tiles)
  {
    match call
    case MakeMoveCall(mid, row, col) =>
      if MakeMove(s, env, mid, row, col).Ok? {
        MoveKeepsCells(s, env, mid, row, col, id);
      }
    case GiveUpCall(gid) =>
    case StopGameCall(gid) =>
    case StartGameCall(o) =>
    case MakeAvailableCall(c) =>
    case MakeUnavailableCall =>
  }

  lemma MoveKeepsCells(s: Contract, env: Env, mid: GameId, row: nat, col: nat, id: GameId)
    requires Valid(s) && id in s.games && MakeMove(s, env, mid, row, col).Ok?
    requires id in MakeMove(s, env, mid, row, col).value.next.games
    ensures Extends(s.games[id].board.tiles, MakeMove(s, env, mid, row, col).value.next.games[id].board.tiles)
  {
    if mid == id {
      var swept := PingExpiredGames(s, env.now).next;
      SweepGamesValid(s, env.now, s.nextGameId);
      PlayRecords(swept, env, id, row, col);
      ApplyMoveKeepsTurnOrder(s.games[id], row, col);
    }
  }

  /** No call lowers a counter or a reward total, or drops an account's record. */
  lemma StatsOnlyGrow(s: Contract, env: Env, call: Call)
    ensures LedgerGrows(s.stats, Apply(s, env, call).stats)
  {
    if call.MakeMoveCall? && MakeMove(s, env, call.id, call.row, call.col).Ok? {
      var s1 := PingExpiredGames(s, env.now).next;
      LedgerGrowsTrans(s.stats, s1.stats, Apply(s, env, call).stats);
    }
  }

  // ---------------------------------------------------------------------
  // The sweeps
  // ---------------------------------------------------------------------

  /** A second waiting-list sweep at the same time removes and refunds nothing. */
  lemma PingExpiredPlayersIdempotent(s: Contract, now: Timestamp)
    ensures var t := PingExpiredPlayers(s, now).next;
            PingExpiredPlayers(t, now).next == t && PingExpiredPlayers(t, now).transfers == multiset{}
  {
    var t := PingExpiredPlayers(s, now).next;
    var t2 := PingExpiredPlayers(t, now).next;
    assert t2.availablePlayers == t.availablePlayers;
    assert t.availablePlayers - t2.availablePlayers.Keys == map[];
  }

  /** A game sweep that finds nothing stale below `n` changes nothing. */
  lemma {:induction false} SweepOfFreshGames(s: Contract, now: Timestamp, n: nat)
    requires n <= U64_LIMIT
    requires forall id: GameId | id < n :: !Stale(s, id, now)
    ensures SweepGames(s, now, n) == Step(s, (), multiset{})
    decreases n
  {
    if n > 0 {
      SweepOfFreshGames(s, now, n - 1);
      var id: GameId := n - 1;
      assert !Stale(s, id, now);
    }
  }

  /** A second game sweep at the same time stops nothing. */
  lemma PingExpiredGamesIdempotent(s: Contract, now: Timestamp)
    ensures var t := PingExpiredGames(s, now).next;
            PingExpiredGames(t, now) == Step(t, (), multiset{})
  {
    var t := PingExpiredGames(s, now).next;
    forall id: GameId | id < t.nextGameId
      ensures !Stale(t, id, now)
    {
      if id in t.games {
        assert t.games[id] == s.games[id];
        assert !Stale(s, id, now);
      }
    }
    SweepOfFreshGames(t, now, t.nextGameId);
  }

  // ---------------------------------------------------------------------
  // The waiting list
  // ---------------------------------------------------------------------

  /** Registering and then withdrawing, with one yoctoNEAR attached, leaves the
      state the sweep left and refunds exactly the stake. */
  lemma AvailableThenUnavailable(s: Contract, env: Env, config: Option<GameConfigNear>)
    requires MakeAvailable(s, env, config).Ok?
    ensures var back := MakeUnavailable(MakeAvailable(s, env, config).value.next, env.(attachedDeposit := ONE_YOCTO));
            && back.Ok?
            && back.value.next == PingExpiredPlayers(s, env.now).next
            && back.value.transfers == multiset{Transfer(NEAR_TOKEN, env.caller, env.attachedDeposit)}
  {
    var swept := PingExpiredPlayers(s, env.now).next;
    var joined := MakeAvailable(s, env, config).value.next;
    assert joined.availablePlayers - {env.caller} == swept.availablePlayers;
  }

  // ---------------------------------------------------------------------
  // Moves
  // ---------------------------------------------------------------------

  /** A successful move was made by the current mover of a game that was
      active before the call. */
  lemma MakeMoveByMover(s: Contract, env: Env, id: GameId, row: nat, col: nat)
    requires MakeMove(s, env, id, row, col).Ok?
    ensures id in s.games && s.games[id].state == Active
    ensures env.caller == s.games[id].CurrentAccount()
    ensures CheckMove(s.games[id].board.tiles, row, col).None?
  {
  }

  /** A move that neither ends the game nor runs late is recorded: the cell
      holds the mover's piece, every other cell is unchanged, the turn and the
      piece pass to the other player, the turn is counted and stamped, and the
      game sweep at the same time would not stop it. */
  lemma MakeMoveRecords(s: Contract, env: Env, id: GameId, row: nat, col: nat)
    requires Valid(s) && MakeMove(s, env, id, row, col).Ok?
    requires id in MakeMove(s, env, id, row, col).value.next.games
    ensures id in s.games
    ensures var g := s.games[id];
            var g' := MakeMove(s, env, id, row, col).value.next.games[id];
            && g'.board.tiles[row][col] == Some(g.currentPiece)
            && (forall r, c | InBounds(r, c) && (r != row || c != col) :: g'.board.tiles[r][c] == g.board.tiles[r][c])
            && g'.currentPiece != g.currentPiece
            && g'.currentIndex == 1 - g.currentIndex
            && g'.CurrentAccount() == g.NextAccount()
            && g'.board.winner.None?
            && g'.totalTurns == g.totalTurns + 1
            && g'.lastTurnAt == env.now
            && g'.currentDuration == env.now - g.initiatedAt
    ensures !Stale(MakeMove(s, env, id, row, col).value.next, id, env.now)
  {
    var s1 := PingExpiredGames(s, env.now).next;
    SweepGamesValid(s, env.now, s.nextGameId);
    PlayRecords(s1, env, id, row, col);
  }

  lemma PlayRecords(s: Contract, env: Env, id: GameId, row: nat, col: nat)
    requires Valid(s) && Play(s, env, id, row, col).Ok?
    requires id in Play(s, env, id, row, col).value.next.games
    ensures id in s.games
    ensures var g := s.games[id];
            var g' := Play(s, env, id, row, col).value.next.games[id];
            && g' == ApplyMove(g, row, col).(totalTurns := g.totalTurns + 1, lastTurnAt := env.now,
                                              currentDuration := env.now - g.initiatedAt)
            && g'.board.winner.None?
    ensures !Stale(Play(s, env, id, row, col).value.next, id, env.now)
  {
    var g := s.games[id];
    var g1 := ApplyMove(g, row, col);
    assert g1.board.winner.None?;
    assert TurnTimedOut(g.lastTurnAt, env.now, g.initiatedAt, s.maxTurnDuration, s.maxGameDuration) == Ok(false);
    assert s.maxTurnDuration <= s.maxGameDuration;
  }

  /** A move that completes a five-cell run archives a win for its mover; one
      that fills the board without a run archives a tie. Either way the game
      leaves the active games with no timeout check, the archive keeps the
      game's player order and the board after the move, and the call returns
      that board. */
  lemma MakeMoveFinishes(s: Contract, env: Env, id: GameId, row: nat, col: nat)
    requires Valid(s) && MakeMove(s, env, id, row, col).Ok?
    requires id in s.games && CheckMove(s.games[id].board.tiles, row, col).None?
    requires ApplyMove(s.games[id], row, col).board.winner.Some?
    ensures var r := MakeMove(s, env, id, row, col).value;
            var g := s.games[id];
            var after := ApplyMove(g, row, col);
            && id !in r.next.games && id in r.next.storedGames
            && r.next.storedGames[id].result
                 == (if after.board.winner.value.Won? then Win(env.caller) else Tie)
            && r.next.storedGames[id].player1 == g.players.0.account
            && r.next.storedGames[id].player2 == g.players.1.account
            && r.next.storedGames[id].tiles == after.board.tiles
            && r.value == after.board.tiles
  {
    var s1 := PingExpiredGames(s, env.now).next;
    var g := s1.games[id];
    assert g == s.games[id];
    var g1 := ApplyMove(g, row, col);
    if g1.board.winner.value.Won? {
      WinnerIsMover(g, row, col, g1.board.winner.value.piece);
    }
  }

  /** A late non-final move makes its own mover lose: the caller is penalised,
      the other player wins, and the archive lists the winner first with the
      board as it was before the move. */
  lemma PlayLate(s: Contract, env: Env, id: GameId, row: nat, col: nat)
    requires Valid(s) && Play(s, env, id, row, col).Ok?
    requires id in s.games && CheckMove(s.games[id].board.tiles, row, col).None?
    requires ApplyMove(s.games[id], row, col).board.winner.None?
    requires TurnTimedOut(s.games[id].lastTurnAt, env.now, s.games[id].initiatedAt,
                          s.maxTurnDuration, s.maxGameDuration) == Ok(true)
    ensures var r := Play(s, env, id, row, col).value;
            var g := s.games[id];
            && id !in r.next.games
            && r.next.storedGames[id].result == Win(g.NextAccount())
            && r.next.storedGames[id].player1 == g.NextAccount()
            && r.next.storedGames[id].player2 == env.caller
            && r.next.storedGames[id].tiles == g.board.tiles
            && StatsOf(r.next.stats, env.caller).penaltiesNum == StatsOf(s.stats, env.caller).penaltiesNum + 1
            && StatsOf(r.next.stats, g.NextAccount()).victoriesNum == StatsOf(s.stats, g.NextAccount()).victoriesNum + 1
  {
    var g := s.games[id];
    assert g.Opponent(env.caller) == g.NextAccount();
  }

  /** The sweep that opens `make_move` applies the same bounds as the late-move
      test, so a game the move would find late is already stopped and the
      call fails with GameNotFound: a successful `make_move` never takes the
      late path. */
  lemma MakeMoveNeverLate(s: Contract, env: Env, id: GameId, row: nat, col: nat)
    requires Valid(s) && MakeMove(s, env, id, row, col).Ok?
    ensures id in s.games
    ensures var g := s.games[id];
            TurnTimedOut(g.lastTurnAt, env.now, g.initiatedAt, s.maxTurnDuration, s.maxGameDuration) != Ok(true)
  {
    var swept := PingExpiredGames(s, env.now).next;
    assert id in swept.games && swept.games[id] == s.games[id];
    assert !Stale(s, id, env.now);
  }

  // ---------------------------------------------------------------------
  // Resignation and forced stop
  // ---------------------------------------------------------------------

  /** A resignation pays the other player the wager less the fee and counts
      its victory; the resigning player's record is untouched. */
  lemma GiveUpSettles(s: Contract, env: Env, id: GameId)
    requires Valid(s) && GiveUp(s, env, id).Ok?
    ensures var r := GiveUp(s, env, id).value;
            var g := s.games[id];
            var w := g.Opponent(env.caller);
            && w != env.caller && g.HasPlayer(w)
            && r.next.storedGames[id].result == Win(w)
            && StatsOf(r.next.stats, w).victoriesNum == StatsOf(s.stats, w).victoriesNum + 1
            && StatsOf(r.next.stats, w).gamesPlayed == StatsOf(s.stats, w).gamesPlayed
            && StatsOf(r.next.stats, w).penaltiesNum == StatsOf(s.stats, w).penaltiesNum
            && StatsOf(r.next.stats, env.caller) == StatsOf(s.stats, env.caller)
            && r.next.storedGames[id].rewardOrTieRefund.balance + ServiceFee(g.reward.balance, s.serviceFee)
                 == g.reward.balance
            && r.transfers == multiset{Transfer(g.reward.token, w, r.next.storedGames[id].rewardOrTieRefund.balance)}
  {
  }

  /** A forced stop is made by the waiting player against the current mover:
      the mover takes a penalty, the caller a victory, and the archive lists
      the caller first. */
  lemma StopGamePenalises(s: Contract, env: Env, id: GameId, corrected: bool)
    requires Valid(s) && StopGame(s, env, id, corrected).Ok?
    ensures var r := StopGame(s, env, id, corrected).value;
            var g := s.games[id];
            && env.caller == g.NextAccount()
            && id !in r.next.games
            && r.next.storedGames[id].result == Win(env.caller)
            && r.next.storedGames[id].player1 == env.caller
            && r.next.storedGames[id].player2 == g.CurrentAccount()
            && StatsOf(r.next.stats, g.CurrentAccount()).penaltiesNum == StatsOf(s.stats, g.CurrentAccount()).penaltiesNum + 1
            && StatsOf(r.next.stats, env.caller).victoriesNum == StatsOf(s.stats, env.caller).victoriesNum + 1
            && StatsOf(r.next.stats, env.caller).penaltiesNum == StatsOf(s.stats, env.caller).penaltiesNum
            && r.next.storedGames[id].rewardOrTieRefund.balance + ServiceFee(g.reward.balance, s.serviceFee)
                 == g.reward.balance
            && r.transfers == multiset{Transfer(g.reward.token, env.caller, r.next.storedGames[id].rewardOrTieRefund.balance)}
  {
    var g := s.games[id];
    assert g.Opponent(env.caller) == g.CurrentAccount();
  }

  /** The game bound is strict in `make_move` but not in `stop_game`: at
      exactly the bound, with the turn bound respected, a move is recorded
      while a forced stop is already allowed, by the test as written and by
      the corrected one. */
  lemma GameBoundBoundary(g: Game, now: Timestamp, maxTurn: Timestamp, maxGame: Timestamp)
    requires g.initiatedAt <= now && now - g.initiatedAt == maxGame
    requires g.lastTurnAt != 0 && g.lastTurnAt <= now && now - g.lastTurnAt <= maxTurn
    ensures TurnTimedOut(g.lastTurnAt, now, g.initiatedAt, maxTurn, maxGame) == Ok(false)
    ensures StopAllowedAsWritten(g, now, maxTurn, maxGame) == Ok(true)
    ensures StopAllowed(g, now, maxTurn, maxGame) == Ok(true)
  {
  }

  /** As written, `stop_game` measures the turn gap before the first move
      from time 0, so any game can be stopped once the block time itself is
      past the turn bound. */
  lemma StopAsWrittenCountsFromZero(g: Game, now: Timestamp, maxTurn: Timestamp, maxGame: Timestamp)
    requires g.lastTurnAt == 0 && g.initiatedAt <= now && now - g.initiatedAt < maxGame
    ensures StopAllowedAsWritten(g, now, maxTurn, maxGame) == Ok(now > maxTurn)
  {
  }

  /** A block time of the kind the chain actually reports, in nanoseconds. */
  const CHAIN_TIME: Timestamp := 1_700_000_000 * NANOS_PER_SEC

  /** The consequence: one nanosecond after a game starts at a realistic block
      time, with the default bounds, the waiting player may already stop it as
      written, although neither bound has passed; the corrected test refuses. */
  lemma StopRightAfterStart(g: Game)
    requires g.lastTurnAt == 0 && g.initiatedAt == CHAIN_TIME
    ensures var maxGame := 60 * 60 * NANOS_PER_SEC;
            && StopAllowedAsWritten(g, CHAIN_TIME + 1, maxGame / MAX_NUM_TURNS, maxGame) == Ok(true)
            && StopAllowed(g, CHAIN_TIME + 1, maxGame / MAX_NUM_TURNS, maxGame) == Ok(false)
  {
  }

  /** The same at the entry point: in any valid state with the default game
      bound, the waiting player of a game started at `CHAIN_TIME` with no move
      made wins it by `stop_game` one nanosecond later, while the corrected
      call refuses it as too early. */
  lemma StopGameRightAfterStart(s: Contract, env: Env, id: GameId)
    requires Valid(s) && id in s.games
    requires s.games[id].lastTurnAt == 0 && s.games[id].initiatedAt == CHAIN_TIME
    requires s.maxGameDuration == 60 * 60 * NANOS_PER_SEC
    requires env.now == CHAIN_TIME + 1 && env.caller == s.games[id].NextAccount() && env.attachedDeposit == 0
    ensures StopGame(s, env, id, false).Ok?
    ensures StopGame(s, env, id, true) == Err(TooEarly)
  {
    StopRightAfterStart(s.games[id]);
  }

  /** Once a turn has been stamped, `stop_game` as written and corrected agree. */
  lemma StopGameAgreesAfterFirstTurn(s: Contract, env: Env, id: GameId)
    requires id in s.games && s.games[id].lastTurnAt != 0
    ensures StopGame(s, env, id, false) == StopGame(s, env, id, true)
  {
  }

  /** With the corrected test, a game whose turn stamps do not precede its
      start cannot be stopped before a full turn bound, or the game bound, has
      passed since it started. */
  lemma StopNeedsElapsedBound(g: Game, now: Timestamp, maxTurn: Timestamp, maxGame: Timestamp)
    requires g.lastTurnAt == 0 || g.initiatedAt <= g.lastTurnAt
    requires StopAllowed(g, now, maxTurn, maxGame) == Ok(true)
    ensures g.initiatedAt <= now
    ensures now - g.initiatedAt >= maxGame || now - g.initiatedAt > maxTurn
  {
  }

  /** The corrected test agrees with the game sweep: a forced stop is allowed
      exactly when the sweep would stop the game, or at the game bound itself,
      which the sweep's strict `>` lets pass. */
  lemma StopMatchesSweep(s: Contract, g: Game, now: Timestamp)
    requires g.initiatedAt <= now && TurnStart(g) <= now
    ensures (StopAllowed(g, now, s.maxTurnDuration, s.maxGameDuration) == Ok(true)) <==>
              (GameExpired(s, g, now) || now - g.initiatedAt == s.maxGameDuration)
  {
  }
}
