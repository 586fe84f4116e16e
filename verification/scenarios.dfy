/** The unit-test scenarios of lib.rs, restated as lemmas over the model.
    Accounts and the token are named as in the tests; the two stakes are
    entered directly in the waiting list (the tests enter them through the
    token-transfer path, which is not part of this model). A game part-way
    through is built directly from its board rather than replayed move by
    move, and so are the two running games of `test_new_views`, whose players
    start from one game played each. Block time stays 0 unless a test moves
    it, and the random seed is the test context's zero seed, so the opponent
    named in `start_game` moves first with X. The tests' `stop_game` helper
    attaches one yoctoNEAR, which a direct call in a unit test lets through;
    the method is not payable, so on chain that deposit would be refused,
    and the stop scenarios here attach none. */
module Scenarios {
  import opened Base
  import opened Config
  import opened Board
  import opened Game
  import opened StatsLedger
  import opened Settlement
  import opened GameContract
  import opened Invariants
  import opened Properties

  const USER: AccountId := "user"
  const OPPONENT: AccountId := "opponent.near"
  const REFERRER: AccountId := "referrer.near"
  const CHEDDAR: TokenId := "cheddar"
  const THIRD: AccountId := "third"
  const FOURTH: AccountId := "fourth"

  // ---------------------------------------------------------------------
  // Boards
  // ---------------------------------------------------------------------

  const x: Option<Piece> := Some(X)
  const o: Option<Piece> := Some(O)
  const e: Option<Piece> := None

  /** The board of the anti-diagonal test before O's last move at (4, 0). */
  function DiagonalBefore(): Grid {
    [[e, x, x, e, o],
     [e, x, e, o, e],
     [e, x, o, e, e],
     [e, o, e, x, e],
     [e, e, e, e, e]]
  }

  /** The board of the tie test before X's last move at (4, 2). */
  function TieBefore(): Grid {
    [[x, o, x, o, x],
     [o, x, o, x, o],
     [x, o, x, o, x],
     [o, x, o, x, o],
     [o, x, e, x, o]]
  }

  /** O's move at (4, 0) completes the anti-diagonal and wins. */
  lemma DiagonalWins()
    ensures CheckMove(DiagonalBefore(), 4, 0).None?
    ensures UpdateWinner(Place(DiagonalBefore(), 4, 0, O), 4, 0) == Some(Won(O))
  {
    var t := Place(DiagonalBefore(), 4, 0, O);
    assert Along(t, 0, 4, 1, -1, 0) == Some(O);
    assert Along(t, 0, 4, 1, -1, 1) == Some(O);
    assert Along(t, 0, 4, 1, -1, 2) == Some(O);
    assert Along(t, 0, 4, 1, -1, 3) == Some(O);
    assert Along(t, 0, 4, 1, -1, 4) == Some(O);
    LineWins(t, 4, 0, 1, -1, 4, O);
  }

  /** X's move at (4, 2) fills the board; its longest run is three, so the
      game is tied. */
  lemma TieAtLastCell()
    ensures CheckMove(TieBefore(), 4, 2).None?
    ensures UpdateWinner(Place(TieBefore(), 4, 2, X), 4, 2) == Some(Tied)
  {
    var t := Place(TieBefore(), 4, 2, X);
    assert t[4] == [o, x, x, x, o];
    assert t == [[x, o, x, o, x],
                 [o, x, o, x, o],
                 [x, o, x, o, x],
                 [o, x, o, x, o],
                 [o, x, x, x, o]];
    assert Full(t);
    assert !WinsAt(t, 4, 2, X);
  }

  /** The opening move at (0, 0) neither wins nor fills the board. */
  lemma OpeningMove()
    ensures CheckMove(EmptyTiles(), 0, 0).None?
    ensures UpdateWinner(Place(EmptyTiles(), 0, 0, X), 0, 0) == None
  {
    var t := Place(EmptyTiles(), 0, 0, X);
    assert t[0][1] == None;
    assert Run(t, 0, 1, 0, 1, X, BOARD_SIZE) == 0;
    assert Run(t, 1, 0, 1, 0, X, BOARD_SIZE) == 0;
    assert Run(t, 1, 1, 1, 1, X, BOARD_SIZE) == 0;
    assert AxisLength(t, 0, 0, 1, -1, X) == 1;
  }

  /** The board of the two `stop_game` tests after their eight moves. */
  function EightMoves(): Grid {
    [[x, o, x, e, e],
     [x, e, o, e, e],
     [o, x, o, e, e],
     [e, e, e, e, e],
     [e, e, e, e, e]]
  }

  // ---------------------------------------------------------------------
  // States
  // ---------------------------------------------------------------------

  /** The tests' configuration: fee `fee`, a ten-minute game, half the fee to
      referrers, fifty archived games. */
  function TestConfig(fee: FeeRate): Config {
    Config(fee, 60 * 10, BASIS_P / 2, 50)
  }

  function Deployed(fee: FeeRate): Contract {
    assert TestConfig(fee).Valid();
    New(Some(TestConfig(fee))).value
  }

  /** Both accounts waiting with `deposit` of the test token, each naming the
      other as its opponent. */
  function Waiting(fee: FeeRate, deposit: U128): Contract {
    Deployed(fee).(availablePlayers := map[
      USER := GameConfig(CHEDDAR, deposit, Some(OPPONENT), Some(REFERRER), 0),
      OPPONENT := GameConfig(CHEDDAR, deposit, Some(USER), None, 0)])
  }

  const StartEnv: Env := Env(0, USER, 0, 0)

  /** The state after `user` starts the game against `opponent`. */
  function Started(fee: FeeRate, deposit: U128): Contract
    requires 2 * deposit < U128_LIMIT
  {
    StartGame(Waiting(fee, deposit), StartEnv, OPPONENT).value.next
  }

  /** The two players' game after `turns` moves at time 0 with board `tiles`:
      the opponent plays X in the first slot. */
  function TestGame(deposit: U128, tiles: Grid, turns: nat): Game
    requires 2 * deposit < U128_LIMIT
  {
    var i: Index := turns % 2;
    Game((Player(OPPONENT, X), Player(USER, O)), if i == 0 then X else O, i, Board(tiles, None),
         Active, 0, 0, turns, 0, GameDeposit(CHEDDAR, 2 * deposit))
  }

  /** The state once the game has reached `TestGame(deposit, tiles, turns)`. */
  function Midgame(fee: FeeRate, deposit: U128, tiles: Grid, turns: nat): Contract
    requires 2 * deposit < U128_LIMIT
  {
    Deployed(fee).(games := map[0 := TestGame(deposit, tiles, turns)], nextGameId := 1,
                   stats := map[USER := Stats(1, 0, 0, map[]), OPPONENT := Stats(1, 0, 0, map[])])
  }

  // ---------------------------------------------------------------------
  // Scenarios
  // ---------------------------------------------------------------------

  /** Starting a game (lines 938-953): with the zero seed the opponent named
      moves first; the pieces differ; the board's piece is the first slot's;
      both stakes leave the waiting list and each player has one game. */
  lemma StartScenario(fee: FeeRate, deposit: U128)
    requires 2 * deposit < U128_LIMIT
    ensures StartGame(Waiting(fee, deposit), StartEnv, OPPONENT).Ok?
    ensures StartGame(Waiting(fee, deposit), StartEnv, OPPONENT).value.value == 0
    ensures var s := Started(fee, deposit);
            && s.games[0].CurrentAccount() == OPPONENT && s.games[0].NextAccount() == USER
            && s.games[0].players.0.piece != s.games[0].players.1.piece
            && s.games[0].currentPiece == s.games[0].players.0.piece
            && s.availablePlayers == map[]
            && StatsOf(s.stats, USER).gamesPlayed == 1 && StatsOf(s.stats, OPPONENT).gamesPlayed == 1
    ensures Started(fee, deposit) == Midgame(fee, deposit, EmptyTiles(), 0)
  {
    assert Waiting(fee, deposit).availablePlayers - {USER, OPPONENT} == map[];
    var s := Started(fee, deposit);
    assert s.stats == map[USER := Stats(1, 0, 0, map[]), OPPONENT := Stats(1, 0, 0, map[])];
  }

  /** `test_give_up`: the starter resigns; the opponent wins the stake less
      the fee, the resigning player gets nothing. */
  lemma GiveUpScenario(fee: FeeRate, deposit: U128)
    requires 2 * deposit < U128_LIMIT
    ensures var r := GiveUp(Started(fee, deposit), Env(0, USER, ONE_YOCTO, 0), 0);
            && r.Ok?
            && StatsOf(r.value.next.stats, USER).gamesPlayed == StatsOf(r.value.next.stats, OPPONENT).gamesPlayed
            && StatsOf(r.value.next.stats, USER).victoriesNum == 0
            && StatsOf(r.value.next.stats, OPPONENT).victoriesNum == 1
            && RewardOf(StatsOf(r.value.next.stats, OPPONENT), CHEDDAR)
                 == 2 * deposit - (2 * deposit / BASIS_P) * fee
            && StatsOf(r.value.next.stats, USER).totalReward == map[]
  {
    StartScenario(fee, deposit);
  }

  /** Nothing is stale in a `Midgame` state at time 0: its sweep is idle. */
  lemma MidgameIdle(fee: FeeRate, deposit: U128, tiles: Grid, turns: nat)
    requires 2 * deposit < U128_LIMIT
    ensures var s := Midgame(fee, deposit, tiles, turns);
            PingExpiredGames(s, 0) == Step(s, (), multiset{})
  {
    var s := Midgame(fee, deposit, tiles, turns);
    SweepOfFreshGames(s, 0, 1);
  }

  /** When the sweep is idle, a move that ends game `id` settles it at once:
      no timeout check applies. */
  lemma SettlingMove(s: Contract, env: Env, id: GameId, row: nat, col: nat)
    requires env.attachedDeposit == 0 && PingExpiredGames(s, env.now) == Step(s, (), multiset{})
    requires id in s.games && s.games[id].state == Active && s.games[id].board.winner.None?
    requires env.caller == s.games[id].CurrentAccount()
    requires CheckMove(s.games[id].board.tiles, row, col).None?
    requires ApplyMove(s.games[id], row, col).board.winner.Some?
    ensures var g1 := ApplyMove(s.games[id], row, col);
            var winner := WinnerAccount(g1, g1.board.winner.value);
            var done := Conclude(s, id, g1.(state := Finished), winner, g1.players.0.account, g1.players.1.account);
            && MakeMove(s, env, id, row, col) == Ok(Step(done.next, g1.board.tiles, done.transfers))
            && done.next.stats == Distribute(s.stats, g1.players.0.account, g1.players.1.account, g1.reward,
                                             winner, s.serviceFee).stats
  {
    FinishingMove(s, env, id, row, col);
    var g1 := ApplyMove(s.games[id], row, col);
    var done := Conclude(s, id, g1.(state := Finished), WinnerAccount(g1, g1.board.winner.value),
                         g1.players.0.account, g1.players.1.account);
    assert multiset{} + done.transfers == done.transfers;
  }

  /** The move itself, on the swept state. */
  lemma FinishingMove(s: Contract, env: Env, id: GameId, row: nat, col: nat)
    requires id in s.games && s.games[id].state == Active && s.games[id].board.winner.None?
    requires env.caller == s.games[id].CurrentAccount()
    requires CheckMove(s.games[id].board.tiles, row, col).None?
    requires ApplyMove(s.games[id], row, col).board.winner.Some?
    ensures var g1 := ApplyMove(s.games[id], row, col);
            var done := Conclude(s, id, g1.(state := Finished), WinnerAccount(g1, g1.board.winner.value),
                                 g1.players.0.account, g1.players.1.account);
            Play(s, env, id, row, col) == Ok(Step(done.next, g1.board.tiles, done.transfers))
  {
  }

  /** A move that neither ends game `id` nor runs late is recorded in place:
      only that game changes, and it is counted and stamped. */
  lemma RecordingMove(s: Contract, env: Env, id: GameId, row: nat, col: nat)
    requires id in s.games && s.games[id].state == Active && s.games[id].board.winner.None?
    requires env.caller == s.games[id].CurrentAccount()
    requires CheckMove(s.games[id].board.tiles, row, col).None?
    requires ApplyMove(s.games[id], row, col).board.winner.None?
    requires var g := s.games[id];
             TurnTimedOut(g.lastTurnAt, env.now, g.initiatedAt, s.maxTurnDuration, s.maxGameDuration) == Ok(false)
    ensures var r := Play(s, env, id, row, col);
            && r.Ok?
            && r.value.next.stats == s.stats && r.value.next.storedGames == s.storedGames
            && r.value.next.games.Keys == s.games.Keys
            && r.value.next.games[id].lastTurnAt == env.now
            && r.value.next.games[id].totalTurns == s.games[id].totalTurns + 1
  {
  }

  /** `test_game_basics`: O's tenth move completes the anti-diagonal; the
      second player wins the stake less the fee and the first gets nothing. */
  lemma DiagonalScenario(fee: FeeRate, deposit: U128)
    requires 2 * deposit < U128_LIMIT
    ensures var r := MakeMove(Midgame(fee, deposit, DiagonalBefore(), 9), StartEnv, 0, 4, 0);
            && r.Ok?
            && 0 !in r.value.next.games
            && r.value.next.storedGames[0].result == Win(USER)
            && StatsOf(r.value.next.stats, USER).gamesPlayed == StatsOf(r.value.next.stats, OPPONENT).gamesPlayed
            && StatsOf(r.value.next.stats, USER).victoriesNum == 1
            && StatsOf(r.value.next.stats, OPPONENT).victoriesNum == 0
            && RewardOf(StatsOf(r.value.next.stats, USER), CHEDDAR) == 2 * deposit - (2 * deposit / BASIS_P) * fee
            && StatsOf(r.value.next.stats, OPPONENT).totalReward == map[]
  {
    DiagonalWins();
    var s := Midgame(fee, deposit, DiagonalBefore(), 9);
    MidgameIdle(fee, deposit, DiagonalBefore(), 9);
    SettlingMove(s, StartEnv, 0, 4, 0);
    var g1 := ApplyMove(s.games[0], 4, 0);
    assert WinnerAccount(g1, g1.board.winner.value) == Some(USER);
  }

  /** `test_tie_scenario`: X's last move fills the board without a run; the
      game is archived as a tie and both players end with equal counters and
      equal rewards. */
  lemma TieScenario(fee: FeeRate, deposit: U128)
    requires 2 * deposit < U128_LIMIT
    ensures var r := MakeMove(Midgame(fee, deposit, TieBefore(), 24), Env(0, OPPONENT, 0, 0), 0, 4, 2);
            && r.Ok?
            && 0 !in r.value.next.games
            && r.value.next.storedGames[0].result == Tie
            && StatsOf(r.value.next.stats, USER) == StatsOf(r.value.next.stats, OPPONENT)
  {
    TieAtLastCell();
    var s := Midgame(fee, deposit, TieBefore(), 24);
    MidgameIdle(fee, deposit, TieBefore(), 24);
    SettlingMove(s, Env(0, OPPONENT, 0, 0), 0, 4, 2);
    var g1 := ApplyMove(s.games[0], 4, 2);
    assert WinnerAccount(g1, g1.board.winner.value) == None;
    assert g1.players == (Player(OPPONENT, X), Player(USER, O));
    TieIsSymmetric(s.stats, OPPONENT, USER, g1.reward, fee);
  }

  /** `test_stop_game_too_early`: twenty seconds in, before any turn was
      stamped, the waiting player cannot stop the game. */
  lemma StopTooEarlyScenario(fee: FeeRate, deposit: U128)
    requires 2 * deposit < U128_LIMIT
    ensures StopGame(Midgame(fee, deposit, EightMoves(), 8), Env(SecToNano(20), USER, 0, 0), 0, false) == Err(TooEarly)
  {
  }

  /** `test_stop_game_wrong_access`: after the game bound, the current mover
      still cannot stop the game. */
  lemma StopWrongAccessScenario(fee: FeeRate, deposit: U128)
    requires 2 * deposit < U128_LIMIT
    ensures StopGame(Midgame(fee, deposit, EightMoves(), 8), Env(SecToNano(601), OPPONENT, 0, 0), 0, false) == Err(NoAccess)
  {
  }

  // ---------------------------------------------------------------------
  // The game sweep (`test_new_views`)
  // ---------------------------------------------------------------------

  /** The ten-minute game bound of the tests, and the turn bound derived from it. */
  const TEN_MINUTES: Timestamp := 600 * NANOS_PER_SEC
  const TURN: Timestamp := TEN_MINUTES / MAX_NUM_TURNS
  /** The first game starts once the first queue entries have expired; the
      second starts twenty-five turn bounds and a nanosecond later, well past
      the first game's game bound. */
  const FIRST_START: Timestamp := TEN_MINUTES + MAX_TIME_TO_BE_AVAILABLE + 2
  const SECOND_START: Timestamp := FIRST_START + TURN * 25 + 1

  /** `user` against `opponent`, started first; the zero seed lets the named
      opponent move first. */
  function FirstGame(): Game {
    CreateGame(OPPONENT, USER, GameDeposit(NEAR_TOKEN, 2 * ONE_NEAR), FIRST_START)
  }

  /** `third` against `fourth`, started a game bound later. */
  function SecondGame(): Game {
    CreateGame(FOURTH, THIRD, GameDeposit(NEAR_TOKEN, 2 * ONE_NEAR), SECOND_START)
  }

  /** Both games running, neither with a move made. */
  function TwoGames(fee: FeeRate): Contract {
    var played := Stats(1, 0, 0, map[]);
    Deployed(fee).(games := map[0 := FirstGame(), 1 := SecondGame()], nextGameId := 2,
                   stats := map[USER := played, OPPONENT := played, THIRD := played, FOURTH := played])
  }

  /** At the time of the second game's first move the sweep stops the first
      game: its idle mover `opponent` loses to `user`. */
  lemma FirstGameSwept(fee: FeeRate, now: Timestamp)
    requires now == SECOND_START + TURN - 1
    ensures var s := TwoGames(fee);
            PingExpiredGames(s, now) == ForceStop(s, 0, FirstGame(), USER, OPPONENT)
  {
    var s := TwoGames(fee);
    assert Stale(s, 0, now);
    var stop := StopExpiredGame(s, 0, OPPONENT);
    assert SweepGames(s, now, 1) == Step(stop.next, (), multiset{} + stop.transfers);
    assert !Stale(stop.next, 1, now);
  }

  /** The state the sweep leaves: only the second game runs, the first is
      archived as a win for `user`, `opponent` carries the penalty. */
  lemma SweptState(fee: FeeRate)
    ensures var t := ForceStop(TwoGames(fee), 0, FirstGame(), USER, OPPONENT).next;
            && t.games == map[1 := SecondGame()]
            && t.maxTurnDuration == TURN && t.maxGameDuration == TEN_MINUTES
            && 0 in t.storedGames
            && t.storedGames[0].result == Win(USER) && t.storedGames[0].player2 == OPPONENT
            && StatsOf(t.stats, OPPONENT).penaltiesNum == 1
            && StatsOf(t.stats, USER).victoriesNum == 1
            && StatsOf(t.stats, THIRD) == StatsOf(TwoGames(fee).stats, THIRD)
  {
  }

  /** A move is the sweep followed by the move on the swept state. */
  lemma SweepThenPlay(s: Contract, env: Env, id: GameId, row: nat, col: nat, swept: Step<()>, played: Step<Grid>)
    requires env.attachedDeposit == 0 && PingExpiredGames(s, env.now) == swept
    requires Play(swept.next, env, id, row, col) == Ok(played)
    ensures MakeMove(s, env, id, row, col) == Ok(Step(played.next, played.value, swept.transfers + played.transfers))
  {
  }

  /** The opening move at (0, 0) of a fresh game, made within the turn
      bound, is recorded: only that game changes. */
  lemma OpeningMoveRecorded(s: Contract, env: Env, id: GameId, first: AccountId, second: AccountId,
                            stake: GameDeposit, start: Timestamp)
    requires id in s.games && s.games[id] == CreateGame(first, second, stake, start)
    requires env.caller == first && start <= env.now && env.now - start <= s.maxTurnDuration
    ensures var r := Play(s, env, id, 0, 0);
            && r.Ok?
            && r.value.next.stats == s.stats && r.value.next.storedGames == s.storedGames
            && r.value.next.games.Keys == s.games.Keys
            && r.value.next.games[id].lastTurnAt == env.now && r.value.next.games[id].totalTurns == 1
  {
    OpeningMove();
    RecordingMove(s, env, id, 0, 0);
  }

  /** The second game's opening move, on the state the sweep left, is
      recorded: only that game changes. */
  lemma SweptPlay(fee: FeeRate, now: Timestamp)
    requires now == SECOND_START + TURN - 1
    ensures var t := ForceStop(TwoGames(fee), 0, FirstGame(), USER, OPPONENT).next;
            var r := Play(t, Env(now, FOURTH, 0, 0), 1, 0, 0);
            && r.Ok?
            && r.value.next.stats == t.stats && r.value.next.storedGames == t.storedGames
            && r.value.next.games.Keys == {1}
            && r.value.next.games[1].lastTurnAt == now && r.value.next.games[1].totalTurns == 1
  {
    SweptState(fee);
    var t := ForceStop(TwoGames(fee), 0, FirstGame(), USER, OPPONENT).next;
    OpeningMoveRecorded(t, Env(now, FOURTH, 0, 0), 1, FOURTH, THIRD, GameDeposit(NEAR_TOKEN, 2 * ONE_NEAR), SECOND_START);
  }

  /** The second game's opening move at `now`: the sweep, then the recorded move. */
  lemma SweepMove(fee: FeeRate, now: Timestamp)
    requires now == SECOND_START + TURN - 1
    ensures var t := ForceStop(TwoGames(fee), 0, FirstGame(), USER, OPPONENT).next;
            var r := MakeMove(TwoGames(fee), Env(now, FOURTH, 0, 0), 1, 0, 0);
            && r.Ok?
            && r.value.next.stats == t.stats && r.value.next.storedGames == t.storedGames
            && r.value.next.games.Keys == {1}
            && r.value.next.games[1].lastTurnAt == now && r.value.next.games[1].totalTurns == 1
  {
    var s := TwoGames(fee);
    var env := Env(now, FOURTH, 0, 0);
    var stop := ForceStop(s, 0, FirstGame(), USER, OPPONENT);
    FirstGameSwept(fee, now);
    SweptPlay(fee, now);
    SweepThenPlay(s, env, 1, 0, 0, stop, Play(stop.next, env, 1, 0, 0).value);
  }

  /** `test_new_views`: the first move of the second game, just inside the
      turn bound, triggers the sweep, which stops the first game, now past
      its game bound. Its idle mover takes a penalty and the other player a
      victory. */
  lemma SweepScenario(fee: FeeRate, now: Timestamp)
    requires now == SECOND_START + TURN - 1
    ensures var r := MakeMove(TwoGames(fee), Env(now, FOURTH, 0, 0), 1, 0, 0);
            && r.Ok?
            && 0 in r.value.next.storedGames
            && r.value.next.storedGames[0].result == Win(USER)
            && r.value.next.storedGames[0].player2 == OPPONENT
            && StatsOf(r.value.next.stats, OPPONENT).penaltiesNum == 1
            && StatsOf(r.value.next.stats, USER).victoriesNum == 1
            && StatsOf(r.value.next.stats, THIRD) == StatsOf(TwoGames(fee).stats, THIRD)
  {
    SweepMove(fee, now);
    SweptState(fee);
  }

  /** `test_new_views`, continued: only the second game stays active, with
      its opening move recorded. */
  lemma SweepKeepsLiveGame(fee: FeeRate, now: Timestamp)
    requires now == SECOND_START + TURN - 1
    ensures var r := MakeMove(TwoGames(fee), Env(now, FOURTH, 0, 0), 1, 0, 0);
            && r.Ok?
            && r.value.next.games.Keys == {1}
            && r.value.next.games[1].lastTurnAt == now && r.value.next.games[1].totalTurns == 1
  {
    SweepMove(fee, now);
    SweptState(fee);
  }
}
