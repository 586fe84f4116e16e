/** The contract: the waiting list, the active games, the stats ledger, the
    next game id, the timing parameters and the archive of finished games, with
    each public entry point a transition `Contract x Env -> Result<Step, Error>`.
    A failed call leaves the state as it was: the host aborts the whole call,
    including the expiry sweep that ran at its start. */
module GameContract {
  import opened Base
  import opened Config
  import opened Board
  import opened Game
  import opened StatsLedger
  import opened Settlement

  /** A waiting account's entry: its stake and its optional constraints. */
  datatype GameConfig = GameConfig(
    token: TokenId,
    deposit: U128,
    opponent: Option<AccountId>,
    referrer: Option<AccountId>,
    createdAt: Timestamp)

  /** The optional argument of `make_available`. */
  datatype GameConfigNear = GameConfigNear(opponent: Option<AccountId>, referrer: Option<AccountId>)

  datatype GameResult = Win(winner: AccountId) | Tie

  /** The archived snapshot of a finished game. */
  datatype GameView = GameView(
    result: GameResult,
    player1: AccountId,
    player2: AccountId,
    rewardOrTieRefund: GameDeposit,
    tiles: Grid)

  datatype Contract = Contract(
    games: map<GameId, Game>,
    availablePlayers: map<AccountId, GameConfig>,
    stats: Ledger,
    nextGameId: GameId,
    serviceFee: FeeRate,
    maxGameDuration: Timestamp,
    referrerRatio: U32,
    maxTurnDuration: Timestamp,
    maxStoredGames: U8,
    storedGames: map<GameId, GameView>)

  /** What the host supplies to a call: the block time, the calling account,
      the attached deposit, and the first byte of the block's random seed. */
  datatype Env = Env(now: Timestamp, caller: AccountId, attachedDeposit: U128, randomSeed: U8)

  /** A committed call: the new state, the call's return value and the
      transfer requests it emitted. */
  datatype Step<+T> = Step(next: Contract, value: T, transfers: multiset<Transfer>)

  /** The panics of the entry points, one per distinct message. */
  datatype Error =
    | InvalidConfig
    | AlreadyAvailable
    | DepositTooSmall
    | OneYoctoRequired
    | NotAvailable
    | OpponentNotReady
    | SameAccount
    | CallerNotAvailable
    | WrongAccount
    | MismatchedDeposits
    | MismatchedTokens
    | DepositOverflow
    | GameIdOverflow
    | GameNotFound
    | NoAccess
    | GameNotActive
    | BadMove(reason: MoveError)
    | NotInGame
    | TooEarly
    | TimestampUnderflow
    | DepositNotAccepted  // a deposit attached to a method that is not payable

  function Init(fee: FeeRate, maxGameDuration: Timestamp, referrerRatio: U32, maxStoredGames: U8): Contract {
    Contract(map[], map[], map[], 0, fee, maxGameDuration, referrerRatio,
             maxGameDuration / MAX_NUM_TURNS, maxStoredGames, map[])
  }

  /** Initialisation: a supplied config must be valid; without one the
      defaults are a 10% fee, a one-hour game, a 95% referrer ratio and 50
      archived games. The turn bound is the game bound over MAX_NUM_TURNS. */
  function New(config: Option<Config>): (r: Result<Contract, Error>)
    ensures r.Err? <==> config.Some? && !config.value.Valid()
    ensures r.Ok? ==>
              && r.value.games == map[] && r.value.availablePlayers == map[]
              && r.value.stats == map[] && r.value.storedGames == map[]
              && r.value.nextGameId == 0
              && r.value.maxTurnDuration == r.value.maxGameDuration / MAX_NUM_TURNS
    ensures config.None? ==>
              && r.Ok? && r.value.serviceFee == MAX_FEES
              && r.value.maxGameDuration == 60 * 60 * NANOS_PER_SEC
              && r.value.referrerRatio == 9500 && r.value.maxStoredGames == 50
    ensures config.Some? && r.Ok? ==>
              && r.value.serviceFee == config.value.serviceFeePercentage
              && r.value.maxGameDuration == config.value.maxGameDurationSec * NANOS_PER_SEC
              && r.value.referrerRatio == config.value.referrerRatio
              && r.value.maxStoredGames == config.value.maxStoredGames
  {
    match config
    case None => Ok(Init(MAX_FEES, SecToNano(60 * 60), 9500, 50))
    case Some(c) =>
      if !c.Valid() then Err(InvalidConfig)
      else Ok(Init(c.serviceFeePercentage, SecToNano(c.maxGameDurationSec), c.referrerRatio, c.maxStoredGames))
  }

  // ---------------------------------------------------------------------
  // Expiry sweeps
  // ---------------------------------------------------------------------

  /** A waiting entry older than MAX_TIME_TO_BE_AVAILABLE. */
  predicate PlayerExpired(cfg: GameConfig, now: Timestamp) {
    cfg.createdAt <= now && now - cfg.createdAt > MAX_TIME_TO_BE_AVAILABLE
  }

  function Refund(a: AccountId, cfg: GameConfig): Transfer {
    Transfer(cfg.token, a, cfg.deposit)
  }

  /** One refund per entry of `m`, of that entry's deposit in its token. */
  function Refunds(m: map<AccountId, GameConfig>): multiset<Transfer> {
    multiset(set e | e in m.Items :: Refund(e.0, e.1))
  }

  /** The waiting-list sweep: every expired entry is removed and refunded. */
  function PingExpiredPlayers(s: Contract, now: Timestamp): (r: Step<()>)
    ensures r.next == s.(availablePlayers := r.next.availablePlayers)
    ensures forall a :: a in r.next.availablePlayers <==>
              a in s.availablePlayers && !PlayerExpired(s.availablePlayers[a], now)
    ensures forall a | a in r.next.availablePlayers :: r.next.availablePlayers[a] == s.availablePlayers[a]
    ensures r.transfers == Refunds(s.availablePlayers - r.next.availablePlayers.Keys)
  {
    var kept := map a | a in s.availablePlayers && !PlayerExpired(s.availablePlayers[a], now) :: s.availablePlayers[a];
    Step(s.(availablePlayers := kept), (), Refunds(s.availablePlayers - kept.Keys))
  }

  /** Where the turn bound of `g` is counted from: the last turn, or the
      start before any turn was stamped. */
  function TurnStart(g: Game): Timestamp {
    if g.lastTurnAt == 0 then g.initiatedAt else g.lastTurnAt
  }

  /** An active game past its game bound, or past its turn bound. */
  predicate GameExpired(s: Contract, g: Game, now: Timestamp) {
    || (g.initiatedAt <= now && now - g.initiatedAt > s.maxGameDuration)
    || (TurnStart(g) <= now && now - TurnStart(g) > s.maxTurnDuration)
  }

  /** Whether the sweep stops game `id` of `s` at `now`. */
  predicate Stale(s: Contract, id: GameId, now: Timestamp) {
    id in s.games && s.games[id].state == Active && GameExpired(s, s.games[id], now)
  }

  /** Settles game `id` (already in its final form `g`) for `winner`, or as a
      tie, archives it with `first` and `second` as its two players, and
      removes it from the active games. Nothing else changes. */
  function Conclude(s: Contract, id: GameId, g: Game, winner: Option<AccountId>,
                    first: AccountId, second: AccountId): (r: Step<()>)
    ensures r.next.(stats := s.stats, games := s.games, storedGames := s.storedGames) == s
    ensures r.next.games == s.games - {id}
    ensures r.next.storedGames.Keys == s.storedGames.Keys + {id}
    ensures forall k | k in s.storedGames && k != id :: r.next.storedGames[k] == s.storedGames[k]
    ensures r.next.storedGames[id].result == (if winner.Some? then Win(winner.value) else Tie)
    ensures r.next.storedGames[id].player1 == first && r.next.storedGames[id].player2 == second
    ensures r.next.storedGames[id].tiles == g.board.tiles
    ensures r.next.storedGames[id].rewardOrTieRefund.token == g.reward.token
    ensures winner.Some? ==>
              && r.next.storedGames[id].rewardOrTieRefund.balance + ServiceFee(g.reward.balance, s.serviceFee) == g.reward.balance
              && r.transfers == multiset{Transfer(g.reward.token, winner.value, r.next.storedGames[id].rewardOrTieRefund.balance)}
    ensures winner.Some? ==>
              RewardOf(StatsOf(r.next.stats, winner.value), g.reward.token)
                == RewardOf(StatsOf(s.stats, winner.value), g.reward.token) + r.next.storedGames[id].rewardOrTieRefund.balance
    ensures winner.None? && g.players.0.account != g.players.1.account ==>
              forall a | a == g.players.0.account || a == g.players.1.account ::
                RewardOf(StatsOf(r.next.stats, a), g.reward.token)
                  == RewardOf(StatsOf(s.stats, a), g.reward.token) + r.next.storedGames[id].rewardOrTieRefund.balance
    ensures winner.None? ==>
              && r.next.storedGames[id].rewardOrTieRefund.balance == TieShare(g.reward.balance, s.serviceFee)
              && r.transfers == multiset{Transfer(g.reward.token, g.players.0.account, r.next.storedGames[id].rewardOrTieRefund.balance),
                                         Transfer(g.reward.token, g.players.1.account, r.next.storedGames[id].rewardOrTieRefund.balance)}
    ensures LedgerGrows(s.stats, r.next.stats)
    ensures winner.Some? ==>
              && StatsOf(r.next.stats, winner.value).victoriesNum == StatsOf(s.stats, winner.value).victoriesNum + 1
              && StatsOf(r.next.stats, winner.value).penaltiesNum == StatsOf(s.stats, winner.value).penaltiesNum
              && StatsOf(r.next.stats, winner.value).gamesPlayed == StatsOf(s.stats, winner.value).gamesPlayed
              && OthersUnchanged(s.stats, r.next.stats, winner.value)
    ensures winner.None? ==> forall a :: SameCounters(StatsOf(s.stats, a), StatsOf(r.next.stats, a))
  {
    var settled := Distribute(s.stats, g.players.0.account, g.players.1.account, g.reward, winner, s.serviceFee);
    var view := GameView(if winner.Some? then Win(winner.value) else Tie, first, second,
                         GameDeposit(g.reward.token, settled.payout), g.board.tiles);
    Step(Retire(s, id, settled.stats, view), (), settled.transfers)
  }

  /** Moves game `id` from the active games to the archive as `view` and
      installs the settled ledger `stats`. */
  function Retire(s: Contract, id: GameId, stats: Ledger, view: GameView): (r: Contract)
    ensures r.(stats := s.stats, games := s.games, storedGames := s.storedGames) == s
    ensures r.stats == stats
    ensures r.games == s.games - {id}
    ensures r.storedGames.Keys == s.storedGames.Keys + {id}
    ensures r.storedGames[id] == view
    ensures forall k | k in s.storedGames && k != id :: r.storedGames[k] == s.storedGames[k]
  {
    s.(stats := stats, games := s.games - {id}, storedGames := s.storedGames[id := view])
  }

  /** Ends game `id` (in its form `g`) by force: `loser` takes a penalty,
      `winner` is paid, and the archive lists the winner first. */
  function ForceStop(s: Contract, id: GameId, g: Game, winner: AccountId, loser: AccountId): (r: Step<()>)
    ensures r.next.(stats := s.stats, games := s.games, storedGames := s.storedGames) == s
    ensures r.next.games == s.games - {id}
    ensures r.next.storedGames.Keys == s.storedGames.Keys + {id}
    ensures forall k | k in s.storedGames && k != id :: r.next.storedGames[k] == s.storedGames[k]
    ensures r.next.storedGames[id].result == Win(winner)
    ensures r.next.storedGames[id].player1 == winner && r.next.storedGames[id].player2 == loser
    ensures r.next.storedGames[id].tiles == g.board.tiles
    ensures LedgerGrows(s.stats, r.next.stats)
    ensures winner != loser ==>
              && StatsOf(r.next.stats, loser).penaltiesNum == StatsOf(s.stats, loser).penaltiesNum + 1
              && StatsOf(r.next.stats, loser).victoriesNum == StatsOf(s.stats, loser).victoriesNum
              && StatsOf(r.next.stats, winner).victoriesNum == StatsOf(s.stats, winner).victoriesNum + 1
              && StatsOf(r.next.stats, winner).penaltiesNum == StatsOf(s.stats, winner).penaltiesNum
    ensures forall a | a != winner && a != loser :: StatsOf(r.next.stats, a) == StatsOf(s.stats, a)
    ensures r.next.storedGames[id].rewardOrTieRefund.token == g.reward.token
    ensures r.next.storedGames[id].rewardOrTieRefund.balance + ServiceFee(g.reward.balance, s.serviceFee) == g.reward.balance
    ensures r.transfers == multiset{Transfer(g.reward.token, winner, r.next.storedGames[id].rewardOrTieRefund.balance)}
    ensures RewardOf(StatsOf(r.next.stats, winner), g.reward.token)
              == RewardOf(StatsOf(s.stats, winner), g.reward.token) + r.next.storedGames[id].rewardOrTieRefund.balance
  {
    var s1 := s.(stats := AddPenalty(s.stats, loser));
    var r := Conclude(s1, id, g.(state := Finished), Some(winner), winner, loser);
    LedgerGrowsTrans(s.stats, s1.stats, r.next.stats);
    r
  }

  /** The sweep's and a late move's stop of game `id`: `loser` is penalised
      and the other player of the stored game is declared winner and paid. */
  function StopExpiredGame(s: Contract, id: GameId, loser: AccountId): (r: Step<()>)
    requires id in s.games
    ensures var g := s.games[id];
            var winner := if loser == g.players.0.account then g.players.1.account else g.players.0.account;
            && r.next.games == s.games - {id}
            && id in r.next.storedGames
            && r.next.storedGames[id].result == Win(winner)
            && r.next.storedGames[id].player1 == winner && r.next.storedGames[id].player2 == loser
            && r.next.storedGames[id].tiles == g.board.tiles
            && r.next.storedGames[id].rewardOrTieRefund.balance + ServiceFee(g.reward.balance, s.serviceFee)
                 == g.reward.balance
            && r.transfers == multiset{Transfer(g.reward.token, winner, r.next.storedGames[id].rewardOrTieRefund.balance)}
    ensures var g := s.games[id];
            g.HasPlayer(loser) && g.players.0.account != g.players.1.account ==>
              && StatsOf(r.next.stats, loser).penaltiesNum == StatsOf(s.stats, loser).penaltiesNum + 1
              && StatsOf(r.next.stats, g.Opponent(loser)).victoriesNum
                   == StatsOf(s.stats, g.Opponent(loser)).victoriesNum + 1
  {
    ForceStop(s, id, s.games[id], s.games[id].Opponent(loser), loser)
  }

  /** The game sweep over the ids below `n`, in increasing order: each stale
      game is force-stopped with its current mover penalised. */
  function SweepGames(s: Contract, now: Timestamp, n: nat): (r: Step<()>)
    requires n <= U64_LIMIT
    ensures r.next == s.(stats := r.next.stats, games := r.next.games, storedGames := r.next.storedGames)
    ensures forall id | id in r.next.games :: id in s.games && r.next.games[id] == s.games[id]
    ensures forall id: GameId | id >= n :: (id in r.next.games <==> id in s.games)
    ensures forall id: GameId | id < n :: (id in r.next.games <==> id in s.games && !Stale(s, id, now))
    ensures forall id | id in r.next.storedGames :: id in s.storedGames || (id in s.games && id !in r.next.games)
    ensures forall id | id in s.games && id !in r.next.games :: id in r.next.storedGames
    ensures forall id | id in s.storedGames && id !in s.games ::
              id in r.next.storedGames && r.next.storedGames[id] == s.storedGames[id]
    ensures LedgerGrows(s.stats, r.next.stats)
    decreases n
  {
    if n == 0 then Step(s, (), multiset{})
    else
      var prev := SweepGames(s, now, n - 1);
      var id: GameId := n - 1;
      if Stale(prev.next, id, now) then
        var stop := StopExpiredGame(prev.next, id, prev.next.games[id].CurrentAccount());
        LedgerGrowsTrans(s.stats, prev.next.stats, stop.next.stats);
        Step(stop.next, (), prev.transfers + stop.transfers)
      else prev
  }

  /** The game sweep run at the start of `make_move`, over every allocated id. */
  function PingExpiredGames(s: Contract, now: Timestamp): (r: Step<()>)
    ensures r.next == s.(stats := r.next.stats, games := r.next.games, storedGames := r.next.storedGames)
    ensures forall id | id in r.next.games :: id in s.games && r.next.games[id] == s.games[id]
    ensures forall id: GameId | id < s.nextGameId :: (id in r.next.games <==> id in s.games && !Stale(s, id, now))
    ensures forall id: GameId | id >= s.nextGameId :: (id in r.next.games <==> id in s.games)
    ensures forall id | id in r.next.storedGames :: id in s.storedGames || (id in s.games && id !in r.next.games)
    ensures forall id | id in s.games && id !in r.next.games :: id in r.next.storedGames
    ensures forall id | id in s.storedGames && id !in s.games ::
              id in r.next.storedGames && r.next.storedGames[id] == s.storedGames[id]
    ensures LedgerGrows(s.stats, r.next.stats)
  {
    SweepGames(s, now, s.nextGameId)
  }

  // ---------------------------------------------------------------------
  // The waiting list
  // ---------------------------------------------------------------------

  /** `make_available`: after the waiting-list sweep, a caller not yet waiting
      and attaching at least MIN_DEPOSIT_NEAR is entered with a NEAR stake of
      the attached amount, stamped `now`. */
  function MakeAvailable(s: Contract, env: Env, config: Option<GameConfigNear>): (r: Result<Step<()>, Error>)
    ensures var swept := PingExpiredPlayers(s, env.now);
            && (env.caller in swept.next.availablePlayers ==> r == Err(AlreadyAvailable))
            && (env.caller !in swept.next.availablePlayers && env.attachedDeposit < MIN_DEPOSIT_NEAR ==>
                  r == Err(DepositTooSmall))
            && (r.Ok? <==> env.caller !in swept.next.availablePlayers && env.attachedDeposit >= MIN_DEPOSIT_NEAR)
            && (r.Ok? ==>
                  && r.value.next == s.(availablePlayers := r.value.next.availablePlayers)
                  && r.value.next.availablePlayers.Keys == swept.next.availablePlayers.Keys + {env.caller}
                  && (forall a | a in swept.next.availablePlayers ::
                        r.value.next.availablePlayers[a] == swept.next.availablePlayers[a])
                  && r.value.next.availablePlayers[env.caller].token == NEAR_TOKEN
                  && r.value.next.availablePlayers[env.caller].deposit == env.attachedDeposit
                  && r.value.next.availablePlayers[env.caller].createdAt == env.now
                  && r.value.next.availablePlayers[env.caller].opponent
                       == (if config.Some? then config.value.opponent else None)
                  && r.value.next.availablePlayers[env.caller].referrer
                       == (if config.Some? then config.value.referrer else None)
                  && r.value.transfers == swept.transfers)
  {
    var swept := PingExpiredPlayers(s, env.now);
    if env.caller in swept.next.availablePlayers then Err(AlreadyAvailable)
    else if env.attachedDeposit < MIN_DEPOSIT_NEAR then Err(DepositTooSmall)
    else
      var (opponent, referrer) := if config.Some? then (config.value.opponent, config.value.referrer) else (None, None);
      var entry := GameConfig(NEAR_TOKEN, env.attachedDeposit, opponent, referrer, env.now);
      Ok(Step(swept.next.(availablePlayers := swept.next.availablePlayers[env.caller := entry]), (), swept.transfers))
  }

  /** `make_unavailable`: with exactly one yoctoNEAR attached, a waiting caller
      leaves the list and is refunded its stake. */
  function MakeUnavailable(s: Contract, env: Env): (r: Result<Step<()>, Error>)
    ensures env.attachedDeposit != ONE_YOCTO ==> r == Err(OneYoctoRequired)
    ensures env.attachedDeposit == ONE_YOCTO && env.caller !in s.availablePlayers ==> r == Err(NotAvailable)
    ensures r.Ok? <==> env.attachedDeposit == ONE_YOCTO && env.caller in s.availablePlayers
    ensures r.Ok? ==>
              && r.value.next == s.(availablePlayers := s.availablePlayers - {env.caller})
              && r.value.transfers == multiset{Transfer(s.availablePlayers[env.caller].token, env.caller,
                                                        s.availablePlayers[env.caller].deposit)}
  {
    if env.attachedDeposit != ONE_YOCTO then Err(OneYoctoRequired)
    else if env.caller !in s.availablePlayers then Err(NotAvailable)
    else
      var cfg := s.availablePlayers[env.caller];
      Ok(Step(s.(availablePlayers := s.availablePlayers - {env.caller}), (), multiset{Refund(env.caller, cfg)}))
  }

  // ---------------------------------------------------------------------
  // Pairing
  // ---------------------------------------------------------------------

  /** `start_game`: the caller accepts the waiting `opponent`. Both must be
      waiting with equal stakes in the same token, and the opponent must not
      have reserved itself for someone else. The new game takes the next id,
      holds both stakes, and its first mover is the opponent when the random
      byte is even and the caller otherwise. The method is not payable, so
      the host refuses any attached deposit before the method runs. */
  function StartGame(s: Contract, env: Env, opponent: AccountId): (r: Result<Step<GameId>, Error>)
    ensures env.attachedDeposit != 0 ==> r == Err(DepositNotAccepted)
    ensures env.attachedDeposit == 0 && opponent !in s.availablePlayers ==> r == Err(OpponentNotReady)
    ensures env.attachedDeposit == 0 && opponent in s.availablePlayers && env.caller == opponent ==> r == Err(SameAccount)
    ensures (env.attachedDeposit == 0 && opponent in s.availablePlayers && env.caller != opponent
             && env.caller !in s.availablePlayers) ==> r == Err(CallerNotAvailable)
    ensures r.Ok? <==>
              && env.attachedDeposit == 0
              && opponent in s.availablePlayers && env.caller != opponent && env.caller in s.availablePlayers
              && (s.availablePlayers[opponent].opponent.Some? ==> s.availablePlayers[opponent].opponent.value == env.caller)
              && s.availablePlayers[env.caller].deposit == s.availablePlayers[opponent].deposit
              && s.availablePlayers[env.caller].token == s.availablePlayers[opponent].token
              && 2 * s.availablePlayers[opponent].deposit < U128_LIMIT
              && s.nextGameId + 1 < U64_LIMIT
    ensures r.Ok? ==>
              && r.value.value == s.nextGameId
              && r.value.next.nextGameId == s.nextGameId + 1
              && r.value.next.games.Keys == s.games.Keys + {s.nextGameId}
              && (forall id | id in s.games && id != s.nextGameId :: r.value.next.games[id] == s.games[id])
              && r.value.next.availablePlayers == s.availablePlayers - {env.caller, opponent}
              && r.value.next.(games := s.games, nextGameId := s.nextGameId, availablePlayers := s.availablePlayers,
                               stats := s.stats) == s
              && r.value.transfers == multiset{}
    ensures r.Ok? ==>
              var g := r.value.next.games[s.nextGameId];
              var first := if env.randomSeed % 2 == 0 then opponent else env.caller;
              var second := if env.randomSeed % 2 == 0 then env.caller else opponent;
              && g.players.0.account == first && g.players.1.account == second
              && g.CurrentAccount() == first && g.currentPiece == g.players.0.piece
              && g.players.0.piece != g.players.1.piece
              && g.reward.token == s.availablePlayers[opponent].token
              && g.reward.balance == s.availablePlayers[env.caller].deposit + s.availablePlayers[opponent].deposit
              && g.state == Active && g.board == EmptyBoard()
              && g.initiatedAt == env.now && g.lastTurnAt == 0 && g.totalTurns == 0
    ensures r.Ok? ==>
              && StatsOf(r.value.next.stats, env.caller).gamesPlayed == StatsOf(s.stats, env.caller).gamesPlayed + 1
              && StatsOf(r.value.next.stats, opponent).gamesPlayed == StatsOf(s.stats, opponent).gamesPlayed + 1
              && (forall a | a != env.caller && a != opponent :: StatsOf(r.value.next.stats, a) == StatsOf(s.stats, a))
              && LedgerGrows(s.stats, r.value.next.stats)
  {
    if env.attachedDeposit != 0 then Err(DepositNotAccepted)
    else if opponent !in s.availablePlayers then Err(OpponentNotReady)
    else if env.caller == opponent then Err(SameAccount)
    else if env.caller !in s.availablePlayers then Err(CallerNotAvailable)
    else
      var mine := s.availablePlayers[env.caller];
      var theirs := s.availablePlayers[opponent];
      if theirs.opponent.Some? && theirs.opponent.value != env.caller then Err(WrongAccount)
      else if mine.deposit != theirs.deposit then Err(MismatchedDeposits)
      else if theirs.token != mine.token then Err(MismatchedTokens)
      else if 2 * theirs.deposit >= U128_LIMIT then Err(DepositOverflow)
      else if s.nextGameId + 1 >= U64_LIMIT then Err(GameIdOverflow)
      else
        var id := s.nextGameId;
        var reward := GameDeposit(theirs.token, 2 * theirs.deposit);
        var g := if env.randomSeed % 2 == 0 then CreateGame(opponent, env.caller, reward, env.now)
                 else CreateGame(env.caller, opponent, reward, env.now);
        var stats := AddPlayedGame(AddPlayedGame(s.stats, env.caller), opponent);
        LedgerGrowsTrans(s.stats, AddPlayedGame(s.stats, env.caller), stats);
        Ok(Step(s.(games := s.games[id := g], nextGameId := id + 1,
                   availablePlayers := s.availablePlayers - {env.caller, opponent}, stats := stats),
                id, multiset{}))
  }

  // ---------------------------------------------------------------------
  // Playing
  // ---------------------------------------------------------------------

  /** The timeout verdict of a non-final move made at `now` in a game started
      at `initiatedAt` whose previous turn was at `prev`: before any earlier
      turn (`prev == 0`) only the turn bound from the start applies; afterwards
      the turn bound from `prev` and then the game bound (strict `>`) apply.
      A negative difference is an underflow error. */
  function TurnTimedOut(prev: Timestamp, now: Timestamp, initiatedAt: Timestamp,
                        maxTurn: Timestamp, maxGame: Timestamp): (r: Result<bool, Error>)
    ensures r.Err? <==> now < initiatedAt || (prev != 0 && now < prev)
    ensures r.Err? ==> r.error == TimestampUnderflow
    ensures r == Ok(false) ==> now - initiatedAt <= maxGame || prev == 0
    ensures r == Ok(false) ==> now - (if prev == 0 then initiatedAt else prev) <= maxTurn
    ensures r == Ok(true) ==>
              now - (if prev == 0 then initiatedAt else prev) > maxTurn || (prev != 0 && now - initiatedAt > maxGame)
  {
    if now < initiatedAt then Err(TimestampUnderflow)
    else if prev == 0 then Ok(now - initiatedAt > maxTurn)
    else if now < prev then Err(TimestampUnderflow)
    else if now - prev > maxTurn then Ok(true)
    else Ok(now - initiatedAt > maxGame)
  }

  /** The outcome a finished board names: the holder of the winning piece,
      or nobody on a tie. */
  function WinnerAccount(g: Game, w: Winner): (r: Option<AccountId>)
    ensures w.Tied? ==> r.None?
    ensures w.Won? && g.players.0.piece != g.players.1.piece ==>
              && (g.players.0.piece == w.piece ==> r == Some(g.players.0.account))
              && (g.players.1.piece == w.piece ==> r == Some(g.players.1.account))
    ensures r.Some? ==> w.Won? && g.HasPlayer(r.value)
    ensures r.None? ==> w.Tied? || (g.players.0.piece != w.piece && g.players.1.piece != w.piece)
  {
    match w
    case Won(p) => g.AccountByPiece(p)
    case Tied => None
  }

  /** `make_move`: after the game sweep, the current mover of active game `id`
      places its piece on a free cell (see `Play`). Every success returns the
      board as it stands after the move. Not payable: an attached deposit is
      refused before the sweep. */
  function MakeMove(s: Contract, env: Env, id: GameId, row: nat, col: nat): (r: Result<Step<Grid>, Error>)
    ensures env.attachedDeposit != 0 ==> r == Err(DepositNotAccepted)
    ensures var swept := PingExpiredGames(s, env.now).next;
            && (env.attachedDeposit == 0 && id !in swept.games ==> r == Err(GameNotFound))
            && (env.attachedDeposit == 0 && id in swept.games && env.caller != swept.games[id].CurrentAccount() ==>
                  r == Err(NoAccess))
            && (r.Ok? ==>
                  && env.attachedDeposit == 0 && id in swept.games && env.caller == swept.games[id].CurrentAccount()
                  && swept.games[id].state == Active
                  && CheckMove(swept.games[id].board.tiles, row, col).None?
                  && r.value.value == ApplyMove(swept.games[id], row, col).board.tiles)
    ensures r.Ok? ==>
              && r.value.next.(stats := s.stats, games := s.games, storedGames := s.storedGames) == s
              && id in s.games
              && (forall k | k in r.value.next.games :: k in s.games && (k != id ==> r.value.next.games[k] == s.games[k]))
              && (forall k | k in s.storedGames && k !in s.games ::
                    k in r.value.next.storedGames && r.value.next.storedGames[k] == s.storedGames[k])
              && (forall k | k in r.value.next.storedGames :: k in s.storedGames || k in s.games)
              && LedgerGrows(s.stats, r.value.next.stats)
  {
    if env.attachedDeposit != 0 then Err(DepositNotAccepted)
    else
      var swept := PingExpiredGames(s, env.now);
      match Play(swept.next, env, id, row, col)
      case Err(e) => Err(e)
      case Ok(done) =>
        LedgerGrowsTrans(s.stats, swept.next.stats, done.next.stats);
        Ok(Step(done.next, done.value, swept.transfers + done.transfers))
  }

  /** The move itself, on the state the sweep left. A finishing move settles
      and archives the game in its own player order; any other move is
      checked against the turn and game bounds and either recorded or, when
      late, makes the mover lose the stored game. */
  function Play(s: Contract, env: Env, id: GameId, row: nat, col: nat): (r: Result<Step<Grid>, Error>)
    ensures id !in s.games ==> r == Err(GameNotFound)
    ensures id in s.games && env.caller != s.games[id].CurrentAccount() ==> r == Err(NoAccess)
    ensures r.Ok? ==>
              && id in s.games && env.caller == s.games[id].CurrentAccount()
              && s.games[id].state == Active
              && CheckMove(s.games[id].board.tiles, row, col).None?
              && r.value.value == ApplyMove(s.games[id], row, col).board.tiles
    ensures r.Ok? ==>
              && r.value.next.(stats := s.stats, games := s.games, storedGames := s.storedGames) == s
              && (forall k | k in r.value.next.games :: k in s.games && (k != id ==> r.value.next.games[k] == s.games[k]))
              && (forall k | k in s.games && k != id :: k in r.value.next.games)
              && (forall k | k in s.storedGames && k != id ::
                    k in r.value.next.storedGames && r.value.next.storedGames[k] == s.storedGames[k])
              && (forall k | k in r.value.next.storedGames :: k in s.storedGames || k == id)
              && LedgerGrows(s.stats, r.value.next.stats)
  {
    if id !in s.games then Err(GameNotFound)
    else
      var g := s.games[id];
      if env.caller != g.CurrentAccount() then Err(NoAccess)
      else if g.state != Active then Err(GameNotActive)
      else if g.board.winner.Some? then Err(BadMove(GameAlreadyOver))
      else match CheckMove(g.board.tiles, row, col)
      case Some(e) => Err(BadMove(e))
      case None =>
        var g1 := ApplyMove(g, row, col);
        match g1.board.winner
        case Some(w) =>
          var done := Conclude(s, id, g1.(state := Finished), WinnerAccount(g1, w),
                               g1.players.0.account, g1.players.1.account);
          Ok(Step(done.next, g1.board.tiles, done.transfers))
        case None =>
          match TurnTimedOut(g.lastTurnAt, env.now, g.initiatedAt, s.maxTurnDuration, s.maxGameDuration)
          case Err(e) => Err(e)
          case Ok(late) =>
            if late then
              var stop := StopExpiredGame(s, id, env.caller);
              Ok(Step(stop.next, g1.board.tiles, stop.transfers))
            else
              var g2 := g1.(totalTurns := g1.totalTurns + 1, lastTurnAt := env.now,
                            currentDuration := env.now - g1.initiatedAt);
              Ok(Step(s.(games := s.games[id := g2]), g1.board.tiles, multiset{}))
  }

  /** `give_up`: with one yoctoNEAR attached, a player of active game `id`
      resigns; the other player wins and the archive keeps the game's own
      player order. */
  function GiveUp(s: Contract, env: Env, id: GameId): (r: Result<Step<()>, Error>)
    ensures env.attachedDeposit != ONE_YOCTO ==> r == Err(OneYoctoRequired)
    ensures env.attachedDeposit == ONE_YOCTO && id !in s.games ==> r == Err(GameNotFound)
    ensures r.Ok? <==>
              && env.attachedDeposit == ONE_YOCTO && id in s.games
              && s.games[id].state == Active && s.games[id].HasPlayer(env.caller)
    ensures r.Ok? ==>
              && r.value.next.(stats := s.stats, games := s.games, storedGames := s.storedGames) == s
              && r.value.next.games == s.games - {id}
              && id in r.value.next.storedGames
              && r.value.next.storedGames[id].player1 == s.games[id].players.0.account
              && r.value.next.storedGames[id].player2 == s.games[id].players.1.account
              && r.value.next.storedGames[id].result == Win(s.games[id].Opponent(env.caller))
              && r.value.next.storedGames[id].tiles == s.games[id].board.tiles
  {
    if env.attachedDeposit != ONE_YOCTO then Err(OneYoctoRequired)
    else if id !in s.games then Err(GameNotFound)
    else
      var g := s.games[id];
      var (p1, p2) := (g.players.0.account, g.players.1.account);
      if g.state != Active then Err(GameNotActive)
      else if env.caller != p1 && env.caller != p2 then Err(NotInGame)
      else
        var winner := if env.caller == p1 then p2 else p1;
        var done := Conclude(s, id, g.(state := Finished), Some(winner), p1, p2);
        Ok(done)
  }

  /** `stop_game`'s lateness test as written: the game bound is reached
      (`>=`), or the turn bound is exceeded since the last turn stamp. Before
      the first turn that stamp is 0, so the gap is the block time itself. The
      second test is only evaluated when the first fails, and its subtraction
      can underflow. */
  function StopAllowedAsWritten(g: Game, now: Timestamp, maxTurn: Timestamp, maxGame: Timestamp): (r: Result<bool, Error>)
    ensures r.Err? <==> now < g.initiatedAt || (now - g.initiatedAt < maxGame && now < g.lastTurnAt)
    ensures r == Ok(true) <==>
              g.initiatedAt <= now && (now - g.initiatedAt >= maxGame || (g.lastTurnAt <= now && now - g.lastTurnAt > maxTurn))
  {
    if now < g.initiatedAt then Err(TimestampUnderflow)
    else if now - g.initiatedAt >= maxGame then Ok(true)
    else if now < g.lastTurnAt then Err(TimestampUnderflow)
    else Ok(now - g.lastTurnAt > maxTurn)
  }

  /** The lateness test `stop_game` evidently intends: as written, except
      that the turn gap is counted from `TurnStart`, as `make_move` and the
      game sweep count it. `StopGame` applies it only when `corrected`; the
      public call keeps the test as written. */
  function StopAllowed(g: Game, now: Timestamp, maxTurn: Timestamp, maxGame: Timestamp): (r: Result<bool, Error>)
    ensures r.Err? <==> now < g.initiatedAt || (now - g.initiatedAt < maxGame && now < TurnStart(g))
    ensures r == Ok(true) <==>
              g.initiatedAt <= now && (now - g.initiatedAt >= maxGame || (TurnStart(g) <= now && now - TurnStart(g) > maxTurn))
    ensures g.lastTurnAt != 0 ==> r == StopAllowedAsWritten(g, now, maxTurn, maxGame)
  {
    if now < g.initiatedAt then Err(TimestampUnderflow)
    else if now - g.initiatedAt >= maxGame then Ok(true)
    else if now < TurnStart(g) then Err(TimestampUnderflow)
    else Ok(now - TurnStart(g) > maxTurn)
  }

  /** The lateness test `stop_game` applies: the one at line 441 as written,
      or, when `corrected`, the evidently intended one. */
  function StopTest(g: Game, now: Timestamp, maxTurn: Timestamp, maxGame: Timestamp, corrected: bool): Result<bool, Error> {
    if corrected then StopAllowed(g, now, maxTurn, maxGame) else StopAllowedAsWritten(g, now, maxTurn, maxGame)
  }

  /** `stop_game`: the player waiting on an unresponsive mover of active game
      `id` claims the game once the lateness test allows it; the mover is
      penalised and the archive lists the caller first. The public call uses
      the test as written (`corrected == false`). Not payable: an attached
      deposit is refused first. */
  function StopGame(s: Contract, env: Env, id: GameId, corrected: bool): (r: Result<Step<()>, Error>)
    ensures env.attachedDeposit != 0 ==> r == Err(DepositNotAccepted)
    ensures env.attachedDeposit == 0 && id !in s.games ==> r == Err(GameNotFound)
    ensures (env.attachedDeposit == 0 && id in s.games && s.games[id].state == Active
             && env.caller == s.games[id].CurrentAccount()) ==> r == Err(NoAccess)
    ensures env.attachedDeposit == 0 && id in s.games && s.games[id].state == Active
              && env.caller != s.games[id].CurrentAccount() ==>
              (r == Err(TooEarly) <==>
                 StopTest(s.games[id], env.now, s.maxTurnDuration, s.maxGameDuration, corrected) == Ok(false))
    ensures r.Ok? ==>
              && env.attachedDeposit == 0 && id in s.games && s.games[id].state == Active
              && env.caller != s.games[id].CurrentAccount() && s.games[id].HasPlayer(env.caller)
              && StopTest(s.games[id], env.now, s.maxTurnDuration, s.maxGameDuration, corrected) == Ok(true)
              && r.value == ForceStop(s, id, s.games[id], env.caller, s.games[id].Opponent(env.caller))
  {
    if env.attachedDeposit != 0 then Err(DepositNotAccepted)
    else if id !in s.games then Err(GameNotFound)
    else
      var g := s.games[id];
      if g.state != Active then Err(GameNotActive)
      else if env.caller == g.CurrentAccount() then Err(NoAccess)
      else match StopTest(g, env.now, s.maxTurnDuration, s.maxGameDuration, corrected)
      case Err(e) => Err(e)
      case Ok(allowed) =>
        if !allowed then Err(TooEarly)
        else if !g.HasPlayer(env.caller) then Err(NotInGame)
        else
          var (winner, loser) := if env.caller == g.players.0.account then (g.players.0.account, g.players.1.account)
                                 else (g.players.1.account, g.players.0.account);
          Ok(ForceStop(s, id, g, winner, loser))
  }

  // ---------------------------------------------------------------------
  // Dispatch
  // ---------------------------------------------------------------------

  /** A public call with its arguments. */
  datatype Call =
    | MakeAvailableCall(config: Option<GameConfigNear>)
    | MakeUnavailableCall
    | StartGameCall(opponent: AccountId)
    | MakeMoveCall(id: GameId, row: nat, col: nat)
    | GiveUpCall(id: GameId)
    | StopGameCall(id: GameId)

  /** The state a call result would commit, or the error it panics with. */
  function Committed<T>(r: Result<Step<T>, Error>): Result<Contract, Error> {
    if r.Ok? then Ok(r.value.next) else Err(r.error)
  }

  /** What `call` does to the state: the state it commits, or its error. */
  function Outcome(s: Contract, env: Env, call: Call): Result<Contract, Error> {
    match call
    case MakeAvailableCall(c) => Committed(MakeAvailable(s, env, c))
    case MakeUnavailableCall => Committed(MakeUnavailable(s, env))
    case StartGameCall(o) => Committed(StartGame(s, env, o))
    case MakeMoveCall(id, row, col) => Committed(MakeMove(s, env, id, row, col))
    case GiveUpCall(id) => Committed(GiveUp(s, env, id))
    case StopGameCall(id) => Committed(StopGame(s, env, id, false))
  }

  /** The state after `call`. The host reverts a call that panics, so a failed
      call leaves `s` as it was; and no call changes the fee or the bounds
      fixed at initialisation. */
  function Apply(s: Contract, env: Env, call: Call): (r: Contract)
    ensures Outcome(s, env, call).Err? ==> r == s
    ensures Outcome(s, env, call).Ok? ==> r == Outcome(s, env, call).value
    ensures && r.serviceFee == s.serviceFee && r.referrerRatio == s.referrerRatio
            && r.maxGameDuration == s.maxGameDuration && r.maxTurnDuration == s.maxTurnDuration
            && r.maxStoredGames == s.maxStoredGames
  {
    match Outcome(s, env, call)
    case Ok(next) => next
    case Err(_) => s
  }
}
