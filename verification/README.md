# Wager-backed tic-tac-toe contract: a Dafny model

This project models the matchmaking and game-session state machine of a NEAR
smart contract (`Contract` in `src/lib.rs`). Two accounts stake a deposit and
wait in a queue. One of them starts a game against the other, and they take
turns on a 5x5 board. A five-cell run wins and a full board ties. The wager
is settled when the game ends: the winner gets the balance less the service
fee, and a tie refunds each player half of that. A player who runs past the
turn or game bound loses the game and takes a penalty.

The contract state is the `Contract` datatype (module `GameContract`). It holds:
- the waiting list;
- the active games;
- the per-account stats ledger;
- the next game id;
- the fee and timing parameters;
- the archive of finished games.

Each public entry point is a pure function `Contract x Env -> Result<Step, Error>`:
- `Env` carries the block time, the caller, the attached deposit and the first byte of the random seed.
- `Step` carries the next state, the return value and the transfer requests the call emitted.
- Every explicit panic of the source is an `Error` value. So are two implicit ones:
  - the host's refusal of a deposit attached to a method that is not payable;
  - overflow or underflow of the `u64` arithmetic, on the assumption that overflow checks are enabled (see "## Left out").
- `Apply` commits a successful call and leaves the state unchanged on failure, as the host reverts a panicking call.

Modules:
- `Base`: ids, fixed-width integer ranges, `Option`, `Result`.
- `Config`: constants and the initialisation record.
- `Board`: the grid, move check and win detection.
- `Game`: one game session.
- `StatsLedger`: per-account counters.
- `Settlement`: the fee, payouts and tie refunds.
- `GameContract`: the state, the expiry sweeps and the entry points.
- `Invariants`: the state invariant and its preservation.
- `Properties`: cross-call and per-call properties.
- `Scenarios`: the unit tests of `lib.rs` restated as lemmas.

Several rules live in files outside this model. The model takes them from the tests, or assumes them where the tests leave them open:
- the 5x5 board and a winning run of five along the four axes, from the test boards (lines 957-976 and 1040-1089);
- the fee, which divides the balance by `BASIS_P` before multiplying by the rate, as the test at line 918 computes it;
- the waiting-list expiry: an entry is refunded once it is older than `MAX_TIME_TO_BE_AVAILABLE`. `test_new_views` (lines 1389-1404, with the clock at `max_game_duration + 1` from line 764) creates entries at `max_game_duration + 1` and expects them gone at `max_game_duration + MAX_TIME_TO_BE_AVAILABLE + 2`. That is consistent with this threshold, and also with any threshold up to it.
- the game sweep at the start of `make_move` (line 269): the model assumes it stops every active game past its game bound (strict) or its turn bound, counted from the last turn or from the start before any turn, and penalises the current mover. The sweep's body is not in `lib.rs`.

Under that assumed sweep rule, the late-move branch of `make_move` (lines 352-379) cannot be reached through the public call. A game whose move would be late has already been stopped by the sweep, and the call fails as not found. `Properties.MakeMoveNeverLate` states this. The branch is still modelled in `GameContract.Play`, and `Properties.PlayLate` states its outcome.

## Model

| member | source | states |
|---|---|---|
| GameContract.New | src/lib.rs:81-122 | Fails exactly when a supplied config is invalid. Otherwise it starts empty with id 0 and turn bound = game bound / MAX_NUM_TURNS. It takes the config's values, or the defaults: 10% fee, one hour, 9500 referrer ratio, 50 stored games. |
| GameContract.PingExpiredPlayers | src/lib.rs:131-133 | The waiting-list sweep keeps exactly the entries that have not expired, unchanged, refunds exactly the removed ones, and changes nothing else. |
| GameContract.MakeAvailable | src/lib.rs:127-162 | After the sweep, fails if the caller is waiting, else if the deposit is below MIN_DEPOSIT_NEAR. Succeeds exactly otherwise, adding only the caller with a NEAR stake of the attached amount, stamped now, with the given opponent and referrer; other entries keep their values. |
| GameContract.MakeUnavailable | src/lib.rs:164-182 | Requires one yoctoNEAR and a waiting caller, each with its own error. Removes exactly that entry and emits one refund of its deposit in its token. |
| GameContract.StartGame | src/lib.rs:183-264 | Refuses any attached deposit first, as the method has no `#[payable]`. Otherwise succeeds iff the opponent and caller are distinct and both waiting, the opponent's reservation allows the caller, deposits and tokens match, 2 x deposit fits in u128, and the next id stays below the u64 limit. The game takes the old next id, which rises by one; both leave the queue. The slot order follows the random byte's parity; the balance is the two deposits; both players' games-played go up by one and no one else's stats change. |
| GameContract.TurnTimedOut | src/lib.rs:344-380 | Before any turn only the turn bound from the start applies. Afterwards, a late verdict means the turn gap exceeds the turn bound or the game exceeds the game bound (strict); an on-time verdict means both hold within bounds. Negative time differences are underflow errors. |
| GameContract.WinnerAccount | src/lib.rs:293-297 | A tie names nobody. When the two players hold different pieces, a win names the player whose slot holds the winning piece. Any named account is a player of the game, and a win names nobody only when neither slot holds the piece. |
| GameContract.Play | src/lib.rs:271-383 | A successful move was made by the current mover of an active game on a free cell and returns the board after the move. Other games are untouched and the archive only gains this game. |
| GameContract.MakeMove | src/lib.rs:265-385 | Refuses any attached deposit before the sweep, as the method has no `#[payable]`. Otherwise the same, after the game sweep: a missing or swept game is not found, a non-mover has no access, and the ledger only grows. |
| GameContract.Conclude | src/lib.rs:287-330 | Settling a game removes it from the active games and archives it with its result, players, board and payout. A win pays the winner the balance less the fee in one transfer and counts a victory; a tie credits both players the tie share and sends two transfers. |
| GameContract.Retire | src/lib.rs:327-328 | Archiving removes exactly the game from the active map, adds exactly its view to the archive, and keeps every other archived view. |
| GameContract.ForceStop | src/lib.rs:453-476 | A forced end penalises the loser once and counts one victory for the winner. It pays the winner the balance less the fee in one transfer and credits that reward. It archives the winner as player one with the payout, and leaves all other accounts' stats unchanged. |
| GameContract.StopExpiredGame | src/lib.rs:354-379 | The stop of a late or stale game: the named loser is penalised, the other player of the stored game wins and is paid the balance less the fee in one transfer, and the archive lists the winner first with the stored board. |
| GameContract.SweepGames | src/lib.rs:267-269 | Below the bound, keeps exactly the games that are not stale, unchanged. Archives every game it removes and no other, keeps the old archive, and only grows the ledger. |
| GameContract.PingExpiredGames | src/lib.rs:267-269 | The same over every allocated id; ids at or above the next id are untouched. |
| GameContract.GiveUp | src/lib.rs:387-422 | Succeeds iff one yoctoNEAR is attached and the caller plays in the active game. The game leaves the active map and is archived in its own player order as a win for the other player. |
| GameContract.StopAllowedAsWritten | src/lib.rs:433-443 | As written: allowed iff the game bound is reached (>=) or the gap since the last turn stamp, which is 0 before the first turn, exceeds the turn bound. It errs exactly when a subtraction it evaluates would underflow. |
| GameContract.StopAllowed | src/lib.rs:433-443 | The corrected test: the same, but the turn gap is counted from the start before the first turn. It agrees with the as-written test once a turn has been stamped (see Findings). |
| GameContract.StopGame | src/lib.rs:423-477 | Refuses any attached deposit first, as the method has no `#[payable]`. Otherwise the current mover has no access. A waiting player is refused as too early exactly when the lateness test says so: the test of line 441 as written for the public call (`corrected == false`), or the corrected one. A success is a forced stop with the caller as winner, and the caller must be a player. |
| GameContract.Apply | src/lib.rs:127-477 | A call that panics is reverted and leaves the state as it was; a call that returns commits its new state; no call changes the fee, the referrer ratio, the archive cap or the two bounds fixed at initialisation. |
| Board.CheckMove | src/lib.rs:333-340 | A move is legal iff it is on the grid and the cell is empty; otherwise the error distinguishes an off-grid position from a filled cell and names the piece in it. |
| Board.Place | src/lib.rs:280 | Writes the piece at the cell and changes no other cell. |
| Board.UpdateWinner | src/lib.rs:285-287 | A win names the piece just played. A tie is reported exactly when the board is full with no winning run through the cell. No result means the board is not full. |
| Board.WinHasLine | src/lib.rs:957-976 | Soundness of win detection: a reported win has five cells of the winning piece in a row along one of the four axes through the played cell. |
| Board.LineWins | src/lib.rs:957-976 | Completeness: five cells of the played piece in a row along an axis through the played cell make the move win. |
| Game.CreateGame | src/lib.rs:227-244 | A new game seats the first account in slot one with the first move and the second in slot two, with distinct pieces, on an empty board, active, started now with no turn taken, and holding the reward. |
| Game.ApplyMove | src/lib.rs:280-285 | The cell gets the mover's piece and every other cell is unchanged. The piece and index flip, so the turn passes to the other account, and the winner is recomputed from the cell. |
| Game.ApplyMoveKeepsTurnOrder | src/lib.rs:280-284 | A move keeps the current piece tied to the current mover's slot and keeps every occupied cell. |
| Game.WinnerIsMover | src/lib.rs:287-295 | When a move wins, the winning piece belongs to the account that made it. |
| StatsLedger.AddPlayedGame | src/lib.rs:258-259 | One more game played for the account; no other record changes; nothing is lowered. |
| StatsLedger.AddPenalty | src/lib.rs:453-458 | One more penalty for the account; no other record changes; nothing is lowered. |
| StatsLedger.AddReward | src/lib.rs:911-920 | Credits the amount to the token's total, counts a victory only when asked, leaves other tokens and accounts alone, and lowers nothing. |
| Settlement.ServiceFee | src/lib.rs:918 | The fee never exceeds the balance nor balance x rate / BASIS_P. |
| Settlement.PayWinner | src/lib.rs:911-920 | The payout plus the fee is the whole balance. It goes to the winner in one transfer, and the winner gains a victory and that reward. |
| Settlement.TieShare | src/lib.rs:1094-1105 | Twice the share, plus the fee, plus the odd unit left over, is the balance. |
| Settlement.RefundTie | src/lib.rs:1094-1105 | Each player is credited the tie share and sent one transfer; no counter changes and no third account is touched. |
| Settlement.Distribute | src/lib.rs:299-307 | A winner is paid as PayWinner and a tie is refunded as RefundTie; either way the ledger only grows. |
| Settlement.TieIsSymmetric | src/lib.rs:1094-1102 | Two players who stood level before a tie settlement stand level after it. |
| Invariants.NewValid | src/lib.rs:109-122 | A new contract satisfies the invariant: turn bound derived from the game bound, ids below the next id, active games well formed, archive disjoint from the active games. |
| Invariants.MakeAvailableValid | src/lib.rs:127-162 | make_available keeps the invariant. |
| Invariants.MakeUnavailableValid | src/lib.rs:164-182 | make_unavailable keeps the invariant. |
| Invariants.StartGameValid | src/lib.rs:210-259 | start_game keeps the invariant: the new game is well formed and its id is below the new next id. |
| Invariants.ConcludeValid | src/lib.rs:287-330 | Settling and archiving a game keeps the invariant. |
| Invariants.ForceStopValid | src/lib.rs:453-476 | A forced stop keeps the invariant. |
| Invariants.SweepGamesValid | src/lib.rs:267-269 | The game sweep keeps the invariant. |
| Invariants.PlayValid | src/lib.rs:277-380 | Every outcome of a move keeps the invariant: finishing, late, or recorded. |
| Invariants.MakeMoveValid | src/lib.rs:266-385 | make_move keeps the invariant. |
| Invariants.GiveUpValid | src/lib.rs:387-422 | give_up keeps the invariant. |
| Invariants.StopGameValid | src/lib.rs:424-477 | stop_game keeps the invariant, under either lateness test. |
| Invariants.ApplyValid | src/lib.rs:127-477 | Every public call, successful or not, keeps the invariant. |
| Properties.IdsOnlyAdvance | src/lib.rs:210-247 | No call lowers the next game id; only start_game raises it, by exactly one. |
| Properties.StartGameFreshId | src/lib.rs:210-247 | A started game takes an id no active or archived game has. |
| Properties.ArchiveIsFinal | src/lib.rs:316-328 | An archived game stays archived, unchanged, and never becomes active again, whatever call follows. |
| Properties.EndedStaysEnded | src/lib.rs:244-247 | An allocated id that is no longer active never becomes active again. |
| Properties.OccupiedCellsStay | src/lib.rs:277-284 | No call changes an occupied cell of a game that stays active. |
| Properties.StatsOnlyGrow | src/lib.rs:258-259 | No call lowers a counter or a reward total, or drops an account's record. |
| Properties.PingExpiredPlayersIdempotent | src/lib.rs:131-133 | A second waiting-list sweep at the same time removes and refunds nothing. |
| Properties.SweepOfFreshGames | src/lib.rs:267-269 | A game sweep that finds nothing stale is the identity with no transfers. |
| Properties.PingExpiredGamesIdempotent | src/lib.rs:267-269 | A second game sweep at the same time stops nothing. |
| Properties.AvailableThenUnavailable | src/lib.rs:782-806 | Joining and then leaving the queue returns the state the sweep left and refunds exactly the stake in NEAR. |
| Properties.MakeMoveByMover | src/lib.rs:274-277 | A successful move was made by the current mover of a game active before the call, on a legal cell. |
| Properties.MakeMoveRecords | src/lib.rs:342-374 | A recorded move writes the mover's piece and only that cell, and flips the piece and index. It counts the turn, stamps it now, sets the duration, and leaves a game the sweep would not stop. |
| Properties.PlayRecords | src/lib.rs:342-374 | On the swept state, a recorded move stores exactly the moved game with the turn counted, stamped and timed. |
| Properties.MakeMoveFinishes | src/lib.rs:287-330 | A winning move archives a win for its mover and a filling move a tie. The game leaves the active map with no timeout check, the archive keeps the player order and final board, and the call returns that board. |
| Properties.PlayLate | src/lib.rs:352-379 | A late non-final move makes its mover lose. The mover is penalised and the other player wins, and the archive lists the winner first with the board as it was before the move. |
| Properties.MakeMoveNeverLate | src/lib.rs:267-269 | The game sweep that opens make_move stops every game whose move would be late, so a successful make_move never takes the late path (lines 352-379). |
| Properties.GiveUpSettles | src/lib.rs:397-421 | The other player wins the balance less the fee, in one transfer, with one more victory; the resigning player's record is untouched. |
| Properties.StopGamePenalises | src/lib.rs:429-476 | Under either lateness test, only the waiting player can stop. The current mover takes a penalty, the caller gains a victory and is paid the balance less the fee in one transfer, and the archive lists the caller first. |
| Properties.GameBoundBoundary | src/lib.rs:372-441 | At exactly the game bound, a move is still on time (strict `>`) while a forced stop is already allowed (`>=`, line 441), by the test as written and by the corrected one. |
| Properties.StopAsWrittenCountsFromZero | src/lib.rs:441 | As written, before the first turn, a stop is allowed exactly when the block time itself exceeds the turn bound. |
| Properties.StopRightAfterStart | src/lib.rs:441 | Counterexample: one nanosecond after a start at a realistic block time, the as-written test allows a stop and the corrected one refuses it. |
| Properties.StopGameRightAfterStart | src/lib.rs:424-443 | The same at the entry point: in any valid state with the default game bound, the waiting player wins such a game by stop_game one nanosecond after it starts, while the corrected call refuses it as too early. |
| Properties.StopGameAgreesAfterFirstTurn | src/lib.rs:441 | Once a turn has been stamped, stop_game as written and corrected give the same result. |
| Properties.StopNeedsElapsedBound | src/lib.rs:352-353 | With the corrected test, no game can be stopped before a full turn bound or the game bound has passed since it started. |
| Properties.StopMatchesSweep | src/lib.rs:267-269 | The corrected stop test allows a stop exactly when the game sweep would stop the game, or at the game bound itself. |
| Scenarios.DiagonalWins | src/lib.rs:957-976 | O's move at (4, 0) completes the anti-diagonal and wins. |
| Scenarios.TieAtLastCell | src/lib.rs:1040-1089 | X's last move at (4, 2) fills the board with no run of five: a tie. |
| Scenarios.StartScenario | src/lib.rs:943-953 | With the zero seed the named opponent moves first. The pieces differ, the board's piece is the first slot's, the queue empties, and each player has one game played. |
| Scenarios.GiveUpScenario | src/lib.rs:903-920 | The resigning user gets nothing; the opponent gets one victory and 2D - (2D / BASIS_P) x fee; games played are equal. |
| Scenarios.SettlingMove | src/lib.rs:287-330 | With an idle sweep, a finishing move settles the game at once: no timeout check applies. |
| Scenarios.RecordingMove | src/lib.rs:342-374 | An on-time non-final move only changes that game, counting and stamping the turn. |
| Scenarios.DiagonalScenario | src/lib.rs:957-996 | The anti-diagonal win archives a win for the user, with one victory and 2D - (2D / BASIS_P) x fee for the user and nothing for the opponent. |
| Scenarios.TieScenario | src/lib.rs:1040-1102 | The full board archives a tie, and both players end with equal counters and equal rewards. |
| Scenarios.StopTooEarlyScenario | src/lib.rs:1108-1164 | Twenty seconds in, the waiting player's stop is refused as too early. |
| Scenarios.StopWrongAccessScenario | src/lib.rs:1166-1221 | After the game bound, the current mover's stop is refused with no access. |
| Scenarios.SweepScenario | src/lib.rs:1440-1471 | The second game's first move triggers the sweep, which stops the first game. Its idle mover takes a penalty and the other player a victory; a bystander's stats are unchanged. |
| Scenarios.SweepKeepsLiveGame | src/lib.rs:1440-1460 | After that move only the second game is active, with its opening move recorded. |

## Findings

| source | as written | input that shows it | evidently intended | confidence | as-written member | corrected member |
|---|---|---|---|---|---|---|
| src/lib.rs:441 | Before the first turn, `stop_game` measures the turn gap as `now - last_turn_timestamp` with the stamp still 0, which is the block time itself. | A game started at block time 1.7e18 ns with the default one-hour game; the waiting player calls `stop_game` 1 ns later and wins the stake. | Count the turn gap from the game's start until the first turn is stamped, as `make_move` does (lines 352-353). | medium, not executed | Properties.StopGameRightAfterStart | GameContract.StopAllowed |

`GameContract.StopAllowedAsWritten` and `Properties.StopAsWrittenCountsFromZero` model line 441 as written. The public `stop_game` call (`GameContract.StopGame` with `corrected == false`, which `GameContract.Apply` dispatches) uses that test. `Properties.StopRightAfterStart` and `Properties.StopGameRightAfterStart` exhibit the discrepancy. `GameContract.StopAllowed` is the corrected test, and `GameContract.StopGame` with `corrected == true` is the corrected call. `Properties.StopNeedsElapsedBound` and `Properties.StopMatchesSweep` prove the intended properties of the corrected test. `Invariants.StopGameValid` and `Properties.StopGamePenalises` hold for both calls. The two agree once a turn has been stamped (`Properties.StopGameAgreesAfterFirstTurn`). They also agree in the tests, where the clock starts at 0.

## Left out

- Fungible-token deposits (`ft_on_transfer`) and the token whitelist: their code is not part of this model. A waiting entry is either a NEAR stake from `make_available` or entered directly in a scenario state.
- Referrers: `internal_add_referrer` and the referral share of the fee are not part of this model. The referral share is carved out of the fee, so the players' payouts do not depend on it. `referrerRatio` is kept only as a parameter.
- Transfers and their callbacks (`internal_transfer`, `transfer_deposit_callback`, the payout callbacks) are asynchronous cross-contract calls. They are modelled only as emitted `Transfer` records.
- `internal_check_player_available` (lines 157 and 195): its body is not part of this model, and it is treated as having no effect.
- The archive cap (`max_stored_games`) and eviction of the oldest entry: `internal_store_game` is not part of this model, so the archive keeps every finished game.
- `last_update_timestamp`, the read-only views (`get_active_games`, `get_stats` and so on), `log!` output and storage keys: none affects a transition.
- `config.rs` is not part of this model. `MIN_DEPOSIT_NEAR`, `MAX_FEES`, `BASIS_P` and `MAX_TIME_TO_BE_AVAILABLE` take assumed values chosen to fit the tests. `MAX_NUM_TURNS` is 9, from the comment at lines 100-101: the one-hour default gives a 400-second turn. Only the scenario lemmas depend on these values.
- Config.Valid: the body of `assert_valid` (line 88) is not part of this model. The model assumes it requires the fee rate and the referrer ratio to be at most `BASIS_P`.
- `board.rs` is not part of this model. The board rules (size 5, runs of five on four axes, a tie on a full board) are taken from the tests, and `GameAlreadyOver` is the error for a move on a board that already has a winner.
- The random seed is reduced to its first byte; only its parity is used.
- Game.totalTurns: an unbounded counter; the source's integer width for it is not part of this model.
- GameContract.SweepGames: states which games are removed, that exactly those are archived and that the ledger only grows. It does not state the penalty and payout of each stopped game. Those follow from `GameContract.StopExpiredGame`, which the sweep applies to each stale game, and are shown for one sweep in `Scenarios.SweepScenario`.
- GameContract.PingExpiredGames: likewise states which games are removed and that exactly those are archived, not each stopped game's penalty and payout, since it is `GameContract.SweepGames` over every allocated id.
- The bodies of `internal_ping_expired_players` and `internal_ping_expired_games` are not part of this model, and `lib.rs` documents neither sweep's thresholds nor the game sweep's choice of loser. The thresholds and the penalised current mover are this model's assumptions. `test_new_views` is consistent with them.
- GameContract.MakeMove: under the assumed game-sweep rule, the late-move path of lines 352-379 is never reached through `make_move` (`Properties.MakeMoveNeverLate`). It is exercised only through `GameContract.Play` on an unswept state (`Properties.PlayLate`).
- GameContract.StopExpiredGame: the body of `internal_stop_expired_game` is not part of this model. The model assumes it ends the stored game as `stop_game` does (lines 445-476): the named loser is penalised, the other player is paid and archived first, and the archived board is the stored one, without the late move.
- Overflow checks: `Cargo.toml` is not part of this model. The `u64` subtractions of block times (lines 350, 353, 365, 433, 441) and the id increment (line 247) are modelled as panics, as they are in a build with overflow checks enabled. A release build without them would wrap instead.
- StatsLedger: the per-account counters and reward totals are unbounded naturals. Their integer width is set in `stats.rs`, which is not part of this model, so their overflow is not modelled.
- Non-payable methods: the host's refusal of a deposit attached to `start_game`, `make_move` or `stop_game` comes from the `#[near_bindgen]` wrapper, not from `lib.rs`. The tests call the methods directly, which bypasses it: their `stop_game` helper attaches one yoctoNEAR (line 625). The stop scenarios here attach none.
- Scenarios.SweepScenario: models the first move of the second game of `test_new_views`, not the second move. The test's earlier history is replaced by one game played for each account.
- Scenarios.GiveUpScenario: the stakes are entered directly in the queue rather than through the token-transfer path.
