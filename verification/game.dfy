/** One game session: two player slots, the board, whose turn it is, the
    timestamps the timeout rules read, and the wager it settles. */
module Game {
  import opened Base
  import opened Board

  /** A player slot index, 0 or 1. */
  type Index = i: int | 0 <= i < 2

  datatype GameState = Active | Finished

  datatype Player = Player(account: AccountId, piece: Piece)

  /** The wager a game settles: a token and both players' deposits combined. */
  datatype GameDeposit = GameDeposit(token: TokenId, balance: U128)

  datatype Game = Game(
    players: (Player, Player),
    currentPiece: Piece,
    currentIndex: Index,
    board: Board,
    state: GameState,
    initiatedAt: Timestamp,
    lastTurnAt: Timestamp,
    totalTurns: nat,
    currentDuration: Timestamp,
    reward: GameDeposit)
  {
    function PlayerAt(i: Index): Player {
      if i == 0 then players.0 else players.1
    }

    /** The account whose turn it is. */
    function CurrentAccount(): AccountId {
      PlayerAt(currentIndex).account
    }

    /** The account that moves after the current one. */
    function NextAccount(): AccountId {
      PlayerAt(1 - currentIndex).account
    }

    predicate HasPlayer(a: AccountId) {
      a == players.0.account || a == players.1.account
    }

    /** The account playing piece `p`, if either slot plays it. */
    function AccountByPiece(p: Piece): (r: Option<AccountId>)
      ensures r.Some? <==> players.0.piece == p || players.1.piece == p
      ensures r.Some? ==> HasPlayer(r.value)
    {
      if players.0.piece == p then Some(players.0.account)
      else if players.1.piece == p then Some(players.1.account)
      else None
    }

    /** The player other than `a`; the first slot when `a` is not the first. */
    function Opponent(a: AccountId): AccountId {
      if a == players.0.account then players.1.account else players.0.account
    }

    /** The shape every game in the active-games map keeps: two distinct
        accounts with distinct pieces, the current piece belonging to the
        current mover, a 5x5 board with no winner, and an even wager. */
    ghost predicate Valid() {
      && players.0.account != players.1.account
      && players.0.piece != players.1.piece
      && currentPiece == PlayerAt(currentIndex).piece
      && state == Active
      && board.winner.None?
      && reward.balance % 2 == 0
    }
  }

  /** A new game: `first` moves first with piece X against `second` with O,
      on an empty board, started at `now`. */
  function CreateGame(first: AccountId, second: AccountId, reward: GameDeposit, now: Timestamp): (g: Game)
    ensures g.players.0.account == first && g.players.1.account == second
    ensures g.players.0.piece != g.players.1.piece
    ensures g.CurrentAccount() == first && g.NextAccount() == second
    ensures g.currentPiece == g.players.0.piece
    ensures g.state == Active && g.board == EmptyBoard()
    ensures g.initiatedAt == now && g.lastTurnAt == 0 && g.totalTurns == 0
    ensures g.reward == reward
  {
    Game((Player(first, X), Player(second, O)), X, 0, EmptyBoard(), Active, now, 0, 0, 0, reward)
  }

  /** The in-place part of a move (lines 280-285 of lib.rs): write the current
      piece, hand the turn and the piece to the other player, and record the
      winner tag the board computes from the played cell. */
  function ApplyMove(g: Game, row: nat, col: nat): (g': Game)
    requires CheckMove(g.board.tiles, row, col).None?
    ensures g'.board.tiles[row][col] == Some(g.currentPiece)
    ensures forall r, c | InBounds(r, c) && (r != row || c != col) ::
              g'.board.tiles[r][c] == g.board.tiles[r][c]
    ensures g'.currentPiece != g.currentPiece
    ensures g'.currentIndex != g.currentIndex
    ensures g'.CurrentAccount() == g.NextAccount() && g'.NextAccount() == g.CurrentAccount()
    ensures g'.board.winner == UpdateWinner(g'.board.tiles, row, col)
    ensures g' == g.(board := g'.board, currentPiece := g'.currentPiece, currentIndex := g'.currentIndex)
  {
    var tiles := Place(g.board.tiles, row, col, g.currentPiece);
    g.(board := Board(tiles, UpdateWinner(tiles, row, col)),
       currentPiece := g.currentPiece.Other(),
       currentIndex := 1 - g.currentIndex)
  }

  /** A move keeps the current piece tied to the current mover, and keeps
      every occupied cell as it was. */
  lemma ApplyMoveKeepsTurnOrder(g: Game, row: nat, col: nat)
    requires g.Valid() && CheckMove(g.board.tiles, row, col).None?
    ensures ApplyMove(g, row, col).currentPiece == ApplyMove(g, row, col).PlayerAt(ApplyMove(g, row, col).currentIndex).piece
    ensures Extends(g.board.tiles, ApplyMove(g, row, col).board.tiles)
  {
    var g' := ApplyMove(g, row, col);
    assert g.currentPiece.Other() == g.PlayerAt(1 - g.currentIndex).piece by {
      assert g.players.0.piece != g.players.1.piece;
    }
  }

  /** When a move wins, the winning piece belongs to the account that made it. */
  lemma WinnerIsMover(g: Game, row: nat, col: nat, p: Piece)
    requires g.Valid() && CheckMove(g.board.tiles, row, col).None?
    requires ApplyMove(g, row, col).board.winner == Some(Won(p))
    ensures ApplyMove(g, row, col).AccountByPiece(p) == Some(g.CurrentAccount())
  {
  }
}
