/** Per-account counters: games played, victories, penalties, and the total
    reward received per token. A record is created on first use and never
    removed. */
module StatsLedger {
  import opened Base

  datatype Stats = Stats(
    gamesPlayed: nat,
    victoriesNum: nat,
    penaltiesNum: nat,
    totalReward: map<TokenId, nat>)

  type Ledger = map<AccountId, Stats>

  const NoStats: Stats := Stats(0, 0, 0, map[])

  /** The account's record, or the all-zero record if it has none yet. */
  function StatsOf(m: Ledger, a: AccountId): Stats {
    if a in m then m[a] else NoStats
  }

  function RewardOf(st: Stats, token: TokenId): nat {
    if token in st.totalReward then st.totalReward[token] else 0
  }

  /** `b` is `a` with no counter and no reward lowered. */
  ghost predicate Grows(a: Stats, b: Stats) {
    && a.gamesPlayed <= b.gamesPlayed
    && a.victoriesNum <= b.victoriesNum
    && a.penaltiesNum <= b.penaltiesNum
    && a.totalReward.Keys <= b.totalReward.Keys
    && forall k | k in a.totalReward :: a.totalReward[k] <= b.totalReward[k]
  }

  /** No account loses its record and no counter goes down. */
  ghost predicate LedgerGrows(m: Ledger, m': Ledger) {
    && m.Keys <= m'.Keys
    && forall a | a in m :: Grows(m[a], m'[a])
  }

  /** The three counters agree; rewards may differ. */
  predicate SameCounters(a: Stats, b: Stats) {
    a.gamesPlayed == b.gamesPlayed && a.victoriesNum == b.victoriesNum && a.penaltiesNum == b.penaltiesNum
  }

  /** Only `a`'s record differs between the two ledgers. */
  ghost predicate OthersUnchanged(m: Ledger, m': Ledger, a: AccountId) {
    forall b | b != a :: StatsOf(m', b) == StatsOf(m, b)
  }

  function AddPlayedGame(m: Ledger, a: AccountId): (m': Ledger)
    ensures StatsOf(m', a) == StatsOf(m, a).(gamesPlayed := StatsOf(m, a).gamesPlayed + 1)
    ensures OthersUnchanged(m, m', a) && LedgerGrows(m, m')
  {
    var st := StatsOf(m, a);
    m[a := st.(gamesPlayed := st.gamesPlayed + 1)]
  }

  function AddPenalty(m: Ledger, a: AccountId): (m': Ledger)
    ensures StatsOf(m', a) == StatsOf(m, a).(penaltiesNum := StatsOf(m, a).penaltiesNum + 1)
    ensures OthersUnchanged(m, m', a) && LedgerGrows(m, m')
  {
    var st := StatsOf(m, a);
    m[a := st.(penaltiesNum := st.penaltiesNum + 1)]
  }

  /** Credits `amount` of `token` to `a`'s total reward, counting a victory when `victory`. */
  function AddReward(m: Ledger, a: AccountId, token: TokenId, amount: nat, victory: bool): (m': Ledger)
    ensures StatsOf(m', a).gamesPlayed == StatsOf(m, a).gamesPlayed
    ensures StatsOf(m', a).penaltiesNum == StatsOf(m, a).penaltiesNum
    ensures StatsOf(m', a).victoriesNum == StatsOf(m, a).victoriesNum + (if victory then 1 else 0)
    ensures RewardOf(StatsOf(m', a), token) == RewardOf(StatsOf(m, a), token) + amount
    ensures forall k | k != token :: RewardOf(StatsOf(m', a), k) == RewardOf(StatsOf(m, a), k)
    ensures StatsOf(m', a).totalReward.Keys == StatsOf(m, a).totalReward.Keys + {token}
    ensures !victory ==> forall b :: SameCounters(StatsOf(m, b), StatsOf(m', b))
    ensures OthersUnchanged(m, m', a) && LedgerGrows(m, m')
  {
    var st := StatsOf(m, a);
    m[a := st.(victoriesNum := st.victoriesNum + (if victory then 1 else 0),
               totalReward := st.totalReward[token := RewardOf(st, token) + amount])]
  }

  lemma LedgerGrowsTrans(m1: Ledger, m2: Ledger, m3: Ledger)
    requires LedgerGrows(m1, m2) && LedgerGrows(m2, m3)
    ensures LedgerGrows(m1, m3)
  {
  }
}
