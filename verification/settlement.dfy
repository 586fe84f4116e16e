/** Settling a finished game's wager: the service fee, the payout to the winner
    or the two tie refunds, the stats credited, and the transfer requests sent.
    The settlement routine's own body is outside this model; the fee formula
    here is the one the unit tests expect of it: the balance is divided by
    BASIS_P before it is multiplied by the rate. Referral shares are carved out
    of the fee and so do not change what the players receive; they are not
    modelled. */
module Settlement {
  import opened Base
  import opened Config
  import opened StatsLedger
  import opened Game

  /** A request to the transfer collaborator; it is acknowledged later, outside the call. */
  datatype Transfer = Transfer(token: TokenId, receiver: AccountId, amount: nat)

  datatype Settled = Settled(stats: Ledger, payout: U128, transfers: multiset<Transfer>)

  /** The fee the service keeps from a wager `balance` at `rate` basis points. */
  function ServiceFee(balance: nat, rate: FeeRate): (fee: nat)
    ensures fee <= balance
    ensures fee * BASIS_P <= balance * rate
  {
    FeeBounds(balance, rate);
    (balance / BASIS_P) * rate
  }

  lemma FeeBounds(balance: nat, rate: FeeRate)
    ensures (balance / BASIS_P) * rate <= balance
    ensures (balance / BASIS_P) * rate * BASIS_P <= balance * rate
  {
    var q := balance / BASIS_P;
    assert q * BASIS_P <= balance;
    assert q * rate <= q * BASIS_P by {
      assert rate <= BASIS_P;
    }
    assert q * rate * BASIS_P == q * BASIS_P * rate;
    assert q * BASIS_P * rate <= balance * rate;
  }

  /** Pays the winner of `reward` the balance less the fee and counts a victory. */
  function PayWinner(m: Ledger, w: AccountId, reward: GameDeposit, rate: FeeRate): (r: Settled)
    ensures r.payout + ServiceFee(reward.balance, rate) == reward.balance
    ensures r.transfers == multiset{Transfer(reward.token, w, r.payout)}
    ensures StatsOf(r.stats, w).victoriesNum == StatsOf(m, w).victoriesNum + 1
    ensures RewardOf(StatsOf(r.stats, w), reward.token) == RewardOf(StatsOf(m, w), reward.token) + r.payout
    ensures StatsOf(r.stats, w).gamesPlayed == StatsOf(m, w).gamesPlayed
    ensures StatsOf(r.stats, w).penaltiesNum == StatsOf(m, w).penaltiesNum
    ensures OthersUnchanged(m, r.stats, w) && LedgerGrows(m, r.stats)
  {
    var payout := reward.balance - ServiceFee(reward.balance, rate);
    Settled(AddReward(m, w, reward.token, payout, true), payout, multiset{Transfer(reward.token, w, payout)})
  }

  /** Each player's half of a tied wager after the fee; the odd unit, if
      any, stays with the service together with the fee. */
  function TieShare(balance: U128, rate: FeeRate): (share: U128)
    ensures share + share + ServiceFee(balance, rate) + (balance - ServiceFee(balance, rate)) % 2 == balance
  {
    (balance - ServiceFee(balance, rate)) / 2
  }

  /** Refunds each player of a tied game its `TieShare`; no victory is counted. */
  function RefundTie(m: Ledger, first: AccountId, second: AccountId, reward: GameDeposit, rate: FeeRate): (r: Settled)
    ensures r.payout == TieShare(reward.balance, rate)
    ensures r.transfers == multiset{Transfer(reward.token, first, r.payout), Transfer(reward.token, second, r.payout)}
    ensures first != second ==>
              && RewardOf(StatsOf(r.stats, first), reward.token) == RewardOf(StatsOf(m, first), reward.token) + r.payout
              && RewardOf(StatsOf(r.stats, second), reward.token) == RewardOf(StatsOf(m, second), reward.token) + r.payout
    ensures forall a :: SameCounters(StatsOf(m, a), StatsOf(r.stats, a))
    ensures forall a | a != first && a != second :: StatsOf(r.stats, a) == StatsOf(m, a)
    ensures LedgerGrows(m, r.stats)
  {
    var share := TieShare(reward.balance, rate);
    var m1 := AddReward(m, first, reward.token, share, false);
    var m2 := AddReward(m1, second, reward.token, share, false);
    LedgerGrowsTrans(m, m1, m2);
    Settled(m2, share, multiset{Transfer(reward.token, first, share), Transfer(reward.token, second, share)})
  }

  /** Settles a finished game between `first` and `second`: pays the winner,
      or refunds both on a tie. */
  function Distribute(m: Ledger, first: AccountId, second: AccountId, reward: GameDeposit,
                      winner: Option<AccountId>, rate: FeeRate): (r: Settled)
    ensures r.payout <= reward.balance
    ensures winner.Some? ==> r.payout + ServiceFee(reward.balance, rate) == reward.balance
    ensures winner.Some? ==> r.transfers == multiset{Transfer(reward.token, winner.value, r.payout)}
    ensures winner.Some? ==>
              RewardOf(StatsOf(r.stats, winner.value), reward.token) == RewardOf(StatsOf(m, winner.value), reward.token) + r.payout
    ensures winner.None? && first != second ==>
              && RewardOf(StatsOf(r.stats, first), reward.token) == RewardOf(StatsOf(m, first), reward.token) + r.payout
              && RewardOf(StatsOf(r.stats, second), reward.token) == RewardOf(StatsOf(m, second), reward.token) + r.payout
    ensures winner.None? ==> r.payout == TieShare(reward.balance, rate)
    ensures winner.None? ==>
              r.transfers == multiset{Transfer(reward.token, first, r.payout), Transfer(reward.token, second, r.payout)}
    ensures LedgerGrows(m, r.stats)
    ensures winner.Some? ==>
              && StatsOf(r.stats, winner.value).victoriesNum == StatsOf(m, winner.value).victoriesNum + 1
              && StatsOf(r.stats, winner.value).penaltiesNum == StatsOf(m, winner.value).penaltiesNum
              && StatsOf(r.stats, winner.value).gamesPlayed == StatsOf(m, winner.value).gamesPlayed
              && OthersUnchanged(m, r.stats, winner.value)
    ensures winner.None? ==> forall a :: SameCounters(StatsOf(m, a), StatsOf(r.stats, a))
  {
    match winner
    case Some(w) => PayWinner(m, w, reward, rate)
    case None => RefundTie(m, first, second, reward, rate)
  }

  /** A tie treats its two players alike: players who stood level before the
      settlement stand level after it. */
  lemma TieIsSymmetric(m: Ledger, first: AccountId, second: AccountId, reward: GameDeposit, rate: FeeRate)
    requires first != second && StatsOf(m, first) == StatsOf(m, second)
    ensures var r := Distribute(m, first, second, reward, None, rate).stats;
            StatsOf(r, first) == StatsOf(r, second)
  {
    var share := TieShare(reward.balance, rate);
    assert Distribute(m, first, second, reward, None, rate).stats
        == AddReward(AddReward(m, first, reward.token, share, false), second, reward.token, share, false);
    SameCredit(m, first, second, reward.token, share);
  }

  /** Crediting the same amount to two accounts that stood level keeps them level. */
  lemma SameCredit(m: Ledger, first: AccountId, second: AccountId, token: TokenId, amount: nat)
    requires first != second && StatsOf(m, first) == StatsOf(m, second)
    ensures var r := AddReward(AddReward(m, first, token, amount, false), second, token, amount, false);
            StatsOf(r, first) == StatsOf(r, second)
  {
    var m1 := AddReward(m, first, token, amount, false);
    var m2 := AddReward(m1, second, token, amount, false);
    CreditOne(m, first, token, amount);
    CreditOne(m1, second, token, amount);
    assert StatsOf(m1, second) == StatsOf(m, second);
    assert StatsOf(m2, first) == StatsOf(m1, first);
  }

  /** A credit without a victory replaces the account's record by the credited one. */
  lemma CreditOne(m: Ledger, a: AccountId, token: TokenId, amount: nat)
    ensures var st := StatsOf(m, a);
            StatsOf(AddReward(m, a, token, amount, false), a)
              == st.(totalReward := st.totalReward[token := RewardOf(st, token) + amount])
  {
  }
}
