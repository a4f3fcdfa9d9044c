/** The win/loss counters kept across games. */
module Statistics {
  /** `Stats`: games played, won and lost; `Default` starts all three at zero. */
  class Stats {
    var gamesPlayed: nat
    var gamesWon: nat
    var gamesLost: nat

    /** Every game played is either won or lost. */
    ghost predicate Valid()
      reads this
    {
      gamesPlayed == gamesWon + gamesLost
    }

    /** `Stats::default()`. */
    constructor ()
      ensures gamesPlayed == 0 && gamesWon == 0 && gamesLost == 0
      ensures Valid()
    {
      gamesPlayed := 0;
      gamesWon := 0;
      gamesLost := 0;
    }

    /** `record_win`: one more game played and one more won. */
    method RecordWin()
      modifies this
      ensures gamesPlayed == old(gamesPlayed) + 1 && gamesWon == old(gamesWon) + 1 && gamesLost == old(gamesLost)
      ensures old(Valid()) ==> Valid()
    {
      gamesPlayed := gamesPlayed + 1;
      gamesWon := gamesWon + 1;
    }

    /** `record_loss`: one more game played and one more lost. */
    method RecordLoss()
      modifies this
      ensures gamesPlayed == old(gamesPlayed) + 1 && gamesLost == old(gamesLost) + 1 && gamesWon == old(gamesWon)
      ensures old(Valid()) ==> Valid()
    {
      gamesPlayed := gamesPlayed + 1;
      gamesLost := gamesLost + 1;
    }
  }
}
