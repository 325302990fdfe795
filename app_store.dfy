/**
 * The second copy of the player store, app/lib/lib/store.ts. Its actions
 * are textually the same as those of lib/store.ts and are the functions of
 * module Store; what this copy adds is the sixteen-player seed, and the
 * lemmas here state what the actions do on a store whose ids are unique,
 * as the seed's are.
 */
module AppStore {
  import opened Common
  import opened Store

  /** The initial players: ids 1 to 16, each with a balance of 300 and no games won. */
  function Seed(): (r: seq<Player>)
    ensures |r| == 16
    ensures forall i :: 0 <= i < |r| ==>
      r[i].id == i + 1 && r[i].balance == 300 && r[i].gamesWon == 0 && r[i].totalWinnings == 0
  {
    [ Player(1, "Freebs", 300, 0, 0),
      Player(2, "Mike Ambrogi", 300, 0, 0),
      Player(3, "Mike Stevens", 300, 0, 0),
      Player(4, "Matt M", 300, 0, 0),
      Player(5, "Chris Ambrogi", 300, 0, 0),
      Player(6, "Adam Barks", 300, 0, 0),
      Player(7, "Donnie", 300, 0, 0),
      Player(8, "Steve Irons", 300, 0, 0),
      Player(9, "Sam Golub", 300, 0, 0),
      Player(10, "Skibicki", 300, 0, 0),
      Player(11, "MDavis", 300, 0, 0),
      Player(12, "Avas", 300, 0, 0),
      Player(13, "Luke", 300, 0, 0),
      Player(14, "Chris Barks", 300, 0, 0),
      Player(15, "Geno", 300, 0, 0),
      Player(16, "Dorey", 300, 0, 0) ]
  }

  /** The seed's ids are distinct and its players hold 4800 in all. */
  lemma SeedDistinctTotal()
    ensures DistinctKeys(Seed(), Id)
    ensures TotalBalance(Seed()) == 16 * 300
  {
    var s := Seed();
    assert TotalBalance(s[16..]) == 0;
    var k := 16;
    while k > 0
      invariant 0 <= k <= 16
      invariant TotalBalance(s[k..]) == (16 - k) * 300
    {
      k := k - 1;
      assert s[k..][1..] == s[k + 1..];
    }
  }

  /**
   * With unique ids, a balance update for an id that is present changes
   * exactly that player's balance and raises the total by exactly `amount`.
   */
  lemma UpdatePlayerBalanceUnique(players: seq<Player>, playerId: int, amount: int)
    requires DistinctKeys(players, Id) && HasKey(players, Id, playerId)
    ensures TotalBalance(UpdatePlayerBalance(players, playerId, amount)) == TotalBalance(players) + amount
    ensures exists j :: 0 <= j < |players| && players[j].id == playerId &&
              (var r := UpdatePlayerBalance(players, playerId, amount);
               r[j].balance == players[j].balance + amount &&
               forall i :: 0 <= i < |players| && i != j ==> r[i] == players[i])
  {
    UpdatePlayerBalanceTotal(players, playerId, amount);
    CountKeyDistinct(players, Id, playerId);
    var j :| 0 <= j < |players| && Id(players[j]) == playerId;
    forall i | 0 <= i < |players| && i != j ensures players[i].id != playerId {
      if i < j { assert Id(players[i]) != Id(players[j]); } else { assert Id(players[j]) != Id(players[i]); }
    }
  }

  /**
   * With unique ids, a stats update for an id that is present bumps that one
   * player's games won by 1 and winnings by `wonAmount`, and touches no one else.
   */
  lemma UpdatePlayerStatsUnique(players: seq<Player>, playerId: int, wonAmount: int)
    requires DistinctKeys(players, Id) && HasKey(players, Id, playerId)
    ensures exists j :: 0 <= j < |players| && players[j].id == playerId &&
              (var r := UpdatePlayerStats(players, playerId, wonAmount);
               r[j] == players[j].(gamesWon := players[j].gamesWon + 1,
                                   totalWinnings := players[j].totalWinnings + wonAmount) &&
               forall i :: 0 <= i < |players| && i != j ==> r[i] == players[i])
  {
    var j :| 0 <= j < |players| && Id(players[j]) == playerId;
    forall i | 0 <= i < |players| && i != j ensures players[i].id != playerId {
      if i < j { assert Id(players[i]) != Id(players[j]); } else { assert Id(players[j]) != Id(players[i]); }
    }
  }

  /** On the seed, id k finds the k-th player for k in 1..16 and nothing otherwise. */
  lemma SeedLookup(k: int)
    ensures 1 <= k <= 16 ==> GetPlayer(Seed(), k) == Some(Seed()[k - 1])
    ensures !(1 <= k <= 16) ==> GetPlayer(Seed(), k).None?
  {
    NumberedLookup(Seed(), k);
  }

  /** In a list whose ids are 1, 2, 3, ... in order, id k sits at position k - 1. */
  lemma NumberedLookup(s: seq<Player>, k: int)
    requires forall i :: 0 <= i < |s| ==> s[i].id == i + 1
    ensures 1 <= k <= |s| ==> GetPlayer(s, k) == Some(s[k - 1])
    ensures !(1 <= k <= |s|) ==> GetPlayer(s, k).None?
  {
    var a := FirstIndex(s, Id, k);
    if 1 <= k <= |s| {
      assert Id(s[k - 1]) == k;
      assert Id(s[a.value]) == a.value + 1;
    } else {
      forall i | 0 <= i < |s| ensures Id(s[i]) != k {
        assert s[i].id == i + 1;
      }
    }
    assert GetPlayer(s, k) == if a.None? then None else Some(s[a.value]);
  }

  /** Looking up the first seeded name finds the first seeded player. */
  lemma SeedLookupByName()
    ensures GetPlayerByName(Seed(), "Freebs") == Some(Seed()[0])
  {
    assert Name(Seed()[0]) == "Freebs";
  }
}
