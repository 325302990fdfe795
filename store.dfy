/**
 * The client-side player store of lib/store.ts: a list of players that
 * every action replaces wholesale with a freshly mapped copy, plus two
 * lookups.
 */
module Store {
  import opened Common

  datatype Player = Player(id: int, name: string, balance: int, gamesWon: int, totalWinnings: int)

  function Id(p: Player): int { p.id }
  function Name(p: Player): string { p.name }

  /** Sum of all balances in the store. */
  function TotalBalance(players: seq<Player>): int {
    if players == [] then 0 else players[0].balance + TotalBalance(players[1..])
  }

  /** Sum of all recorded winnings in the store. */
  function TotalWinnings(players: seq<Player>): int {
    if players == [] then 0 else players[0].totalWinnings + TotalWinnings(players[1..])
  }

  /**
   * `updatePlayerBalance`: every player whose id is `playerId` gets `amount`
   * added to the balance; nothing else about any player changes.
   */
  function UpdatePlayerBalance(players: seq<Player>, playerId: int, amount: int): (r: seq<Player>)
    ensures |r| == |players|
    ensures forall i :: 0 <= i < |r| ==> r[i].(balance := players[i].balance) == players[i]
    ensures forall i :: 0 <= i < |r| && players[i].id == playerId ==> r[i].balance == players[i].balance + amount
    ensures forall i :: 0 <= i < |r| && players[i].id != playerId ==> r[i] == players[i]
  {
    seq(|players|, i requires 0 <= i < |players| =>
      if players[i].id == playerId then players[i].(balance := players[i].balance + amount) else players[i])
  }

  /**
   * `updatePlayerStats`: every player whose id is `playerId` has one more
   * game won and `wonAmount` more in total winnings; balances and all
   * other players stay as they were.
   */
  function UpdatePlayerStats(players: seq<Player>, playerId: int, wonAmount: int): (r: seq<Player>)
    ensures |r| == |players|
    ensures forall i :: 0 <= i < |r| ==>
      r[i].id == players[i].id && r[i].name == players[i].name && r[i].balance == players[i].balance
    ensures forall i :: 0 <= i < |r| && players[i].id == playerId ==>
      r[i].gamesWon == players[i].gamesWon + 1 && r[i].totalWinnings == players[i].totalWinnings + wonAmount
    ensures forall i :: 0 <= i < |r| && players[i].id != playerId ==> r[i] == players[i]
  {
    seq(|players|, i requires 0 <= i < |players| =>
      if players[i].id == playerId
      then players[i].(gamesWon := players[i].gamesWon + 1, totalWinnings := players[i].totalWinnings + wonAmount)
      else players[i])
  }

  /** `getPlayer`: the first player with id `playerId`, or None. */
  function GetPlayer(players: seq<Player>, playerId: int): (r: Option<Player>)
    ensures r.None? <==> forall i :: 0 <= i < |players| ==> players[i].id != playerId
    ensures r.Some? ==> exists i :: 0 <= i < |players| && players[i] == r.value && r.value.id == playerId &&
                                    forall j :: 0 <= j < i ==> players[j].id != playerId
  {
    FindFirst(players, Id, playerId)
  }

  /** `getPlayerByName`: the first player called `name`, or None. */
  function GetPlayerByName(players: seq<Player>, name: string): (r: Option<Player>)
    ensures r.None? <==> forall i :: 0 <= i < |players| ==> players[i].name != name
    ensures r.Some? ==> exists i :: 0 <= i < |players| && players[i] == r.value && r.value.name == name &&
                                    forall j :: 0 <= j < i ==> players[j].name != name
  {
    FindFirst(players, Name, name)
  }

  /** Crediting an amount and then debiting it again restores the store exactly. */
  lemma UpdatePlayerBalanceInverse(players: seq<Player>, playerId: int, amount: int)
    ensures UpdatePlayerBalance(UpdatePlayerBalance(players, playerId, amount), playerId, -amount) == players
  {
    var once := UpdatePlayerBalance(players, playerId, amount);
    var back := UpdatePlayerBalance(once, playerId, -amount);
    assert forall i :: 0 <= i < |players| ==> back[i] == players[i];
  }

  /** A balance update moves the store's total by `amount` once per player carrying the id. */
  lemma {:induction false} UpdatePlayerBalanceTotal(players: seq<Player>, playerId: int, amount: int)
    ensures TotalBalance(UpdatePlayerBalance(players, playerId, amount))
         == TotalBalance(players) + amount * CountKey(players, Id, playerId)
  {
    if players != [] {
      var r := UpdatePlayerBalance(players, playerId, amount);
      var tail := UpdatePlayerBalance(players[1..], playerId, amount);
      assert r[1..] == tail by {
        forall i | 0 <= i < |tail| ensures r[1..][i] == tail[i] {
          assert players[1..][i] == players[i + 1];
        }
      }
      UpdatePlayerBalanceTotal(players[1..], playerId, amount);
      var c := CountKey(players[1..], Id, playerId);
      var rest := TotalBalance(players[1..]);
      assert TotalBalance(tail) == rest + amount * c;
      assert TotalBalance(players) == players[0].balance + rest;
      assert TotalBalance(r) == r[0].balance + TotalBalance(tail);
      if players[0].id == playerId {
        assert CountKey(players, Id, playerId) == c + 1;
        MulSucc(amount, c);
        assert TotalBalance(r) == TotalBalance(players) + (amount * c + amount);
      } else {
        assert CountKey(players, Id, playerId) == c;
      }
    }
  }

  lemma MulSucc(a: int, c: int)
    ensures a * (c + 1) == a * c + a
  {
  }

  /** A stats update adds `wonAmount` to the recorded winnings once per player carrying the id. */
  lemma {:induction false} UpdatePlayerStatsTotal(players: seq<Player>, playerId: int, wonAmount: int)
    ensures TotalWinnings(UpdatePlayerStats(players, playerId, wonAmount))
         == TotalWinnings(players) + wonAmount * CountKey(players, Id, playerId)
    ensures TotalBalance(UpdatePlayerStats(players, playerId, wonAmount)) == TotalBalance(players)
  {
    if players != [] {
      var r := UpdatePlayerStats(players, playerId, wonAmount);
      assert r[1..] == UpdatePlayerStats(players[1..], playerId, wonAmount);
      UpdatePlayerStatsTotal(players[1..], playerId, wonAmount);
      var c := CountKey(players[1..], Id, playerId);
      var rest := TotalWinnings(players[1..]);
      assert TotalWinnings(r[1..]) == rest + wonAmount * c;
      assert TotalWinnings(players) == players[0].totalWinnings + rest;
      assert TotalWinnings(r) == r[0].totalWinnings + TotalWinnings(r[1..]);
      assert TotalBalance(r) == r[0].balance + TotalBalance(r[1..]);
      if players[0].id == playerId {
        assert CountKey(players, Id, playerId) == c + 1;
        MulSucc(wonAmount, c);
        assert TotalWinnings(r) == TotalWinnings(players) + (wonAmount * c + wonAmount);
      } else {
        assert CountKey(players, Id, playerId) == c;
      }
    }
  }

  /** After a balance update, looking the player up shows the credited balance and nothing else new. */
  lemma GetPlayerAfterUpdate(players: seq<Player>, playerId: int, amount: int)
    ensures var before := GetPlayer(players, playerId);
            var after := GetPlayer(UpdatePlayerBalance(players, playerId, amount), playerId);
            after.Some? == before.Some? &&
            (before.Some? ==> after.value == before.value.(balance := before.value.balance + amount))
  {
    var r := UpdatePlayerBalance(players, playerId, amount);
    var a := FirstIndex(players, Id, playerId);
    var b := FirstIndex(r, Id, playerId);
    if a.Some? {
      assert Id(r[a.value]) == playerId;
      assert Id(players[b.value]) == playerId;
      assert b.value == a.value;
    } else {
      forall i | 0 <= i < |r| ensures Id(r[i]) != playerId {
        assert Id(players[i]) != playerId;
      }
    }
    assert GetPlayer(players, playerId) == if a.None? then None else Some(players[a.value]);
    assert GetPlayer(r, playerId) == if b.None? then None else Some(r[b.value]);
  }
}
