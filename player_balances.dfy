/**
 * components/playerbalances.tsx: the live list of balances, each drawn as
 * a progress bar scaled against the highest balance (at least 300).
 */
module PlayerBalances {
  import opened Common
  import Realtime

  datatype Player = Player(id: string, name: string, balance: int, createdAt: string)

  function Id(p: Player): string { p.id }

  /** `Math.max(...players.map(p => p.balance), 300)`. */
  function MaxBalance(players: seq<Player>): (m: int)
    ensures m >= 300
    ensures forall i :: 0 <= i < |players| ==> players[i].balance <= m
    ensures m == 300 || exists i :: 0 <= i < |players| && players[i].balance == m
  {
    if players == [] then 300
    else
      var rest := MaxBalance(players[1..]);
      assert forall i :: 1 <= i < |players| ==> players[i] == players[1..][i - 1];
      if players[0].balance > rest then players[0].balance
      else
        assert rest != 300 ==> exists i :: 0 <= i < |players| && players[i].balance == rest by {
          if rest != 300 {
            var i :| 0 <= i < |players[1..]| && players[1..][i].balance == rest;
            assert players[i + 1].balance == rest;
          }
        }
        rest
  }

  /** The value given to a player's progress bar. */
  function Progress(balance: int, maxBalance: int): (r: real)
    requires maxBalance > 0
    ensures balance <= maxBalance ==> r <= 100.0
    ensures balance >= 0 ==> r >= 0.0
    ensures balance == maxBalance ==> r == 100.0
  {
    RatioAtMostOne(balance as real, maxBalance as real);
    balance as real / maxBalance as real * 100.0
  }

  /** No progress bar overflows: every player's bar is at most 100. */
  lemma ProgressAtMost100(players: seq<Player>, i: int)
    requires 0 <= i < |players|
    ensures Progress(players[i].balance, MaxBalance(players)) <= 100.0
  {
  }

  lemma RatioAtMostOne(b: real, m: real)
    requires 0.0 < m
    ensures b <= m ==> b / m * 100.0 <= 100.0
    ensures b == m ==> b / m * 100.0 == 100.0
  {
    var q := b / m;
    assert q * m == b;
  }

  /** The scale after an INSERT is the larger of the old scale and the new balance. */
  lemma {:induction false} MaxBalanceAfterInsert(players: seq<Player>, p: Player)
    ensures MaxBalance(Realtime.Apply(players, Realtime.Insert(p), Id))
         == if p.balance > MaxBalance(players) then p.balance else MaxBalance(players)
  {
    if players == [] {
      assert Realtime.Apply(players, Realtime.Insert(p), Id) == [p];
    } else {
      var after := Realtime.Apply(players, Realtime.Insert(p), Id);
      assert after == players + [p];
      assert after[1..] == players[1..] + [p];
      MaxBalanceAfterInsert(players[1..], p);
      assert Realtime.Apply(players[1..], Realtime.Insert(p), Id) == players[1..] + [p];
    }
  }
}
