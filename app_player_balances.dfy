/**
 * app/components/player-balances.tsx: every player of the client store of
 * lib/store.ts, richest first, each balance coloured by how it stands
 * against the starting 300.
 */
module AppPlayerBalances {
  import opened Ranking
  import Store

  function Balance(p: Store.Player): int { p.balance }

  /** `[...players].sort((a, b) => b.balance - a.balance)`: a sorted copy; the store is left as it was. */
  function SortedPlayers(players: seq<Store.Player>): (r: seq<Store.Player>)
    ensures SortedDesc(r, Balance)
    ensures multiset(r) == multiset(players) && |r| == |players|
  {
    SortDesc(players, Balance)
  }

  /** The colour class of a balance: green from 300 up, red at 0 or below, none in between. */
  function BalanceTone(balance: int): (t: string)
    ensures t == "text-green-600" <==> balance >= 300
    ensures t == "text-red-600" <==> balance <= 0
    ensures t == "" <==> 0 < balance < 300
  {
    if balance >= 300 then "text-green-600" else if balance <= 0 then "text-red-600" else ""
  }

  /** How a tone ranks: green above none above red. */
  function ToneLevel(t: string): int {
    if t == "text-green-600" then 2 else if t == "" then 1 else 0
  }

  /**
   * Down the list the colours never go back up: every green row comes
   * before every uncoloured row, and every uncoloured row before every red one.
   */
  lemma TonesInOrder(players: seq<Store.Player>, i: int, j: int)
    requires 0 <= i < j < |SortedPlayers(players)|
    ensures ToneLevel(BalanceTone(SortedPlayers(players)[i].balance)) >= ToneLevel(BalanceTone(SortedPlayers(players)[j].balance))
  {
    var sorted := SortedPlayers(players);
    assert Balance(sorted[i]) >= Balance(sorted[j]);
  }

  /** The list shows each player of the store exactly as often as the store holds it. */
  lemma SortedIsPermutation(players: seq<Store.Player>, p: Store.Player)
    ensures multiset(SortedPlayers(players))[p] == multiset(players)[p]
    ensures p in SortedPlayers(players) <==> p in players
  {
    assert p in multiset(SortedPlayers(players)) <==> p in multiset(players);
  }
}
