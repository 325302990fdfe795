/**
 * app/components/leaderboard.tsx: the leaderboard drawn from the client
 * store of lib/store.ts. It sorts a copy of the store's players by total
 * winnings, highest first, and shows the first five with their rank and a
 * rank badge; the store itself is never reordered.
 */
module AppLeaderboard {
  import opened Ranking
  import Store

  function TotalWinnings(p: Store.Player): int { p.totalWinnings }

  /** How many players the board shows (`slice(0, 5)`). */
  const Shown: nat := 5

  /** `[...players].sort((a, b) => b.totalWinnings - a.totalWinnings)`. */
  function SortedPlayers(players: seq<Store.Player>): (r: seq<Store.Player>)
    ensures SortedDesc(r, TotalWinnings)
    ensures multiset(r) == multiset(players) && |r| == |players|
  {
    SortDesc(players, TotalWinnings)
  }

  /** `sortedPlayers.slice(0, 5)`: the players on the board, in board order. */
  function Board(players: seq<Store.Player>): (r: seq<Store.Player>)
    ensures |r| == if |players| < Shown then |players| else Shown
    ensures r == SortedPlayers(players)[..|r|]
    ensures SortedDesc(r, TotalWinnings)
    ensures multiset(r) <= multiset(players)
    ensures forall i, j :: 0 <= i < |r| <= j < |players| ==>
              TotalWinnings(r[i]) >= TotalWinnings(SortedPlayers(players)[j])
  {
    var sorted := SortedPlayers(players);
    var r := Take(sorted, Shown);
    TakeSorted(sorted, TotalWinnings, Shown);
    assert sorted == r + sorted[|r|..];
    assert multiset(sorted) == multiset(r) + multiset(sorted[|r|..]);
    r
  }

  /** When anyone is in the store, the top of the board has the largest total winnings of all. */
  lemma LeaderHasMost(players: seq<Store.Player>, p: Store.Player)
    requires p in players
    ensures |Board(players)| > 0
    ensures Board(players)[0].totalWinnings >= p.totalWinnings
  {
    var sorted := SortedPlayers(players);
    assert p in multiset(players);
    assert p in multiset(sorted);
    var j :| 0 <= j < |sorted| && sorted[j] == p;
    assert Board(players)[0] == sorted[0];
    if j > 0 {
      assert TotalWinnings(sorted[0]) >= TotalWinnings(sorted[j]);
    }
  }

  /** The class of a rank badge by row index: gold, silver and bronze, then a grey default. */
  function RankBadge(index: nat): string {
    if index == 0 then "bg-yellow-400 text-yellow-900"
    else if index == 1 then "bg-gray-200 text-gray-700"
    else if index == 2 then "bg-amber-700 text-amber-100"
    else "bg-gray-100 text-gray-500"
  }

  /** The first three rows get three different badges, and every later row the same default, unlike any of them. */
  lemma RankBadgesDistinct(index: nat)
    ensures RankBadge(0) != RankBadge(1) && RankBadge(1) != RankBadge(2) && RankBadge(0) != RankBadge(2)
    ensures index >= 3 ==> RankBadge(index) == RankBadge(3)
    ensures index < 3 ==> RankBadge(index) != RankBadge(3)
  {
    assert RankBadge(0)[8] != RankBadge(1)[8];
    assert RankBadge(1)[8] != RankBadge(2)[8];
    assert RankBadge(0)[8] != RankBadge(2)[8];
    assert RankBadge(index)[8] != RankBadge(3)[8] || index >= 3;
  }

  /** A displayed row: its rank, its badge and its player. */
  datatype Entry = Entry(rank: nat, badge: string, player: Store.Player)

  function Rows(players: seq<Store.Player>): (r: seq<Entry>)
    ensures |r| == |Board(players)|
    ensures forall i :: 0 <= i < |r| ==> r[i] == Entry(i + 1, RankBadge(i), Board(players)[i])
  {
    var shown := Board(players);
    seq(|shown|, i requires 0 <= i < |shown| => Entry(i + 1, RankBadge(i), shown[i]))
  }

  /** Ranks on the board run 1 to at most 5, and a better rank never has smaller total winnings. */
  lemma RowsRanked(players: seq<Store.Player>, i: int, j: int)
    requires 0 <= i < j < |Rows(players)|
    ensures 1 <= Rows(players)[i].rank < Rows(players)[j].rank <= Shown
    ensures Rows(players)[i].player.totalWinnings >= Rows(players)[j].player.totalWinnings
  {
    var shown := Board(players);
    assert TotalWinnings(shown[i]) >= TotalWinnings(shown[j]);
  }
}
