/**
 * components/leaderboard.tsx: the leaderboard fetched from the "players"
 * table. Each player's winnings are derived from a starting balance of
 * 300, the list is sorted in place by winnings, highest first, and each
 * row shows a rank badge and the signed, coloured winnings.
 */
module Leaderboard {
  import opened Common
  import opened Ranking

  /** A row of the "players" table. */
  datatype DbPlayer = DbPlayer(id: string, name: string, balance: int, gamesPlayed: int, gamesWon: int)

  /** A row with its derived starting balance and winnings. */
  datatype RankedPlayer = RankedPlayer(id: string, name: string, balance: int, gamesPlayed: int, gamesWon: int,
                                       initialBalance: int, winnings: int)

  /** The balance every player is assumed to start with. */
  const InitialBalance: int := 300

  function Winnings(p: RankedPlayer): int { p.winnings }

  /** The `map` over the fetched rows: the row's own fields, the assumed start, and what was won since. */
  function WithWinnings(p: DbPlayer): (r: RankedPlayer)
    ensures r.initialBalance == InitialBalance
    ensures r.winnings == r.balance - r.initialBalance
    ensures DbPlayer(r.id, r.name, r.balance, r.gamesPlayed, r.gamesWon) == p
  {
    RankedPlayer(p.id, p.name, p.balance, p.gamesPlayed, p.gamesWon, InitialBalance, p.balance - InitialBalance)
  }

  function Derive(rows: seq<DbPlayer>): (r: seq<RankedPlayer>)
    ensures |r| == |rows|
    ensures forall i :: 0 <= i < |r| ==> r[i] == WithWinnings(rows[i])
  {
    seq(|rows|, i requires 0 <= i < |rows| => WithWinnings(rows[i]))
  }

  /** The first `n` entries of `s` are in non-increasing order of winnings. */
  ghost predicate SortedUpTo(s: seq<RankedPlayer>, n: int) {
    forall k, l :: 0 <= k < l < n && l < |s| ==> s[k].winnings >= s[l].winnings
  }

  /** `playersWithWinnings.sort((a, b) => b.winnings - a.winnings)`, in place (an insertion sort). */
  method SortByWinnings(a: array<RankedPlayer>)
    modifies a
    ensures SortedDesc(a[..], Winnings)
    ensures multiset(a[..]) == multiset(old(a[..]))
  {
    var i := 1;
    while i < a.Length
      invariant a.Length == 0 || 1 <= i <= a.Length
      invariant SortedUpTo(a[..], i)
      invariant multiset(a[..]) == multiset(old(a[..]))
    {
      InsertLast(a, i);
      i := i + 1;
    }
    assert SortedUpTo(a[..], a.Length);
  }

  /**
   * Entries `0..i` of `s` are in order once entry `j` is left out, and
   * entry `j` has at least the winnings of every entry after it up to `i`.
   */
  ghost predicate SortedAround(s: seq<RankedPlayer>, j: int, i: int)
    requires 0 <= j <= i < |s|
  {
    && (forall k, l :: 0 <= k < l <= i && k != j && l != j ==> s[k].winnings >= s[l].winnings)
    && (forall l :: j < l <= i ==> s[j].winnings >= s[l].winnings)
  }

  /** Moves `a[i]` down past every entry of the sorted prefix with smaller winnings. */
  method InsertLast(a: array<RankedPlayer>, i: int)
    requires 1 <= i < a.Length
    requires SortedUpTo(a[..], i)
    modifies a
    ensures SortedUpTo(a[..], i + 1)
    ensures multiset(a[..]) == multiset(old(a[..]))
  {
    var j := i;
    while j > 0 && a[j - 1].winnings < a[j].winnings
      invariant 0 <= j <= i
      invariant SortedAround(a[..], j, i)
      invariant multiset(a[..]) == multiset(old(a[..]))
    {
      ghost var before := a[..];
      a[j - 1], a[j] := a[j], a[j - 1];
      assert a[..] == before[j - 1 := before[j]][j := before[j - 1]];
      SwapDown(before, j, i);
      j := j - 1;
    }
    SortedAroundDone(a[..], j, i);
  }

  /** Swapping entry `j` with a predecessor that has less keeps the order around the moving entry. */
  lemma SwapDown(s: seq<RankedPlayer>, j: int, i: int)
    requires 0 < j <= i < |s| && SortedAround(s, j, i) && s[j - 1].winnings < s[j].winnings
    ensures SortedAround(s[j - 1 := s[j]][j := s[j - 1]], j - 1, i)
    ensures multiset(s[j - 1 := s[j]][j := s[j - 1]]) == multiset(s)
  {
  }

  lemma SortedAroundDone(s: seq<RankedPlayer>, j: int, i: int)
    requires 0 <= j <= i < |s| && SortedAround(s, j, i)
    requires j == 0 || s[j - 1].winnings >= s[j].winnings
    ensures SortedUpTo(s, i + 1)
  {
  }

  /**
   * `fetchPlayers`: a failed query (None) leaves the shown list as it
   * was; otherwise the shown list is the fetched rows with their winnings,
   * reordered so that winnings never increase down the list.
   */
  method FetchPlayers(shown: seq<RankedPlayer>, response: Option<seq<DbPlayer>>) returns (shown': seq<RankedPlayer>)
    ensures response.None? ==> shown' == shown
    ensures response.Some? ==>
              && SortedDesc(shown', Winnings)
              && multiset(shown') == multiset(Derive(response.value))
              && |shown'| == |response.value|
              && forall q :: q in shown' ==> q.initialBalance == InitialBalance && q.winnings == q.balance - InitialBalance
  {
    if response.None? {
      return shown;
    }
    var rows := Derive(response.value);
    var a := new RankedPlayer[|rows|](i requires 0 <= i < |rows| => rows[i]);
    assert a[..] == rows;
    SortByWinnings(a);
    shown' := a[..];
    assert |shown'| == |multiset(shown')| == |multiset(rows)| == |rows|;
    forall q | q in shown' ensures q.initialBalance == InitialBalance && q.winnings == q.balance - InitialBalance {
      assert q in multiset(rows);
      var i :| 0 <= i < |rows| && rows[i] == q;
    }
  }

  /** The class of a rank badge by row index: gold, silver and bronze, then a muted default. */
  function RankBadge(index: nat): string {
    if index == 0 then "bg-yellow-500 text-yellow-950"
    else if index == 1 then "bg-gray-300 text-gray-700"
    else if index == 2 then "bg-amber-700 text-amber-50"
    else "bg-muted text-muted-foreground"
  }

  /** The first three rows get three different badges, and every later row the same default, unlike any of them. */
  lemma RankBadgesDistinct(index: nat)
    ensures RankBadge(0) != RankBadge(1) && RankBadge(1) != RankBadge(2) && RankBadge(0) != RankBadge(2)
    ensures index >= 3 ==> RankBadge(index) == RankBadge(3)
    ensures index < 3 ==> RankBadge(index) != RankBadge(3)
  {
    assert RankBadge(0)[3] != RankBadge(1)[3];
    assert RankBadge(1)[3] != RankBadge(2)[3];
    assert RankBadge(0)[3] != RankBadge(2)[3];
    assert RankBadge(index)[3] != RankBadge(3)[3] || index >= 3;
  }

  /** How the winnings figure is shown: a "+" for a gain, and green for a gain or red for a loss. */
  datatype WinningsView = WinningsView(sign: string, tone: string)

  function ShowWinnings(winnings: int): (v: WinningsView)
    ensures v.sign == "+" <==> winnings > 0
    ensures v.sign == "" <==> winnings <= 0
    ensures v.tone == "text-green-500" <==> winnings > 0
    ensures v.tone == "text-red-500" <==> winnings < 0
    ensures v.tone == "" <==> winnings == 0
  {
    if winnings > 0 then WinningsView("+", "text-green-500")
    else if winnings < 0 then WinningsView("", "text-red-500")
    else WinningsView("", "")
  }

  /** A displayed row: its rank, its badge and its player. */
  datatype Entry = Entry(rank: nat, badge: string, player: RankedPlayer)

  function Rows(shown: seq<RankedPlayer>): (r: seq<Entry>)
    ensures |r| == |shown|
    ensures forall i :: 0 <= i < |r| ==> r[i] == Entry(i + 1, RankBadge(i), shown[i])
  {
    seq(|shown|, i requires 0 <= i < |shown| => Entry(i + 1, RankBadge(i), shown[i]))
  }

  /**
   * On a fetched leaderboard, ranks run 1, 2, 3, ... down the list and a
   * better rank never has smaller winnings; rank 1 has the most.
   */
  lemma RowsRanked(shown: seq<RankedPlayer>, i: int, j: int)
    requires SortedDesc(shown, Winnings)
    requires 0 <= i < j < |shown|
    ensures Rows(shown)[i].rank < Rows(shown)[j].rank
    ensures Rows(shown)[i].player.winnings >= Rows(shown)[j].player.winnings
    ensures Rows(shown)[0].rank == 1 && Rows(shown)[0].player.winnings >= Rows(shown)[j].player.winnings
  {
    assert Winnings(shown[i]) >= Winnings(shown[j]);
    assert Winnings(shown[0]) >= Winnings(shown[j]);
  }
}
