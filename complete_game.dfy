/**
 * components/complete-game.tsx: closing an in-progress game. The
 * participants of a team game are first grouped into teams; completing
 * the game then credits the winner (or every member of the winning team),
 * debits every loser their own wager, bumps the games-played and
 * games-won counters, marks the game "completed" and records a history
 * entry. The "players" table is modelled as a sequence of rows that the
 * settlement loops rewrite one `update(...).eq("id", ...)` at a time.
 */
module CompleteGame {
  import opened Common

  /** A row of "game_players" joined with the player's name. */
  datatype GamePlayer = GamePlayer(id: string, gameId: string, playerId: string, playerName: string,
                                   wager: int, teamId: Option<string>)

  datatype TeamInfo = TeamInfo(id: string, name: string, players: seq<GamePlayer>, totalWager: int)

  function PlayerId(p: GamePlayer): string { p.playerId }

  function TeamId(t: TeamInfo): string { t.id }

  /** The participant belongs to team `t`: its team id is set, non-empty and equal to `t`. */
  predicate OnTeam(p: GamePlayer, t: string) { Chosen(p.teamId) && p.teamId.value == t }

  // ---------------------------------------------------------------------
  // Team grouping (fetchGamePlayers)
  // ---------------------------------------------------------------------

  /** The team ids of `ps`, each once, in the order they first appear. */
  function TeamIds(ps: seq<GamePlayer>): seq<string> {
    if ps == [] then []
    else
      var rest := TeamIds(ps[..|ps| - 1]);
      var p := ps[|ps| - 1];
      if Chosen(p.teamId) && p.teamId.value !in rest then rest + [p.teamId.value] else rest
  }

  /** The participants on team `t`, in input order. */
  function Members(ps: seq<GamePlayer>, t: string): seq<GamePlayer> {
    if ps == [] then []
    else Members(ps[..|ps| - 1], t) + (if OnTeam(ps[|ps| - 1], t) then [ps[|ps| - 1]] else [])
  }

  /** The wager of the last participant on team `t`, or 0 when there is none. */
  function LastWager(ps: seq<GamePlayer>, t: string): int {
    if ps == [] then 0
    else if OnTeam(ps[|ps| - 1], t) then ps[|ps| - 1].wager
    else LastWager(ps[..|ps| - 1], t)
  }

  /** The entry the grouping builds for team `t`. */
  function Team(ps: seq<GamePlayer>, t: string): TeamInfo {
    TeamInfo(t, "Team " + t, Members(ps, t), LastWager(ps, t))
  }

  /** Every team id occurs once in the grouping's order. */
  lemma {:induction false} TeamIdsDistinct(ps: seq<GamePlayer>)
    ensures forall a, b :: 0 <= a < b < |TeamIds(ps)| ==> TeamIds(ps)[a] != TeamIds(ps)[b]
  {
    if ps != [] {
      TeamIdsDistinct(ps[..|ps| - 1]);
    }
  }

  /** A team id that has not been seen yet has no members and no wager. */
  lemma {:induction false} Unseen(ps: seq<GamePlayer>, t: string)
    requires t !in TeamIds(ps)
    ensures Team(ps, t) == TeamInfo(t, "Team " + t, [], 0)
  {
    if ps != [] {
      Unseen(ps[..|ps| - 1], t);
    }
  }

  /** How the grouping of `ps + [p]` differs from that of `ps`. */
  lemma {:induction false} GroupStep(ps: seq<GamePlayer>, p: GamePlayer)
    ensures !Chosen(p.teamId) ==>
              TeamIds(ps + [p]) == TeamIds(ps) && forall u :: Team(ps + [p], u) == Team(ps, u)
    ensures Chosen(p.teamId) ==>
              var t := p.teamId.value;
              && TeamIds(ps + [p]) == TeamIds(ps) + (if t in TeamIds(ps) then [] else [t])
              && Team(ps + [p], t) == Team(ps, t).(players := Team(ps, t).players + [p], totalWager := p.wager)
              && (forall u :: u != t ==> Team(ps + [p], u) == Team(ps, u))
  {
    assert (ps + [p])[..|ps + [p]| - 1] == ps;
  }

  /** A team is listed exactly when some participant carries its id. */
  lemma {:induction false} TeamIdsListed(ps: seq<GamePlayer>, t: string)
    ensures t in TeamIds(ps) <==> exists i :: 0 <= i < |ps| && OnTeam(ps[i], t)
  {
    if ps != [] {
      var pre := ps[..|ps| - 1];
      TeamIdsListed(pre, t);
      if exists i :: 0 <= i < |pre| && OnTeam(pre[i], t) {
        var i :| 0 <= i < |pre| && OnTeam(pre[i], t);
        assert ps[i] == pre[i];
      }
      if exists i :: 0 <= i < |ps| && OnTeam(ps[i], t) {
        var i :| 0 <= i < |ps| && OnTeam(ps[i], t);
        if i < |pre| { assert pre[i] == ps[i]; }
      }
    }
  }

  /**
   * A team's list holds exactly the participants carrying its id: players
   * without a team id are in no list, and each other player is in the
   * list of its own team and no other.
   */
  lemma {:induction false} MembersExactly(ps: seq<GamePlayer>, t: string, p: GamePlayer)
    ensures p in Members(ps, t) <==> p in ps && OnTeam(p, t)
  {
    if ps != [] {
      var pre := ps[..|ps| - 1];
      MembersExactly(pre, t, p);
      assert ps == pre + [ps[|ps| - 1]];
    }
  }

  /** The positions in `ps` of the participants on team `t`. */
  function MemberPositions(ps: seq<GamePlayer>, t: string): seq<int> {
    if ps == [] then []
    else MemberPositions(ps[..|ps| - 1], t) + (if OnTeam(ps[|ps| - 1], t) then [|ps| - 1] else [])
  }

  /**
   * Members keep their input order: the k-th member of a team sits at
   * the k-th of a strictly increasing list of positions of the input.
   */
  lemma {:induction false} MembersInOrder(ps: seq<GamePlayer>, t: string)
    ensures var pos := MemberPositions(ps, t);
            && |pos| == |Members(ps, t)|
            && (forall k :: 0 <= k < |pos| ==> 0 <= pos[k] < |ps| && ps[pos[k]] == Members(ps, t)[k])
            && (forall k, l :: 0 <= k < l < |pos| ==> pos[k] < pos[l])
  {
    if ps != [] {
      var pre := ps[..|ps| - 1];
      MembersInOrder(pre, t);
      var pos0, pos := MemberPositions(pre, t), MemberPositions(ps, t);
      var m0, m := Members(pre, t), Members(ps, t);
      forall k | 0 <= k < |pos0| ensures pos[k] == pos0[k] && m[k] == m0[k] && ps[pos0[k]] == pre[pos0[k]] {
      }
    }
  }

  /** A team's total wager is the wager of its last participant in input order. */
  lemma {:induction false} LastWagerIsLast(ps: seq<GamePlayer>, t: string)
    requires t in TeamIds(ps)
    ensures exists i :: && 0 <= i < |ps| && OnTeam(ps[i], t) && LastWager(ps, t) == ps[i].wager
                        && forall j :: i < j < |ps| ==> !OnTeam(ps[j], t)
  {
    var pre := ps[..|ps| - 1];
    if !OnTeam(ps[|ps| - 1], t) {
      LastWagerIsLast(pre, t);
      var i :| && 0 <= i < |pre| && OnTeam(pre[i], t) && LastWager(pre, t) == pre[i].wager
               && forall j :: i < j < |pre| ==> !OnTeam(pre[j], t);
      assert ps[i] == pre[i];
      forall j | i < j < |ps| ensures !OnTeam(ps[j], t) {
        if j < |pre| { assert ps[j] == pre[j]; }
      }
    }
  }

  /**
   * Teams come out in order of first appearance: the participant who
   * introduces an earlier team precedes every participant of a later one.
   */
  lemma {:induction false} TeamIdsFirstAppearance(ps: seq<GamePlayer>, a: int, b: int)
    requires 0 <= a < b < |TeamIds(ps)|
    ensures exists i :: && 0 <= i < |ps| && OnTeam(ps[i], TeamIds(ps)[a])
                        && forall j :: 0 <= j <= i ==> !OnTeam(ps[j], TeamIds(ps)[b])
  {
    var pre := ps[..|ps| - 1];
    var ids, ids0 := TeamIds(ps), TeamIds(pre);
    TeamIdsListed(pre, ids[a]);
    if b < |ids0| {
      TeamIdsFirstAppearance(pre, a, b);
      var i :| && 0 <= i < |pre| && OnTeam(pre[i], ids0[a])
               && forall j :: 0 <= j <= i ==> !OnTeam(pre[j], ids0[b]);
      assert ps[i] == pre[i];
      forall j | 0 <= j <= i ensures !OnTeam(ps[j], ids[b]) {
        assert ps[j] == pre[j];
      }
    } else {
      // team b is the one the last participant introduces
      var i :| 0 <= i < |pre| && OnTeam(pre[i], ids[a]);
      assert ps[i] == pre[i];
      TeamIdsListed(pre, ids[b]);
      forall j | 0 <= j <= i ensures !OnTeam(ps[j], ids[b]) {
        assert ps[j] == pre[j];
      }
    }
  }

  /**
   * fetchGamePlayers' grouping loop: players without a team id are
   * skipped; a team is opened on the first sight of its id, named
   * "Team " + id with a total wager of 0; each player is appended to its
   * team and the team's total wager is overwritten with that player's
   * wager. Teams come out in the order of the Map's insertion.
   */
  method GroupTeams(ps: seq<GamePlayer>) returns (teams: seq<TeamInfo>)
    ensures |teams| == |TeamIds(ps)|
    ensures forall k :: 0 <= k < |teams| ==> teams[k] == Team(ps, TeamIds(ps)[k])
  {
    teams := [];
    var i := 0;
    while i < |ps|
      invariant 0 <= i <= |ps|
      invariant |teams| == |TeamIds(ps[..i])|
      invariant forall k :: 0 <= k < |teams| ==> teams[k] == Team(ps[..i], TeamIds(ps[..i])[k])
    {
      var p := ps[i];
      GroupStep(ps[..i], p);
      TeamIdsDistinct(ps[..i + 1]);
      assert ps[..i + 1] == ps[..i] + [p];
      ghost var ids := TeamIds(ps[..i + 1]);
      if Chosen(p.teamId) {
        var t := p.teamId.value;
        var j := FirstIndex(teams, TeamId, t);
        if j.None? {
          assert t !in TeamIds(ps[..i]) by {
            forall k | 0 <= k < |teams| ensures TeamIds(ps[..i])[k] != t {
              assert TeamId(teams[k]) != t;
            }
          }
          Unseen(ps[..i], t);
          teams := teams + [TeamInfo(t, "Team " + t, [], 0)];
          j := Some(|teams| - 1);
        } else {
          assert TeamIds(ps[..i])[j.value] == t;
        }
        teams := teams[j.value := teams[j.value].(players := teams[j.value].players + [p], totalWager := p.wager)];
        forall k | 0 <= k < |teams| ensures teams[k] == Team(ps[..i + 1], ids[k]) {
          if k != j.value {
            assert ids[k] != ids[j.value];
          }
        }
      }
      i := i + 1;
    }
    assert ps[..i] == ps;
  }

  // ---------------------------------------------------------------------
  // The "players" table and its per-id updates
  // ---------------------------------------------------------------------

  /**
   * A row of the "players" table as settlement touches it. The balance is
   * a real number because a team payout divides the pot among the winners.
   */
  datatype Row = Row(id: string, name: string, balance: real, gamesPlayed: int, gamesWon: int)

  function RowId(r: Row): string { r.id }

  /** Sum of all balances in the table. */
  function Total(rows: seq<Row>): real {
    if rows == [] then 0.0 else rows[0].balance + Total(rows[1..])
  }

  /**
   * One `update(...).eq("id", id)` of settlement on a single row: a row
   * with the id moves its balance by `delta`, its games won by `won` and
   * its games played by one; any other row is left alone.
   */
  function Bump(r: Row, id: string, delta: real, won: int): Row {
    if r.id == id
    then r.(balance := r.balance + delta, gamesPlayed := r.gamesPlayed + 1, gamesWon := r.gamesWon + won)
    else r
  }

  /** The same update on the whole table. */
  function Adjust(rows: seq<Row>, id: string, delta: real, won: int): seq<Row> {
    seq(|rows|, i requires 0 <= i < |rows| => Bump(rows[i], id, delta, won))
  }

  /** A winner's update: credit `amount`, one more game won and played. */
  function Credit(rows: seq<Row>, id: string, amount: real): seq<Row> { Adjust(rows, id, amount, 1) }

  /** A loser's update: debit the player's own wager, one more game played. */
  function Debit(rows: seq<Row>, p: GamePlayer): seq<Row> { Adjust(rows, p.playerId, -(p.wager as real), 0) }

  /** The winner updates of a team game, one per winning player in order. */
  function CreditAll(rows: seq<Row>, winners: seq<GamePlayer>, amount: real): seq<Row>
    decreases winners
  {
    if winners == [] then rows else CreditAll(Credit(rows, winners[0].playerId, amount), winners[1..], amount)
  }

  /** The loser updates, one per losing participant in order. */
  function DebitAll(rows: seq<Row>, losers: seq<GamePlayer>): seq<Row>
    decreases losers
  {
    if losers == [] then rows else DebitAll(Debit(rows, losers[0]), losers[1..])
  }

  /** The loser updates of a team game: team by team, player by player. */
  function DebitTeams(rows: seq<Row>, losing: seq<TeamInfo>): seq<Row>
    decreases losing
  {
    if losing == [] then rows else DebitTeams(DebitAll(rows, losing[0].players), losing[1..])
  }

  /** Sum of the wagers of `ps`. */
  function SumWagers(ps: seq<GamePlayer>): int {
    if ps == [] then 0 else ps[0].wager + SumWagers(ps[1..])
  }

  /** Sum of the wagers of the entries of `ps` for player `id`. */
  function Stake(ps: seq<GamePlayer>, id: string): int {
    if ps == [] then 0 else (if ps[0].playerId == id then ps[0].wager else 0) + Stake(ps[1..], id)
  }

  /** The players of all `teams`, team after team. */
  function Flatten(teams: seq<TeamInfo>): seq<GamePlayer> {
    if teams == [] then [] else teams[0].players + Flatten(teams[1..])
  }

  /** `k` payments of `a` each, added up one at a time. */
  function Times(k: nat, a: real): real {
    if k == 0 then 0.0 else a + Times(k - 1, a)
  }

  /** Adding up `k` payments of `a` is multiplying. */
  lemma {:induction false} TimesIsProduct(k: nat, a: real)
    ensures Times(k, a) == (k as real) * a
  {
    if k > 0 {
      TimesIsProduct(k - 1, a);
    }
  }

  lemma AdjustTail(rows: seq<Row>, id: string, delta: real, won: int)
    requires rows != []
    ensures Adjust(rows, id, delta, won)[1..] == Adjust(rows[1..], id, delta, won)
  {
    var r, tail := Adjust(rows, id, delta, won), Adjust(rows[1..], id, delta, won);
    forall i | 0 <= i < |tail| ensures r[1..][i] == tail[i] {
      assert rows[1..][i] == rows[i + 1];
    }
  }

  /** An update moves the total by `delta` once per row carrying the id. */
  lemma {:induction false} AdjustTotal(rows: seq<Row>, id: string, delta: real, won: int)
    ensures Total(Adjust(rows, id, delta, won)) == Total(rows) + Times(CountKey(rows, RowId, id), delta)
  {
    if rows != [] {
      var r := Adjust(rows, id, delta, won);
      var tail := Adjust(rows[1..], id, delta, won);
      AdjustTail(rows, id, delta, won);
      AdjustTotal(rows[1..], id, delta, won);
      var c, n := CountKey(rows[1..], RowId, id), CountKey(rows, RowId, id);
      assert Total(r) == r[0].balance + Total(tail);
      assert Total(rows) == rows[0].balance + Total(rows[1..]);
      var t0 := Total(rows[1..]);
      if rows[0].id == id {
        assert n == c + 1;
      } else {
        assert n == c && r[0] == rows[0];
      }
    } else {
      assert Adjust(rows, id, delta, won) == [];
    }
  }

  /** Row `i` after the loser updates: it pays its player's stakes and plays once per entry. */
  lemma {:induction false} DebitAllAt(rows: seq<Row>, losers: seq<GamePlayer>, i: int)
    decreases losers
    ensures |DebitAll(rows, losers)| == |rows|
    ensures 0 <= i < |rows| ==>
              DebitAll(rows, losers)[i]
              == rows[i].(balance := rows[i].balance - Stake(losers, rows[i].id) as real,
                          gamesPlayed := rows[i].gamesPlayed + CountKey(losers, PlayerId, rows[i].id))
  {
    if losers != [] {
      var next := Debit(rows, losers[0]);
      DebitAllAt(next, losers[1..], i);
    }
  }

  /** Row `i` after the winner updates: it gains, plays and wins once per entry of its player. */
  lemma {:induction false} CreditAllAt(rows: seq<Row>, winners: seq<GamePlayer>, amount: real, i: int)
    decreases winners
    ensures |CreditAll(rows, winners, amount)| == |rows|
    ensures 0 <= i < |rows| ==>
              var n := CountKey(winners, PlayerId, rows[i].id);
              CreditAll(rows, winners, amount)[i]
              == rows[i].(balance := rows[i].balance + Times(n, amount),
                          gamesPlayed := rows[i].gamesPlayed + n, gamesWon := rows[i].gamesWon + n)
  {
    if winners != [] {
      var next := Credit(rows, winners[0].playerId, amount);
      CreditAllAt(next, winners[1..], amount, i);
    }
  }

  /** Team by team is the same as all losing players at once. */
  lemma {:induction false} DebitTeamsFlat(rows: seq<Row>, losing: seq<TeamInfo>)
    decreases losing
    ensures DebitTeams(rows, losing) == DebitAll(rows, Flatten(losing))
  {
    if losing != [] {
      DebitTeamsFlat(DebitAll(rows, losing[0].players), losing[1..]);
      DebitAllAppend(rows, losing[0].players, Flatten(losing[1..]));
    }
  }

  lemma {:induction false} DebitAllAppend(rows: seq<Row>, a: seq<GamePlayer>, b: seq<GamePlayer>)
    decreases a
    ensures DebitAll(rows, a + b) == DebitAll(DebitAll(rows, a), b)
  {
    if a == [] {
      assert a + b == b;
    } else {
      assert (a + b)[1..] == a[1..] + b;
      DebitAllAppend(Debit(rows, a[0]), a[1..], b);
    }
  }

  /** Two tables with the same ids in the same places agree on presence and uniqueness of ids. */
  lemma SameIds(rows: seq<Row>, r: seq<Row>)
    requires |r| == |rows| && forall i :: 0 <= i < |rows| ==> r[i].id == rows[i].id
    ensures DistinctKeys(rows, RowId) ==> DistinctKeys(r, RowId)
    ensures forall k :: HasKey(rows, RowId, k) ==> HasKey(r, RowId, k)
  {
    forall k | HasKey(rows, RowId, k) ensures HasKey(r, RowId, k) {
      var i :| 0 <= i < |rows| && RowId(rows[i]) == k;
      assert RowId(r[i]) == k;
    }
  }

  /** Updates by id never change which ids the table holds, or where. */
  lemma AdjustKeepsIds(rows: seq<Row>, id: string, delta: real, won: int)
    ensures DistinctKeys(rows, RowId) ==> DistinctKeys(Adjust(rows, id, delta, won), RowId)
    ensures forall k :: HasKey(rows, RowId, k) ==> HasKey(Adjust(rows, id, delta, won), RowId, k)
  {
    SameIds(rows, Adjust(rows, id, delta, won));
  }

  /**
   * With one row per id and every loser's row present, the loser updates
   * lower the total by exactly the losers' wagers.
   */
  lemma {:induction false} DebitAllTotal(rows: seq<Row>, losers: seq<GamePlayer>)
    requires DistinctKeys(rows, RowId)
    requires forall k :: 0 <= k < |losers| ==> HasKey(rows, RowId, losers[k].playerId)
    ensures Total(DebitAll(rows, losers)) == Total(rows) - SumWagers(losers) as real
    decreases losers
  {
    if losers != [] {
      var next := Debit(rows, losers[0]);
      AdjustTotal(rows, losers[0].playerId, -(losers[0].wager as real), 0);
      CountKeyDistinct(rows, RowId, losers[0].playerId);
      AdjustKeepsIds(rows, losers[0].playerId, -(losers[0].wager as real), 0);
      assert forall k :: 0 <= k < |losers[1..]| ==> losers[1..][k] == losers[k + 1];
      DebitAllTotal(next, losers[1..]);
    }
  }

  /**
   * With one row per id and every winner's row present, the winner updates
   * raise the total by `amount` per winner.
   */
  lemma {:induction false} CreditAllTotal(rows: seq<Row>, winners: seq<GamePlayer>, amount: real)
    requires DistinctKeys(rows, RowId)
    requires forall k :: 0 <= k < |winners| ==> HasKey(rows, RowId, winners[k].playerId)
    ensures Total(CreditAll(rows, winners, amount)) == Total(rows) + Times(|winners|, amount)
    decreases winners
  {
    if winners != [] {
      var next := Credit(rows, winners[0].playerId, amount);
      AdjustTotal(rows, winners[0].playerId, amount, 1);
      CountKeyDistinct(rows, RowId, winners[0].playerId);
      AdjustKeepsIds(rows, winners[0].playerId, amount, 1);
      assert forall k :: 0 <= k < |winners[1..]| ==> winners[1..][k] == winners[k + 1];
      CreditAllTotal(next, winners[1..], amount);
    }
  }

  // ---------------------------------------------------------------------
  // Settlement (completeGame)
  // ---------------------------------------------------------------------

  /** An individual game's pot: the wagers of every participant other than the winner. */
  function IndividualPot(gamePlayers: seq<GamePlayer>, winnerId: string): (pot: int)
    ensures pot + Stake(gamePlayers, winnerId) == SumWagers(gamePlayers)
  {
    WithoutStakeSplit(gamePlayers, winnerId);
    SumWagers(Without(gamePlayers, PlayerId, winnerId))
  }

  /** A team game's pot: each losing team's total wager times its size. */
  function TeamPot(losing: seq<TeamInfo>): int {
    if losing == [] then 0 else losing[0].totalWager * |losing[0].players| + TeamPot(losing[1..])
  }

  /**
   * Each winning player's share of the pot. An empty winning team has no
   * one to pay, so the share is never used then; it is 0 here.
   */
  function Share(pot: int, n: int): (r: real)
    ensures n > 0 ==> r * (n as real) == pot as real
    ensures n <= 0 ==> r == 0.0
  {
    if n > 0 then pot as real / n as real else 0.0
  }

  /** The winners' shares add up to the pot. */
  lemma ShareTimesSize(pot: int, n: int)
    requires n > 0
    ensures Times(n, Share(pot, n)) == pot as real
  {
    TimesIsProduct(n, Share(pot, n));
  }

  /** The table after an individual game: the winner credited the pot, then each loser debited. */
  function SettleIndividual(rows: seq<Row>, gamePlayers: seq<GamePlayer>, winnerId: string): seq<Row> {
    DebitAll(Credit(rows, winnerId, IndividualPot(gamePlayers, winnerId) as real),
             Without(gamePlayers, PlayerId, winnerId))
  }

  /** The table after a team game: each winner credited the share, then each losing team's players debited. */
  function SettleTeams(rows: seq<Row>, winning: TeamInfo, losing: seq<TeamInfo>): seq<Row> {
    DebitTeams(CreditAll(rows, winning.players, Share(TeamPot(losing), |winning.players|)), losing)
  }

  /**
   * Leaving one player's entries out of the wager sum leaves out exactly
   * that player's stake (a player listed twice loses both wagers).
   */
  lemma {:induction false} WithoutStakeSplit(gamePlayers: seq<GamePlayer>, winnerId: string)
    ensures SumWagers(Without(gamePlayers, PlayerId, winnerId)) + Stake(gamePlayers, winnerId) == SumWagers(gamePlayers)
  {
    if gamePlayers != [] {
      var rest := Without(gamePlayers[1..], PlayerId, winnerId);
      WithoutStakeSplit(gamePlayers[1..], winnerId);
      if gamePlayers[0].playerId != winnerId {
        var w := [gamePlayers[0]] + rest;
        assert w[0] == gamePlayers[0] && w[1..] == rest;
      } else {
        assert [] + rest == rest;
      }
    }
  }

  /** A player with no entry has no stake. */
  lemma {:induction false} StakeAbsent(ps: seq<GamePlayer>, id: string)
    requires !HasKey(ps, PlayerId, id)
    ensures Stake(ps, id) == 0
  {
    if ps != [] {
      assert PlayerId(ps[0]) != id;
      assert !HasKey(ps[1..], PlayerId, id) by {
        forall k | 0 <= k < |ps[1..]| ensures PlayerId(ps[1..][k]) != id {
          assert ps[1..][k] == ps[k + 1];
        }
      }
      StakeAbsent(ps[1..], id);
    }
  }

  /** With one entry per player, a player's stake is the wager of that entry. */
  lemma {:induction false} StakeDistinct(ps: seq<GamePlayer>, m: int)
    requires DistinctKeys(ps, PlayerId) && 0 <= m < |ps|
    ensures Stake(ps, ps[m].playerId) == ps[m].wager
  {
    var id := ps[m].playerId;
    assert !HasKey(ps[1..], PlayerId, id) ==> Stake(ps[1..], id) == 0 by {
      if !HasKey(ps[1..], PlayerId, id) { StakeAbsent(ps[1..], id); }
    }
    if m == 0 {
      assert !HasKey(ps[1..], PlayerId, id) by {
        forall k | 0 <= k < |ps[1..]| ensures PlayerId(ps[1..][k]) != id {
          assert ps[1..][k] == ps[k + 1];
          assert PlayerId(ps[0]) != PlayerId(ps[k + 1]);
        }
      }
    } else {
      assert DistinctKeys(ps[1..], PlayerId) by {
        forall a, b | 0 <= a < b < |ps[1..]| ensures PlayerId(ps[1..][a]) != PlayerId(ps[1..][b]) {
          assert ps[1..][a] == ps[a + 1] && ps[1..][b] == ps[b + 1];
        }
      }
      assert ps[1..][m - 1] == ps[m];
      assert PlayerId(ps[0]) != PlayerId(ps[m]);
      StakeDistinct(ps[1..], m - 1);
    }
  }

  lemma {:induction false} SumWagersAppend(a: seq<GamePlayer>, b: seq<GamePlayer>)
    ensures SumWagers(a + b) == SumWagers(a) + SumWagers(b)
  {
    if a == [] {
      assert a + b == b;
    } else {
      assert (a + b)[1..] == a[1..] + b;
      SumWagersAppend(a[1..], b);
    }
  }

  /** Players who all wagered `w` wager `w` times their number. */
  lemma {:induction false} UniformWagers(ps: seq<GamePlayer>, w: int)
    requires forall k :: 0 <= k < |ps| ==> ps[k].wager == w
    ensures SumWagers(ps) == w * |ps|
  {
    if ps != [] {
      assert forall k :: 0 <= k < |ps[1..]| ==> ps[1..][k] == ps[k + 1];
      UniformWagers(ps[1..], w);
    }
  }

  /**
   * When every player of a losing team wagered the team's total wager, the
   * losing players' wagers add up to the pot, and every losing player is
   * one of the teams' players.
   */
  lemma {:induction false} FlattenLosing(losing: seq<TeamInfo>)
    requires forall t, k :: 0 <= t < |losing| && 0 <= k < |losing[t].players| ==>
               losing[t].players[k].wager == losing[t].totalWager
    ensures SumWagers(Flatten(losing)) == TeamPot(losing)
  {
    if losing != [] {
      UniformWagers(losing[0].players, losing[0].totalWager);
      SumWagersAppend(losing[0].players, Flatten(losing[1..]));
      assert forall t :: 0 <= t < |losing[1..]| ==> losing[1..][t] == losing[t + 1];
      FlattenLosing(losing[1..]);
    }
  }

  /** Each player of the flattened list is a player of one of the teams. */
  lemma {:induction false} FlattenFrom(losing: seq<TeamInfo>, k: int)
    requires 0 <= k < |Flatten(losing)|
    ensures exists t, j :: 0 <= t < |losing| && 0 <= j < |losing[t].players| && Flatten(losing)[k] == losing[t].players[j]
  {
    if k < |losing[0].players| {
      assert Flatten(losing)[k] == losing[0].players[k];
    } else {
      FlattenFrom(losing[1..], k - |losing[0].players|);
      var t, j :| 0 <= t < |losing[1..]| && 0 <= j < |losing[1..][t].players|
                  && Flatten(losing[1..])[k - |losing[0].players|] == losing[1..][t].players[j];
      assert Flatten(losing)[k] == losing[t + 1].players[j];
    }
  }

  /**
   * An individual game conserves money: with one row per player and every
   * participant's row present, the winner gains exactly what the losers
   * lose, so the total balance is unchanged.
   */
  lemma {:induction false} IndividualSettlementConserves(rows: seq<Row>, gamePlayers: seq<GamePlayer>, winnerId: string)
    requires DistinctKeys(rows, RowId) && HasKey(rows, RowId, winnerId)
    requires forall k :: 0 <= k < |gamePlayers| ==> HasKey(rows, RowId, gamePlayers[k].playerId)
    ensures Total(SettleIndividual(rows, gamePlayers, winnerId)) == Total(rows)
  {
    var pot := IndividualPot(gamePlayers, winnerId);
    var credited := Credit(rows, winnerId, pot as real);
    AdjustTotal(rows, winnerId, pot as real, 1);
    CountKeyDistinct(rows, RowId, winnerId);
    AdjustKeepsIds(rows, winnerId, pot as real, 1);
    var losers := Without(gamePlayers, PlayerId, winnerId);
    forall k | 0 <= k < |losers| ensures HasKey(credited, RowId, losers[k].playerId) {
      var m :| 0 <= m < |gamePlayers| && gamePlayers[m] == losers[k];
    }
    DebitAllTotal(credited, losers);
  }

  /**
   * A team game conserves money when every losing player wagered the
   * team's total wager: the winners share out exactly the pot, and the
   * losers pay exactly the pot.
   */
  lemma {:induction false} TeamSettlementConserves(rows: seq<Row>, winning: TeamInfo, losing: seq<TeamInfo>)
    requires DistinctKeys(rows, RowId) && |winning.players| > 0
    requires forall k :: 0 <= k < |winning.players| ==> HasKey(rows, RowId, winning.players[k].playerId)
    requires forall t, k :: 0 <= t < |losing| && 0 <= k < |losing[t].players| ==>
               HasKey(rows, RowId, losing[t].players[k].playerId) && losing[t].players[k].wager == losing[t].totalWager
    ensures Total(SettleTeams(rows, winning, losing)) == Total(rows)
  {
    var n := |winning.players|;
    var pot := TeamPot(losing);
    var credited := CreditAll(rows, winning.players, Share(pot, n));
    CreditAllTotal(rows, winning.players, Share(pot, n));
    ShareTimesSize(pot, n);
    assert Total(credited) == Total(rows) + pot as real;
    CreditAllAt(rows, winning.players, Share(pot, n), 0);
    forall j | 0 <= j < |rows| ensures credited[j].id == rows[j].id {
      CreditAllAt(rows, winning.players, Share(pot, n), j);
    }
    SameIds(rows, credited);
    DebitTeamsFlat(credited, losing);
    FlattenLosing(losing);
    forall k | 0 <= k < |Flatten(losing)| ensures HasKey(credited, RowId, Flatten(losing)[k].playerId) {
      FlattenFrom(losing, k);
    }
    DebitAllTotal(credited, Flatten(losing));
    assert SettleTeams(rows, winning, losing) == DebitAll(credited, Flatten(losing));
  }

  /**
   * An individual game, row by row, when each player takes part at most
   * once: the winner is credited the pot and wins one more game; each
   * loser pays their own wager; every participant plays one more game;
   * rows of non-participants do not change.
   */
  lemma {:induction false} IndividualSettlementAt(rows: seq<Row>, gamePlayers: seq<GamePlayer>, winnerId: string, i: int)
    requires DistinctKeys(gamePlayers, PlayerId) && HasKey(gamePlayers, PlayerId, winnerId) && 0 <= i < |rows|
    ensures var after := SettleIndividual(rows, gamePlayers, winnerId);
            var r := rows[i];
            && |after| == |rows| && after[i].id == r.id && after[i].name == r.name
            && after[i].gamesWon == r.gamesWon + (if r.id == winnerId then 1 else 0)
            && after[i].gamesPlayed == r.gamesPlayed + (if HasKey(gamePlayers, PlayerId, r.id) then 1 else 0)
            && (r.id == winnerId ==> after[i].balance == r.balance + IndividualPot(gamePlayers, winnerId) as real)
            && (forall j :: 0 <= j < |gamePlayers| && gamePlayers[j].playerId == r.id != winnerId ==>
                  after[i].balance == r.balance - gamePlayers[j].wager as real)
            && (!HasKey(gamePlayers, PlayerId, r.id) ==> after[i] == r)
  {
    var pot := IndividualPot(gamePlayers, winnerId);
    var credited := Credit(rows, winnerId, pot as real);
    var losers := Without(gamePlayers, PlayerId, winnerId);
    DebitAllAt(credited, losers, i);
    var x := rows[i].id;
    if x == winnerId {
      StakeAbsent(losers, x);
    } else if HasKey(gamePlayers, PlayerId, x) {
      WithoutDistinct(gamePlayers, PlayerId, winnerId);
      forall j | 0 <= j < |gamePlayers| && gamePlayers[j].playerId == x
        ensures Stake(losers, x) == gamePlayers[j].wager && CountKey(losers, PlayerId, x) == 1
      {
        var m :| 0 <= m < |losers| && losers[m] == gamePlayers[j];
        assert PlayerId(losers[m]) == x;
        CountKeyDistinct(losers, PlayerId, x);
        StakeDistinct(losers, m);
      }
    } else {
      assert !HasKey(losers, PlayerId, x) by {
        forall m | 0 <= m < |losers| ensures PlayerId(losers[m]) != x {
          var j :| 0 <= j < |gamePlayers| && gamePlayers[j] == losers[m];
          assert PlayerId(gamePlayers[j]) != x;
        }
      }
      StakeAbsent(losers, x);
    }
  }

  /**
   * A team game, row by row: each row gains the share once per entry of
   * its player among the winners, pays its player's wagers among the
   * losers, and counts one more game per entry and one more win per
   * winning entry.
   */
  lemma {:induction false} TeamSettlementAt(rows: seq<Row>, winning: TeamInfo, losing: seq<TeamInfo>, i: int)
    requires 0 <= i < |rows|
    ensures var after := SettleTeams(rows, winning, losing);
            var won := CountKey(winning.players, PlayerId, rows[i].id);
            var lost := Flatten(losing);
            && |after| == |rows|
            && after[i] == rows[i].(balance := rows[i].balance + Times(won, Share(TeamPot(losing), |winning.players|))
                                                              - Stake(lost, rows[i].id) as real,
                                    gamesPlayed := rows[i].gamesPlayed + won + CountKey(lost, PlayerId, rows[i].id),
                                    gamesWon := rows[i].gamesWon + won)
  {
    var share := Share(TeamPot(losing), |winning.players|);
    var credited := CreditAll(rows, winning.players, share);
    var lost := Flatten(losing);
    CreditAllAt(rows, winning.players, share, i);
    DebitTeamsFlat(credited, losing);
    DebitAllAt(credited, lost, i);
    assert SettleTeams(rows, winning, losing) == DebitAll(credited, lost);
    assert credited[i].id == rows[i].id;
  }

  /**
   * A team game when each player takes part at most once: a winning
   * player gains the share, wins and plays one more game; a losing player
   * pays their own wager and plays one more game; anyone else's row is
   * unchanged.
   */
  lemma {:induction false} TeamSettlementForPlayer(rows: seq<Row>, winning: TeamInfo, losing: seq<TeamInfo>, i: int)
    requires DistinctKeys(winning.players + Flatten(losing), PlayerId) && 0 <= i < |rows|
    ensures var after := SettleTeams(rows, winning, losing);
            var r := rows[i];
            && |after| == |rows|
            && (HasKey(winning.players, PlayerId, r.id) ==>
                  after[i] == r.(balance := r.balance + Share(TeamPot(losing), |winning.players|),
                                 gamesPlayed := r.gamesPlayed + 1, gamesWon := r.gamesWon + 1))
            && (forall k :: 0 <= k < |Flatten(losing)| && Flatten(losing)[k].playerId == r.id ==>
                  after[i] == r.(balance := r.balance - Flatten(losing)[k].wager as real,
                                 gamesPlayed := r.gamesPlayed + 1))
            && (!HasKey(winning.players + Flatten(losing), PlayerId, r.id) ==> after[i] == r)
  {
    var w, f := winning.players, Flatten(losing);
    var x := rows[i].id;
    TeamSettlementAt(rows, winning, losing, i);
    assert DistinctKeys(w, PlayerId) by {
      forall a, b | 0 <= a < b < |w| ensures PlayerId(w[a]) != PlayerId(w[b]) {
        assert (w + f)[a] == w[a] && (w + f)[b] == w[b];
      }
    }
    assert DistinctKeys(f, PlayerId) by {
      forall a, b | 0 <= a < b < |f| ensures PlayerId(f[a]) != PlayerId(f[b]) {
        assert (w + f)[|w| + a] == f[a] && (w + f)[|w| + b] == f[b];
      }
    }
    CountKeyDistinct(w, PlayerId, x);
    CountKeyDistinct(f, PlayerId, x);
    if HasKey(w, PlayerId, x) {
      var a :| 0 <= a < |w| && PlayerId(w[a]) == x;
      assert !HasKey(f, PlayerId, x) by {
        forall b | 0 <= b < |f| ensures PlayerId(f[b]) != x {
          assert (w + f)[a] == w[a] && (w + f)[|w| + b] == f[b];
        }
      }
      StakeAbsent(f, x);
    } else if HasKey(f, PlayerId, x) {
      forall k | 0 <= k < |f| && f[k].playerId == x ensures Stake(f, x) == f[k].wager {
        StakeDistinct(f, k);
      }
    } else {
      StakeAbsent(f, x);
    }
    HasKeyAppend(w, f, PlayerId, x);
  }

  /**
   * The team payout relies on every player of a losing team having
   * wagered the same amount: the pot counts the last player's wager once
   * per player while each player pays their own. Two losers wagering 10
   * and 30 put 60 into the pot but pay only 40, so 20 appears from nowhere.
   * The teams are those the grouping builds from the three participants.
   */
  lemma UnequalTeamWagersCreateMoney()
    ensures var a := GamePlayer("1", "g", "a", "A", 10, Some("x"));
            var b := GamePlayer("2", "g", "b", "B", 10, Some("y"));
            var c := GamePlayer("3", "g", "c", "C", 30, Some("y"));
            var rows := [Row("a", "A", 300.0, 0, 0), Row("b", "B", 300.0, 0, 0), Row("c", "C", 300.0, 0, 0)];
            && Team([a, b, c], "x") == TeamInfo("x", "Team x", [a], 10)
            && Team([a, b, c], "y") == TeamInfo("y", "Team y", [b, c], 30)
            && Total(SettleTeams(rows, Team([a, b, c], "x"), [Team([a, b, c], "y")])) == Total(rows) + 20.0
  {
    var a := GamePlayer("1", "g", "a", "A", 10, Some("x"));
    var b := GamePlayer("2", "g", "b", "B", 10, Some("y"));
    var c := GamePlayer("3", "g", "c", "C", 30, Some("y"));
    ExampleGrouping(a, b, c);
    ExampleSettlement(a, b, c);
  }

  lemma ExampleGrouping(a: GamePlayer, b: GamePlayer, c: GamePlayer)
    requires a.wager == 10 && a.teamId == Some("x") && b.teamId == Some("y") && c.wager == 30 && c.teamId == Some("y")
    ensures Team([a, b, c], "x") == TeamInfo("x", "Team x", [a], 10)
    ensures Team([a, b, c], "y") == TeamInfo("y", "Team y", [b, c], 30)
  {
    var ps := [a, b, c];
    assert ps[..2] == [a, b] && [a, b][..1] == [a] && [a][..0] == [];
    assert Members([a], "x") == [a] && Members([a, b], "x") == [a] && Members(ps, "x") == [a];
    assert LastWager([a], "x") == 10 && LastWager(ps, "x") == 10;
    assert !OnTeam(a, "y") && OnTeam(b, "y") && OnTeam(c, "y");
    assert Members([], "y") == [];
    assert Members([a], "y") == [];
    assert Members([a, b], "y") == [] + [b];
    assert Members(ps, "y") == [b] + [c];
  }

  lemma ExampleSettlement(a: GamePlayer, b: GamePlayer, c: GamePlayer)
    requires a.playerId == "a" && b.playerId == "b" && c.playerId == "c"
    requires a.wager == 10 && b.wager == 10 && c.wager == 30
    ensures var rows := [Row("a", "A", 300.0, 0, 0), Row("b", "B", 300.0, 0, 0), Row("c", "C", 300.0, 0, 0)];
            Total(SettleTeams(rows, TeamInfo("x", "Team x", [a], 10), [TeamInfo("y", "Team y", [b, c], 30)]))
            == Total(rows) + 20.0
  {
    var rows := [Row("a", "A", 300.0, 0, 0), Row("b", "B", 300.0, 0, 0), Row("c", "C", 300.0, 0, 0)];
    var x, y := TeamInfo("x", "Team x", [a], 10), TeamInfo("y", "Team y", [b, c], 30);
    assert [y][1..] == [] && [b, c][1..] == [c] && [c][1..] == [] && [a][1..] == [];
    assert TeamPot([y]) == 60 && Flatten([y]) == [b, c] && Share(60, 1) == 60.0;
    assert CountKey([a], PlayerId, "a") == 1 && CountKey([a], PlayerId, "b") == 0 && CountKey([a], PlayerId, "c") == 0;
    assert "c"[0] != "b"[0] && "c"[0] != "a"[0] && "b"[0] != "a"[0];
    assert [c][0] == c && [b, c][0] == b;
    assert Stake([c], "a") == 0;
    assert Stake([c], "b") == 0;
    assert Stake([c], "c") == 30;
    assert Stake([b, c], "a") == 0 && Stake([b, c], "b") == 10 && Stake([b, c], "c") == 30;
    var after := SettleTeams(rows, x, [y]);
    TeamSettlementAt(rows, x, [y], 0);
    TeamSettlementAt(rows, x, [y], 1);
    TeamSettlementAt(rows, x, [y], 2);
    assert after[0].balance == 360.0 && after[1].balance == 290.0 && after[2].balance == 270.0;
    TotalOfThree(after);
    TotalOfThree(rows);
  }

  lemma TotalOfThree(rows: seq<Row>)
    requires |rows| == 3
    ensures Total(rows) == rows[0].balance + rows[1].balance + rows[2].balance
  {
    assert rows[1..][0] == rows[1] && rows[1..][1..] == rows[2..] && rows[2..][0] == rows[2] && rows[2..][1..] == [];
    assert Total(rows[2..]) == rows[2].balance;
    assert Total(rows[1..]) == rows[1].balance + rows[2].balance;
  }

  // ---------------------------------------------------------------------
  // The settlement loops and completeGame
  // ---------------------------------------------------------------------

  /**
   * The individual branch of completeGame: the pot is the sum of the
   * losers' wagers; the winner's row is credited it, then each loser's row
   * is debited in turn. With one row per player and every participant's
   * row present, the total balance does not change.
   */
  method PayIndividual(rows: seq<Row>, gamePlayers: seq<GamePlayer>, winnerId: string) returns (after: seq<Row>)
    ensures after == SettleIndividual(rows, gamePlayers, winnerId)
    ensures DistinctKeys(rows, RowId) && HasKey(rows, RowId, winnerId) &&
            (forall k :: 0 <= k < |gamePlayers| ==> HasKey(rows, RowId, gamePlayers[k].playerId))
            ==> Total(after) == Total(rows)
  {
    var losers := Without(gamePlayers, PlayerId, winnerId);
    var pot := SumWagers(losers);
    after := Credit(rows, winnerId, pot as real);
    var k := 0;
    while k < |losers|
      invariant 0 <= k <= |losers|
      invariant DebitAll(after, losers[k..]) == SettleIndividual(rows, gamePlayers, winnerId)
    {
      assert losers[k..][1..] == losers[k + 1..];
      after := Debit(after, losers[k]);
      k := k + 1;
    }
    assert losers[k..] == [];
    if DistinctKeys(rows, RowId) && HasKey(rows, RowId, winnerId) &&
       (forall k :: 0 <= k < |gamePlayers| ==> HasKey(rows, RowId, gamePlayers[k].playerId)) {
      IndividualSettlementConserves(rows, gamePlayers, winnerId);
    }
  }

  /**
   * The team branch of completeGame: each player of the winning team is
   * credited the pot divided by the team's size, then, team by team, each
   * player of every other team is debited their own wager.
   */
  method PayTeams(rows: seq<Row>, teams: seq<TeamInfo>, winning: TeamInfo, winnerId: string) returns (after: seq<Row>)
    ensures after == SettleTeams(rows, winning, Without(teams, TeamId, winnerId))
  {
    var losing := Without(teams, TeamId, winnerId);
    var share := Share(TeamPot(losing), |winning.players|);
    after := rows;
    var k := 0;
    while k < |winning.players|
      invariant 0 <= k <= |winning.players|
      invariant CreditAll(after, winning.players[k..], share) == CreditAll(rows, winning.players, share)
    {
      assert winning.players[k..][1..] == winning.players[k + 1..];
      after := Credit(after, winning.players[k].playerId, share);
      k := k + 1;
    }
    assert winning.players[k..] == [];
    var t := 0;
    while t < |losing|
      invariant 0 <= t <= |losing|
      invariant DebitTeams(after, losing[t..]) == SettleTeams(rows, winning, losing)
    {
      var players := losing[t].players;
      ghost var start := after;
      var j := 0;
      while j < |players|
        invariant 0 <= j <= |players|
        invariant DebitAll(after, players[j..]) == DebitAll(start, players)
      {
        assert players[j..][1..] == players[j + 1..];
        after := Debit(after, players[j]);
        j := j + 1;
      }
      assert players[j..] == [];
      assert losing[t..][1..] == losing[t + 1..];
      t := t + 1;
    }
    assert losing[t..] == [];
  }

  datatype Game = Game(id: string, gameType: string, isTeamGame: bool, status: string)

  datatype History = History(gameId: string, gameType: string, winnerId: string, winnerName: string,
                             winnings: int, participants: seq<string>)

  /** The three tables completeGame writes. */
  datatype Db = Db(games: seq<Game>, players: seq<Row>, history: seq<History>)

  /** The dialog's state: the chosen game, its participants and teams, and the chosen winner. */
  datatype Dialog = Dialog(selectedGame: Option<Game>, gamePlayers: seq<GamePlayer>, teams: seq<TeamInfo>, winnerId: string)

  datatype Completion = MissingInformation | WinnerNotFound | Completed

  /** The dialog after resetForm: nothing chosen. */
  function ClearedDialog(): Dialog { Dialog(None, [], [], "") }

  /** The participants' names, in order. */
  function Participants(gamePlayers: seq<GamePlayer>): (names: seq<string>)
    ensures |names| == |gamePlayers|
    ensures forall i :: 0 <= i < |names| ==> names[i] == gamePlayers[i].playerName
  {
    seq(|gamePlayers|, i requires 0 <= i < |gamePlayers| => gamePlayers[i].playerName)
  }

  /** `update({ status: "completed" }).eq("id", id)` on the "games" table. */
  function MarkCompleted(games: seq<Game>, id: string): (r: seq<Game>)
    ensures |r| == |games|
    ensures forall i :: 0 <= i < |r| && games[i].id == id ==> r[i].status == "completed" && r[i] == games[i].(status := "completed")
    ensures forall i :: 0 <= i < |r| && games[i].id != id ==> r[i] == games[i]
  {
    seq(|games|, i requires 0 <= i < |games| =>
      if games[i].id == id then games[i].(status := "completed") else games[i])
  }

  /** The winner can be found: a team with the id in a team game, a participant with it otherwise. */
  predicate WinnerFound(g: Game, gamePlayers: seq<GamePlayer>, teams: seq<TeamInfo>, winnerId: string) {
    if g.isTeamGame then HasKey(teams, TeamId, winnerId) else HasKey(gamePlayers, PlayerId, winnerId)
  }

  /**
   * fetchGamePlayers once the rows have arrived: the dialog keeps the
   * participants and, for a team game, their grouping into teams; for
   * any other game, or with no game chosen, the team list is empty.
   */
  method LoadGamePlayers(d: Dialog, ps: seq<GamePlayer>) returns (d': Dialog)
    ensures d'.selectedGame == d.selectedGame && d'.winnerId == d.winnerId && d'.gamePlayers == ps
    ensures d.selectedGame.Some? && d.selectedGame.value.isTeamGame ==>
              && |d'.teams| == |TeamIds(ps)|
              && forall k :: 0 <= k < |d'.teams| ==> d'.teams[k] == Team(ps, TeamIds(ps)[k])
    ensures !(d.selectedGame.Some? && d.selectedGame.value.isTeamGame) ==> d'.teams == []
  {
    var teams: seq<TeamInfo> := [];
    if d.selectedGame.Some? && d.selectedGame.value.isTeamGame {
      teams := GroupTeams(ps);
    }
    d' := d.(gamePlayers := ps, teams := teams);
  }

  /**
   * completeGame. Without a game or a winner it only reports missing
   * information. Otherwise, inside a transaction, it marks the game
   * completed, finds the winner (a winner that cannot be found throws,
   * and the rollback leaves every table as it was), settles the balances,
   * records the history entry and resets the dialog.
   */
  method Complete(d: Dialog, db: Db) returns (outcome: Completion, d': Dialog, db': Db)
    ensures outcome == MissingInformation <==> d.selectedGame.None? || d.winnerId == ""
    ensures outcome == WinnerNotFound <==>
              d.selectedGame.Some? && d.winnerId != "" &&
              !WinnerFound(d.selectedGame.value, d.gamePlayers, d.teams, d.winnerId)
    ensures outcome != Completed ==> d' == d && db' == db
    ensures outcome == Completed ==>
              var g, w := d.selectedGame.value, d.winnerId;
              && d' == ClearedDialog()
              && db'.games == MarkCompleted(db.games, g.id)
              && |db'.history| == |db.history| + 1 && db'.history[..|db.history|] == db.history
              && db'.history[|db.history|].gameId == g.id && db'.history[|db.history|].gameType == g.gameType
              && db'.history[|db.history|].winnerId == w
              && db'.history[|db.history|].participants == Participants(d.gamePlayers)
    ensures outcome == Completed && d.selectedGame.value.isTeamGame ==>
              var w := d.winnerId;
              var winning := FindFirst(d.teams, TeamId, w).value;
              var losing := Without(d.teams, TeamId, w);
              && db'.history[|db.history|].winnerName == winning.name
              && db'.history[|db.history|].winnings == TeamPot(losing)
              && db'.players == SettleTeams(db.players, winning, losing)
    ensures outcome == Completed && !d.selectedGame.value.isTeamGame ==>
              var w := d.winnerId;
              && db'.history[|db.history|].winnerName == FindFirst(d.gamePlayers, PlayerId, w).value.playerName
              && db'.history[|db.history|].winnings == IndividualPot(d.gamePlayers, w)
              && db'.players == SettleIndividual(db.players, d.gamePlayers, w)
  {
    d', db' := d, db;
    if d.selectedGame.None? || d.winnerId == "" {
      outcome := MissingInformation;
      return;
    }
    var g, w := d.selectedGame.value, d.winnerId;
    var winnerName: string;
    var winnings: int;
    var players: seq<Row>;
    if g.isTeamGame {
      var winning := FindFirst(d.teams, TeamId, w);
      if winning.None? {
        outcome := WinnerNotFound;
        return;
      }
      winnerName := winning.value.name;
      winnings := TeamPot(Without(d.teams, TeamId, w));
      players := PayTeams(db.players, d.teams, winning.value, w);
    } else {
      var winner := FindFirst(d.gamePlayers, PlayerId, w);
      if winner.None? {
        outcome := WinnerNotFound;
        return;
      }
      winnerName := winner.value.playerName;
      winnings := IndividualPot(d.gamePlayers, w);
      players := PayIndividual(db.players, d.gamePlayers, w);
    }
    var entry := History(g.id, g.gameType, w, winnerName, winnings, Participants(d.gamePlayers));
    db' := Db(MarkCompleted(db.games, g.id), players, db.history + [entry]);
    d' := ClearedDialog();
    outcome := Completed;
  }
}
