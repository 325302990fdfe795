/**
 * components/create-game.tsx: the new-game dialog. The user picks a game
 * type, says whether it is a team game, toggles players or teams into the
 * selection and sets a wager per selected entry; creating the game checks
 * the form, inserts the game as "in_progress" and one participant row per
 * selected entry, then clears the form.
 */
module CreateGame {
  import opened Common

  /** A selected player or team with its wager (`{ id, wager }`). */
  datatype Selection = Selection(id: string, wager: int)

  function SelId(s: Selection): string { s.id }

  /** The dialog's form. */
  datatype Form = Form(gameType: string, isTeamGame: bool, selectedPlayers: seq<Selection>, selectedTeams: seq<Selection>)

  /**
   * `togglePlayer` / `toggleTeam`: an id already selected is removed
   * (every entry with it), any other id is appended with wager 0.
   */
  function Toggle(sel: seq<Selection>, id: string): (r: seq<Selection>)
    ensures HasKey(sel, SelId, id) ==> r == Without(sel, SelId, id)
    ensures !HasKey(sel, SelId, id) ==> r == sel + [Selection(id, 0)]
  {
    if HasKey(sel, SelId, id) then Without(sel, SelId, id) else sel + [Selection(id, 0)]
  }

  /**
   * Toggling flips the id's membership and leaves every other id's
   * membership as it was; a selection without duplicates stays so.
   */
  lemma {:induction false} ToggleFlips(sel: seq<Selection>, id: string, other: string)
    requires other != id
    ensures HasKey(Toggle(sel, id), SelId, id) <==> !HasKey(sel, SelId, id)
    ensures HasKey(Toggle(sel, id), SelId, other) <==> HasKey(sel, SelId, other)
  {
    var r := Toggle(sel, id);
    if HasKey(sel, SelId, id) {
      if HasKey(sel, SelId, other) {
        var i :| 0 <= i < |sel| && SelId(sel[i]) == other;
        var j :| 0 <= j < |r| && r[j] == sel[i];
      }
      if HasKey(r, SelId, other) {
        var j :| 0 <= j < |r| && SelId(r[j]) == other;
        var i :| 0 <= i < |sel| && sel[i] == r[j];
      }
    } else {
      HasKeyAppend(sel, [Selection(id, 0)], SelId, id);
      HasKeyAppend(sel, [Selection(id, 0)], SelId, other);
      assert SelId([Selection(id, 0)][0]) == id;
    }
  }

  /** Selected ids stay distinct under toggling. */
  lemma ToggleKeepsDistinct(sel: seq<Selection>, id: string)
    requires DistinctKeys(sel, SelId)
    ensures DistinctKeys(Toggle(sel, id), SelId)
  {
    if HasKey(sel, SelId, id) {
      WithoutDistinct(sel, SelId, id);
    } else {
      var r := Toggle(sel, id);
      forall i, j | 0 <= i < j < |r| ensures SelId(r[i]) != SelId(r[j]) {
        if j == |sel| {
          assert SelId(sel[i]) != id;
        }
      }
    }
  }

  /** Toggling an unselected id twice gives back the selection. */
  lemma ToggleTwice(sel: seq<Selection>, id: string)
    requires !HasKey(sel, SelId, id)
    ensures Toggle(Toggle(sel, id), id) == sel
  {
    var added := sel + [Selection(id, 0)];
    HasKeyAppend(sel, [Selection(id, 0)], SelId, id);
    assert SelId(added[|sel|]) == id;
    WithoutAppend(sel, [Selection(id, 0)], SelId, id);
    WithoutAbsent(sel, SelId, id);
    assert Without([Selection(id, 0)], SelId, id) == [];
  }

  /**
   * `updatePlayerWager` / `updateTeamWager`: every entry with the id
   * takes the new wager; length, order, ids and the other entries stay.
   */
  function UpdateWager(sel: seq<Selection>, id: string, wager: int): (r: seq<Selection>)
    ensures |r| == |sel|
    ensures forall i :: 0 <= i < |r| ==> r[i].id == sel[i].id
    ensures forall i :: 0 <= i < |r| ==> r[i].wager == (if sel[i].id == id then wager else sel[i].wager)
  {
    seq(|sel|, i requires 0 <= i < |sel| => if sel[i].id == id then sel[i].(wager := wager) else sel[i])
  }

  /** Changing a wager never changes what is selected, so toggling sees the same selection. */
  lemma UpdateWagerKeepsSelection(sel: seq<Selection>, id: string, wager: int, k: string)
    ensures HasKey(UpdateWager(sel, id, wager), SelId, k) <==> HasKey(sel, SelId, k)
    ensures DistinctKeys(sel, SelId) ==> DistinctKeys(UpdateWager(sel, id, wager), SelId)
  {
    var r := UpdateWager(sel, id, wager);
    if HasKey(sel, SelId, k) {
      var i :| 0 <= i < |sel| && SelId(sel[i]) == k;
      assert SelId(r[i]) == k;
    }
    if HasKey(r, SelId, k) {
      var i :| 0 <= i < |r| && SelId(r[i]) == k;
      assert SelId(sel[i]) == k;
    }
  }

  /** The form as the dialog opens and after `resetForm`: no type, not a team game, nothing selected. */
  function ResetForm(): (r: Form)
    ensures r.gameType == "" && !r.isTeamGame && r.selectedPlayers == [] && r.selectedTeams == []
  {
    Form("", false, [], [])
  }

  datatype GameRow = GameRow(id: string, gameType: string, isTeamGame: bool, status: string)

  /** A row of "game_teams" or of "game_players". */
  datatype Participant = TeamEntry(gameId: string, teamId: string, wager: int)
                       | PlayerEntry(gameId: string, playerId: string, wager: int)

  datatype CreateError = GameTypeRequired | NotEnoughTeams | NotEnoughPlayers | InsertFailed

  datatype Creation = Rejected(reason: CreateError) | Created(game: GameRow, participants: seq<Participant>)

  /**
   * `createGame`: the checks in the component's order, then the game row
   * and one participant row per selected team or player, carrying that
   * entry's wager. The database's answer to the game insert is the
   * parameter `insertedId`: the new game's id, or None when the insert
   * failed. A rejected form is left as it was; a created game clears it.
   */
  method CreateGame(f: Form, insertedId: Option<string>) returns (result: Creation, f': Form)
    ensures result == Rejected(GameTypeRequired) <==> f.gameType == ""
    ensures result == Rejected(NotEnoughTeams) <==> f.gameType != "" && f.isTeamGame && |f.selectedTeams| < 2
    ensures result == Rejected(NotEnoughPlayers) <==> f.gameType != "" && !f.isTeamGame && |f.selectedPlayers| < 2
    ensures result == Rejected(InsertFailed) <==>
              f.gameType != "" && |if f.isTeamGame then f.selectedTeams else f.selectedPlayers| >= 2 && insertedId.None?
    ensures result.Rejected? ==> f' == f
    ensures result.Created? ==> insertedId.Some?
    ensures result.Created? ==>
              && result.game == GameRow(insertedId.value, f.gameType, f.isTeamGame, "in_progress")
              && f' == ResetForm()
    ensures result.Created? && f.isTeamGame ==>
              && |result.participants| == |f.selectedTeams| >= 2
              && forall k :: 0 <= k < |f.selectedTeams| ==>
                   result.participants[k] == TeamEntry(insertedId.value, f.selectedTeams[k].id, f.selectedTeams[k].wager)
    ensures result.Created? && !f.isTeamGame ==>
              && |result.participants| == |f.selectedPlayers| >= 2
              && forall k :: 0 <= k < |f.selectedPlayers| ==>
                   result.participants[k] == PlayerEntry(insertedId.value, f.selectedPlayers[k].id, f.selectedPlayers[k].wager)
  {
    f' := f;
    if f.gameType == "" {
      result := Rejected(GameTypeRequired);
      return;
    }
    if f.isTeamGame && |f.selectedTeams| < 2 {
      result := Rejected(NotEnoughTeams);
      return;
    }
    if !f.isTeamGame && |f.selectedPlayers| < 2 {
      result := Rejected(NotEnoughPlayers);
      return;
    }
    if insertedId.None? {
      result := Rejected(InsertFailed);
      return;
    }
    var gameId := insertedId.value;
    var game := GameRow(gameId, f.gameType, f.isTeamGame, "in_progress");
    var rows: seq<Participant> := [];
    if f.isTeamGame {
      for k := 0 to |f.selectedTeams|
        invariant |rows| == k
        invariant forall j :: 0 <= j < k ==> rows[j] == TeamEntry(gameId, f.selectedTeams[j].id, f.selectedTeams[j].wager)
      {
        rows := rows + [TeamEntry(gameId, f.selectedTeams[k].id, f.selectedTeams[k].wager)];
      }
    } else {
      for k := 0 to |f.selectedPlayers|
        invariant |rows| == k
        invariant forall j :: 0 <= j < k ==> rows[j] == PlayerEntry(gameId, f.selectedPlayers[j].id, f.selectedPlayers[j].wager)
      {
        rows := rows + [PlayerEntry(gameId, f.selectedPlayers[k].id, f.selectedPlayers[k].wager)];
      }
    }
    result := Created(game, rows);
    f' := ResetForm();
  }
}
