/**
 * components/teams.tsx: the team-creation dialog. The user names a team
 * and picks its members one by one; creating it checks the form, inserts
 * the team with no wins or losses and clears the form.
 */
module Teams {
  import opened Common

  function Ident(id: string): string { id }

  /** The dialog's form: the team name and the chosen player ids, in the order chosen. */
  datatype Form = Form(name: string, selectedPlayers: seq<string>)

  datatype Team = Team(name: string, members: seq<string>, wins: int, losses: int)

  /** `addPlayerToTeam`: an id already chosen is ignored, any other is appended. */
  function AddPlayer(selected: seq<string>, id: string): (r: seq<string>)
    ensures id in r
    ensures forall x :: x in r <==> x in selected || x == id
    ensures id in selected ==> r == selected
    ensures id !in selected ==> r == selected + [id]
  {
    if id in selected then selected else selected + [id]
  }

  /** `removePlayerFromTeam`: every occurrence of the id goes, the rest stay. */
  function RemovePlayer(selected: seq<string>, id: string): (r: seq<string>)
    ensures id !in r
    ensures forall x :: x != id ==> (x in r <==> x in selected)
    ensures forall x :: multiset(r)[x] == if x == id then 0 else multiset(selected)[x]
    ensures r == Without(selected, Ident, id)
  {
    var r := Without(selected, Ident, id);
    forall x ensures multiset(r)[x] == if x == id then 0 else multiset(selected)[x] {
      WithoutMultiset(selected, Ident, id, x);
    }
    assert forall x :: x in r ==> x in selected && x != id by {
      forall x | x in r ensures x in selected && x != id {
        var i :| 0 <= i < |r| && r[i] == x;
      }
    }
    assert forall x :: x in selected && x != id ==> x in r by {
      forall x | x in selected && x != id ensures x in r {
        var i :| 0 <= i < |selected| && selected[i] == x;
        assert Ident(selected[i]) != id;
      }
    }
    assert id !in r by {
      forall i | 0 <= i < |r| ensures r[i] != id {
        assert Ident(r[i]) != id;
      }
    }
    r
  }

  /** Adding is idempotent, and a form built by adding never holds an id twice. */
  lemma AddPlayerKeepsDistinct(selected: seq<string>, id: string)
    requires DistinctKeys(selected, Ident)
    ensures DistinctKeys(AddPlayer(selected, id), Ident)
    ensures AddPlayer(AddPlayer(selected, id), id) == AddPlayer(selected, id)
  {
    var r := AddPlayer(selected, id);
    if id !in selected {
      forall i, j | 0 <= i < j < |r| ensures Ident(r[i]) != Ident(r[j]) {
        if j == |selected| {
          assert selected[i] in selected;
        }
      }
    }
  }

  /** Removing a player that was just added gives back the earlier choice, order included. */
  lemma RemoveAfterAdd(selected: seq<string>, id: string)
    requires id !in selected
    ensures RemovePlayer(AddPlayer(selected, id), id) == selected
  {
    assert !HasKey(selected, Ident, id) by {
      forall i | 0 <= i < |selected| ensures Ident(selected[i]) != id {
        assert selected[i] in selected;
      }
    }
    WithoutAppend(selected, [id], Ident, id);
    WithoutAbsent(selected, Ident, id);
    assert Without([id], Ident, id) == [];
  }

  /** Removing from a list built in two parts removes from each part: the others keep their order. */
  lemma RemovePlayerAppend(a: seq<string>, b: seq<string>, id: string)
    ensures RemovePlayer(a + b, id) == RemovePlayer(a, id) + RemovePlayer(b, id)
  {
    WithoutAppend(a, b, Ident, id);
  }

  /** Removing keeps the chosen ids distinct. */
  lemma RemovePlayerKeepsDistinct(selected: seq<string>, id: string)
    requires DistinctKeys(selected, Ident)
    ensures DistinctKeys(RemovePlayer(selected, id), Ident)
  {
    WithoutDistinct(selected, Ident, id);
  }

  datatype Creation = Invalid | InsertFailed | Created(team: Team)

  /**
   * `createTeam`: a form without a name or with fewer than two players is
   * refused; otherwise the team goes in with no wins or losses and, when
   * the database accepts it (`insertOk`), the refetched list holds it and
   * the form is cleared. A refused form or a failed insert changes nothing.
   */
  method CreateTeam(f: Form, teams: seq<Team>, insertOk: bool) returns (result: Creation, f': Form, teams': seq<Team>)
    ensures result == Invalid <==> f.name == "" || |f.selectedPlayers| < 2
    ensures result == InsertFailed <==> f.name != "" && |f.selectedPlayers| >= 2 && !insertOk
    ensures !result.Created? ==> f' == f && teams' == teams
    ensures result.Created? ==>
              && result.team == Team(f.name, f.selectedPlayers, 0, 0)
              && teams' == teams + [result.team]
              && f' == Form("", [])
  {
    f', teams' := f, teams;
    if f.name == "" || |f.selectedPlayers| < 2 {
      result := Invalid;
      return;
    }
    var team := Team(f.name, f.selectedPlayers, 0, 0);
    if !insertOk {
      result := InsertFailed;
      return;
    }
    result := Created(team);
    teams' := teams + [team];
    f' := Form("", []);
  }
}
