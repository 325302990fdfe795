/**
 * components/side-bets.tsx: a side bet moves an amount from one player's
 * balance to another's after a chain of checks. The players list is the
 * component's copy of the "players" table, kept current by the reducer of
 * module Realtime; the two balance writes land on the rows with the
 * chosen ids.
 */
module SideBets {
  import opened Common

  datatype Player = Player(id: string, name: string, balance: int)

  /** The side-bet dialog: the two chosen player ids (null until chosen) and the amount. */
  datatype Form = Form(fromPlayer: Option<string>, toPlayer: Option<string>, amount: int)

  datatype BetError = MissingPlayers | SamePlayer | NonPositiveAmount | InvalidSelection | InsufficientBalance

  datatype Outcome = Placed | Rejected(reason: BetError)

  function Id(p: Player): string { p.id }

  /** The form as the dialog opens and as it is reset after a bet: nobody chosen, amount 50. */
  function FreshForm(): Form { Form(None, None, 50) }

  /** Sum of all balances. */
  function TotalBalance(players: seq<Player>): int {
    if players == [] then 0 else players[0].balance + TotalBalance(players[1..])
  }

  /** The table after `update({ balance: value }).eq("id", id)`: matching rows take the new balance. */
  function SetBalance(players: seq<Player>, id: string, value: int): (r: seq<Player>)
    ensures |r| == |players|
    ensures forall i :: 0 <= i < |r| ==> r[i].id == players[i].id && r[i].name == players[i].name
    ensures forall i :: 0 <= i < |r| && players[i].id == id ==> r[i].balance == value
    ensures forall i :: 0 <= i < |r| && players[i].id != id ==> r[i] == players[i]
  {
    seq(|players|, i requires 0 <= i < |players| =>
      if players[i].id == id then players[i].(balance := value) else players[i])
  }

  /** With unique ids, setting one present row's balance moves the total by the difference. */
  lemma {:induction false} SetBalanceTotal(players: seq<Player>, id: string, j: int, value: int)
    requires DistinctKeys(players, Id) && 0 <= j < |players| && players[j].id == id
    ensures TotalBalance(SetBalance(players, id, value)) == TotalBalance(players) - players[j].balance + value
  {
    var r := SetBalance(players, id, value);
    var tail := SetBalance(players[1..], id, value);
    assert r[1..] == tail by {
      forall i | 0 <= i < |tail| ensures r[1..][i] == tail[i] {
        assert players[1..][i] == players[i + 1];
      }
    }
    assert TotalBalance(r) == r[0].balance + TotalBalance(tail);
    assert DistinctKeys(players[1..], Id) by {
      forall a, b | 0 <= a < b < |players[1..]| ensures Id(players[1..][a]) != Id(players[1..][b]) {
        assert players[1..][a] == players[a + 1] && players[1..][b] == players[b + 1];
      }
    }
    if j == 0 {
      assert !HasKey(players[1..], Id, id) by {
        forall a | 0 <= a < |players[1..]| ensures Id(players[1..][a]) != id {
          assert players[1..][a] == players[a + 1];
        }
      }
      SetBalanceAbsent(players[1..], id, value);
    } else {
      assert Id(players[0]) != Id(players[j]);
      assert players[1..][j - 1] == players[j];
      SetBalanceTotal(players[1..], id, j - 1, value);
    }
  }

  lemma SetBalanceAbsent(players: seq<Player>, id: string, value: int)
    requires !HasKey(players, Id, id)
    ensures SetBalance(players, id, value) == players
  {
    var r := SetBalance(players, id, value);
    forall i | 0 <= i < |players| ensures r[i] == players[i] {
      assert Id(players[i]) != id;
    }
  }

  /** The balance a side bet reads for a player: that of the first row with the id. */
  function BalanceOf(players: seq<Player>, id: string): int
    requires HasKey(players, Id, id)
  {
    players[FirstIndex(players, Id, id).value].balance
  }

  /** The two writes of a placed bet: the payer's row, then the payee's. */
  function Transfer(players: seq<Player>, fromId: string, toId: string, amount: int): (r: seq<Player>)
    requires HasKey(players, Id, fromId) && HasKey(players, Id, toId)
    ensures |r| == |players|
    ensures forall i :: 0 <= i < |r| ==> r[i].id == players[i].id && r[i].name == players[i].name
    ensures forall i :: 0 <= i < |r| && players[i].id != fromId && players[i].id != toId ==> r[i] == players[i]
  {
    SetBalance(SetBalance(players, fromId, BalanceOf(players, fromId) - amount),
               toId, BalanceOf(players, toId) + amount)
  }

  /**
   * With unique ids, a transfer between two different players moves exactly
   * `amount` from the payer to the payee and conserves the total.
   */
  lemma {:induction false} TransferEffect(players: seq<Player>, fromId: string, toId: string, amount: int)
    requires DistinctKeys(players, Id) && fromId != toId
    requires HasKey(players, Id, fromId) && HasKey(players, Id, toId)
    ensures TotalBalance(Transfer(players, fromId, toId, amount)) == TotalBalance(players)
    ensures forall i :: 0 <= i < |players| && players[i].id == fromId ==>
              Transfer(players, fromId, toId, amount)[i].balance == players[i].balance - amount
    ensures forall i :: 0 <= i < |players| && players[i].id == toId ==>
              Transfer(players, fromId, toId, amount)[i].balance == players[i].balance + amount
  {
    var f, t := FirstIndex(players, Id, fromId).value, FirstIndex(players, Id, toId).value;
    var fromValue, toValue := players[f].balance - amount, players[t].balance + amount;
    assert Transfer(players, fromId, toId, amount) == SetBalance(SetBalance(players, fromId, fromValue), toId, toValue);
    TwoWrites(players, fromId, toId, f, t, fromValue, toValue);
  }

  /** The two balance writes on rows `f` and `t`, which alone carry their ids. */
  lemma {:induction false} TwoWrites(players: seq<Player>, fromId: string, toId: string, f: int, t: int, fromValue: int, toValue: int)
    requires DistinctKeys(players, Id) && fromId != toId
    requires 0 <= f < |players| && 0 <= t < |players| && players[f].id == fromId && players[t].id == toId
    ensures var after := SetBalance(SetBalance(players, fromId, fromValue), toId, toValue);
            && TotalBalance(after) == TotalBalance(players) - players[f].balance + fromValue
                                                            - players[t].balance + toValue
            && (forall i :: 0 <= i < |players| && players[i].id == fromId ==> i == f && after[i].balance == fromValue)
            && (forall i :: 0 <= i < |players| && players[i].id == toId ==> i == t && after[i].balance == toValue)
  {
    var debited := SetBalance(players, fromId, fromValue);
    SetBalanceTotal(players, fromId, f, fromValue);
    assert DistinctKeys(debited, Id) by {
      forall a, b | 0 <= a < b < |debited| ensures Id(debited[a]) != Id(debited[b]) {
        assert Id(players[a]) != Id(players[b]);
      }
    }
    assert debited[t] == players[t];
    SetBalanceTotal(debited, toId, t, toValue);
    forall i | 0 <= i < |players| ensures (players[i].id == fromId ==> i == f) && (players[i].id == toId ==> i == t) {
      if i < f { assert Id(players[i]) != Id(players[f]); }
      if f < i { assert Id(players[f]) != Id(players[i]); }
      if i < t { assert Id(players[i]) != Id(players[t]); }
      if t < i { assert Id(players[t]) != Id(players[i]); }
    }
  }

  /**
   * What a placed bet promises about the table: same rows with the same
   * ids and names, every player other than the two untouched, and, when
   * ids are unique, the payer down exactly `amount` without going below
   * zero, the payee up exactly `amount`, and the total conserved.
   */
  ghost predicate Settled(players: seq<Player>, fromId: string, toId: string, amount: int, after: seq<Player>) {
    && |after| == |players|
    && (forall i :: 0 <= i < |players| ==>
          after[i].id == players[i].id && after[i].name == players[i].name &&
          (players[i].id != fromId && players[i].id != toId ==> after[i] == players[i]))
    && (DistinctKeys(players, Id) ==>
          && TotalBalance(after) == TotalBalance(players)
          && forall i :: 0 <= i < |players| ==>
               && (players[i].id == fromId ==> after[i].balance == players[i].balance - amount >= 0)
               && (players[i].id == toId ==> after[i].balance == players[i].balance + amount))
  }

  /** The two writes of an affordable bet between two players settle it. */
  lemma {:induction false} PlacedFacts(players: seq<Player>, fromId: string, toId: string, amount: int)
    requires fromId != toId && HasKey(players, Id, fromId) && HasKey(players, Id, toId)
    requires BalanceOf(players, fromId) >= amount
    ensures Settled(players, fromId, toId, amount, Transfer(players, fromId, toId, amount))
  {
    if DistinctKeys(players, Id) {
      TransferEffect(players, fromId, toId, amount);
      var f := FirstIndex(players, Id, fromId).value;
      forall i | 0 <= i < |players| && players[i].id == fromId ensures players[i].balance >= amount {
        assert Id(players[i]) == Id(players[f]);
      }
    }
  }

  /**
   * `handleSideBet`: the checks in the order the component makes them,
   * then the debit of the payer and the credit of the payee.
   */
  method HandleSideBet(players: seq<Player>, form: Form) returns (after: seq<Player>, newForm: Form, outcome: Outcome)
    ensures outcome == Rejected(MissingPlayers) <==> !Chosen(form.fromPlayer) || !Chosen(form.toPlayer)
    ensures outcome == Rejected(SamePlayer) <==>
              Chosen(form.fromPlayer) && Chosen(form.toPlayer) && form.fromPlayer == form.toPlayer
    ensures outcome == Rejected(NonPositiveAmount) <==>
              Chosen(form.fromPlayer) && Chosen(form.toPlayer) && form.fromPlayer != form.toPlayer && form.amount <= 0
    ensures outcome == Rejected(InvalidSelection) <==>
              && Chosen(form.fromPlayer) && Chosen(form.toPlayer) && form.fromPlayer != form.toPlayer && form.amount > 0
              && (!HasKey(players, Id, form.fromPlayer.value) || !HasKey(players, Id, form.toPlayer.value))
    ensures outcome == Rejected(InsufficientBalance) <==>
              && Chosen(form.fromPlayer) && Chosen(form.toPlayer) && form.fromPlayer != form.toPlayer && form.amount > 0
              && HasKey(players, Id, form.fromPlayer.value) && HasKey(players, Id, form.toPlayer.value)
              && BalanceOf(players, form.fromPlayer.value) < form.amount
    // a rejected bet changes nothing, not even the form
    ensures outcome.Rejected? ==> after == players && newForm == form
    // a placed bet: the payer could afford it, the form is reset, and only the two players change
    ensures outcome.Placed? ==>
              && Chosen(form.fromPlayer) && Chosen(form.toPlayer) && form.fromPlayer != form.toPlayer && form.amount > 0
              && HasKey(players, Id, form.fromPlayer.value) && HasKey(players, Id, form.toPlayer.value)
              && BalanceOf(players, form.fromPlayer.value) >= form.amount
              && newForm == FreshForm()
              && Settled(players, form.fromPlayer.value, form.toPlayer.value, form.amount, after)
  {
    after, newForm := players, form;
    if !Chosen(form.fromPlayer) || !Chosen(form.toPlayer) {
      outcome := Rejected(MissingPlayers);
      return;
    }
    var fromId, toId := form.fromPlayer.value, form.toPlayer.value;
    if fromId == toId {
      outcome := Rejected(SamePlayer);
      return;
    }
    if form.amount <= 0 {
      outcome := Rejected(NonPositiveAmount);
      return;
    }
    var from := FirstIndex(players, Id, fromId);
    var to := FirstIndex(players, Id, toId);
    if from.None? || to.None? {
      outcome := Rejected(InvalidSelection);
      return;
    }
    if players[from.value].balance < form.amount {
      outcome := Rejected(InsufficientBalance);
      return;
    }
    after := Transfer(players, fromId, toId, form.amount);
    newForm := FreshForm();
    outcome := Placed;
    PlacedFacts(players, fromId, toId, form.amount);
  }
}
