/**
 * The reducer that components/playerbalances.tsx and components/side-bets.tsx
 * both attach to the "players" change feed: it folds one change event into
 * the list of players shown. The two components carry different player
 * records, so the reducer is generic in the record and its id projection.
 */
module Realtime {
  import opened Common

  /**
   * One change notification. `Other` stands for every event type besides
   * INSERT, UPDATE and DELETE, which the reducer ignores.
   */
  datatype Change<T> = Insert(row: T) | Update(row: T) | Delete(oldId: string) | Other

  /** Every entry whose id matches `row`'s is replaced by `row` (the UPDATE branch's `map`). */
  function ReplaceById<T>(current: seq<T>, row: T, key: T -> string): (r: seq<T>)
    ensures |r| == |current|
    ensures forall i :: 0 <= i < |r| && key(current[i]) != key(row) ==> r[i] == current[i]
    ensures forall i :: 0 <= i < |r| && key(current[i]) == key(row) ==> r[i] == row
  {
    seq(|current|, i requires 0 <= i < |current| => if key(current[i]) == key(row) then row else current[i])
  }

  /** The list after one change event. */
  function Apply<T>(current: seq<T>, change: Change<T>, key: T -> string): (r: seq<T>)
    // INSERT appends exactly one entry and keeps the existing ones as they were
    ensures change.Insert? ==> |r| == |current| + 1 && r[..|current|] == current && r[|current|] == change.row
    // UPDATE keeps length, order and ids; matching entries become the payload
    ensures change.Update? ==>
              && |r| == |current|
              && (forall i :: 0 <= i < |r| ==> key(r[i]) == key(current[i]))
              && (forall i :: 0 <= i < |r| ==> r[i] == current[i] || r[i] == change.row)
    ensures change.Update? ==> r == ReplaceById(current, change.row, key)
    ensures change.Update? && !HasKey(current, key, key(change.row)) ==> r == current
    // DELETE removes every entry with the old id and keeps the others
    ensures change.Delete? ==>
              && !HasKey(r, key, change.oldId)
              && |r| == |current| - CountKey(current, key, change.oldId)
              && (forall i :: 0 <= i < |current| && key(current[i]) != change.oldId ==> current[i] in r)
    // ... as the order-preserving filter, whose multiplicities WithoutMultiset states
    ensures change.Delete? ==> r == Without(current, key, change.oldId)
    ensures change.Other? ==> r == current
  {
    match change
    case Insert(row) => current + [row]
    case Update(row) =>
      var r := ReplaceById(current, row, key);
      assert !HasKey(current, key, key(row)) ==> r == current;
      r
    case Delete(oldId) => Without(current, key, oldId)
    case Other => current
  }

  /** Every event keeps ids distinct, except an INSERT of an id that is already shown. */
  lemma ApplyKeepsDistinct<T>(current: seq<T>, change: Change<T>, key: T -> string)
    requires DistinctKeys(current, key)
    requires change.Insert? ==> !HasKey(current, key, key(change.row))
    ensures DistinctKeys(Apply(current, change, key), key)
  {
    var r := Apply(current, change, key);
    match change
    case Insert(row) =>
      forall i, j | 0 <= i < j < |r| ensures key(r[i]) != key(r[j]) {
        if j == |current| {
          assert r[i] == current[i];
        } else {
          assert r[i] == current[i] && r[j] == current[j];
        }
      }
    case Update(row) =>
    case Delete(oldId) => WithoutDistinct(current, key, oldId);
    case Other =>
  }

  /** Deleting the id that an INSERT just added, when it was new, restores the list. */
  lemma InsertThenDelete<T>(current: seq<T>, row: T, key: T -> string)
    requires !HasKey(current, key, key(row))
    ensures Apply(Apply(current, Insert(row), key), Delete(key(row)), key) == current
  {
    WithoutAppend(current, [row], key, key(row));
    WithoutAbsent(current, key, key(row));
    assert Without([row], key, key(row)) == [];
  }

  /** Receiving the same UPDATE twice has the effect of receiving it once. */
  lemma UpdateIdempotent<T>(current: seq<T>, row: T, key: T -> string)
    ensures Apply(Apply(current, Update(row), key), Update(row), key) == Apply(current, Update(row), key)
  {
    var once := Apply(current, Update(row), key);
    var twice := Apply(once, Update(row), key);
    assert forall i :: 0 <= i < |once| ==> twice[i] == once[i];
  }
}
