/**
 * Shared vocabulary of the tracker's list operations: an optional value,
 * and the handful of id-keyed list primitives (`some`, `find`, `filter`
 * by id) that the components repeat over different record types. Each
 * primitive takes the record's key projection as a parameter.
 */
module Common {

  datatype Option<T> = None | Some(value: T)

  /** JavaScript truthiness of an optional string: neither null/undefined nor the empty string. */
  predicate Chosen(o: Option<string>) { o.Some? && o.value != "" }

  /** Some entry of `s` has key `k` (JavaScript's `s.some(x => key(x) === k)`). */
  predicate HasKey<T, K(==)>(s: seq<T>, key: T -> K, k: K) {
    exists i :: 0 <= i < |s| && key(s[i]) == k
  }

  /** No two entries of `s` share a key. */
  predicate DistinctKeys<T, K(==)>(s: seq<T>, key: T -> K) {
    forall i, j :: 0 <= i < j < |s| ==> key(s[i]) != key(s[j])
  }

  /** How many entries of `s` have key `k`. */
  function CountKey<T, K(==)>(s: seq<T>, key: T -> K, k: K): (n: nat)
    ensures n <= |s|
    ensures n == 0 <==> !HasKey(s, key, k)
  {
    if s == [] then 0
    else
      var rest := CountKey(s[1..], key, k);
      assert HasKey(s, key, k) <==> key(s[0]) == k || HasKey(s[1..], key, k) by {
        if HasKey(s[1..], key, k) {
          var i :| 0 <= i < |s[1..]| && key(s[1..][i]) == k;
          assert key(s[i + 1]) == k;
        }
        if HasKey(s, key, k) && key(s[0]) != k {
          var i :| 0 <= i < |s| && key(s[i]) == k;
          assert key(s[1..][i - 1]) == k;
        }
      }
      (if key(s[0]) == k then 1 else 0) + rest
  }

  /** The position of the first entry of `s` whose key is `k`, or None when there is none. */
  function FirstIndex<T, K(==)>(s: seq<T>, key: T -> K, k: K): (r: Option<nat>)
    ensures r.None? <==> !HasKey(s, key, k)
    ensures r.Some? ==> r.value < |s| && key(s[r.value]) == k &&
                        forall j :: 0 <= j < r.value ==> key(s[j]) != k
  {
    if s == [] then None
    else if key(s[0]) == k then Some(0)
    else
      var r := FirstIndex(s[1..], key, k);
      assert forall j :: 1 <= j < |s| ==> s[j] == s[1..][j - 1];
      if r.None? then None else Some(r.value + 1)
  }

  /**
   * The first entry of `s` whose key is `k`, or None when there is none
   * (JavaScript's `s.find(x => key(x) === k)`).
   */
  function FindFirst<T, K(==)>(s: seq<T>, key: T -> K, k: K): (r: Option<T>)
    ensures r.None? <==> !HasKey(s, key, k)
    ensures r.Some? ==> exists i :: 0 <= i < |s| && s[i] == r.value && key(s[i]) == k &&
                                    forall j :: 0 <= j < i ==> key(s[j]) != k
  {
    var i := FirstIndex(s, key, k);
    if i.None? then None else Some(s[i.value])
  }

  /**
   * `s` without the entries whose key is `k`, the others kept in order
   * (JavaScript's `s.filter(x => key(x) !== k)`).
   */
  function Without<T, K(==)>(s: seq<T>, key: T -> K, k: K): (r: seq<T>)
    ensures |r| + CountKey(s, key, k) == |s|
    ensures forall i :: 0 <= i < |r| ==> r[i] in s && key(r[i]) != k
    ensures forall i :: 0 <= i < |s| && key(s[i]) != k ==> s[i] in r
    ensures !HasKey(r, key, k)
  {
    if s == [] then []
    else
      var rest := Without(s[1..], key, k);
      var r := (if key(s[0]) == k then [] else [s[0]]) + rest;
      assert forall i :: 0 <= i < |rest| ==> rest[i] in s by {
        forall i | 0 <= i < |rest| ensures rest[i] in s {
          var j :| 0 <= j < |s[1..]| && s[1..][j] == rest[i];
          assert s[j + 1] == rest[i];
        }
      }
      assert forall i :: 0 <= i < |r| ==> r[i] in s && key(r[i]) != k by {
        forall i | 0 <= i < |r| ensures r[i] in s && key(r[i]) != k {
          if key(s[0]) != k && i == 0 {
          } else {
            var off := if key(s[0]) == k then 0 else 1;
            assert r[i] == rest[i - off];
          }
        }
      }
      assert forall i :: 0 <= i < |s| && key(s[i]) != k ==> s[i] in r by {
        forall i | 0 <= i < |s| && key(s[i]) != k ensures s[i] in r {
          if i > 0 { assert s[i] == s[1..][i - 1]; }
        }
      }
      r
  }

  /**
   * Filtering keeps every other entry exactly as often as it occurs and
   * drops every entry with the key; with WithoutAppend this fixes the
   * result as the order-preserving filter.
   */
  lemma {:induction false} WithoutMultiset<T, K>(s: seq<T>, key: T -> K, k: K, x: T)
    ensures multiset(Without(s, key, k))[x] == if key(x) == k then 0 else multiset(s)[x]
  {
    if s != [] {
      WithoutMultiset(s[1..], key, k, x);
      assert s == [s[0]] + s[1..];
      var head := if key(s[0]) == k then [] else [s[0]];
      assert Without(s, key, k) == head + Without(s[1..], key, k);
      assert multiset(Without(s, key, k)) == multiset(head) + multiset(Without(s[1..], key, k));
      assert multiset(s) == multiset([s[0]]) + multiset(s[1..]);
    }
  }

  /** A key occurs in a concatenation exactly when it occurs in one of the parts. */
  lemma HasKeyAppend<T, K>(a: seq<T>, b: seq<T>, key: T -> K, k: K)
    ensures HasKey(a + b, key, k) <==> HasKey(a, key, k) || HasKey(b, key, k)
  {
    if HasKey(a + b, key, k) {
      var i :| 0 <= i < |a + b| && key((a + b)[i]) == k;
      if i < |a| { assert (a + b)[i] == a[i]; } else { assert (a + b)[i] == b[i - |a|]; }
    }
    if HasKey(a, key, k) {
      var i :| 0 <= i < |a| && key(a[i]) == k;
      assert (a + b)[i] == a[i];
    }
    if HasKey(b, key, k) {
      var i :| 0 <= i < |b| && key(b[i]) == k;
      assert (a + b)[|a| + i] == b[i];
    }
  }

  /** Filtering by a key distributes over concatenation: the survivors keep their order. */
  lemma {:induction false} WithoutAppend<T, K>(a: seq<T>, b: seq<T>, key: T -> K, k: K)
    ensures Without(a + b, key, k) == Without(a, key, k) + Without(b, key, k)
  {
    if a == [] {
      assert a + b == b;
    } else {
      assert (a + b)[1..] == a[1..] + b;
      WithoutAppend(a[1..], b, key, k);
    }
  }

  /** Filtering out a key that does not occur leaves the list as it was. */
  lemma {:induction false} WithoutAbsent<T, K>(s: seq<T>, key: T -> K, k: K)
    requires !HasKey(s, key, k)
    ensures Without(s, key, k) == s
  {
    if s != [] {
      assert !HasKey(s[1..], key, k) by {
        forall i | 0 <= i < |s[1..]| ensures key(s[1..][i]) != k {
          assert s[1..][i] == s[i + 1];
        }
      }
      WithoutAbsent(s[1..], key, k);
      assert key(s[0]) != k;
      assert s == [s[0]] + s[1..];
    }
  }

  /** Filtering keeps keys distinct. */
  lemma {:induction false} WithoutDistinct<T, K>(s: seq<T>, key: T -> K, k: K)
    requires DistinctKeys(s, key)
    ensures DistinctKeys(Without(s, key, k), key)
  {
    if s != [] {
      assert DistinctKeys(s[1..], key) by {
        forall i, j | 0 <= i < j < |s[1..]| ensures key(s[1..][i]) != key(s[1..][j]) {
          assert s[1..][i] == s[i + 1] && s[1..][j] == s[j + 1];
        }
      }
      WithoutDistinct(s[1..], key, k);
      var rest := Without(s[1..], key, k);
      if key(s[0]) != k {
        var r := [s[0]] + rest;
        forall i, j | 0 <= i < j < |r| ensures key(r[i]) != key(r[j]) {
          if i == 0 {
            assert r[j] == rest[j - 1];
            var m :| 0 <= m < |s[1..]| && s[1..][m] == rest[j - 1];
            assert s[m + 1] == rest[j - 1];
          } else {
            assert r[i] == rest[i - 1] && r[j] == rest[j - 1];
          }
        }
      }
    }
  }

  /** With distinct keys, a key occurs at most once. */
  lemma {:induction false} CountKeyDistinct<T, K>(s: seq<T>, key: T -> K, k: K)
    requires DistinctKeys(s, key)
    ensures CountKey(s, key, k) == if HasKey(s, key, k) then 1 else 0
  {
    if s != [] {
      assert DistinctKeys(s[1..], key) by {
        forall i, j | 0 <= i < j < |s[1..]| ensures key(s[1..][i]) != key(s[1..][j]) {
          assert s[1..][i] == s[i + 1] && s[1..][j] == s[j + 1];
        }
      }
      CountKeyDistinct(s[1..], key, k);
    }
  }
}
