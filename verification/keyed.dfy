/**
 * Insertion-ordered keyed collections with the semantics of JavaScript's
 * `Map` and `Set`: `new Map(entries)` keeps one entry per key, at the position
 * where the key was first inserted, holding the value inserted last; `new Set(xs)`
 * is the special case where the key is the element itself.
 *
 * A collection is represented by the sequence of its values in iteration
 * order, together with the function that computes each value's key.
 */
module Keyed {
  import opened Maybe

  /** Every key occurs at most once. */
  predicate UniqueKeys<T, K(==)>(s: seq<T>, key: T -> K) {
    forall i, j :: 0 <= i < j < |s| ==> key(s[i]) != key(s[j])
  }

  /** The set of keys present in s. */
  function Keys<T, K(==)>(s: seq<T>, key: T -> K): set<K> {
    set i | 0 <= i < |s| :: key(s[i])
  }

  /** Position of the element holding key k, if any (used on collections with unique keys). */
  function IndexOfKey<T, K(==)>(m: seq<T>, key: T -> K, k: K): (r: Option<nat>)
    ensures r.Some? ==> r.value < |m| && key(m[r.value]) == k
    ensures r.None? ==> forall i :: 0 <= i < |m| ==> key(m[i]) != k
    decreases |m|
  {
    if |m| == 0 then None
    else if key(m[0]) == k then Some(0)
    else match IndexOfKey(m[1..], key, k)
      case None => None
      case Some(i) => Some(i + 1)
  }

  /** `map.set(key(x), x)`: overwrite in place when the key is present, append otherwise. */
  function Upsert<T, K(==)>(m: seq<T>, key: T -> K, x: T): seq<T> {
    match IndexOfKey(m, key, key(x))
    case Some(i) => m[i := x]
    case None => m + [x]
  }

  /** The values of `new Map(s.map(x => [key(x), x]))`, in iteration order. */
  function DedupBy<T, K(==)>(s: seq<T>, key: T -> K): seq<T>
    decreases |s|
  {
    if |s| == 0 then [] else Upsert(DedupBy(s[..|s| - 1], key), key, s[|s| - 1])
  }

  /** The last element of s with key k. */
  function LastByKey<T, K(==)>(s: seq<T>, key: T -> K, k: K): (r: Option<T>)
    decreases |s|
  {
    if |s| == 0 then None
    else if key(s[|s| - 1]) == k then Some(s[|s| - 1])
    else LastByKey(s[..|s| - 1], key, k)
  }

  /** The position of the first element of s with key k, or |s| when there is none. */
  function FirstIndex<T, K(==)>(s: seq<T>, key: T -> K, k: K): (r: nat)
    ensures r <= |s|
    ensures r < |s| ==> key(s[r]) == k
    ensures forall i :: 0 <= i < r ==> key(s[i]) != k
    ensures r == |s| <==> k !in Keys(s, key)
    decreases |s|
  {
    if |s| == 0 then 0
    else if key(s[0]) == k then 0
    else
      var r := 1 + FirstIndex(s[1..], key, k);
      assert forall i :: 1 <= i < |s| ==> s[i] == s[1..][i - 1];
      assert k in Keys(s, key) ==> k in Keys(s[1..], key) by {
        if k in Keys(s, key) {
          var i :| 0 <= i < |s| && key(s[i]) == k;
          assert key(s[1..][i - 1]) == k;
        }
      }
      r
  }

  lemma KeysAppend<T, K>(s: seq<T>, key: T -> K, x: T)
    ensures Keys(s + [x], key) == Keys(s, key) + {key(x)}
  {
    var t := s + [x];
    assert key(t[|s|]) == key(x);
    forall k | k in Keys(s, key) ensures k in Keys(t, key) {
      var i :| 0 <= i < |s| && key(s[i]) == k;
      assert key(t[i]) == k;
    }
  }

  lemma KeysUpdate<T, K>(m: seq<T>, key: T -> K, i: nat, x: T)
    requires i < |m| && key(m[i]) == key(x)
    ensures Keys(m[i := x], key) == Keys(m, key)
  {
    var t := m[i := x];
    forall k | k in Keys(m, key) ensures k in Keys(t, key) {
      var j :| 0 <= j < |m| && key(m[j]) == k;
      assert key(t[j]) == k;
    }
    forall k | k in Keys(t, key) ensures k in Keys(m, key) {
      var j :| 0 <= j < |t| && key(t[j]) == k;
      assert key(m[j]) == k;
    }
  }

  /** Appending an element does not move the first occurrence of a key already present. */
  lemma FirstIndexAppend<T, K>(s: seq<T>, key: T -> K, x: T, k: K)
    ensures k in Keys(s, key) ==> FirstIndex(s + [x], key, k) == FirstIndex(s, key, k)
    ensures k !in Keys(s, key) && k == key(x) ==> FirstIndex(s + [x], key, k) == |s|
  {
    var t := s + [x];
    var a := FirstIndex(s, key, k);
    var b := FirstIndex(t, key, k);
    assert forall i :: 0 <= i < |s| ==> t[i] == s[i];
    if k in Keys(s, key) {
      assert a < |s|;
      assert key(t[a]) == k;
    } else if k == key(x) {
      assert key(t[|s|]) == k;
    }
  }

  /** The last occurrence of a key after appending x. */
  lemma LastByKeyAppend<T, K>(s: seq<T>, key: T -> K, x: T, k: K)
    ensures LastByKey(s + [x], key, k) == if key(x) == k then Some(x) else LastByKey(s, key, k)
  {
    assert (s + [x])[..|s|] == s;
  }

  /**
   * m is what `new Map(...)` keeps of s: no key occurs twice, the same keys
   * are present, each key holds the value of its LAST occurrence in s, and
   * keys appear in the order of their FIRST occurrence in s.
   */
  ghost predicate MapOf<T, K>(s: seq<T>, key: T -> K, m: seq<T>) {
    && UniqueKeys(m, key)
    && Keys(m, key) == Keys(s, key)
    && (forall i :: 0 <= i < |m| ==> LastByKey(s, key, key(m[i])) == Some(m[i]))
    && (forall i, j :: 0 <= i < j < |m| ==> FirstIndex(s, key, key(m[i])) < FirstIndex(s, key, key(m[j])))
  }

  /** Overwriting the value of a key that is already present keeps MapOf. */
  lemma UpsertPresent<T, K>(p: seq<T>, key: T -> K, m: seq<T>, x: T, i: nat)
    requires MapOf(p, key, m)
    requires i < |m| && key(m[i]) == key(x)
    ensures MapOf(p + [x], key, m[i := x])
  {
    var s := p + [x];
    var r := m[i := x];
    KeysAppend(p, key, x);
    KeysUpdate(m, key, i, x);
    assert key(x) in Keys(m, key);
    forall j | 0 <= j < |r|
      ensures LastByKey(s, key, key(r[j])) == Some(r[j])
    {
      LastByKeyAppend(p, key, x, key(r[j]));
    }
    forall j | 0 <= j < |r|
      ensures FirstIndex(s, key, key(r[j])) == FirstIndex(p, key, key(r[j]))
    {
      assert key(r[j]) == key(m[j]);
      assert key(m[j]) in Keys(m, key);
      FirstIndexAppend(p, key, x, key(r[j]));
    }
  }

  /** Appending a key that is not yet present keeps MapOf. */
  lemma UpsertAbsent<T, K>(p: seq<T>, key: T -> K, m: seq<T>, x: T)
    requires MapOf(p, key, m)
    requires forall i :: 0 <= i < |m| ==> key(m[i]) != key(x)
    ensures MapOf(p + [x], key, m + [x])
  {
    var s := p + [x];
    var r := m + [x];
    KeysAppend(p, key, x);
    KeysAppend(m, key, x);
    assert key(x) !in Keys(m, key);
    forall j | 0 <= j < |r|
      ensures LastByKey(s, key, key(r[j])) == Some(r[j])
    {
      LastByKeyAppend(p, key, x, key(r[j]));
    }
    forall j | 0 <= j < |m|
      ensures FirstIndex(s, key, key(r[j])) == FirstIndex(p, key, key(r[j])) < |p|
    {
      assert key(m[j]) in Keys(m, key);
      FirstIndexAppend(p, key, x, key(r[j]));
    }
    FirstIndexAppend(p, key, x, key(x));
  }

  /** `new Map(...)` de-duplication is characterised by MapOf. */
  lemma {:induction false} DedupBySpec<T, K>(s: seq<T>, key: T -> K)
    ensures MapOf(s, key, DedupBy(s, key))
    decreases |s|
  {
    if |s| > 0 {
      var p := s[..|s| - 1];
      var x := s[|s| - 1];
      assert s == p + [x];
      var m := DedupBy(p, key);
      DedupBySpec(p, key);
      match IndexOfKey(m, key, key(x))
      case Some(i) =>
        UpsertPresent(p, key, m, x, i);
      case None =>
        UpsertAbsent(p, key, m, x);
    }
  }

  /** A sequence whose keys are already unique is left unchanged. */
  lemma {:induction false} DedupByUnique<T, K>(s: seq<T>, key: T -> K)
    requires UniqueKeys(s, key)
    ensures DedupBy(s, key) == s
    decreases |s|
  {
    if |s| > 0 {
      var p := s[..|s| - 1];
      DedupByUnique(p, key);
      assert forall i :: 0 <= i < |p| ==> key(p[i]) != key(s[|s| - 1]);
      assert s == p + [s[|s| - 1]];
    }
  }
}
