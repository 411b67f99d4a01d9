/** A JavaScript object used as a dictionary (`Record<string, V>`): its own
    keys in insertion order together with the value stored under each key.
    `Object.keys` is `order`, `Object.values` is `Values`, and assignment to
    `obj[k]` is `Put`. */
module Records {

  datatype Rec<V> = Rec(order: seq<string>, vals: map<string, V>)

  /** No key occurs twice in `s`. */
  predicate Distinct(s: seq<string>) {
    forall i, j :: 0 <= i < j < |s| ==> s[i] != s[j]
  }

  /** An object never lists a key twice, and lists exactly the keys it stores. */
  predicate WellFormed<V>(r: Rec<V>) {
    && Distinct(r.order)
    && (forall k :: k in r.order ==> k in r.vals)
    && (forall k :: k in r.vals ==> k in r.order)
  }

  type Record<V> = r: Rec<V> | WellFormed(r) witness Rec([], map[])

  /** The object literal `{}`. */
  function Empty<V>(): (r: Record<V>)
    ensures r.order == [] && r.vals == map[]
  {
    Rec([], map[])
  }

  /** `obj[k] = v`: an existing key keeps its position, a new key is appended. */
  function Put<V>(r: Record<V>, k: string, v: V): (r': Record<V>)
    ensures r'.vals == r.vals[k := v]
    ensures k in r.vals ==> r'.order == r.order
    ensures k !in r.vals ==> r'.order == r.order + [k]
  {
    if k in r.vals then Rec(r.order, r.vals[k := v])
    else
      assert forall i :: 0 <= i < |r.order| ==> r.order[i] in r.vals;
      Rec(r.order + [k], r.vals[k := v])
  }

  /** `Object.values(obj)`: the values in key order. */
  function Values<V>(r: Record<V>): (vs: seq<V>)
    ensures |vs| == |r.order|
    ensures forall i :: 0 <= i < |r.order| ==> r.order[i] in r.vals && vs[i] == r.vals[r.order[i]]
  {
    seq(|r.order|, i requires 0 <= i < |r.order| => r.vals[r.order[i]])
  }

  /** Dropping the first key of a sequence without repetitions leaves one
      without repetitions that no longer holds that key. */
  lemma DistinctTail(s: seq<string>)
    requires Distinct(s) && s != []
    ensures Distinct(s[1..])
    ensures s[0] !in s[1..]
  {
    forall i, j | 0 <= i < j < |s[1..]| ensures s[1..][i] != s[1..][j] {
      assert s[1..][i] == s[i + 1] && s[1..][j] == s[j + 1];
    }
    forall i | 0 <= i < |s[1..]| ensures s[1..][i] != s[0] {
      assert s[1..][i] == s[i + 1];
    }
  }

  /** Appending a non-empty sequence is appending its head, then its tail. */
  lemma AppendHeadTail(a: seq<string>, s: seq<string>)
    requires s != []
    ensures a + s == a + [s[0]] + s[1..]
  {
    assert s == [s[0]] + s[1..];
  }

  /** The quantity stored under `k`, or 0 when the key is absent. */
  function Get0(r: Record<real>, k: string): real {
    if k in r.vals then r.vals[k] else 0.0
  }

  /** In a sequence without repetitions every key occurs at most once. */
  lemma {:induction false} DistinctMultiplicity(a: seq<string>, k: string)
    requires Distinct(a)
    ensures multiset(a)[k] == if k in a then 1 else 0
    decreases |a|
  {
    if a != [] {
      assert a == [a[0]] + a[1..];
      assert Distinct(a[1..]) by {
        forall i, j | 0 <= i < j < |a[1..]| ensures a[1..][i] != a[1..][j] {
          assert a[1..][i] == a[i + 1] && a[1..][j] == a[j + 1];
        }
      }
      DistinctMultiplicity(a[1..], k);
      assert a[0] !in a[1..] by {
        forall i | 0 <= i < |a[1..]| ensures a[1..][i] != a[0] {
          assert a[1..][i] == a[i + 1];
        }
      }
    }
  }

  /** Two key sequences that list the same keys, each exactly once, are
      permutations of each other. */
  lemma DistinctSameKeysPermutation(a: seq<string>, b: seq<string>)
    requires Distinct(a) && Distinct(b)
    requires forall k :: k in a <==> k in b
    ensures multiset(a) == multiset(b)
  {
    forall k ensures multiset(a)[k] == multiset(b)[k] {
      DistinctMultiplicity(a, k);
      DistinctMultiplicity(b, k);
    }
  }

  /** Removing the first element of `a` and a matching element of its
      permutation `b` leaves two permutations of each other. */
  lemma PermutationRemove(a: seq<string>, b: seq<string>, j: int)
    requires multiset(a) == multiset(b)
    requires a != [] && 0 <= j < |b| && b[j] == a[0]
    ensures multiset(a[1..]) == multiset(b[..j] + b[j + 1..])
  {
    var x := a[0];
    var rest := b[..j] + b[j + 1..];
    assert a == [x] + a[1..];
    assert b == b[..j] + [x] + b[j + 1..];
    assert multiset(b) == multiset(b[..j]) + multiset{x} + multiset(b[j + 1..]);
    assert multiset(rest) == multiset(b[..j]) + multiset(b[j + 1..]);
    forall y ensures multiset(a[1..])[y] == multiset(rest)[y] {
      assert multiset(a)[y] == multiset{x}[y] + multiset(a[1..])[y];
      assert multiset(b)[y] == multiset{x}[y] + multiset(rest)[y];
    }
  }

  /** The keys of `ks` that `known` does not list, in the order of `ks`. */
  function Fresh(ks: seq<string>, known: seq<string>): (r: seq<string>)
    ensures forall y :: y in r <==> y in ks && y !in known
    ensures |r| <= |ks|
  {
    if ks == [] then []
    else if ks[0] in known then Fresh(ks[1..], known)
    else [ks[0]] + Fresh(ks[1..], known)
  }

  /** Knowing one more key that `ks` does not hold changes nothing. */
  lemma {:induction false} FreshExtend(ks: seq<string>, known: seq<string>, k: string)
    requires k !in ks
    ensures Fresh(ks, known + [k]) == Fresh(ks, known)
  {
    if ks != [] {
      assert ks[0] != k;
      assert k !in ks[1..] by {
        forall i | 0 <= i < |ks[1..]| ensures ks[1..][i] != k {
          assert ks[1..][i] == ks[i + 1];
        }
      }
      assert ks[0] in known + [k] <==> ks[0] in known;
      FreshExtend(ks[1..], known, k);
    }
  }

  /** Appending the fresh keys of `ks` is appending its first key if fresh,
      then the keys of the rest that are fresh after that. */
  lemma AppendFresh(order: seq<string>, ks: seq<string>)
    requires Distinct(ks) && ks != []
    ensures var next := if ks[0] in order then order else order + [ks[0]];
            order + Fresh(ks, order) == next + Fresh(ks[1..], next)
  {
    if ks[0] !in order {
      DistinctTail(ks);
      FreshExtend(ks[1..], order, ks[0]);
      assert order + ([ks[0]] + Fresh(ks[1..], order)) == order + [ks[0]] + Fresh(ks[1..], order);
    }
  }

  /** `s` with every occurrence of `x` removed. */
  function Drop(s: seq<string>, x: string): (r: seq<string>)
    ensures forall y :: y in r <==> y in s && y != x
    ensures Distinct(s) ==> Distinct(r)
  {
    if s == [] then []
    else if s[0] == x then Drop(s[1..], x)
    else
      var rest := Drop(s[1..], x);
      assert Distinct(s) ==> Distinct([s[0]] + rest) by {
        if Distinct(s) {
          DistinctTail(s);
          forall i, j | 0 <= i < j < |[s[0]] + rest| ensures ([s[0]] + rest)[i] != ([s[0]] + rest)[j] {
            if i == 0 {
              assert ([s[0]] + rest)[j] in rest;
            } else {
              assert ([s[0]] + rest)[i] == rest[i - 1] && ([s[0]] + rest)[j] == rest[j - 1];
            }
          }
        }
      }
      [s[0]] + rest
  }

  /** The object without key `k`; the other keys keep their order. */
  function Without<V>(r: Record<V>, k: string): (r': Record<V>)
    ensures r'.order == Drop(r.order, k)
    ensures r'.vals == r.vals - {k}
  {
    Rec(Drop(r.order, k), r.vals - {k})
  }
}
