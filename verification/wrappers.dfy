/** Result types shared by the models. */
module Wrappers {

  datatype Option<+T> = None | Some(value: T) {
    function GetOr(default: T): T {
      match this
      case Some(v) => v
      case None => default
    }
  }

  datatype Result<+T, +E> = Ok(value: T) | Err(error: E)
}

/** Counting facts about finite sets and maps that the main proofs share. */
module Counting {

  /** A map with pairwise distinct values has no more keys than `bound` has elements. */
  lemma {:induction false} InjectiveMapBound<K, V>(m: map<K, V>, bound: set<V>)
    requires forall k :: k in m ==> m[k] in bound
    requires forall k, l :: k in m && l in m && m[k] == m[l] ==> k == l
    ensures |m| <= |bound|
  {
    if m != map[] {
      var k :| k in m;
      var rest := m - {k};
      assert rest.Keys == m.Keys - {k};
      InjectiveMapBound(rest, bound - {m[k]});
      assert |rest| == |rest.Keys| == |m.Keys| - 1;
    }
  }

  /** A map with pairwise distinct values has as many values as keys. */
  lemma {:induction false} InjectiveValues<K, V>(m: map<K, V>)
    requires forall k, l :: k in m && l in m && m[k] == m[l] ==> k == l
    ensures |m.Values| == |m|
  {
    if m == map[] {
      assert m.Values == {};
    } else {
      var k :| k in m;
      var rest := m - {k};
      assert rest.Keys == m.Keys - {k};
      assert |rest| == |rest.Keys| == |m.Keys| - 1;
      assert m.Values == rest.Values + {m[k]};
      InjectiveValues(rest);
    }
  }

  lemma {:induction false} SubsetSize<T>(a: set<T>, b: set<T>)
    requires a <= b
    ensures |a| <= |b|
    ensures |a| == |b| ==> a == b
  {
    if a != {} {
      var x :| x in a;
      SubsetSize(a - {x}, b - {x});
      assert a == (a - {x}) + {x} && b == (b - {x}) + {x};
    } else if b != {} {
      var y :| y in b;
      assert |b| == |b - {y}| + 1;
    }
  }
}
