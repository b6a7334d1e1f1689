/** Declarations shared by the models of the relay's files. */
module Common {
  datatype Option<+T> = None | Some(value: T)

  const TWO_32: nat := 0x1_0000_0000

  type uint8 = n: nat | n < 0x100
  type uint16 = n: nat | n < 0x1_0000
  type uint32 = n: nat | n < TWO_32

  /** A wall-clock reading in nanoseconds; 0 is Go's zero time. */
  type Time = nat

  const SECOND: Time := 1_000_000_000

  /** `Time.Unix()`: whole seconds, truncated. */
  function Unix(t: Time): nat {
    t / SECOND
  }

  /** The entries of `m` that `drop` does not select. */
  ghost function Without<K, V>(m: map<K, V>, drop: (K, V) -> bool): map<K, V> {
    map k | k in m && !drop(k, m[k]) :: m[k]
  }

  /** Go's `for key, value := range m { if drop(key, value) { delete(m, key) } }`, in any order. */
  method DeleteWhere<K(==), V>(m: map<K, V>, drop: (K, V) -> bool) returns (r: map<K, V>)
    ensures r == Without(m, drop)
  {
    r := m;
    var todo := m.Keys;
    while todo != {}
      invariant todo <= r.Keys <= m.Keys
      invariant forall k :: k in r ==> r[k] == m[k]
      invariant forall k :: k in m ==> (k in r <==> k in todo || !drop(k, m[k]))
    {
      var k :| k in todo;
      todo := todo - {k};
      if drop(k, m[k]) {
        r := r - {k};
      }
    }
  }

  lemma {:induction false} SubsetSize<T>(a: set<T>, b: set<T>)
    requires a <= b
    ensures |a| <= |b|
  {
    if a != {} {
      var x :| x in a;
      SubsetSize(a - {x}, b - {x});
    }
  }

  lemma MapSize<K, V>(m: map<K, V>, keys: set<K>)
    requires m.Keys <= keys
    ensures |m| <= |keys|
  {
    SubsetSize(m.Keys, keys);
    assert |m| == |m.Keys|;
  }

  /** An injection bounds the size of its domain by the size of any set holding its image. */
  lemma {:induction false} InjectionSize<A, B>(dom: set<A>, f: A -> B, img: set<B>)
    requires forall a :: a in dom ==> f(a) in img
    requires forall a, b :: a in dom && b in dom && f(a) == f(b) ==> a == b
    ensures |dom| <= |img|
  {
    if dom != {} {
      var x :| x in dom;
      InjectionSize(dom - {x}, f, img - {f(x)});
    }
  }
}
