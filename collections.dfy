/**
 * The list and map operations the collection-backed preferences apply to
 * their in-memory contents (java.util.ArrayList and HashMap semantics),
 * and the relation between a map and its flattened (string-keyed) form.
 */
module PrefCollections {
  import opened Wrappers

  /** ArrayList.set(position, x): only index position changes. */
  function ReplaceAt<T>(s: seq<T>, position: nat, x: T): (r: seq<T>)
    requires position < |s|
    ensures |r| == |s| && r[position] == x
    ensures forall j :: 0 <= j < |s| && j != position ==> r[j] == s[j]
  {
    s[position := x]
  }

  /** ArrayList.add(position, x): x lands at position, later elements move up by one. */
  function InsertAt<T>(s: seq<T>, position: nat, x: T): (r: seq<T>)
    requires position <= |s|
    ensures |r| == |s| + 1 && r[position] == x
    ensures forall j :: 0 <= j < position ==> r[j] == s[j]
    ensures forall j :: position < j < |r| ==> r[j] == s[j - 1]
    ensures multiset(r) == multiset(s) + multiset{x}
  {
    assert s == s[..position] + s[position..];
    s[..position] + [x] + s[position..]
  }

  /** ArrayList.removeAt(position): that index goes, later elements move down by one. */
  function RemoveAt<T>(s: seq<T>, position: nat): (r: seq<T>)
    requires position < |s|
    ensures |r| == |s| - 1
    ensures forall j :: 0 <= j < position ==> r[j] == s[j]
    ensures forall j :: position <= j < |r| ==> r[j] == s[j + 1]
    ensures multiset(r) == multiset(s) - multiset{s[position]}
  {
    assert s == s[..position] + [s[position]] + s[position + 1..];
    s[..position] + s[position + 1..]
  }

  /** indexOf(x) for an element that is present: its first occurrence. */
  function IndexOf<T(==)>(s: seq<T>, x: T): (i: nat)
    requires x in s
    ensures i < |s| && s[i] == x
    ensures forall j :: 0 <= j < i ==> s[j] != x
    decreases |s|
  {
    if s[0] == x then 0 else 1 + IndexOf(s[1..], x)
  }

  /** ArrayList.remove(x): drops the first element equal to x, if any. */
  function RemoveFirst<T(==)>(s: seq<T>, x: T): (r: seq<T>)
    ensures multiset(r) == multiset(s) - multiset{x}
    ensures |r| == if x in s then |s| - 1 else |s|
    decreases |s|
  {
    if s == [] then []
    else if s[0] == x then
      assert s == [s[0]] + s[1..];
      s[1..]
    else
      assert s == [s[0]] + s[1..];
      [s[0]] + RemoveFirst(s[1..], x)
  }

  /** remove(x) leaves a list that does not hold x unchanged. */
  lemma {:induction false} RemoveFirstAbsent<T>(s: seq<T>, x: T)
    requires x !in s
    ensures RemoveFirst(s, x) == s
    decreases |s|
  {
    if s != [] {
      assert x !in s[1..];
      RemoveFirstAbsent(s[1..], x);
      assert s == [s[0]] + s[1..];
    }
  }

  /** remove(x) on a list that holds x deletes exactly its first occurrence. */
  lemma {:induction false} RemoveFirstPresent<T>(s: seq<T>, x: T)
    requires x in s
    ensures RemoveFirst(s, x) == RemoveAt(s, IndexOf(s, x))
    decreases |s|
  {
    if s[0] == x {
      assert s[..0] + s[1..] == s[1..];
    } else {
      assert x in s[1..];
      RemoveFirstPresent(s[1..], x);
      RemoveAtCons(s, IndexOf(s[1..], x));
    }
  }

  /**
   * remove(x) deletes exactly the first occurrence of x, and leaves a list
   * without x unchanged.
   */
  lemma RemoveFirstSpec<T>(s: seq<T>, x: T)
    ensures x !in s ==> RemoveFirst(s, x) == s
    ensures x in s ==> RemoveFirst(s, x) == RemoveAt(s, IndexOf(s, x))
  {
    if x in s {
      RemoveFirstPresent(s, x);
    } else {
      RemoveFirstAbsent(s, x);
    }
  }

  /** Removing below the head commutes with taking the head off. */
  lemma RemoveAtCons<T>(s: seq<T>, i: nat)
    requires i + 1 < |s|
    ensures RemoveAt(s, i + 1) == [s[0]] + RemoveAt(s[1..], i)
  {
  }

  /** The flattened (or unflattened) items of a list, in order. */
  function FlattenAll<A, B>(f: A -> B, s: seq<A>): (r: seq<B>)
    ensures |r| == |s| && forall i :: 0 <= i < |s| ==> r[i] == f(s[i])
  {
    seq(|s|, i requires 0 <= i < |s| => f(s[i]))
  }

  /**
   * Reading back a persisted list gives the list that was saved, whenever
   * unflattenValue undoes flattenValue.
   */
  lemma FlattenRoundTrip<A, B>(f: A -> B, g: B -> A, s: seq<A>)
    requires forall a :: g(f(a)) == a
    ensures FlattenAll(g, FlattenAll(f, s)) == s
  {
  }

  /**
   * HashMap.set(key, value) with a nullable value: a value puts, null
   * removes; no other key changes.
   */
  function MapSet<K, V>(m: map<K, V>, key: K, value: Option<V>): (r: map<K, V>)
    ensures key in r <==> value.Some?
    ensures value.Some? ==> r[key] == value.value
    ensures forall k :: k in m && k != key ==> k in r && r[k] == m[k]
    ensures forall k :: k in r && k != key ==> k in m
  {
    if value.Some? then m[key := value.value] else m - {key}
  }

  /**
   * r is what putting fk(a) := fv(m[a]) for every a of dom, in some order,
   * produces: every a of dom has its flattened key in r, and every entry of
   * r comes from some a of dom (when fk identifies two keys, the later put
   * wins, so either one may be the source).
   */
  ghost predicate ImageOn<A, B, C, D>(m: map<A, B>, dom: set<A>, fk: A -> C, fv: B -> D, r: map<C, D>)
  {
    && dom <= m.Keys
    && (forall a :: a in dom ==> fk(a) in r)
    && (forall c :: c in r ==> exists a :: a in dom && fk(a) == c && r[c] == fv(m[a]))
  }

  /** The flattened form of the whole map m. */
  ghost predicate IsImage<A, B, C, D>(m: map<A, B>, fk: A -> C, fv: B -> D, r: map<C, D>)
  {
    ImageOn(m, m.Keys, fk, fv, r)
  }

  ghost predicate Injective<A(!new), C>(f: A -> C)
  {
    forall a, b :: f(a) == f(b) ==> a == b
  }

  /** One more put while building an image. */
  lemma ImageOnExtend<A, B, C, D>(m: map<A, B>, dom: set<A>, fk: A -> C, fv: B -> D, r: map<C, D>, a: A)
    requires ImageOn(m, dom, fk, fv, r) && a in m
    ensures ImageOn(m, dom + {a}, fk, fv, r[fk(a) := fv(m[a])])
  {
  }

  /**
   * With an injective fk the image is exact: each key's flattened form
   * carries that key's own flattened value, and nothing else is present.
   */
  lemma ImageExact<A(!new), B, C, D>(m: map<A, B>, fk: A -> C, fv: B -> D, r: map<C, D>)
    requires IsImage(m, fk, fv, r) && Injective(fk)
    ensures forall a :: a in m ==> fk(a) in r && r[fk(a)] == fv(m[a])
    ensures |r| == |m|
  {
    forall a | a in m ensures r[fk(a)] == fv(m[a]) {
      var b :| b in m && fk(b) == fk(a) && r[fk(a)] == fv(m[b]);
    }
    var ks := set a | a in m :: fk(a);
    assert r.Keys == ks;
    InjectiveImageSize(m.Keys, fk);
  }

  lemma {:induction false} InjectiveImageSize<A(!new), C>(keys: set<A>, fk: A -> C)
    requires Injective(fk)
    ensures |set a | a in keys :: fk(a)| == |keys|
    decreases keys
  {
    if keys != {} {
      var a :| a in keys;
      InjectiveImageSize(keys - {a}, fk);
      var rest := set b | b in keys - {a} :: fk(b);
      assert (set b | b in keys :: fk(b)) == rest + {fk(a)};
      assert fk(a) !in rest;
    }
  }

  /**
   * Saving a map and reading it back gives the map that was saved, whenever
   * unflattenKey and unflattenValue undo flattenKey and flattenValue.
   */
  lemma ImageRoundTrip<A, B, C, D>(m: map<A, B>, fk: A -> C, fv: B -> D, uk: C -> A, uv: D -> B,
                                   r: map<C, D>, m': map<A, B>)
    requires forall a :: uk(fk(a)) == a
    requires forall b :: uv(fv(b)) == b
    requires IsImage(m, fk, fv, r) && IsImage(r, uk, uv, m')
    ensures m' == m
  {
  }
}
