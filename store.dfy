/**
 * The SharedPreferences store as a value: a map from preference keys to
 * stored values, an editor's pending modifications, and the reads the
 * preference layer performs on it.
 */
module PrefStore {
  import opened Wrappers

  /** Java's int and long, as the ranges their values live in. */
  type Int32 = x: int | -0x8000_0000 <= x < 0x8000_0000
  type Int64 = x: int | -0x8000_0000_0000_0000 <= x < 0x8000_0000_0000_0000

  /**
   * The text of a stored string, abstracted as what it denotes: the JSON
   * array or object that JSONArray/JSONObject.toString() produced, or any
   * other text. The JSON syntax itself is not modelled.
   */
  datatype Text =
    | Plain(s: string)
    | JsonArray(items: seq<string>)
    | JsonObject(fields: map<string, string>)

  /** A value held by SharedPreferences (floats are not modelled). */
  datatype Value =
    | BoolV(b: bool)
    | IntV(i: Int32)
    | LongV(l: Int64)
    | StrV(text: Text)
    | StrSetV(strings: set<string>)

  /** The typed getter a read goes through (getBoolean, getInt, ...). */
  datatype Kind = BoolKind | IntKind | LongKind | StringKind | StringSetKind

  function KindOf(v: Value): (k: Kind)
  {
    match v
    case BoolV(_) => BoolKind
    case IntV(_) => IntKind
    case LongV(_) => LongKind
    case StrV(_) => StringKind
    case StrSetV(_) => StringSetKind
  }

  /** The exceptions a read can throw. */
  datatype PrefError =
    | ClassCast(key: string)   // the key holds a value of another kind
    | JsonParse(key: string)   // the string under the key is not the expected JSON

  type Store = map<string, Value>

  /**
   * The modifications an Editor holds until commit() or apply():
   * Some(v) puts v under the key, None removes the key.
   */
  type Pending = map<string, Option<Value>>

  /** What commit() and apply() do to the in-memory store. */
  function Apply(s: Store, p: Pending): (r: Store)
    ensures forall k :: k in p && p[k].Some? ==> k in r && r[k] == p[k].value
    ensures forall k :: k in p && p[k].None? ==> k !in r
    ensures forall k :: k !in p ==> (k in r <==> k in s) && (k in r ==> r[k] == s[k])
  {
    map k | k in s.Keys + p.Keys && (k in p ==> p[k].Some?) :: if k in p then p[k].value else s[k]
  }

  /** Flushing an empty editor changes nothing. */
  lemma ApplyEmpty(s: Store)
    ensures Apply(s, map[]) == s
  {
  }

  /**
   * Flushing two editors one after the other has the same effect as
   * flushing one editor that received both sets of modifications, the
   * later ones winning.
   */
  lemma ApplyOverride(s: Store, a: Pending, b: Pending)
    ensures Apply(Apply(s, a), b) == Apply(s, a + b)
  {
  }

  /** The editor that has received the modifications ps, in order. */
  function Merge(ps: seq<Pending>): (r: Pending)
    decreases |ps|
  {
    if ps == [] then map[] else ps[0] + Merge(ps[1..])
  }

  /**
   * The shared editor holds key k exactly when some modification touched k,
   * and then holds the modification of the last editor that touched it.
   */
  lemma {:induction false} MergeSpec(ps: seq<Pending>, k: string)
    ensures k in Merge(ps) <==> exists i :: 0 <= i < |ps| && k in ps[i]
    ensures forall i :: 0 <= i < |ps| && k in ps[i] && (forall j :: i < j < |ps| ==> k !in ps[j]) ==> Merge(ps)[k] == ps[i][k]
    decreases |ps|
  {
    if ps != [] {
      var tail := ps[1..];
      MergeSpec(tail, k);
      if k in Merge(ps) && k !in ps[0] {
        var i' :| 0 <= i' < |tail| && k in tail[i'];
        assert k in ps[i' + 1];
      }
      forall i | 0 < i < |ps| && k in ps[i]
        ensures k in Merge(ps)
      {
        assert k in tail[i - 1];
      }
      forall i | 0 <= i < |ps| && k in ps[i] && (forall j :: i < j < |ps| ==> k !in ps[j])
        ensures Merge(ps)[k] == ps[i][k]
      {
        if i == 0 {
          assert forall j :: 0 <= j < |tail| ==> k !in tail[j] by {
            forall j | 0 <= j < |tail| ensures k !in tail[j] { assert tail[j] == ps[j + 1]; }
          }
        } else {
          assert forall j :: i - 1 < j < |tail| ==> k !in tail[j] by {
            forall j | i - 1 < j < |tail| ensures k !in tail[j] { assert tail[j] == ps[j + 1]; }
          }
          assert k in tail[i - 1] && tail[i - 1] == ps[i];
        }
      }
    }
  }

  /** Flushing the modifications ps one editor at a time. */
  function ApplySeq(s: Store, ps: seq<Pending>): (r: Store)
    decreases |ps|
  {
    if ps == [] then s else ApplySeq(Apply(s, ps[0]), ps[1..])
  }

  /** Adding one more modification to an editor that has received ps. */
  lemma {:induction false} MergeSnoc(ps: seq<Pending>, p: Pending)
    ensures Merge(ps + [p]) == Merge(ps) + p
    decreases |ps|
  {
    if ps == [] {
      assert [] + [p] == [p];
      assert Merge([p]) == p + Merge([]);
    } else {
      assert (ps + [p])[1..] == ps[1..] + [p];
      MergeSnoc(ps[1..], p);
      var m1, m2 := Merge(ps[1..]), ps[0];
      assert Merge(ps + [p]) == m2 + (m1 + p);
      assert m2 + (m1 + p) == (m2 + m1) + p;
    }
  }

  /**
   * A bulk edit is faithful: flushing the one shared editor leaves the
   * store as flushing every write on its own would have.
   */
  lemma {:induction false} BulkEqualsSequential(s: Store, ps: seq<Pending>)
    ensures Apply(s, Merge(ps)) == ApplySeq(s, ps)
    decreases |ps|
  {
    if ps == [] {
      ApplyEmpty(s);
    } else {
      BulkEqualsSequential(Apply(s, ps[0]), ps[1..]);
      ApplyOverride(s, ps[0], Merge(ps[1..]));
    }
  }

  /**
   * A typed read getX(key, default): the default when the key is absent,
   * the stored value when it has the getter's kind, ClassCastException
   * otherwise. A default of None is a null default (getStringSet).
   */
  function Lookup(s: Store, key: string, kind: Kind, default: Option<Value>): (r: Result<Option<Value>, PrefError>)
    requires default.Some? ==> KindOf(default.value) == kind
    ensures key !in s ==> r == Success(default)
    ensures key in s && KindOf(s[key]) == kind ==> r == Success(Some(s[key]))
    ensures r.Failure? <==> key in s && KindOf(s[key]) != kind
    ensures r.Success? && r.value.Some? ==> KindOf(r.value.value) == kind
  {
    if key !in s then Success(default)
    else if KindOf(s[key]) == kind then Success(Some(s[key]))
    else Failure(ClassCast(key))
  }

  /** getString(key, default): the text under key, or the default text. */
  function ReadText(s: Store, key: string, default: Text): (r: Result<Text, PrefError>)
    ensures key !in s ==> r == Success(default)
    ensures r.Success? && key in s ==> s[key] == StrV(r.value)
    ensures r.Failure? <==> key in s && !s[key].StrV?
  {
    match Lookup(s, key, StringKind, Some(StrV(default)))
    case Success(v) => Success(v.value.text)
    case Failure(e) => Failure(e)
  }

  /**
   * JSONArray(getString(key, "[]")): the string items persisted under key.
   * An absent key reads as the empty array.
   */
  function LoadList(s: Store, key: string): (r: Result<seq<string>, PrefError>)
    ensures key !in s ==> r == Success([])
    ensures r.Success? <==> key in s ==> s[key].StrV? && s[key].text.JsonArray?
    ensures r.Success? && key in s ==> s[key] == StrV(JsonArray(r.value))
  {
    match ReadText(s, key, JsonArray([]))
    case Failure(e) => Failure(e)
    case Success(t) => if t.JsonArray? then Success(t.items) else Failure(JsonParse(key))
  }

  /**
   * JSONObject(getString(key, "{}")): the string fields persisted under key.
   * An absent key reads as the empty object.
   */
  function LoadMap(s: Store, key: string): (r: Result<map<string, string>, PrefError>)
    ensures key !in s ==> r == Success(map[])
    ensures r.Success? <==> key in s ==> s[key].StrV? && s[key].text.JsonObject?
    ensures r.Success? && key in s ==> s[key] == StrV(JsonObject(r.value))
  {
    match ReadText(s, key, JsonObject(map[]))
    case Failure(e) => Failure(e)
    case Success(t) => if t.JsonObject? then Success(t.fields) else Failure(JsonParse(key))
  }
}
