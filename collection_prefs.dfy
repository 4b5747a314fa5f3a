/**
 * MutableListPref and MutableMapPref: a preference whose value is a list or
 * a map kept in memory, edited in place, and re-serialised as a whole under
 * the preference's key after every change.
 */
module CollectionPrefs {
  import opened Wrappers
  import opened PrefStore
  import opened PrefCollections
  import opened LawnchairPrefs

  /** The stored value of a list preference: the JSON array of its flattened items. */
  function ListValue<T>(flattenValue: T -> string, list: seq<T>): (v: Value)
    ensures v.StrV? && v.text.JsonArray? && |v.text.items| == |list|
    ensures forall i :: 0 <= i < |list| ==> v.text.items[i] == flattenValue(list[i])
  {
    StrV(JsonArray(FlattenAll(flattenValue, list)))
  }

  /**
   * After a list preference saved, a new list preference over the store
   * loads the same list, whenever unflattenValue undoes flattenValue.
   */
  lemma ListReload<T>(s: Store, key: string, flattenValue: T -> string, unflattenValue: string -> T, list: seq<T>)
    requires forall x :: unflattenValue(flattenValue(x)) == x
    ensures LoadList(s[key := ListValue(flattenValue, list)], key).Success?
    ensures FlattenAll(unflattenValue, LoadList(s[key := ListValue(flattenValue, list)], key).value) == list
  {
    FlattenRoundTrip(flattenValue, unflattenValue, list);
  }

  class MutableListPref<T(==)> {
    const prefs: LawnchairPreferences
    const prefKey: string
    const flattenValue: T -> string
    const unflattenValue: string -> T
    var valueList: seq<T>

    /**
     * init: unflatten the items read from the store, in order, and register
     * onChange under prefKey unless it is doNothing.
     */
    constructor Load(prefs: LawnchairPreferences, prefKey: string, onChange: Callback,
                     flattenValue: T -> string, unflattenValue: string -> T, items: seq<string>)
      requires prefs.Valid()
      modifies prefs
      ensures this.prefs == prefs && this.prefKey == prefKey
      ensures this.flattenValue == flattenValue && this.unflattenValue == unflattenValue
      ensures valueList == FlattenAll(unflattenValue, items)
      ensures prefs.Valid()
      ensures prefs.onChangeMap == Register(old(prefs.onChangeMap), prefKey, onChange)
      ensures prefs.store == old(prefs.store) && prefs.editor == old(prefs.editor)
      ensures prefs.blockingEditing == old(prefs.blockingEditing) && prefs.bulkEditing == old(prefs.bulkEditing)
      ensures prefs.onChangeCallback == old(prefs.onChangeCallback)
      ensures prefs.flushes == old(prefs.flushes) && prefs.notified == old(prefs.notified)
    {
      this.prefs := prefs;
      this.prefKey := prefKey;
      this.flattenValue := flattenValue;
      this.unflattenValue := unflattenValue;
      var list: seq<T> := [];
      for i := 0 to |items|
        invariant list == FlattenAll(unflattenValue, items[..i])
      {
        list := list + [unflattenValue(items[i])];
      }
      assert items[..|items|] == items;
      valueList := list;
      new;
      prefs.RegisterOnChange(prefKey, onChange);
    }

    /** toList(): a copy of the current contents; nothing changes. */
    method ToList() returns (r: seq<T>)
      ensures r == valueList
    {
      r := valueList;
    }

    /** get(position) */
    function Get(position: nat): (r: T)
      reads this
      requires position < |valueList|
      ensures r == valueList[position]
    {
      valueList[position]
    }

    /** The value saveChanges writes for the current contents. */
    ghost function Persisted(): (v: Value)
      reads this
    {
      ListValue(flattenValue, valueList)
    }

    /**
     * saveChanges: flatten every item in order into one JSON array and put
     * it under prefKey, routed by the edit mode.
     */
    method SaveChanges()
      requires prefs.Valid()
      modifies prefs
      ensures prefs.Valid()
      ensures prefs.Routed(map[prefKey := Some(Persisted())])
      ensures prefs.Effective()[prefKey] == Persisted()
    {
      var arr: seq<string> := [];
      for i := 0 to |valueList|
        invariant arr == FlattenAll(flattenValue, valueList[..i])
      {
        arr := arr + [flattenValue(valueList[i])];
      }
      assert valueList[..|valueList|] == valueList;
      prefs.Edit(map[prefKey := Some(StrV(JsonArray(arr)))]);
    }

    /** set(position, value): replace that element only, then save. */
    method Set(position: nat, value: T)
      requires prefs.Valid() && position < |valueList|
      modifies this, prefs
      ensures prefs.Valid()
      ensures valueList == ReplaceAt(old(valueList), position, value)
      ensures prefs.Routed(map[prefKey := Some(Persisted())])
      ensures prefs.Effective()[prefKey] == Persisted()
    {
      valueList := valueList[position := value];
      SaveChanges();
    }

    /** add(value): append, then save. */
    method Add(value: T)
      requires prefs.Valid()
      modifies this, prefs
      ensures prefs.Valid()
      ensures valueList == old(valueList) + [value]
      ensures prefs.Routed(map[prefKey := Some(Persisted())])
      ensures prefs.Effective()[prefKey] == Persisted()
    {
      valueList := valueList + [value];
      SaveChanges();
    }

    /** add(position, value): insert, shifting later elements up, then save. */
    method AddAt(position: nat, value: T)
      requires prefs.Valid() && position <= |valueList|
      modifies this, prefs
      ensures prefs.Valid()
      ensures valueList == InsertAt(old(valueList), position, value)
      ensures prefs.Routed(map[prefKey := Some(Persisted())])
      ensures prefs.Effective()[prefKey] == Persisted()
    {
      valueList := valueList[..position] + [value] + valueList[position..];
      SaveChanges();
    }

    /** remove(value): drop the first element equal to value, if any, then save. */
    method Remove(value: T)
      requires prefs.Valid()
      modifies this, prefs
      ensures prefs.Valid()
      ensures valueList == RemoveFirst(old(valueList), value)
      ensures value !in old(valueList) ==> valueList == old(valueList)
      ensures value in old(valueList) ==> valueList == RemoveAt(old(valueList), IndexOf(old(valueList), value))
      ensures prefs.Routed(map[prefKey := Some(Persisted())])
      ensures prefs.Effective()[prefKey] == Persisted()
    {
      RemoveFirstSpec(valueList, value);
      var i := 0;
      while i < |valueList| && valueList[i] != value
        invariant 0 <= i <= |valueList|
        invariant forall j :: 0 <= j < i ==> valueList[j] != value
      {
        i := i + 1;
      }
      if i < |valueList| {
        assert IndexOf(valueList, value) == i by { IndexOfUnique(valueList, value, i); }
        valueList := valueList[..i] + valueList[i + 1..];
      }
      SaveChanges();
    }

    /** removeAt(position): drop that element, shifting later ones down, then save. */
    method RemoveAtPosition(position: nat)
      requires prefs.Valid() && position < |valueList|
      modifies this, prefs
      ensures prefs.Valid()
      ensures valueList == RemoveAt(old(valueList), position)
      ensures |valueList| == |old(valueList)| - 1
      ensures prefs.Routed(map[prefKey := Some(Persisted())])
      ensures prefs.Effective()[prefKey] == Persisted()
    {
      valueList := valueList[..position] + valueList[position + 1..];
      SaveChanges();
    }
  }

  /** The first index holding x is the one IndexOf finds. */
  lemma IndexOfUnique<T>(s: seq<T>, x: T, i: nat)
    requires i < |s| && s[i] == x
    requires forall j :: 0 <= j < i ==> s[j] != x
    ensures IndexOf(s, x) == i
  {
  }

  /**
   * Constructing a list preference: JSONArray(getString(prefKey, "[]")) may
   * throw (the key holds another kind, or a string that is not a JSON array),
   * and then nothing is registered; an absent key starts empty.
   */
  method NewMutableListPref<T(==)>(prefs: LawnchairPreferences, prefKey: string, onChange: Callback,
                                   flattenValue: T -> string, unflattenValue: string -> T)
      returns (r: Result<MutableListPref<T>, PrefError>)
    requires prefs.Valid()
    modifies prefs
    ensures prefs.Valid()
    ensures r.Failure? <==> LoadList(old(prefs.store), prefKey).Failure?
    ensures r.Failure? ==> r.error == LoadList(old(prefs.store), prefKey).error
    ensures r.Failure? ==> prefs.onChangeMap == old(prefs.onChangeMap)
    ensures r.Success? ==> fresh(r.value) && r.value.prefs == prefs && r.value.prefKey == prefKey
    ensures r.Success? ==> r.value.flattenValue == flattenValue && r.value.unflattenValue == unflattenValue
    ensures r.Success? ==> r.value.valueList == FlattenAll(unflattenValue, LoadList(old(prefs.store), prefKey).value)
    ensures r.Success? && prefKey !in old(prefs.store) ==> r.value.valueList == []
    ensures r.Success? ==> prefs.onChangeMap == Register(old(prefs.onChangeMap), prefKey, onChange)
    ensures prefs.store == old(prefs.store) && prefs.editor == old(prefs.editor)
    ensures prefs.blockingEditing == old(prefs.blockingEditing) && prefs.bulkEditing == old(prefs.bulkEditing)
    ensures prefs.onChangeCallback == old(prefs.onChangeCallback)
    ensures prefs.flushes == old(prefs.flushes) && prefs.notified == old(prefs.notified)
  {
    var loaded := LoadList(prefs.store, prefKey);
    if loaded.Failure? {
      r := Failure(loaded.error);
    } else {
      var p := new MutableListPref.Load(prefs, prefKey, onChange, flattenValue, unflattenValue, loaded.value);
      r := Success(p);
    }
  }

  /** The stored value of a map preference whose flattened form is fields. */
  function MapValue(fields: map<string, string>): (v: Value)
    ensures v.StrV? && v.text == JsonObject(fields)
  {
    StrV(JsonObject(fields))
  }

  /**
   * After a map preference saved, a new map preference over the store loads
   * the same map, whenever the unflatten functions undo the flatten ones.
   */
  lemma MapReload<K, V>(s: Store, key: string, m: map<K, V>,
                        flattenKey: K -> string, flattenValue: V -> string,
                        unflattenKey: string -> K, unflattenValue: string -> V,
                        fields: map<string, string>, m': map<K, V>)
    requires forall k :: unflattenKey(flattenKey(k)) == k
    requires forall v :: unflattenValue(flattenValue(v)) == v
    requires IsImage(m, flattenKey, flattenValue, fields)
    requires IsImage(LoadMap(s[key := MapValue(fields)], key).value, unflattenKey, unflattenValue, m')
    ensures m' == m
  {
    ImageRoundTrip(m, flattenKey, flattenValue, unflattenKey, unflattenValue, fields, m');
  }

  class MutableMapPref<K(==), V> {
    const prefs: LawnchairPreferences
    const prefKey: string
    const flattenKey: K -> string
    const unflattenKey: string -> K
    const flattenValue: V -> string
    const unflattenValue: string -> V
    var valueMap: map<K, V>

    /**
     * init: put unflattenKey(s) := unflattenValue(fields[s]) for every field
     * s read from the store, and register onChange under prefKey unless it is
     * doNothing.
     */
    constructor Load(prefs: LawnchairPreferences, prefKey: string, onChange: Callback,
                     flattenKey: K -> string, unflattenKey: string -> K,
                     flattenValue: V -> string, unflattenValue: string -> V,
                     fields: map<string, string>)
      requires prefs.Valid()
      modifies prefs
      ensures this.prefs == prefs && this.prefKey == prefKey
      ensures this.flattenKey == flattenKey && this.unflattenKey == unflattenKey
      ensures this.flattenValue == flattenValue && this.unflattenValue == unflattenValue
      ensures IsImage(fields, unflattenKey, unflattenValue, valueMap)
      ensures prefs.Valid()
      ensures prefs.onChangeMap == Register(old(prefs.onChangeMap), prefKey, onChange)
      ensures prefs.store == old(prefs.store) && prefs.editor == old(prefs.editor)
      ensures prefs.blockingEditing == old(prefs.blockingEditing) && prefs.bulkEditing == old(prefs.bulkEditing)
      ensures prefs.onChangeCallback == old(prefs.onChangeCallback)
      ensures prefs.flushes == old(prefs.flushes) && prefs.notified == old(prefs.notified)
    {
      this.prefs := prefs;
      this.prefKey := prefKey;
      this.flattenKey := flattenKey;
      this.unflattenKey := unflattenKey;
      this.flattenValue := flattenValue;
      this.unflattenValue := unflattenValue;
      var m: map<K, V> := map[];
      var rest := fields.Keys;
      while rest != {}
        invariant rest <= fields.Keys
        invariant ImageOn(fields, fields.Keys - rest, unflattenKey, unflattenValue, m)
        modifies {}
        decreases rest
      {
        var s :| s in rest;
        ImageOnExtend(fields, fields.Keys - rest, unflattenKey, unflattenValue, m, s);
        m := m[unflattenKey(s) := unflattenValue(fields[s])];
        assert fields.Keys - (rest - {s}) == (fields.Keys - rest) + {s};
        rest := rest - {s};
      }
      valueMap := m;
      new;
      prefs.RegisterOnChange(prefKey, onChange);
    }

    /** toMap(): a copy of the current contents; nothing changes. */
    method ToMap() returns (r: map<K, V>)
      ensures r == valueMap
    {
      r := valueMap;
    }

    /** get(key): the value for key, or null. */
    function Get(key: K): (r: Option<V>)
      reads this
      ensures r.Some? <==> key in valueMap
      ensures r.Some? ==> r.value == valueMap[key]
    {
      if key in valueMap then Some(valueMap[key]) else None
    }

    /**
     * saveChanges: put every entry's flattened key and value into one JSON
     * object, in the map's iteration order, and put it under prefKey, routed
     * by the edit mode. Returns the object that was written.
     */
    method SaveChanges() returns (obj: map<string, string>)
      requires prefs.Valid()
      modifies prefs
      ensures prefs.Valid()
      ensures IsImage(valueMap, flattenKey, flattenValue, obj)
      ensures prefs.Routed(map[prefKey := Some(MapValue(obj))])
      ensures prefs.Effective()[prefKey] == MapValue(obj)
    {
      obj := map[];
      var rest := valueMap.Keys;
      while rest != {}
        invariant rest <= valueMap.Keys
        invariant ImageOn(valueMap, valueMap.Keys - rest, flattenKey, flattenValue, obj)
        modifies {}
        decreases rest
      {
        var k :| k in rest;
        ImageOnExtend(valueMap, valueMap.Keys - rest, flattenKey, flattenValue, obj, k);
        obj := obj[flattenKey(k) := flattenValue(valueMap[k])];
        assert valueMap.Keys - (rest - {k}) == (valueMap.Keys - rest) + {k};
        rest := rest - {k};
      }
      prefs.Edit(map[prefKey := Some(MapValue(obj))]);
    }

    /**
     * set(key, value): a value puts, null removes; no other key changes;
     * then save. Returns the object that was written.
     */
    method Set(key: K, value: Option<V>) returns (obj: map<string, string>)
      requires prefs.Valid()
      modifies this, prefs
      ensures prefs.Valid()
      ensures valueMap == MapSet(old(valueMap), key, value)
      ensures Get(key) == value
      ensures IsImage(valueMap, flattenKey, flattenValue, obj)
      ensures prefs.Routed(map[prefKey := Some(MapValue(obj))])
      ensures prefs.Effective()[prefKey] == MapValue(obj)
    {
      if value.Some? {
        valueMap := valueMap[key := value.value];
      } else {
        valueMap := valueMap - {key};
      }
      obj := SaveChanges();
    }
  }

  /**
   * Constructing a map preference: JSONObject(getString(prefKey, "{}")) may
   * throw, and then nothing is registered; an absent key starts empty.
   */
  method NewMutableMapPref<K(==), V>(prefs: LawnchairPreferences, prefKey: string, onChange: Callback,
                                     flattenKey: K -> string, unflattenKey: string -> K,
                                     flattenValue: V -> string, unflattenValue: string -> V)
      returns (r: Result<MutableMapPref<K, V>, PrefError>)
    requires prefs.Valid()
    modifies prefs
    ensures prefs.Valid()
    ensures r.Failure? <==> LoadMap(old(prefs.store), prefKey).Failure?
    ensures r.Failure? ==> r.error == LoadMap(old(prefs.store), prefKey).error
    ensures r.Failure? ==> prefs.onChangeMap == old(prefs.onChangeMap)
    ensures r.Success? ==> fresh(r.value) && r.value.prefs == prefs && r.value.prefKey == prefKey
    ensures r.Success? ==> r.value.flattenKey == flattenKey && r.value.unflattenKey == unflattenKey
    ensures r.Success? ==> r.value.flattenValue == flattenValue && r.value.unflattenValue == unflattenValue
    ensures r.Success? ==> IsImage(LoadMap(old(prefs.store), prefKey).value, unflattenKey, unflattenValue, r.value.valueMap)
    ensures r.Success? && prefKey !in old(prefs.store) ==> r.value.valueMap == map[]
    ensures r.Success? ==> prefs.onChangeMap == Register(old(prefs.onChangeMap), prefKey, onChange)
    ensures prefs.store == old(prefs.store) && prefs.editor == old(prefs.editor)
    ensures prefs.blockingEditing == old(prefs.blockingEditing) && prefs.bulkEditing == old(prefs.bulkEditing)
    ensures prefs.onChangeCallback == old(prefs.onChangeCallback)
    ensures prefs.flushes == old(prefs.flushes) && prefs.notified == old(prefs.notified)
  {
    var loaded := LoadMap(prefs.store, prefKey);
    if loaded.Failure? {
      r := Failure(loaded.error);
    } else {
      var p := new MutableMapPref.Load(prefs, prefKey, onChange, flattenKey, unflattenKey,
                                       flattenValue, unflattenValue, loaded.value);
      r := Success(p);
      if prefKey !in old(prefs.store) {
        EmptyImage(loaded.value, unflattenKey, unflattenValue, p.valueMap);
      }
    }
  }

  /** The image of the empty map is empty. */
  lemma EmptyImage<A, B, C, D>(m: map<A, B>, fk: A -> C, fv: B -> D, r: map<C, D>)
    requires m == map[] && IsImage(m, fk, fv, r)
    ensures r == map[]
  {
  }
}
