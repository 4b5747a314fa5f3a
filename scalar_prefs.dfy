/**
 * PrefDelegate and its typed subclasses (BooleanPref, IntPref, StringPref,
 * StringSetPref and their Mutable variants): a property bound to one stored
 * key, read from the committed store with a default and written through the
 * edit-mode routing.
 */
module ScalarPrefs {
  import opened Wrappers
  import opened PrefStore
  import opened LawnchairPrefs

  class PrefDelegate {
    const prefs: LawnchairPreferences
    const key: string
    /** The typed getter and setter the subclass uses. */
    const kind: Kind
    /** The default; None is a null default (StringSetPref). */
    const defaultValue: Option<Value>

    /** init: register onChange under key unless it is doNothing. */
    constructor (prefs: LawnchairPreferences, key: string, kind: Kind, defaultValue: Option<Value>, onChange: Callback)
      requires prefs.Valid()
      requires defaultValue.Some? ==> KindOf(defaultValue.value) == kind
      modifies prefs
      ensures this.prefs == prefs && this.key == key && this.kind == kind && this.defaultValue == defaultValue
      ensures prefs.Valid()
      ensures prefs.onChangeMap == Register(old(prefs.onChangeMap), key, onChange)
      ensures prefs.store == old(prefs.store) && prefs.editor == old(prefs.editor)
      ensures prefs.blockingEditing == old(prefs.blockingEditing) && prefs.bulkEditing == old(prefs.bulkEditing)
      ensures prefs.onChangeCallback == old(prefs.onChangeCallback)
      ensures prefs.flushes == old(prefs.flushes) && prefs.notified == old(prefs.notified)
    {
      this.prefs := prefs;
      this.key := key;
      this.kind := kind;
      this.defaultValue := defaultValue;
      new;
      prefs.RegisterOnChange(key, onChange);
    }

    /**
     * getKey(property) is `key ?: getPrefKey(property.name)`; key is never
     * null, so the property's name is never consulted.
     */
    function GetKey(propertyName: string): (r: string)
      ensures r == key
    {
      key
    }

    /** getValue: the typed read of the committed store (not of a pending bulk edit). */
    function GetValue(propertyName: string): (r: Result<Option<Value>, PrefError>)
      reads prefs
      requires defaultValue.Some? ==> KindOf(defaultValue.value) == kind
      ensures GetKey(propertyName) !in prefs.store ==> r == Success(defaultValue)
      ensures r.Success? && GetKey(propertyName) in prefs.store ==> r == Success(Some(prefs.store[GetKey(propertyName)]))
      ensures r.Failure? <==> GetKey(propertyName) in prefs.store && KindOf(prefs.store[GetKey(propertyName)]) != kind
    {
      Lookup(prefs.store, GetKey(propertyName), kind, defaultValue)
    }

    /**
     * setValue (the Mutable variants): edit { putX(getKey(property), value) }.
     * A null string set is a removal.
     */
    method SetValue(propertyName: string, value: Option<Value>)
      requires prefs.Valid()
      requires value.Some? ==> KindOf(value.value) == kind
      requires value.None? ==> kind == StringSetKind
      modifies prefs
      ensures prefs.Valid()
      ensures prefs.Routed(map[GetKey(propertyName) := value])
      ensures prefs.Effective() == Apply(old(prefs.Effective()), map[GetKey(propertyName) := value])
    {
      prefs.Edit(map[GetKey(propertyName) := value]);
    }
  }

  /**
   * A delegate write inside a bulk edit stays invisible to reads until
   * endBulkEdit, and is visible afterwards.
   */
  method BulkWriteInvisibleUntilEnd(initial: Store, key: string, v: Value, default: Value)
      returns (during: Result<Option<Value>, PrefError>, after: Result<Option<Value>, PrefError>)
    requires KindOf(default) == KindOf(v)
    ensures during == Lookup(initial, key, KindOf(v), Some(default))
    ensures after == Success(Some(v))
  {
    var prefs := new LawnchairPreferences(initial);
    var pref := new PrefDelegate(prefs, key, KindOf(v), Some(default), DoNothing);
    prefs.BeginBulkEdit();
    pref.SetValue("property", Some(v));
    during := pref.GetValue("property");
    var ok := prefs.EndBulkEdit();
    after := pref.GetValue("property");
  }
}
