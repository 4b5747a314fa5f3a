# Lawnchair preferences: a verified model of the preference layer

`LawnchairPreferences` (Kotlin, `src/ch/deletescape/lawnchair/LawnchairPreferences.kt`) wraps Android's
SharedPreferences store with typed, observable properties. This project models its own state logic in Dafny:

- **Collection-backed preferences.** `MutableListPref` and `MutableMapPref` keep an in-memory list or map. They edit
  it in place and then re-serialise the whole collection under their key (`saveChanges`). The list is a `seq<T>`
  field, the map a `map<K, V>` field, and the persisted JSON text is abstracted by what it denotes
  (`Text.JsonArray(items)`, `Text.JsonObject(fields)`).
- **The edit-mode state machine.** The fields `blockingEditing`, `bulkEditing` and `editor`, and the routing of every
  write through `PrefDelegate.edit`/`saveChanges`, `commitOrApply`, `beginBulkEdit`/`endBulkEdit` and
  `beginBlockingEdit`/`endBlockingEdit`. The store is a `map<string, Value>`. An editor is a map of pending
  modifications (`Some(v)` puts, `None` removes). Every flush is recorded in a ghost log with its commit/apply flag.
- **Change dispatch and key naming.** Registration in `onChangeMap` (never for `doNothing`),
  `onSharedPreferenceChanged`, what the registered callbacks forward to the change callback, `getPrefKey` and `getKey`.

Modules: `Wrappers` holds Option and Result. `PrefStore` holds the store and editor values, flushing, typed reads
and JSON loading. `PrefCollections` holds the ArrayList/HashMap operations and the flattened image of a map.
`LawnchairPrefs` holds the `LawnchairPreferences` class, key naming and dispatch. `CollectionPrefs` holds the
list and map preferences. `ScalarPrefs` holds the typed delegates. `Launcher` holds the preferences the class declares.

Main results:
- Every mutation of a collection preference leaves the collection as the matching ArrayList/HashMap operation
  would, and routes one write of the whole re-serialised collection under its key (`LawnchairPreferences.Routed`).
- The resulting effective store (the store once any pending editor is flushed) holds exactly that serialisation.
- Saving a collection and loading it again gives back the same collection, provided the unflatten functions undo
  the flatten ones (`ListReload`, `MapReload`). This rests on the `Text` abstraction, under which printing a JSON
  array or object and parsing it back is the identity by construction; that half of the round trip is assumed, not proved.
- Inside a bulk edit the store and the flush log stay unchanged. `endBulkEdit` flushes the shared editor exactly
  once. The result is the store that flushing each write separately would give (`BulkEqualsSequential`, `BulkEdit`).
- Outside a bulk edit each write is flushed at once, with commit exactly when `blockingEditing` is set.
- Illustrated by a client (`BulkWriteInvisibleUntilEnd`): a delegate read during a bulk edit still sees the old value.

Behaviours the model makes explicit:
- Calling `beginBulkEdit` while a bulk edit is open replaces the editor, so the pending writes are lost. The
  enclosing bulk edit is then closed by the inner `endBulkEdit`.
- `endBulkEdit` without an open edit clears `bulkEditing` and then throws on `editor!!`.
- The private `setBoolean`/`setString`/`setInt`/`setLong`/`remove` helpers flush directly, even during a bulk edit.
- Reads (`getValue`, the loads of the collection preferences) go to the committed store, never to a pending editor.

## Model

| member | source | states |
|---|---|---|
| PrefStore.Apply | src/ch/deletescape/lawnchair/LawnchairPreferences.kt:269-275 | a flush puts every `Some` modification, removes every `None` key, and leaves every other key as it was |
| PrefStore.ApplyOverride | src/ch/deletescape/lawnchair/LawnchairPreferences.kt:327-333 | flushing editor a then editor b equals flushing one editor holding a then b, with the later writes winning |
| PrefStore.MergeSpec | src/ch/deletescape/lawnchair/LawnchairPreferences.kt:329-330 | the shared bulk editor (`Merge` of the writes, in order) holds a key exactly when some write touched it, and then holds the modification of the last write to that key |
| PrefStore.MergeSnoc | src/ch/deletescape/lawnchair/LawnchairPreferences.kt:106-107 | one more write into the shared editor extends its merged modifications by that write |
| PrefStore.BulkEqualsSequential | src/ch/deletescape/lawnchair/LawnchairPreferences.kt:290-299 | flushing the one bulk-edit editor leaves the store as flushing every write on its own would have |
| PrefStore.Lookup | src/ch/deletescape/lawnchair/LawnchairPreferences.kt:166-217 | a typed read gives the default for an absent key, the stored value when its kind matches, and ClassCastException exactly when the kind differs |
| PrefStore.ReadText | src/ch/deletescape/lawnchair/LawnchairPreferences.kt:237-239 | getString gives the default for an absent key, the stored text otherwise, and fails exactly when the key holds a non-string |
| PrefStore.LoadList | src/ch/deletescape/lawnchair/LawnchairPreferences.kt:60-62 | a list preference reads "[]" (empty) for an absent key; it succeeds exactly when the key holds a JSON-array string, and then yields its items |
| PrefStore.LoadMap | src/ch/deletescape/lawnchair/LawnchairPreferences.kt:116-119 | a map preference reads "{}" (empty) for an absent key; it succeeds exactly when the key holds a JSON-object string, and then yields its fields |
| PrefCollections.ReplaceAt | src/ch/deletescape/lawnchair/LawnchairPreferences.kt:77-80 | set(position, v) preserves the length, puts v at position and leaves every other index unchanged |
| PrefCollections.InsertAt | src/ch/deletescape/lawnchair/LawnchairPreferences.kt:87-90 | add(position, v) grows the list by one, puts v at position, keeps earlier elements and shifts later ones up by one; the multiset gains v |
| PrefCollections.RemoveAt | src/ch/deletescape/lawnchair/LawnchairPreferences.kt:97-100 | removeAt(position) shrinks the list by one, keeps earlier elements and shifts later ones down; the multiset loses exactly that element |
| PrefCollections.RemoveFirst | src/ch/deletescape/lawnchair/LawnchairPreferences.kt:92-95 | `valueList.remove(x)` takes exactly one copy of x out of the list when it holds x (length one lower), and otherwise keeps its length; the elements kept are what the list had less one x |
| PrefCollections.IndexOf | src/ch/deletescape/lawnchair/LawnchairPreferences.kt:92-95 | for a present element, the index of its first occurrence: it holds x and no earlier index does |
| PrefCollections.RemoveFirstAbsent | src/ch/deletescape/lawnchair/LawnchairPreferences.kt:92-95 | remove(x) on a list without x leaves it unchanged |
| PrefCollections.RemoveFirstPresent | src/ch/deletescape/lawnchair/LawnchairPreferences.kt:92-95 | remove(x) on a list holding x deletes exactly the index of its first occurrence |
| PrefCollections.RemoveFirstSpec | src/ch/deletescape/lawnchair/LawnchairPreferences.kt:92-95 | remove(x) leaves a list without x unchanged, and otherwise deletes exactly index IndexOf(x) |
| PrefCollections.FlattenAll | src/ch/deletescape/lawnchair/LawnchairPreferences.kt:102-104 | the flattened list has the same length and each item is the flattening of the item at the same index |
| PrefCollections.FlattenRoundTrip | src/ch/deletescape/lawnchair/LawnchairPreferences.kt:60-62 | unflattening the flattened items gives back the list whenever unflattenValue undoes flattenValue |
| PrefCollections.MapSet | src/ch/deletescape/lawnchair/LawnchairPreferences.kt:134-141 | set(key, v) makes key present iff v is non-null with value v; all other keys keep their presence and values |
| PrefCollections.ImageOnExtend | src/ch/deletescape/lawnchair/LawnchairPreferences.kt:143-145 | one more put of a flattened entry extends a partial flattened image to one more key |
| PrefCollections.ImageExact | src/ch/deletescape/lawnchair/LawnchairPreferences.kt:143-145 | with an injective flattenKey, the flattened object maps each key's flattening to that key's flattened value and has as many entries as the map |
| PrefCollections.InjectiveImageSize | src/ch/deletescape/lawnchair/LawnchairPreferences.kt:145 | an injective flattenKey sends a key set to a set of flattened keys of the same size |
| PrefCollections.ImageRoundTrip | src/ch/deletescape/lawnchair/LawnchairPreferences.kt:116-120 | loading the flattened form of a map gives back that map whenever the unflatten functions undo the flatten ones |
| LawnchairPrefs.GetPrefKey | src/ch/deletescape/lawnchair/LawnchairPreferences.kt:223 | getPrefKey(k) is "pref_" followed by k |
| LawnchairPrefs.GetPrefKeyInjective | src/ch/deletescape/lawnchair/LawnchairPreferences.kt:223 | distinct names never get the same stored key |
| LawnchairPrefs.Register | src/ch/deletescape/lawnchair/LawnchairPreferences.kt:63-65 | a callback other than doNothing is stored under the key, replacing an earlier one; other keys are untouched; doNothing leaves the map unchanged, so it is never registered |
| LawnchairPrefs.CallbackFor | src/ch/deletescape/lawnchair/LawnchairPreferences.kt:344 | the callback for a key exists iff the key is registered, and is never doNothing |
| LawnchairPrefs.Effects | src/ch/deletescape/lawnchair/LawnchairPreferences.kt:45-55 | recreate/reloadApps/reloadAll each make exactly their one call when a change callback is registered; nothing happens otherwise or for doNothing |
| LawnchairPrefs.Committed | src/ch/deletescape/lawnchair/LawnchairPreferences.kt:305-309 | the flush log of writes committed one by one: one commit flush per write, in order |
| LawnchairPrefs.CommittedSnoc | src/ch/deletescape/lawnchair/LawnchairPreferences.kt:305-309 | one more committed write adds exactly one commit flush at the end |
| LawnchairPrefs.MergeExtend | src/ch/deletescape/lawnchair/LawnchairPreferences.kt:329-330 | a write joining an editor that already holds e and then ps extends the editor by that write |
| LawnchairPrefs.ApplySeqSnoc | src/ch/deletescape/lawnchair/LawnchairPreferences.kt:331-332 | flushing one more write after a run of flushes applies exactly that write to the resulting store |
| LawnchairPrefs.LawnchairPreferences.constructor | src/ch/deletescape/lawnchair/LawnchairPreferences.kt:277-279 | a new instance starts with the given store, no bulk or blocking edit, no editor, no registered callbacks |
| LawnchairPrefs.LawnchairPreferences.RegisterOnChange | src/ch/deletescape/lawnchair/LawnchairPreferences.kt:320-322 | the init blocks' registration updates onChangeMap by Register and changes nothing else |
| LawnchairPrefs.LawnchairPreferences.CommitOrApply | src/ch/deletescape/lawnchair/LawnchairPreferences.kt:269-275 | flushes the editor into the store and logs one flush whose commit flag is the argument |
| LawnchairPrefs.LawnchairPreferences.Edit | src/ch/deletescape/lawnchair/LawnchairPreferences.kt:327-333 | inside a bulk edit the write joins the shared editor and the store and flush log are unchanged; otherwise it is flushed at once with commit iff blockingEditing; either way the effective store gets the write |
| LawnchairPrefs.LawnchairPreferences.SetDirect | src/ch/deletescape/lawnchair/LawnchairPreferences.kt:225-263 | setBoolean/setString/setInt/setLong put the value and flush once with the given commit flag, bypassing any bulk edit; a string set is excluded, as the source has no such setter |
| LawnchairPrefs.LawnchairPreferences.RemoveDirect | src/ch/deletescape/lawnchair/LawnchairPreferences.kt:265-267 | remove(pref, commit) deletes the key and flushes once with the given commit flag |
| LawnchairPrefs.LawnchairPreferences.GetDirect | src/ch/deletescape/lawnchair/LawnchairPreferences.kt:229-263 | getBoolean/getString/getInt/getLong give the default for an absent key, the value when its kind matches, ClassCastException otherwise; a string-set default is excluded, as the source has no such getter |
| LawnchairPrefs.LawnchairPreferences.BeginBlockingEdit | src/ch/deletescape/lawnchair/LawnchairPreferences.kt:281-283 | sets blockingEditing and changes nothing else |
| LawnchairPrefs.LawnchairPreferences.EndBlockingEdit | src/ch/deletescape/lawnchair/LawnchairPreferences.kt:285-287 | clears blockingEditing and changes nothing else |
| LawnchairPrefs.LawnchairPreferences.BeginBulkEdit | src/ch/deletescape/lawnchair/LawnchairPreferences.kt:290-293 | opens a bulk edit with a fresh empty editor (discarding an open one); the store is unchanged |
| LawnchairPrefs.LawnchairPreferences.EndBulkEdit | src/ch/deletescape/lawnchair/LawnchairPreferences.kt:295-299 | with an open bulk edit, flushes its editor exactly once (commit iff blockingEditing) so the store becomes the old effective store; without one it throws and flushes nothing; afterwards no bulk edit and no editor |
| LawnchairPrefs.LawnchairPreferences.BulkEdit | src/ch/deletescape/lawnchair/LawnchairPreferences.kt:311-315 | the writes of the body reach the store in one flush at the end, giving the store that sequential flushing would give; the flush is commit iff blockingEditing |
| LawnchairPrefs.LawnchairPreferences.BlockingEdit | src/ch/deletescape/lawnchair/LawnchairPreferences.kt:305-309 | outside a bulk edit each write of the body is flushed by commit, in order; inside one the writes join the open editor; blockingEditing is clear afterwards |
| LawnchairPrefs.LawnchairPreferences.RegisterCallback | src/ch/deletescape/lawnchair/LawnchairPreferences.kt:347-350 | remembers the change callback and changes nothing else |
| LawnchairPrefs.LawnchairPreferences.UnregisterCallback | src/ch/deletescape/lawnchair/LawnchairPreferences.kt:352-355 | forgets the change callback and changes nothing else |
| LawnchairPrefs.LawnchairPreferences.OnSharedPreferenceChanged | src/ch/deletescape/lawnchair/LawnchairPreferences.kt:343-345 | invokes exactly the callback registered for the key (never doNothing), and nothing when none is registered; only the callback's calls are added |
| CollectionPrefs.ListValue | src/ch/deletescape/lawnchair/LawnchairPreferences.kt:102-107 | the stored value of a list is a JSON-array string with one item per element, each the element's flattening, in order |
| CollectionPrefs.ListReload | src/ch/deletescape/lawnchair/LawnchairPreferences.kt:60-62 | a list preference loaded after a save reads back the saved list whenever unflattenValue undoes flattenValue |
| CollectionPrefs.MutableListPref.Load | src/ch/deletescape/lawnchair/LawnchairPreferences.kt:57-66 | init unflattens the stored items in order and registers onChange unless it is doNothing |
| CollectionPrefs.MutableListPref.ToList | src/ch/deletescape/lawnchair/LawnchairPreferences.kt:68 | returns the current contents and changes nothing |
| CollectionPrefs.MutableListPref.Get | src/ch/deletescape/lawnchair/LawnchairPreferences.kt:73-75 | the element at an in-range position |
| CollectionPrefs.MutableListPref.SaveChanges | src/ch/deletescape/lawnchair/LawnchairPreferences.kt:102-110 | routes one write of the whole list's JSON array under prefKey, so the effective store holds the list's encoding |
| CollectionPrefs.MutableListPref.Set | src/ch/deletescape/lawnchair/LawnchairPreferences.kt:77-80 | replaces only that index, then persists the whole list |
| CollectionPrefs.MutableListPref.Add | src/ch/deletescape/lawnchair/LawnchairPreferences.kt:82-85 | appends at the end keeping all earlier elements, then persists the whole list in order |
| CollectionPrefs.MutableListPref.AddAt | src/ch/deletescape/lawnchair/LawnchairPreferences.kt:87-90 | inserts at position shifting later elements up, then persists |
| CollectionPrefs.MutableListPref.Remove | src/ch/deletescape/lawnchair/LawnchairPreferences.kt:92-95 | deletes the first element equal to the value, or nothing when absent, then persists |
| CollectionPrefs.MutableListPref.RemoveAtPosition | src/ch/deletescape/lawnchair/LawnchairPreferences.kt:97-100 | deletes exactly that index (length drops by one), then persists |
| CollectionPrefs.IndexOfUnique | src/ch/deletescape/lawnchair/LawnchairPreferences.kt:93 | the first index holding x, found by scanning, is IndexOf(x) |
| CollectionPrefs.NewMutableListPref | src/ch/deletescape/lawnchair/LawnchairPreferences.kt:60-65 | construction fails, registering nothing, exactly when the stored value is not a JSON-array string; an absent key starts empty |
| CollectionPrefs.MapValue | src/ch/deletescape/lawnchair/LawnchairPreferences.kt:144-148 | the stored value of a map is the JSON-object string of the given, already flattened fields; its tie to the map's entries is the `IsImage` clause of `MutableMapPref.SaveChanges` |
| CollectionPrefs.MapReload | src/ch/deletescape/lawnchair/LawnchairPreferences.kt:116-120 | a map preference loaded after a save reads back the saved map whenever the unflatten functions undo the flatten ones |
| CollectionPrefs.MutableMapPref.Load | src/ch/deletescape/lawnchair/LawnchairPreferences.kt:113-124 | init puts every stored field unflattened into the map and registers onChange unless it is doNothing |
| CollectionPrefs.MutableMapPref.ToMap | src/ch/deletescape/lawnchair/LawnchairPreferences.kt:126 | returns the current contents and changes nothing |
| CollectionPrefs.MutableMapPref.Get | src/ch/deletescape/lawnchair/LawnchairPreferences.kt:153-155 | the value for a present key, null for an absent one |
| CollectionPrefs.MutableMapPref.SaveChanges | src/ch/deletescape/lawnchair/LawnchairPreferences.kt:143-151 | routes one write, under prefKey, of a JSON object that is the flattened image of the whole map |
| CollectionPrefs.MutableMapPref.Set | src/ch/deletescape/lawnchair/LawnchairPreferences.kt:134-141 | a non-null value makes get(key) that value, null removes the key, other keys are untouched; then the whole map is persisted |
| CollectionPrefs.NewMutableMapPref | src/ch/deletescape/lawnchair/LawnchairPreferences.kt:116-123 | construction fails, registering nothing, exactly when the stored value is not a JSON-object string; an absent key starts empty |
| CollectionPrefs.EmptyImage | src/ch/deletescape/lawnchair/LawnchairPreferences.kt:117-118 | reading the empty object "{}" yields the empty map |
| ScalarPrefs.PrefDelegate.constructor | src/ch/deletescape/lawnchair/LawnchairPreferences.kt:317-323 | a delegate registers onChange under its key unless it is doNothing |
| ScalarPrefs.PrefDelegate.GetKey | src/ch/deletescape/lawnchair/LawnchairPreferences.kt:336 | the delegate's own key, whatever the property; the getPrefKey fallback is never taken |
| ScalarPrefs.PrefDelegate.GetValue | src/ch/deletescape/lawnchair/LawnchairPreferences.kt:166-217 | the typed read of the committed store: default when absent, stored value when of the delegate's kind, ClassCastException otherwise |
| ScalarPrefs.PrefDelegate.SetValue | src/ch/deletescape/lawnchair/LawnchairPreferences.kt:159-212 | routes one put (or, for a null string set, a removal) of the delegate's key through the edit mode |
| ScalarPrefs.BulkWriteInvisibleUntilEnd | src/ch/deletescape/lawnchair/LawnchairPreferences.kt:327-333 | a delegate write inside a bulk edit is not seen by a read before endBulkEdit and is seen after it |
| Launcher.NewLawnchairPreferences | src/ch/deletescape/lawnchair/LawnchairPreferences.kt:31-43 | construction registers exactly recreate for the three label/gradient flags, reloadApps for hidden-app-set and reloadAll for the app-name map, and nothing for recentBackups; the new instance has no change callback and empty flush and notice logs; every declared preference is fresh and bound to the returned instance with its key, kind, default and flatten functions; it fails exactly when one of the two collection values is malformed, with the error of the first one that is |
| Launcher.DeclareDelegates | src/ch/deletescape/lawnchair/LawnchairPreferences.kt:31-34 | the four delegated properties are fresh, bound to prefs with their declared key, kind and default, and register recreate, recreate, recreate and reloadApps under their keys, changing nothing else |
| Launcher.IdentityImage | src/ch/deletescape/lawnchair/LawnchairPreferences.kt:36-39 | under the identity flattening of the app-name map, its flattened image is the map itself |

## Left out

- `PreferenceScaffold.kt` (lawnchair/src/app/lawnchair/ui/preferences/components/): Compose layout glue with no state logic.
- The JSON syntax of `JSONArray`/`JSONObject`: a stored string is modelled by what it denotes (`Text`). So the
  model neither parses nor prints JSON, and a `Plain` text stands for any string that is neither an array nor an object.
- `ComponentName` and `Uri` flatten/unflatten (platform types): `Launcher` uses strings with identity flattening instead.
- `FloatPref`, `MutableFloatPref`, `setFloat` and `getFloat`: floating point.
- `getInstance`/`getInstanceNoCreate`: the singleton and the main-thread hand-off are concurrency plumbing.
- `getSharedPrefs`, `Context`, and the OS listener that `registerCallback`/`unregisterCallback` attach. The
  SharedPreferences instance is the `store` field, and the change callback is an optional identity.
- The asynchronous disk write of `apply()`: both commit and apply update the in-memory store at once, and only
  the flag in the flush log tells them apart. Android's own calls to `onSharedPreferenceChanged` after a flush are
  not modelled; the method is a separate entry point.
- LawnchairPrefs.LawnchairPreferences.BulkEdit: the body of `bulkEdit { }` is modelled as a sequence of writes routed through `Edit`.
  Arbitrary code in the body, and a body that throws (skipping `endBulkEdit`), are not modelled.
- LawnchairPrefs.LawnchairPreferences.BlockingEdit: the body of `blockingEdit { }` is modelled as a sequence of
  writes in the same way. A throwing body, which would leave `blockingEditing` set, is not modelled.
- Direct assignment to the public fields `bulkEditing` and `editor` from outside the class: the model keeps
  `bulkEditing == (editor != null)` as an invariant. The `editor!!` failure of `saveChanges` and `edit` is therefore
  unreachable in the model. The one reachable failure, `endBulkEdit` without an open bulk edit, is modelled.
- Index exceptions of `get`, `set`, `add(position, v)` and `removeAt`: an out-of-range position is a precondition.
  `removeAt` is named `RemoveAtPosition` so that it does not clash with the list function `RemoveAt`.
- Iteration orders: `MutableMapPref.Load` iterates the stored JSONObject's `keys()` and `MutableMapPref.SaveChanges`
  iterates the HashMap's `entries`, both in an unspecified order. Their contracts say what holds for every order,
  which is exact when the flatten (unflatten) key function is injective.
- CollectionPrefs.ListReload: the round trip is proved only for the unflattening step. That `JSONArray(array.toString())`
  yields the same items is assumed by the `Text` abstraction, since the org.json printer and parser are not modelled.
- CollectionPrefs.MapReload: likewise, that `JSONObject(obj.toString())` yields the same fields is assumed by the
  `Text` abstraction, not proved.
- The `BooleanPref`/`MutableBooleanPref` and similar class pairs are one `PrefDelegate` class with a `kind`. Only the
  Mutable variants have `setValue` in the source.
- Java `int`/`long` widths are modelled as value ranges only (no arithmetic is done on them). List positions are `nat`.
