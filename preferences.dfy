/**
 * LawnchairPreferences: the edit-mode state machine that routes every
 * preference write either into the open bulk-edit editor or straight
 * through a fresh editor that is committed or applied at once, and the
 * dispatch of change notifications to the callbacks registered per key.
 */
module LawnchairPrefs {
  import opened Wrappers
  import opened PrefStore

  /** The change reactions a preference can be declared with. */
  datatype Callback = DoNothing | Recreate | ReloadApps | ReloadAll

  /** A call into the registered LawnchairPreferencesChangeCallback. */
  datatype Notice = RecreateCalled | ReloadAppsCalled | ReloadAllCalled

  /** Identity of a registered LawnchairPreferencesChangeCallback. */
  type ClientId = nat

  /** One flush of an editor: its modifications, and commit() (true) or apply() (false). */
  datatype Flush = Flush(changes: Pending, commit: bool)

  /** getPrefKey(key): the stored key of a preference named key. */
  function GetPrefKey(key: string): (r: string)
    ensures |r| == |key| + 5 && r[..5] == "pref_" && r[5..] == key
  {
    "pref_" + key
  }

  /** Distinct preference names never share a stored key. */
  lemma GetPrefKeyInjective(a: string, b: string)
    requires GetPrefKey(a) == GetPrefKey(b)
    ensures a == b
  {
  }

  /** No key is mapped to the do-nothing callback. */
  ghost predicate NoDoNothing(m: map<string, Callback>)
  {
    forall k :: k in m ==> m[k] != DoNothing
  }

  /**
   * The registration every preference's init block performs: a callback
   * other than doNothing is stored under the key, replacing an earlier
   * one; doNothing is never stored.
   */
  function Register(m: map<string, Callback>, key: string, onChange: Callback): (r: map<string, Callback>)
    ensures onChange != DoNothing ==> key in r && r[key] == onChange
    ensures onChange == DoNothing ==> r == m
    ensures forall k :: k in m && k != key ==> k in r && r[k] == m[k]
    ensures forall k :: k in r ==> k in m || k == key
    ensures NoDoNothing(m) ==> NoDoNothing(r)
  {
    if onChange != DoNothing then m[key := onChange] else m
  }

  /** onChangeMap[key]: the callback a change of key invokes, if any. */
  function CallbackFor(m: map<string, Callback>, key: string): (r: Option<Callback>)
    ensures r.Some? <==> key in m
    ensures r.Some? ==> r.value == m[key]
    ensures NoDoNothing(m) && r.Some? ==> r.value != DoNothing
  {
    if key in m then Some(m[key]) else None
  }

  /**
   * What invoking a callback does: recreate, reloadApps and reloadAll each
   * forward one call to the change callback when one is registered
   * (onChangeCallback?.x()); doNothing does nothing.
   */
  function Effects(cb: Callback, client: Option<ClientId>): (r: seq<Notice>)
    ensures client.None? || cb == DoNothing <==> r == []
    ensures |r| <= 1
    ensures cb == Recreate && client.Some? ==> r == [RecreateCalled]
    ensures cb == ReloadApps && client.Some? ==> r == [ReloadAppsCalled]
    ensures cb == ReloadAll && client.Some? ==> r == [ReloadAllCalled]
  {
    if client.None? then []
    else match cb
      case DoNothing => []
      case Recreate => [RecreateCalled]
      case ReloadApps => [ReloadAppsCalled]
      case ReloadAll => [ReloadAllCalled]
  }

  class LawnchairPreferences {
    /** The in-memory contents of sharedPrefs. */
    var store: Store
    var blockingEditing: bool
    var bulkEditing: bool
    /** The shared editor of an open bulk edit: its pending modifications. */
    var editor: Option<Pending>
    var onChangeMap: map<string, Callback>
    var onChangeCallback: Option<ClientId>
    /** Every editor flushed so far, in order. */
    ghost var flushes: seq<Flush>
    /** Every call made into the change callback so far, in order. */
    ghost var notified: seq<Notice>

    /** An editor exists exactly while a bulk edit is open; doNothing is never registered. */
    ghost predicate Valid()
      reads this
    {
      && (bulkEditing <==> editor.Some?)
      && NoDoNothing(onChangeMap)
    }

    /** The store as it will be once the pending bulk-edit editor, if any, is flushed. */
    ghost function Effective(): (s: Store)
      reads this
    {
      if editor.Some? then Apply(store, editor.value) else store
    }

    /**
     * A write of changes routed as saveChanges and PrefDelegate.edit route
     * it: inside a bulk edit it joins the shared editor and the store is
     * untouched; otherwise it is flushed at once, by commit() exactly when
     * blockingEditing is set. Nothing else changes.
     */
    twostate predicate Routed(changes: Pending)
      reads this
    {
      && blockingEditing == old(blockingEditing) && bulkEditing == old(bulkEditing)
      && onChangeMap == old(onChangeMap) && onChangeCallback == old(onChangeCallback)
      && notified == old(notified)
      && if old(bulkEditing) then
           && old(editor).Some? && editor == Some(old(editor).value + changes)
           && store == old(store) && flushes == old(flushes)
         else
           && editor == old(editor)
           && store == Apply(old(store), changes)
           && flushes == old(flushes) + [Flush(changes, old(blockingEditing))]
    }

    /** A fresh instance over sharedPrefs whose contents are initial. */
    constructor (initial: Store)
      ensures Valid()
      ensures store == initial && !blockingEditing && !bulkEditing && editor == None
      ensures onChangeMap == map[] && onChangeCallback == None
      ensures flushes == [] && notified == []
    {
      store := initial;
      blockingEditing, bulkEditing := false, false;
      editor := None;
      onChangeMap := map[];
      onChangeCallback := None;
      flushes, notified := [], [];
    }

    /** onChangeMap[key] = onChange, unless onChange is doNothing. */
    method RegisterOnChange(key: string, onChange: Callback)
      requires Valid()
      modifies this
      ensures Valid()
      ensures onChangeMap == Register(old(onChangeMap), key, onChange)
      ensures store == old(store) && editor == old(editor)
      ensures blockingEditing == old(blockingEditing) && bulkEditing == old(bulkEditing)
      ensures onChangeCallback == old(onChangeCallback)
      ensures flushes == old(flushes) && notified == old(notified)
    {
      if onChange != DoNothing {
        onChangeMap := onChangeMap[key := onChange];
      }
    }

    /** commitOrApply(editor, commit): flush the modifications, blocking when commit is set. */
    method CommitOrApply(changes: Pending, commit: bool)
      modifies this
      ensures store == Apply(old(store), changes)
      ensures flushes == old(flushes) + [Flush(changes, commit)]
      ensures editor == old(editor) && onChangeMap == old(onChangeMap)
      ensures blockingEditing == old(blockingEditing) && bulkEditing == old(bulkEditing)
      ensures onChangeCallback == old(onChangeCallback) && notified == old(notified)
    {
      store := Apply(store, changes);
      flushes := flushes + [Flush(changes, commit)];
    }

    /**
     * The routing of PrefDelegate.edit and of both saveChanges: the shared
     * editor during a bulk edit, else a fresh editor flushed at once. Either
     * way the store that will result is the old one with changes applied.
     */
    method Edit(changes: Pending)
      requires Valid()
      modifies this
      ensures Valid()
      ensures Routed(changes)
      ensures Effective() == Apply(old(Effective()), changes)
    {
      if bulkEditing {
        ApplyOverride(store, editor.value, changes);
        editor := Some(editor.value + changes);
      } else {
        CommitOrApply(changes, blockingEditing);
      }
    }

    /** setBoolean, setString, setInt, setLong: a direct flush that bypasses any bulk edit (there is no string-set setter). */
    method SetDirect(pref: string, value: Value, commit: bool)
      requires !value.StrSetV?
      modifies this
      ensures store == old(store)[pref := value]
      ensures flushes == old(flushes) + [Flush(map[pref := Some(value)], commit)]
      ensures editor == old(editor) && onChangeMap == old(onChangeMap)
      ensures blockingEditing == old(blockingEditing) && bulkEditing == old(bulkEditing)
      ensures onChangeCallback == old(onChangeCallback) && notified == old(notified)
    {
      CommitOrApply(map[pref := Some(value)], commit);
      assert store == old(store)[pref := value];
    }

    /** remove(pref, commit): a direct removal that bypasses any bulk edit. */
    method RemoveDirect(pref: string, commit: bool)
      modifies this
      ensures store == old(store) - {pref}
      ensures flushes == old(flushes) + [Flush(map[pref := None], commit)]
      ensures editor == old(editor) && onChangeMap == old(onChangeMap)
      ensures blockingEditing == old(blockingEditing) && bulkEditing == old(bulkEditing)
      ensures onChangeCallback == old(onChangeCallback) && notified == old(notified)
    {
      CommitOrApply(map[pref := None], commit);
      assert store == old(store) - {pref};
    }

    /** getBoolean, getString, getInt, getLong: a read of the store with a default (there is no string-set getter). */
    function GetDirect(pref: string, default: Value): (r: Result<Value, PrefError>)
      requires !default.StrSetV?
      reads this
      ensures pref !in store ==> r == Success(default)
      ensures pref in store && KindOf(store[pref]) == KindOf(default) ==> r == Success(store[pref])
      ensures r.Failure? <==> pref in store && KindOf(store[pref]) != KindOf(default)
    {
      match Lookup(store, pref, KindOf(default), Some(default))
      case Success(v) => Success(v.value)
      case Failure(e) => Failure(e)
    }

    method BeginBlockingEdit()
      requires Valid()
      modifies this
      ensures Valid() && blockingEditing
      ensures store == old(store) && editor == old(editor) && bulkEditing == old(bulkEditing)
      ensures onChangeMap == old(onChangeMap) && onChangeCallback == old(onChangeCallback)
      ensures flushes == old(flushes) && notified == old(notified)
    {
      blockingEditing := true;
    }

    method EndBlockingEdit()
      requires Valid()
      modifies this
      ensures Valid() && !blockingEditing
      ensures store == old(store) && editor == old(editor) && bulkEditing == old(bulkEditing)
      ensures onChangeMap == old(onChangeMap) && onChangeCallback == old(onChangeCallback)
      ensures flushes == old(flushes) && notified == old(notified)
    {
      blockingEditing := false;
    }

    /**
     * beginBulkEdit: open a bulk edit with a fresh, empty editor. An editor
     * already open is replaced, and its pending modifications are lost.
     */
    method BeginBulkEdit()
      requires Valid()
      modifies this
      ensures Valid() && bulkEditing && editor == Some(map[])
      ensures store == old(store) && blockingEditing == old(blockingEditing)
      ensures onChangeMap == old(onChangeMap) && onChangeCallback == old(onChangeCallback)
      ensures flushes == old(flushes) && notified == old(notified)
    {
      bulkEditing := true;
      editor := Some(map[]);
    }

    /**
     * endBulkEdit: close the bulk edit and flush its editor exactly once,
     * by commit() when blockingEditing is set. Without an open bulk edit
     * `editor!!` throws (ok is false) after bulkEditing was cleared, and
     * nothing is flushed.
     */
    method EndBulkEdit() returns (ok: bool)
      requires Valid()
      modifies this
      ensures Valid() && !bulkEditing && editor == None
      ensures ok == old(bulkEditing)
      ensures ok ==> store == old(Effective())
      ensures ok ==> flushes == old(flushes) + [Flush(old(editor).value, blockingEditing)]
      ensures !ok ==> store == old(store) && flushes == old(flushes)
      ensures blockingEditing == old(blockingEditing)
      ensures onChangeMap == old(onChangeMap) && onChangeCallback == old(onChangeCallback)
      ensures notified == old(notified)
    {
      bulkEditing := false;
      if editor == None {
        ok := false;
        return;
      }
      CommitOrApply(editor.value, blockingEditing);
      editor := None;
      ok := true;
    }

    /**
     * bulkEdit { body } where body performs the writes in order: they all
     * join one editor, which is flushed once at the end; the store then
     * holds what flushing each write on its own would have produced.
     * An enclosing bulk edit's pending writes are dropped and that edit is
     * closed.
     */
    method BulkEdit(writes: seq<Pending>)
      requires Valid()
      modifies this
      ensures Valid() && !bulkEditing && editor == None
      ensures store == Apply(old(store), Merge(writes))
      ensures store == ApplySeq(old(store), writes)
      ensures flushes == old(flushes) + [Flush(Merge(writes), old(blockingEditing))]
      ensures blockingEditing == old(blockingEditing)
      ensures onChangeMap == old(onChangeMap) && onChangeCallback == old(onChangeCallback)
      ensures notified == old(notified)
    {
      BeginBulkEdit();
      for i := 0 to |writes|
        invariant Valid() && bulkEditing && editor == Some(Merge(writes[..i]))
        invariant store == old(store) && flushes == old(flushes)
        invariant blockingEditing == old(blockingEditing)
        invariant onChangeMap == old(onChangeMap) && onChangeCallback == old(onChangeCallback)
        invariant notified == old(notified)
      {
        assert writes[..i + 1] == writes[..i] + [writes[i]];
        MergeSnoc(writes[..i], writes[i]);
        Edit(writes[i]);
      }
      assert writes[..|writes|] == writes;
      var ok := EndBulkEdit();
      BulkEqualsSequential(old(store), writes);
    }

    /**
     * blockingEdit { body } where body performs the writes in order:
     * outside a bulk edit each is flushed at once by commit(); inside one
     * they join the open editor. blockingEditing is clear afterwards.
     */
    method BlockingEdit(writes: seq<Pending>)
      requires Valid()
      modifies this
      ensures Valid() && !blockingEditing
      ensures bulkEditing == old(bulkEditing)
      ensures !old(bulkEditing) ==> store == ApplySeq(old(store), writes) && editor == None
      ensures !old(bulkEditing) ==> flushes == old(flushes) + Committed(writes)
      ensures old(bulkEditing) ==> store == old(store) && flushes == old(flushes)
      ensures old(bulkEditing) ==> editor == Some(old(editor).value + Merge(writes))
      ensures onChangeMap == old(onChangeMap) && onChangeCallback == old(onChangeCallback)
      ensures notified == old(notified)
    {
      ghost var s0, f0, e0 := store, flushes, if editor.Some? then editor.value else map[];
      BeginBlockingEdit();
      assert e0 + Merge(writes[..0]) == e0;
      for i := 0 to |writes|
        invariant Valid() && blockingEditing && bulkEditing == old(bulkEditing)
        invariant !bulkEditing ==> store == ApplySeq(s0, writes[..i]) && editor == None
        invariant !bulkEditing ==> flushes == f0 + Committed(writes[..i])
        invariant bulkEditing ==> store == s0 && flushes == f0
        invariant bulkEditing ==> editor == Some(e0 + Merge(writes[..i]))
        invariant onChangeMap == old(onChangeMap) && onChangeCallback == old(onChangeCallback)
        invariant notified == old(notified)
      {
        assert writes[..i + 1] == writes[..i] + [writes[i]];
        if bulkEditing {
          MergeExtend(e0, writes[..i], writes[i]);
        } else {
          ApplySeqSnoc(s0, writes[..i], writes[i]);
          CommittedSnoc(writes[..i], writes[i]);
        }
        Edit(writes[i]);
      }
      assert writes[..|writes|] == writes;
      EndBlockingEdit();
    }

    /** registerCallback: remember the change callback (the OS listener is not modelled). */
    method RegisterCallback(client: ClientId)
      requires Valid()
      modifies this
      ensures Valid() && onChangeCallback == Some(client)
      ensures store == old(store) && editor == old(editor) && onChangeMap == old(onChangeMap)
      ensures blockingEditing == old(blockingEditing) && bulkEditing == old(bulkEditing)
      ensures flushes == old(flushes) && notified == old(notified)
    {
      onChangeCallback := Some(client);
    }

    /** unregisterCallback: forget the change callback. */
    method UnregisterCallback()
      requires Valid()
      modifies this
      ensures Valid() && onChangeCallback == None
      ensures store == old(store) && editor == old(editor) && onChangeMap == old(onChangeMap)
      ensures blockingEditing == old(blockingEditing) && bulkEditing == old(bulkEditing)
      ensures flushes == old(flushes) && notified == old(notified)
    {
      onChangeCallback := None;
    }

    /**
     * onSharedPreferenceChanged(key): invoke exactly the callback registered
     * for key, if there is one; that callback is never doNothing.
     */
    method OnSharedPreferenceChanged(key: string) returns (invoked: Option<Callback>)
      requires Valid()
      modifies this
      ensures Valid()
      ensures invoked == CallbackFor(onChangeMap, key)
      ensures invoked.Some? <==> key in onChangeMap
      ensures invoked.Some? ==> invoked.value != DoNothing
      ensures notified == old(notified) + (if invoked.Some? then Effects(invoked.value, onChangeCallback) else [])
      ensures store == old(store) && editor == old(editor) && onChangeMap == old(onChangeMap)
      ensures blockingEditing == old(blockingEditing) && bulkEditing == old(bulkEditing)
      ensures onChangeCallback == old(onChangeCallback) && flushes == old(flushes)
    {
      invoked := CallbackFor(onChangeMap, key);
      if invoked.Some? {
        notified := notified + Effects(invoked.value, onChangeCallback);
      }
    }
  }

  /** The flushes of writes each committed on its own. */
  function Committed(writes: seq<Pending>): (r: seq<Flush>)
    ensures |r| == |writes|
    ensures forall i :: 0 <= i < |r| ==> r[i] == Flush(writes[i], true)
  {
    seq(|writes|, i requires 0 <= i < |writes| => Flush(writes[i], true))
  }

  lemma CommittedSnoc(writes: seq<Pending>, p: Pending)
    ensures Committed(writes + [p]) == Committed(writes) + [Flush(p, true)]
  {
  }

  /** One more write joining an editor that already holds e and then ps. */
  lemma MergeExtend(e: Pending, ps: seq<Pending>, p: Pending)
    ensures e + Merge(ps + [p]) == (e + Merge(ps)) + p
  {
    MergeSnoc(ps, p);
    var m := Merge(ps);
    assert e + (m + p) == (e + m) + p;
  }

  lemma ApplySeqSnoc(s: Store, ps: seq<Pending>, p: Pending)
    ensures ApplySeq(s, ps + [p]) == Apply(ApplySeq(s, ps), p)
  {
    BulkEqualsSequential(s, ps + [p]);
    MergeSnoc(ps, p);
    ApplyOverride(s, Merge(ps), p);
    BulkEqualsSequential(s, ps);
  }
}
