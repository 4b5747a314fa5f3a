/**
 * The preferences the launcher declares on a LawnchairPreferences instance,
 * and the change callbacks they leave registered. ComponentName and Uri are
 * stood in for by their flattened strings.
 */
module Launcher {
  import opened Wrappers
  import opened PrefStore
  import opened LawnchairPrefs
  import opened CollectionPrefs
  import opened ScalarPrefs
  import opened PrefCollections

  datatype Declared = Declared(
    prefs: LawnchairPreferences,
    hideDockGradient: PrefDelegate,
    hideAppLabels: PrefDelegate,
    hideAllAppsAppLabels: PrefDelegate,
    hiddenAppSet: PrefDelegate,
    customAppName: MutableMapPref<string, string>,
    recentBackups: MutableListPref<string>)

  /** flattenToString/unflattenFromString and toString/Uri.parse on the stand-in strings. */
  function Identity(s: string): (r: string)
  {
    s
  }

  /** The callbacks registered once every declaration has run; recentBackups (doNothing) is absent. */
  const LauncherCallbacks: map<string, Callback> := map[
    "pref_hideDockGradient" := Recreate,
    "pref_hideAppLabels" := Recreate,
    "pref_hideAllAppsAppLabels" := Recreate,
    "hidden-app-set" := ReloadApps,
    "pref_appNameMap" := ReloadAll]

  /** The four typed delegates of lines 31-35 share d.prefs and carry their declared key, kind and default. */
  ghost predicate DelegatesBound(d: Declared)
  {
    && d.hideDockGradient.prefs == d.prefs && d.hideDockGradient.key == "pref_hideDockGradient"
    && d.hideDockGradient.kind == BoolKind && d.hideDockGradient.defaultValue == Some(BoolV(false))
    && d.hideAppLabels.prefs == d.prefs && d.hideAppLabels.key == "pref_hideAppLabels"
    && d.hideAppLabels.kind == BoolKind && d.hideAppLabels.defaultValue == Some(BoolV(false))
    && d.hideAllAppsAppLabels.prefs == d.prefs && d.hideAllAppsAppLabels.key == "pref_hideAllAppsAppLabels"
    && d.hideAllAppsAppLabels.kind == BoolKind && d.hideAllAppsAppLabels.defaultValue == Some(BoolV(false))
    && d.hiddenAppSet.prefs == d.prefs && d.hiddenAppSet.key == "hidden-app-set"
    && d.hiddenAppSet.kind == StringSetKind && d.hiddenAppSet.defaultValue == Some(StrSetV({}))
  }

  /** The two collection preferences of lines 36-43 share d.prefs and carry their key and flatten functions. */
  ghost predicate CollectionsBound(d: Declared)
  {
    && d.customAppName.prefs == d.prefs && d.customAppName.prefKey == "pref_appNameMap"
    && d.customAppName.flattenKey == Identity && d.customAppName.unflattenKey == Identity
    && d.customAppName.flattenValue == Identity && d.customAppName.unflattenValue == Identity
    && d.recentBackups.prefs == d.prefs && d.recentBackups.prefKey == "pref_recentBackups"
    && d.recentBackups.flattenValue == Identity && d.recentBackups.unflattenValue == Identity
  }

  /**
   * The delegated properties hideDockGradient, hideAppLabels,
   * hideAllAppsAppLabels and hiddenAppSet, declared in order on prefs: each
   * registers its callback, and nothing else about prefs changes.
   */
  method DeclareDelegates(prefs: LawnchairPreferences)
      returns (hideDockGradient: PrefDelegate, hideAppLabels: PrefDelegate,
               hideAllAppsAppLabels: PrefDelegate, hiddenAppSet: PrefDelegate)
    requires prefs.Valid()
    modifies prefs
    ensures fresh(hideDockGradient) && fresh(hideAppLabels) && fresh(hideAllAppsAppLabels) && fresh(hiddenAppSet)
    ensures hideDockGradient.prefs == prefs && hideDockGradient.key == "pref_hideDockGradient"
    ensures hideDockGradient.kind == BoolKind && hideDockGradient.defaultValue == Some(BoolV(false))
    ensures hideAppLabels.prefs == prefs && hideAppLabels.key == "pref_hideAppLabels"
    ensures hideAppLabels.kind == BoolKind && hideAppLabels.defaultValue == Some(BoolV(false))
    ensures hideAllAppsAppLabels.prefs == prefs && hideAllAppsAppLabels.key == "pref_hideAllAppsAppLabels"
    ensures hideAllAppsAppLabels.kind == BoolKind && hideAllAppsAppLabels.defaultValue == Some(BoolV(false))
    ensures hiddenAppSet.prefs == prefs && hiddenAppSet.key == "hidden-app-set"
    ensures hiddenAppSet.kind == StringSetKind && hiddenAppSet.defaultValue == Some(StrSetV({}))
    ensures prefs.Valid()
    ensures prefs.onChangeMap == old(prefs.onChangeMap)["pref_hideDockGradient" := Recreate]["pref_hideAppLabels" := Recreate]
                                   ["pref_hideAllAppsAppLabels" := Recreate]["hidden-app-set" := ReloadApps]
    ensures prefs.store == old(prefs.store) && prefs.editor == old(prefs.editor)
    ensures prefs.blockingEditing == old(prefs.blockingEditing) && prefs.bulkEditing == old(prefs.bulkEditing)
    ensures prefs.onChangeCallback == old(prefs.onChangeCallback)
    ensures prefs.flushes == old(prefs.flushes) && prefs.notified == old(prefs.notified)
  {
    hideDockGradient := new PrefDelegate(prefs, "pref_hideDockGradient", BoolKind, Some(BoolV(false)), Recreate);
    hideAppLabels := new PrefDelegate(prefs, "pref_hideAppLabels", BoolKind, Some(BoolV(false)), Recreate);
    hideAllAppsAppLabels := new PrefDelegate(prefs, "pref_hideAllAppsAppLabels", BoolKind, Some(BoolV(false)), Recreate);
    hiddenAppSet := new PrefDelegate(prefs, "hidden-app-set", StringSetKind, Some(StrSetV({})), ReloadApps);
  }

  /**
   * Constructing LawnchairPreferences over a store: the declarations run in
   * order, and construction throws when customAppName or recentBackups finds
   * a malformed value under its key.
   */
  method NewLawnchairPreferences(initial: Store) returns (r: Result<Declared, PrefError>)
    ensures r.Failure? <==> LoadMap(initial, "pref_appNameMap").Failure? || LoadList(initial, "pref_recentBackups").Failure?
    ensures r.Failure? && LoadMap(initial, "pref_appNameMap").Failure? ==> r.error == LoadMap(initial, "pref_appNameMap").error
    ensures r.Success? ==> r.value.prefs.Valid() && r.value.prefs.store == initial
    ensures r.Success? ==> !r.value.prefs.bulkEditing && !r.value.prefs.blockingEditing && r.value.prefs.editor == None
    ensures r.Success? ==> r.value.prefs.onChangeMap == LauncherCallbacks
    ensures r.Success? ==> r.value.prefs.onChangeCallback == None && r.value.prefs.flushes == [] && r.value.prefs.notified == []
    ensures r.Success? ==> r.value.recentBackups.valueList == LoadList(initial, "pref_recentBackups").value
    ensures r.Failure? && LoadMap(initial, "pref_appNameMap").Success? ==> r.error == LoadList(initial, "pref_recentBackups").error
    ensures r.Success? ==> fresh(r.value.prefs) && fresh(r.value.customAppName) && fresh(r.value.recentBackups)
    ensures r.Success? ==> fresh(r.value.hideDockGradient) && fresh(r.value.hideAppLabels)
    ensures r.Success? ==> fresh(r.value.hideAllAppsAppLabels) && fresh(r.value.hiddenAppSet)
    ensures r.Success? ==> DelegatesBound(r.value) && CollectionsBound(r.value)
    ensures r.Success? ==> r.value.customAppName.valueMap == LoadMap(initial, "pref_appNameMap").value
  {
    var prefs := new LawnchairPreferences(initial);
    var hideDockGradient, hideAppLabels, hideAllAppsAppLabels, hiddenAppSet := DeclareDelegates(prefs);
    var customAppName := NewMutableMapPref(prefs, "pref_appNameMap", ReloadAll, Identity, Identity, Identity, Identity);
    if customAppName.Failure? {
      return Failure(customAppName.error);
    }
    var recentBackups := NewMutableListPref(prefs, "pref_recentBackups", DoNothing, Identity, Identity);
    if recentBackups.Failure? {
      return Failure(recentBackups.error);
    }
    IdentityImage(LoadMap(initial, "pref_appNameMap").value, customAppName.value.valueMap);
    r := Success(Declared(prefs, hideDockGradient, hideAppLabels, hideAllAppsAppLabels, hiddenAppSet,
                          customAppName.value, recentBackups.value));
  }

  /** Under the identity flattening a map's image is the map itself. */
  lemma IdentityImage(m: map<string, string>, r: map<string, string>)
    requires IsImage(m, Identity, Identity, r)
    ensures r == m
  {
  }
}
