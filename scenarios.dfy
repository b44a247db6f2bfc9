/**
  Runs of the whole layer, each from a fresh store, stating what a caller
  observes. They use only the contracts of the operations.
*/
module Scenarios {
  import opened Wrappers
  import opened Json
  import opened Storage
  import opened Auth
  import opened Autosave
  import opened AutosaveStatus

  /** A worked sign-in: `alice@example.com` is named `alice`. */
  lemma AliceName()
    ensures EmailPrefix("alice@example.com") == "alice"
  {
    var e := "alice@example.com";
    assert e[5] == '@';
    assert EmailPrefix(e[5..]) == [];
    assert EmailPrefix(e[4..]) == [e[4]];
    assert EmailPrefix(e[3..]) == [e[3], e[4]];
    assert EmailPrefix(e[2..]) == [e[2], e[3], e[4]];
    assert EmailPrefix(e[1..]) == [e[1], e[2], e[3], e[4]];
  }

  /**
    Sign in, change the data to v1 and then to v2 within the delay: nothing is
    written until the timer fires, and then only v2.
  */
  method LastChangeWins(email: string, key: string, v1: Json, v2: Json, at: Instant)
    returns (beforeElapse: Option<Json>, afterElapse: Option<Json>)
    requires key != "" && Truthy(v1) && Truthy(v2)
    ensures beforeElapse == None
    ensures afterElapse == Some(v2)
  {
    var auth, saver := NewSession(map[], email, key, v1, at);
    saver.Changed(v1, true);
    saver.Changed(v2, true);
    beforeElapse := saver.LoadData();
    saver.Elapse(at);
    afterElapse := saver.LoadData();
  }

  /**
    The same burst as `LastChangeWins`, re-rendered the way React runs the
    hook's effects: the second change writes v1 into the store at once.
  */
  method RerenderFlushesPrevious(email: string, key: string, v1: Json, v2: Json, at: Instant)
    returns (stored: Option<Json>, stillPending: bool)
    requires key != "" && Truthy(v1) && Truthy(v2) && v1 != v2
    ensures stored == Some(v1)
    ensures stillPending
  {
    var auth, saver := NewSession(map[], email, key, v1, at);
    saver.Changed(v1, true);
    saver.ChangedAsRendered(v2, true, at);
    SerializeInjective(v1, v2);
    stored := saver.LoadData();
    stillPending := saver.pending;
  }

  /** After `forceSave` the cancelled timer never fires: exactly one save is logged. */
  method ForceSaveCancelsTimer(email: string, key: string, v: Json, at: Instant)
    returns (stored: Option<Json>, entries: nat)
    requires key != "" && Truthy(v)
    ensures stored == Some(v)
    ensures entries == 2
  {
    var auth, saver := NewSession(map[], email, key, v, at);
    saver.Changed(v, true);
    saver.ForceSave(at);
    saver.Elapse(at);
    stored := saver.LoadData();
    entries := |auth.recentActivity|;
  }

  /** Teardown with an armed timer saves the data before the hook goes away. */
  method UnmountFlushes(email: string, key: string, v: Json, at: Instant) returns (stored: Option<Json>)
    requires key != "" && Truthy(v)
    ensures stored == Some(v)
  {
    var auth, saver := NewSession(map[], email, key, v, at);
    saver.Changed(v, true);
    saver.Unmount(at);
    stored := saver.LoadData();
  }

  /** `clearSavedData` leaves nothing to load, but a timer armed before it still fires and saves again. */
  method ClearKeepsPendingTimer(email: string, key: string, v: Json, at: Instant)
    returns (afterClear: Option<Json>, afterElapse: Option<Json>)
    requires key != "" && Truthy(v)
    ensures afterClear == None
    ensures afterElapse == Some(v)
  {
    var auth, saver := NewSession(map[], email, key, v, at);
    saver.Changed(v, true);
    saver.ClearSavedData(at);
    afterClear := saver.LoadData();
    saver.Elapse(at);
    afterElapse := saver.LoadData();
  }

  /** A fresh page on a store holding `kv0`: sign in, then mount the hook on `data` and `key`. */
  method NewSession(kv0: map<string, string>, email: string, key: string, data: Json, at: Instant)
    returns (auth: AuthProvider, saver: Autosave)
    requires key != ""
    ensures fresh(auth) && fresh(auth.store) && fresh(saver)
    ensures saver.session == auth && saver.key == key && saver.data == data && saver.enabled
    ensures saver.Valid() && saver.timeoutRef == None && !saver.pending && saver.lastSaved == None
    ensures auth.user == Some(Principal(MockId, email, EmailPrefix(email), None))
    ensures |auth.recentActivity| == 1
    ensures auth.store.kv.Keys == kv0.Keys + {UserKey, ActivityKey}
    ensures forall k :: k in kv0 && k != UserKey && k != ActivityKey ==> auth.store.kv[k] == kv0[k]
    ensures StorageKey(MockId, key) !in kv0 ==> saver.LoadData() == None
  {
    var store := new Store(kv0);
    auth := new AuthProvider(store);
    var p := auth.SignIn(email, "secret", at);
    StorageKeyIsNotSessionKey(p.id, key);
    saver := new Autosave(auth, key, DefaultDelay, data, true);
  }

  /**
    Every account gets the id `"1"`, so records follow the browser, not the
    account: what one account saved, another account signed in afterwards loads.
  */
  method AccountsShareRecords(email1: string, email2: string, key: string, v: Json, at: Instant)
    returns (first: Option<Principal>, second: Option<Principal>, loaded: Option<Json>)
    requires key != "" && Truthy(v)
    ensures first.Some? && second.Some? && first.value.id == second.value.id == MockId
    ensures email1 != email2 ==> first != second
    ensures loaded == Some(v)
  {
    var auth, saver := NewSession(map[], email1, key, v, at);
    first := auth.user;
    saver.ForceSave(at);
    ghost var kv := auth.store.kv;
    auth.SignOut();
    var p := auth.SignIn(email2, "secret", at);
    second := auth.user;
    StorageKeyIsNotSessionKey(MockId, key);
    LoadReadsOnlyItsRecord(kv, auth.store.kv, first.value, key);
    loaded := saver.LoadData();
  }

  /**
    As rendered, a save never settles. The save logs an entry, which re-renders
    the provider and renews `addActivity`, hence `saveData`; the teardown
    effect's cleanup then runs (`Unmount`) and, the handle being set, saves
    again. After that second save the same condition holds, so the next
    re-render saves once more.
  */
  method SaveTriggersSave(email: string, key: string, v: Json, at1: Instant, at2: Instant)
    returns (log: seq<Entry>, stored: Option<Json>, again: bool)
    requires key != "" && Truthy(v)
    ensures |log| >= 1 && log[0] == SaveEntry(key, at2)
    ensures stored == Some(v)
    ensures again
  {
    var auth, saver := NewSession(map[], email, key, v, at1);
    saver.Changed(v, true);
    saver.Elapse(at1);
    saver.Unmount(at2);
    log := auth.recentActivity;
    stored := saver.LoadData();
    again := saver.timeoutRef.Some? && saver.CanSave();
  }

  /**
    The intended course: after the timer's save, the re-render it causes only
    re-runs the change effect, which finds the data saved and arms nothing, so
    the store and the log stay as the save left them.
  */
  method SaveSettles(email: string, key: string, v: Json, at: Instant)
    returns (entries: nat, storeKept: bool, pending: bool)
    requires key != "" && Truthy(v)
    ensures entries == 2
    ensures storeKept
    ensures !pending
  {
    var auth, saver := NewSession(map[], email, key, v, at);
    saver.Changed(v, true);
    saver.Elapse(at);
    var kv := auth.store.kv;
    saver.Changed(v, true);
    entries := |auth.recentActivity|;
    storeKept := auth.store.kv == kv;
    pending := saver.pending;
  }

  /** A fresh page on a store holding `kv0`: sign in, then save `data` under `key` at once. */
  method SignInAndSave(kv0: map<string, string>, email: string, key: string, data: Json, at: Instant)
    returns (auth: AuthProvider, saver: Autosave)
    requires key != ""
    ensures fresh(auth) && fresh(auth.store) && fresh(saver)
    ensures saver.session == auth && saver.key == key && saver.Valid()
    ensures auth.user == Some(Principal(MockId, email, EmailPrefix(email), None))
    ensures auth.store.kv.Keys == kv0.Keys + {UserKey, ActivityKey, StorageKey(MockId, key)}
    ensures forall k :: k in kv0 && k != UserKey && k != ActivityKey && k != StorageKey(MockId, key) ==>
      auth.store.kv[k] == kv0[k]
    ensures saver.LoadData() == Some(data)
  {
    auth, saver := NewSession(kv0, email, key, data, at);
    saver.ForceSave(at);
  }

  /**
    Another principal's record under the same logical key is neither listed nor
    cleared by the current principal, whose own record is.
  */
  method OwnersAreSeparate(email: string, otherId: string, key: string, theirData: Json, myData: Json, at: Instant)
    returns (listed: seq<string>, theirs: Option<string>, mine: Option<Json>)
    requires otherId != MockId && '_' !in otherId && key != ""
    ensures listed == [key]
    ensures theirs == Some(RecordText(theirData, "t0", otherId))
    ensures mine == None
  {
    var other := StorageKey(otherId, key);
    StorageKeyIsNotSessionKey(otherId, key);
    OtherOwnersInvisible(MockId, otherId, key);
    OwnedIffPrefixed(MockId, key);
    var auth, saver := SignInAndSave(map[other := RecordText(theirData, "t0", otherId)], email, key, myData, at);
    var registry := new AutosaveStatus(auth);
    listed := registry.GetAutosaveKeys();
    OnlyOwnKeyListed(listed, auth.store.kv, other, key);
    ghost var before := auth.store.kv;
    registry.ClearAllAutosaveData();
    assert other !in OwnedStoreKeys(before, MockId);
    theirs := auth.store.GetItem(other);
    mine := saver.LoadData();
  }

  lemma OnlyOwnKeyListed(listed: seq<string>, kv: map<string, string>, other: string, key: string)
    requires kv.Keys == {other, StorageKey(MockId, key), UserKey, ActivityKey}
    requires !StartsWith(other, OwnerPrefix(MockId))
    requires forall k :: k in listed <==> StorageKey(MockId, k) in kv
    requires forall i, j :: 0 <= i < j < |listed| ==> listed[i] != listed[j]
    ensures listed == [key]
  {
    forall k | k in listed ensures k == key {
      StorageKeyIsNotSessionKey(MockId, k);
      StorageKeyInjective(MockId, k, key);
      OwnedIffPrefixed(MockId, k);
    }
    assert key in listed;
    assert (set x | x in listed) == {key};
    DistinctElements(listed);
  }

  /** Signing out twice ends where signing out once does: no user, an empty log, neither key stored. */
  method SignOutTwice(kv: map<string, string>) returns (once: map<string, string>, twice: map<string, string>)
    ensures once == twice == kv - {UserKey, ActivityKey}
  {
    var store := new Store(kv);
    var auth := new AuthProvider(store);
    auth.SignOut();
    once := store.kv;
    auth.SignOut();
    twice := store.kv;
  }

  /** A reload after sign-in restores the same principal and log from the store. */
  method ReloadAfterSignIn(kv: map<string, string>, email: string, at: Instant)
    returns (before: Option<Principal>, after: Option<Principal>, logKept: bool, status: Status)
    ensures before == after == Some(Principal(MockId, email, EmailPrefix(email), None))
    ensures logKept
    ensures status == Loaded
  {
    var store := new Store(kv);
    var auth := new AuthProvider(store);
    var p := auth.SignIn(email, "secret", at);
    before := auth.user;
    var reloaded := new AuthProvider(store);
    RestorePersisted(store.kv, auth.user, auth.recentActivity);
    status := reloaded.LoadSaved();
    after := reloaded.user;
    logKept := reloaded.recentActivity == auth.recentActivity;
  }

  lemma {:induction false} DistinctElements<T>(s: seq<T>)
    requires forall i, j :: 0 <= i < j < |s| ==> s[i] != s[j]
    ensures |(set x | x in s)| == |s|
  {
    if s != [] {
      DistinctElements(s[1..]);
      assert (set x | x in s) == (set x | x in s[1..]) + {s[0]};
      assert s[0] !in (set x | x in s[1..]);
    }
  }
}
