/**
  The autosave scheduler (`useAutosave` in src/hooks/useAutosave.js): it keeps
  one value of application state saved under a key of the current principal,
  writing it a delay after the last change (a trailing-edge debounce), and
  offers load, clear and force-save.

  The hook's effects become explicit calls: `Changed` is the change effect
  running with new inputs, `Elapse` is the armed timer firing, `Unmount` is the
  teardown. The timer is the handle `timeoutRef` plus whether that timer is
  still `pending`.
*/
module Autosave {
  import opened Wrappers
  import opened Json
  import opened Storage
  import opened Auth

  /** `${ownerId}_${key}`: where the record of `key` for that owner is stored. */
  function StorageKey(ownerId: string, key: string): string
  {
    ownerId + "_" + key
  }

  /** The stored record `{data, timestamp, userId}`. */
  function RecordJson(data: Json, timestamp: string, ownerId: string): Json
  {
    JObj([Field("data", data), Field("timestamp", JStr(timestamp)), Field("userId", JStr(ownerId))])
  }

  /**
    The members of the object stored under `storageKey`, or `None` when nothing
    (or the empty string) is stored, the text does not parse, or it is not an object.
  */
  function StoredObject(kv: map<string, string>, storageKey: string): Option<seq<Field>>
  {
    if storageKey !in kv || kv[storageKey] == "" then None
    else
      match Parse(kv[storageKey])
      case Some(JObj(fields)) => Some(fields)
      case _ => None
  }

  /**
    `loadData()`: the `data` member of the current principal's record for `key`;
    `None` for `null` (no principal, empty key, nothing stored, a parse error)
    and for `undefined` (a record without `data`).
  */
  function Load(kv: map<string, string>, user: Option<Principal>, key: string): (r: Option<Json>)
    ensures r.Some? ==> user.Some? && key != "" && StorageKey(user.value.id, key) in kv
    ensures r.Some? ==>
      var text := kv[StorageKey(user.value.id, key)];
      text != "" && Parse(text).Some? && Parse(text).value.JObj? &&
      Lookup(Parse(text).value.fields, "data") == r
  {
    if user.None? || key == "" then None
    else
      match StoredObject(kv, StorageKey(user.value.id, key))
      case None => None
      case Some(fields) => Lookup(fields, "data")
  }

  /** What `saveData` writes under the record's key. */
  function RecordText(data: Json, timestamp: string, ownerId: string): string
  {
    Serialize(RecordJson(data, timestamp, ownerId))
  }

  /** The activity entry a save appends. */
  function SaveEntry(key: string, at: Instant): Entry
  {
    Entry(at.millis, "Auto-saved " + key, Some("Data saved at " + at.local), at.iso)
  }

  /** The activity entry a clear appends. */
  function ClearEntry(key: string, at: Instant): Entry
  {
    Entry(at.millis, "Cleared saved " + key, None, at.iso)
  }

  /**
    Whether the change effect arms a timer: enabled, truthy data, a principal,
    and data whose serialization differs from the last saved snapshot.
  */
  predicate ShouldSchedule(enabled: bool, data: Json, user: Option<Principal>, lastSaved: Option<string>)
  {
    enabled && Truthy(data) && user.Some? && lastSaved != Some(Serialize(data))
  }

  /** The snapshot comparison is structural equality of the data. */
  lemma SnapshotIsStructural(enabled: bool, data: Json, user: Option<Principal>, saved: Json)
    requires enabled && Truthy(data) && user.Some?
    ensures !ShouldSchedule(enabled, data, user, Some(Serialize(saved))) <==> data == saved
  {
    SerializeInjective(data, saved);
  }

  /** No record key is one of the session's fixed keys: a record key contains `_`, they do not. */
  lemma StorageKeyIsNotSessionKey(ownerId: string, key: string)
    ensures StorageKey(ownerId, key) != UserKey
    ensures StorageKey(ownerId, key) != ActivityKey
  {
    var k := StorageKey(ownerId, key);
    assert k[|ownerId|] == '_';
    assert forall i :: 0 <= i < |UserKey| ==> UserKey[i] != '_';
    assert forall i :: 0 <= i < |ActivityKey| ==> ActivityKey[i] != '_';
  }

  /** One principal's records for different keys are stored under different keys. */
  lemma StorageKeyInjective(ownerId: string, k1: string, k2: string)
    ensures StorageKey(ownerId, k1) == StorageKey(ownerId, k2) <==> k1 == k2
  {
    if StorageKey(ownerId, k1) == StorageKey(ownerId, k2) {
      assert k1 == StorageKey(ownerId, k1)[|ownerId| + 1..];
      assert k2 == StorageKey(ownerId, k2)[|ownerId| + 1..];
    }
  }

  /** Round trip: after a record is written, loading that owner's key gives back its data. */
  lemma LoadAfterSave(kv: map<string, string>, p: Principal, key: string, data: Json, timestamp: string)
    requires key != ""
    ensures Load(kv[StorageKey(p.id, key) := RecordText(data, timestamp, p.id)], Some(p), key) == Some(data)
  {
    var rec := RecordJson(data, timestamp, p.id);
    ParseRoundTrip(rec);
    SerializeStart(rec);
    LookupUnique(rec.fields, 0);
  }

  /** A stored record that does not parse, or is not an object, loads nothing: the parse error is caught. */
  lemma LoadUnparsable(kv: map<string, string>, p: Principal, key: string)
    requires StorageKey(p.id, key) in kv
    requires Parse(kv[StorageKey(p.id, key)]).None? || !Parse(kv[StorageKey(p.id, key)]).value.JObj?
    ensures Load(kv, Some(p), key) == None
  {
  }

  /** After the record is removed, loading that key gives nothing. */
  lemma LoadAfterRemove(kv: map<string, string>, p: Principal, key: string)
    ensures Load(kv - {StorageKey(p.id, key)}, Some(p), key) == None
  {
  }

  /** Loading depends on nothing but the loaded record: writes to other keys do not change it. */
  lemma LoadReadsOnlyItsRecord(kv: map<string, string>, kv': map<string, string>, p: Principal, key: string)
    requires StorageKey(p.id, key) in kv <==> StorageKey(p.id, key) in kv'
    requires StorageKey(p.id, key) in kv ==> kv[StorageKey(p.id, key)] == kv'[StorageKey(p.id, key)]
    ensures Load(kv, Some(p), key) == Load(kv', Some(p), key)
  {
  }

  /** The hook's default delay in milliseconds; `enabled` defaults to true. */
  const DefaultDelay: nat := 2000

  class Autosave {
    /** The session the hook reads `user` and `addActivity` from. */
    const session: AuthProvider
    const key: string
    /** The debounce delay in milliseconds; `Elapse` stands for it having passed. */
    const delay: nat
    var data: Json
    var enabled: bool
    /** `timeoutRef.current`: the id of the last timer armed; it is never reset. */
    var timeoutRef: Option<nat>
    /** Whether the timer `timeoutRef` names is still scheduled. */
    var pending: bool
    /** `lastSavedRef.current`: the serialization of the data last saved. */
    var lastSaved: Option<string>

    ghost predicate Valid()
      reads this
    {
      pending ==> timeoutRef.Some?
    }

    /** The hook's first call: both refs are `null`; the effects have not run yet. */
    constructor (session: AuthProvider, key: string, delay: nat, data: Json, enabled: bool)
      ensures Valid()
      ensures this.session == session && this.key == key && this.delay == delay
      ensures this.data == data && this.enabled == enabled
      ensures timeoutRef == None && !pending && lastSaved == None
    {
      this.session := session;
      this.key := key;
      this.delay := delay;
      this.data := data;
      this.enabled := enabled;
      timeoutRef := None;
      pending := false;
      lastSaved := None;
    }

    /**
      `isEnabled`: the hook is enabled and someone is signed in. When it is
      false, no change arms a timer and no save writes anything.
    */
    predicate IsEnabled()
      reads this, session
      ensures !IsEnabled() ==> !ShouldSchedule(enabled, data, session.user, lastSaved) && !CanSave()
    {
      enabled && session.user.Some?
    }

    /** `loadData()`. */
    function LoadData(): Option<Json>
      reads this, session, session.store
    {
      Load(session.store.kv, session.user, key)
    }

    /** Whether a save does anything: enabled, a principal, a non-empty key. */
    predicate CanSave()
      reads this, session
    {
      enabled && session.user.Some? && key != ""
    }

    /**
      The state `saveData()` leaves: when it can save, the record under the
      principal's key, the new snapshot and a new head entry "Auto-saved {key}";
      otherwise nothing changed. The hook's own inputs are kept.
    */
    twostate predicate Saved(at: Instant)
      reads this, session, session.store
    {
      && data == old(data) && enabled == old(enabled) && session.user == old(session.user)
      && session.loading == old(session.loading)
      && if old(CanSave()) then
           var id := old(session.user).value.id;
           && lastSaved == Some(Serialize(data))
           && session.recentActivity == Prepend(old(session.recentActivity), SaveEntry(key, at))
           && session.store.kv == old(session.store.kv)[StorageKey(id, key) := RecordText(data, at.iso, id)]
                                                        [ActivityKey := Serialize(EncodeLog(session.recentActivity))]
         else
           && lastSaved == old(lastSaved)
           && session.recentActivity == old(session.recentActivity)
           && session.store.kv == old(session.store.kv)
    }

    /** `saveData()`. Afterwards `loadData()` returns the data just saved. */
    method SaveData(at: Instant)
      modifies this`lastSaved, session, session.store
      ensures Saved(at)
      ensures old(CanSave()) ==> LoadData() == Some(data)
    {
      if !enabled || session.user.None? || key == "" {
        return;
      }
      var id := session.user.value.id;
      var text := RecordText(data, at.iso, id);
      session.store.SetItem(StorageKey(id, key), text);
      lastSaved := Some(Serialize(data));
      session.AddActivity("Auto-saved " + key, Some("Data saved at " + at.local), at);
      LoadAfterSave(old(session.store.kv), session.user.value, key, data, at.iso);
      StorageKeyIsNotSessionKey(id, key);
    }

    /**
      The change effect, run with the hook's new `data` and `enabled`: the
      previous run's cleanup cancels the pending timer, then a new timer is armed
      exactly when `ShouldSchedule` holds. Nothing is written.
    */
    method Changed(newData: Json, newEnabled: bool)
      requires Valid()
      modifies this`data, this`enabled, this`timeoutRef, this`pending
      ensures Valid()
      ensures data == newData && enabled == newEnabled
      ensures pending == ShouldSchedule(newEnabled, newData, session.user, lastSaved)
      ensures pending ==> IsEnabled()
      ensures timeoutRef == if pending then Some(NextTimer(old(timeoutRef))) else old(timeoutRef)
    {
      if timeoutRef.Some? {
        pending := false;
      }
      data, enabled := newData, newEnabled;
      if !enabled || !Truthy(data) || session.user.None? {
        return;
      }
      if Some(Serialize(data)) == lastSaved {
        return;
      }
      timeoutRef := Some(NextTimer(timeoutRef));
      pending := true;
    }

    /** The armed timer fires when the delay has passed; a cancelled timer never fires. */
    method Elapse(at: Instant)
      requires Valid()
      modifies this`lastSaved, this`pending, session, session.store
      ensures Valid() && !pending
      ensures old(pending) ==> Saved(at)
      ensures old(pending) && old(CanSave()) ==> LoadData() == Some(data)
      ensures !old(pending) ==> unchanged(this, session, session.store)
    {
      if pending {
        pending := false;
        SaveData(at);
      }
    }

    /** `forceSave()`: cancel the pending timer, then save at once. */
    method ForceSave(at: Instant)
      requires Valid()
      modifies this`lastSaved, this`pending, session, session.store
      ensures Valid() && !pending
      ensures Saved(at)
      ensures old(CanSave()) ==> LoadData() == Some(data)
    {
      if timeoutRef.Some? {
        pending := false;
      }
      SaveData(at);
    }

    /**
      `clearSavedData()`: remove the record, forget the snapshot and append
      "Cleared saved {key}". It neither checks `enabled` nor cancels a pending timer.
    */
    method ClearSavedData(at: Instant)
      requires Valid()
      modifies this`lastSaved, session, session.store
      ensures Valid()
      ensures session.user == old(session.user) && session.loading == old(session.loading)
      ensures old(session.user).None? || key == "" ==> unchanged(this, session, session.store)
      ensures old(session.user).Some? && key != "" ==>
        && lastSaved == None
        && session.recentActivity == Prepend(old(session.recentActivity), ClearEntry(key, at))
        && session.store.kv == (old(session.store.kv) - {StorageKey(old(session.user).value.id, key)})
                                 [ActivityKey := Serialize(EncodeLog(session.recentActivity))]
        && LoadData() == None
    {
      if session.user.None? || key == "" {
        return;
      }
      var id := session.user.value.id;
      session.store.RemoveItem(StorageKey(id, key));
      lastSaved := None;
      session.AddActivity("Cleared saved " + key, None, at);
      StorageKeyIsNotSessionKey(id, key);
    }

    /**
      Teardown: when a timer was ever armed (the handle is never reset), cancel it
      and save once more.
    */
    method Unmount(at: Instant)
      requires Valid()
      modifies this`lastSaved, this`pending, session, session.store
      ensures Valid() && !pending
      ensures old(timeoutRef).Some? ==> Saved(at)
      ensures old(timeoutRef).Some? && old(CanSave()) ==> LoadData() == Some(data)
      ensures old(timeoutRef).None? ==> unchanged(this, session, session.store)
    {
      if timeoutRef.Some? {
        pending := false;
        SaveData(at);
      }
    }

    /**
      A re-render that renews `saveData`, as React runs it: the change effect's
      cleanup cancels the timer, and because the teardown effect depends on
      `saveData`, its cleanup runs as well and saves the PREVIOUS data when a
      timer was ever armed; then the change effect runs. `saveData` is renewed
      when `data` or `enabled` changes, and also on every re-render of the
      provider (it depends on `addActivity`), so arguments equal to the current
      ones stand for such a provider re-render. A re-render that renews nothing
      runs no effect and is not a call of this method.
    */
    method ChangedAsRendered(newData: Json, newEnabled: bool, at: Instant)
      requires Valid()
      modifies this`data, this`enabled, this`timeoutRef, this`pending, this`lastSaved, session, session.store
      ensures Valid()
      ensures data == newData && enabled == newEnabled
      ensures session.user == old(session.user) && session.loading == old(session.loading)
      ensures old(timeoutRef).Some? && old(CanSave()) ==>
        var id := old(session.user).value.id;
        && lastSaved == Some(Serialize(old(data)))
        && session.recentActivity == Prepend(old(session.recentActivity), SaveEntry(key, at))
        && session.store.kv == old(session.store.kv)[StorageKey(id, key) := RecordText(old(data), at.iso, id)]
                                                     [ActivityKey := Serialize(EncodeLog(session.recentActivity))]
        && LoadData() == Some(old(data))
      ensures old(timeoutRef).None? || !old(CanSave()) ==>
        && lastSaved == old(lastSaved)
        && session.recentActivity == old(session.recentActivity)
        && session.store.kv == old(session.store.kv)
      ensures pending == ShouldSchedule(newEnabled, newData, session.user, lastSaved)
      ensures timeoutRef == if pending then Some(NextTimer(old(timeoutRef))) else old(timeoutRef)
    {
      if timeoutRef.Some? {
        pending := false;
      }
      Unmount(at);
      ghost var flushed := LoadData();
      ghost var kv, log, saved := session.store.kv, session.recentActivity, lastSaved;
      Changed(newData, newEnabled);
      assert session.store.kv == kv && session.recentActivity == log && lastSaved == saved;
      assert LoadData() == flushed;
    }
  }

  /** The id the browser gives the next timer: ids increase from 1. */
  function NextTimer(last: Option<nat>): (id: nat)
    ensures last.Some? ==> id > last.value
  {
    if last.Some? then last.value + 1 else 1
  }
}
