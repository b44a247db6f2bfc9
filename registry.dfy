/**
  The autosave registry (`useAutosaveStatus` in src/hooks/useAutosave.js): it
  lists, inspects and bulk-clears the current principal's records, which it
  recognizes by the key prefix `${user.id}_`.
*/
module AutosaveStatus {
  import opened Wrappers
  import opened Json
  import opened Storage
  import opened Auth
  import opened Autosave

  /** The prefix of every key the principal `ownerId` owns. */
  function OwnerPrefix(ownerId: string): string
  {
    ownerId + "_"
  }

  predicate StartsWith(s: string, prefix: string)
  {
    |prefix| <= |s| && s[..|prefix|] == prefix
  }

  /** The store keys that `startsWith(`${ownerId}_`)`. */
  function OwnedStoreKeys(kv: map<string, string>, ownerId: string): set<string>
  {
    set k | k in kv && StartsWith(k, OwnerPrefix(ownerId))
  }

  /** A key with the owner's prefix is the record key of what follows the prefix. */
  lemma PrefixSplit(ownerId: string, sk: string)
    requires StartsWith(sk, OwnerPrefix(ownerId))
    ensures sk == StorageKey(ownerId, sk[|OwnerPrefix(ownerId)|..])
  {
    var p := OwnerPrefix(ownerId);
    assert sk == sk[..|p|] + sk[|p|..];
  }

  /** The owner's record keys are exactly the keys with the owner's prefix. */
  lemma OwnedIffPrefixed(ownerId: string, k: string)
    ensures StartsWith(StorageKey(ownerId, k), OwnerPrefix(ownerId))
    ensures StorageKey(ownerId, k)[|OwnerPrefix(ownerId)|..] == k
  {
    assert StorageKey(ownerId, k) == OwnerPrefix(ownerId) + k;
  }

  /**
    Records of another principal are never listed or cleared, provided neither
    id contains `_`: otherwise the prefix test cannot tell owners apart (see
    `PrefixOverlap`).
  */
  lemma OtherOwnersInvisible(a: string, b: string, k: string)
    requires a != b
    requires '_' !in a && '_' !in b
    ensures !StartsWith(StorageKey(b, k), OwnerPrefix(a))
  {
    var sk := StorageKey(b, k);
    var p := OwnerPrefix(a);
    var i: nat;
    if |a| < |b| {
      i := |a|;
      assert sk[i] == b[i] && p[i] == '_';
    } else if |a| > |b| {
      i := |b|;
      assert sk[i] == '_' && p[i] == a[i];
    } else {
      i :| i < |a| && a[i] != b[i];
      assert sk[i] == b[i] && p[i] == a[i];
    }
    assert i < |sk| && i < |p| && sk[i] != p[i];
  }

  /** With ids that contain `_`, one principal's prefix matches another's record. */
  lemma PrefixOverlap()
    ensures StartsWith(StorageKey("1_x", "notes"), OwnerPrefix("1"))
  {
    assert StorageKey("1_x", "notes")[..2] == "1_";
  }

  /** What `getAutosaveInfo(key)` reports about a record. */
  datatype AutosaveInfo = AutosaveInfo(timestamp: Option<Json>, hasData: bool, size: nat)

  /**
    `getAutosaveInfo(key)`: the record's timestamp, whether its data is truthy
    and the length of the data re-serialized now; `None` with no principal, an
    empty key, or a record that is absent, unparsable or has no `data` (where
    `JSON.stringify(undefined).length` throws).
  */
  function Info(kv: map<string, string>, user: Option<Principal>, key: string): (r: Option<AutosaveInfo>)
    ensures r.Some? <==> Load(kv, user, key).Some?
    ensures r.Some? ==> r.value.hasData == Truthy(Load(kv, user, key).value)
    ensures r.Some? ==> r.value.size == |Serialize(Load(kv, user, key).value)|
  {
    if user.None? || key == "" then None
    else
      match StoredObject(kv, StorageKey(user.value.id, key))
      case None => None
      case Some(fields) =>
        match Lookup(fields, "data")
        case None => None
        case Some(d) => Some(AutosaveInfo(Lookup(fields, "timestamp"), Truthy(d), |Serialize(d)|))
  }

  /** After a save, the info reports the save's timestamp and the saved data's truthiness and size. */
  lemma InfoAfterSave(kv: map<string, string>, p: Principal, key: string, data: Json, timestamp: string)
    requires key != ""
    ensures Info(kv[StorageKey(p.id, key) := RecordText(data, timestamp, p.id)], Some(p), key)
         == Some(AutosaveInfo(Some(JStr(timestamp)), Truthy(data), |Serialize(data)|))
  {
    var rec := RecordJson(data, timestamp, p.id);
    ParseRoundTrip(rec);
    SerializeStart(rec);
    LookupUnique(rec.fields, 0);
    LookupUnique(rec.fields, 1);
  }

  class AutosaveStatus {
    const session: AuthProvider

    constructor (session: AuthProvider)
      ensures this.session == session
    {
      this.session := session;
    }

    /**
      `getAutosaveKeys()`: every store key with the principal's prefix, the
      prefix stripped, each once, in the store's (unspecified) enumeration order.
    */
    method GetAutosaveKeys() returns (keys: seq<string>)
      ensures session.user.None? ==> keys == []
      ensures session.user.Some? ==>
        forall k :: k in keys <==> StorageKey(session.user.value.id, k) in session.store.kv
      ensures forall i, j :: 0 <= i < j < |keys| ==> keys[i] != keys[j]
    {
      keys := [];
      if session.user.None? {
        return;
      }
      var id := session.user.value.id;
      var prefix := OwnerPrefix(id);
      var kv := session.store.kv;
      var remaining := kv.Keys;
      while remaining != {}
        invariant remaining <= kv.Keys
        invariant forall k :: k in keys <==> StorageKey(id, k) in kv && StorageKey(id, k) !in remaining
        invariant forall i, j :: 0 <= i < j < |keys| ==> keys[i] != keys[j]
        decreases remaining
      {
        var sk :| sk in remaining;
        if StartsWith(sk, prefix) {
          var k := sk[|prefix|..];
          PrefixSplit(id, sk);
          forall k' ensures StorageKey(id, k') == sk <==> k' == k {
            StorageKeyInjective(id, k', k);
          }
          keys := keys + [k];
        } else {
          forall k' ensures StorageKey(id, k') != sk {
            OwnedIffPrefixed(id, k');
          }
        }
        remaining := remaining - {sk};
      }
    }

    /** `getAutosaveInfo(key)`. */
    function GetAutosaveInfo(key: string): Option<AutosaveInfo>
      reads this, session, session.store
    {
      Info(session.store.kv, session.user, key)
    }

    /**
      `clearAllAutosaveData()`: remove every key with the principal's prefix and
      nothing else.
    */
    method ClearAllAutosaveData()
      modifies session.store
      ensures session.user.None? ==> session.store.kv == old(session.store.kv)
      ensures session.user.Some? ==>
        session.store.kv == old(session.store.kv) - OwnedStoreKeys(old(session.store.kv), session.user.value.id)
      ensures session.user.Some? ==> OwnedStoreKeys(session.store.kv, session.user.value.id) == {}
    {
      if session.user.None? {
        return;
      }
      var keys := GetAutosaveKeys();
      var id := session.user.value.id;
      ghost var kv0 := session.store.kv;
      ListedAreOwned(kv0, id, keys);
      var i := 0;
      while i < |keys|
        invariant 0 <= i <= |keys|
        invariant session.store.kv == kv0 - Removed(id, keys, i)
      {
        session.store.RemoveItem(StorageKey(id, keys[i]));
        RemovedNext(id, keys, i);
        i := i + 1;
      }
      NoneLeft(kv0, id);
    }
  }

  /** The record keys of the first `i` listed keys. */
  ghost function Removed(id: string, keys: seq<string>, i: nat): set<string>
    requires i <= |keys|
  {
    set j | 0 <= j < i :: StorageKey(id, keys[j])
  }

  lemma RemovedNext(id: string, keys: seq<string>, i: nat)
    requires i < |keys|
    ensures Removed(id, keys, i + 1) == Removed(id, keys, i) + {StorageKey(id, keys[i])}
  {
  }

  /** When `keys` lists exactly the owner's records, their record keys are the owner's prefixed keys. */
  lemma ListedAreOwned(kv: map<string, string>, id: string, keys: seq<string>)
    requires forall k :: k in keys <==> StorageKey(id, k) in kv
    ensures OwnedStoreKeys(kv, id) == Removed(id, keys, |keys|)
  {
    forall sk | sk in OwnedStoreKeys(kv, id) ensures sk in Removed(id, keys, |keys|) {
      PrefixSplit(id, sk);
      var k := sk[|OwnerPrefix(id)|..];
      var j :| 0 <= j < |keys| && keys[j] == k;
    }
    forall sk | sk in Removed(id, keys, |keys|) ensures sk in OwnedStoreKeys(kv, id) {
      var j :| 0 <= j < |keys| && sk == StorageKey(id, keys[j]);
      OwnedIffPrefixed(id, keys[j]);
    }
  }

  /** Removing the owner's prefixed keys leaves none. */
  lemma NoneLeft(kv: map<string, string>, id: string)
    ensures OwnedStoreKeys(kv - OwnedStoreKeys(kv, id), id) == {}
  {
  }
}
