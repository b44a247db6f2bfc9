/**
  The session store (`AuthProvider` in src/contexts/AuthContext.jsx): the current
  principal and the recent-activity log, both mirrored into the key-value store
  under the fixed keys `user` and `recentActivity`.
*/
module Auth {
  import opened Wrappers
  import opened Json
  import opened Storage

  const UserKey: string := "user"
  const ActivityKey: string := "recentActivity"
  /** The log keeps this many entries: the new one and the 4 before it. */
  const MaxActivity: nat := 5
  /** Every principal the placeholder sign-in builds has this id. */
  const MockId: string := "1"

  datatype Principal = Principal(id: string, email: string, name: string, avatar: Option<string>)

  datatype Entry = Entry(id: int, action: string, details: Option<string>, timestamp: string)

  /**
    One reading of the clock: `Date.now()`, `new Date().toISOString()` and
    `toLocaleTimeString()`, taken by an operation as a parameter.
  */
  datatype Instant = Instant(millis: int, iso: string, local: string)

  // ----- principals -----

  /** `email.split('@')[0]`: everything before the first `@`, or all of `email` when it has none. */
  function EmailPrefix(email: string): (r: string)
    ensures |r| <= |email| && r == email[..|r|]
    ensures '@' !in r
    ensures |r| < |email| ==> email[|r|] == '@'
  {
    if email == [] || email[0] == '@' then []
    else [email[0]] + EmailPrefix(email[1..])
  }

  // ----- the activity log -----

  function Min(a: nat, b: nat): nat { if a < b then a else b }

  /**
    `[newActivity, ...recentActivity.slice(0, 4)]`: the new entry in front of at
    most the 4 most recent previous entries, in their previous order.
  */
  function Prepend(log: seq<Entry>, e: Entry): (r: seq<Entry>)
    ensures |r| == Min(|log| + 1, MaxActivity)
    ensures r[0] == e
    ensures forall i :: 1 <= i < |r| ==> r[i] == log[i - 1]
  {
    [e] + log[..Min(|log|, MaxActivity - 1)]
  }

  /** The log after `addActivity` is called once per entry of `entries`, in order. */
  function Replay(log: seq<Entry>, entries: seq<Entry>): seq<Entry>
    decreases |entries|
  {
    if entries == [] then log else Replay(Prepend(log, entries[0]), entries[1..])
  }

  function Reverse<T>(s: seq<T>): (r: seq<T>)
    ensures |r| == |s|
  {
    if s == [] then [] else Reverse(s[1..]) + [s[0]]
  }

  function Take<T>(s: seq<T>, n: nat): seq<T>
  {
    s[..Min(|s|, n)]
  }

  lemma TakeAbsorbs<T>(x: seq<T>, y: seq<T>, n: nat)
    ensures Take(x + Take(y, n), n) == Take(x + y, n)
  {
    var a := x + Take(y, n);
    var b := x + y;
    assert |Take(a, n)| == |Take(b, n)|;
    forall i | 0 <= i < |Take(a, n)|
      ensures Take(a, n)[i] == Take(b, n)[i]
    {
      if i >= |x| { assert a[i] == y[i - |x|]; }
    }
  }

  /**
    However many entries are added, the log is the newest 5 of them, newest
    first, followed by as many older entries as still fit.
  */
  lemma {:induction false} ReplayKeepsNewest(log: seq<Entry>, entries: seq<Entry>)
    requires entries != []
    ensures Replay(log, entries) == Take(Reverse(entries) + log, MaxActivity)
    ensures |Replay(log, entries)| <= MaxActivity
    decreases |entries|
  {
    var e := entries[0];
    var p := Prepend(log, e);
    assert p == Take([e] + log, MaxActivity);
    if |entries| == 1 {
      assert Reverse(entries) == [e];
    } else {
      ReplayKeepsNewest(p, entries[1..]);
      assert Reverse(entries) == Reverse(entries[1..]) + [e];
      TakeAbsorbs(Reverse(entries[1..]), [e] + log, MaxActivity);
      assert Reverse(entries[1..]) + ([e] + log) == Reverse(entries) + log;
    }
  }

  // ----- what is written under `user` and `recentActivity` -----

  function OptionalText(s: Option<string>): Json
  {
    match s
    case None => JNull
    case Some(t) => JStr(t)
  }

  /** `null` or a string; anything else is not an optional text. */
  function ReadOptionalText(v: Json): Option<Option<string>>
  {
    match v
    case JNull => Some(None)
    case JStr(t) => Some(Some(t))
    case _ => None
  }

  function Text(v: Option<Json>): Option<string>
  {
    if v.Some? && v.value.JStr? then Some(v.value.s) else None
  }

  function EncodePrincipal(p: Principal): Json
  {
    JObj([Field("id", JStr(p.id)), Field("email", JStr(p.email)),
          Field("name", JStr(p.name)), Field("avatar", OptionalText(p.avatar))])
  }

  function DecodePrincipal(v: Json): Option<Principal>
  {
    if !v.JObj? then None
    else PrincipalOf(Text(Lookup(v.fields, "id")), Text(Lookup(v.fields, "email")),
                     Text(Lookup(v.fields, "name")), Lookup(v.fields, "avatar"))
  }

  /** The principal made of the members read, when all are present and of the right kind. */
  function PrincipalOf(id: Option<string>, email: Option<string>, name: Option<string>, avatar: Option<Json>): Option<Principal>
  {
    if id.None? || email.None? || name.None? || avatar.None? then None
    else
      match ReadOptionalText(avatar.value)
      case None => None
      case Some(a) => Some(Principal(id.value, email.value, name.value, a))
  }

  function EncodeEntry(e: Entry): Json
  {
    JObj([Field("id", JNum(e.id)), Field("action", JStr(e.action)),
          Field("details", OptionalText(e.details)), Field("timestamp", JStr(e.timestamp))])
  }

  function DecodeEntry(v: Json): Option<Entry>
  {
    if !v.JObj? then None
    else EntryOf(Lookup(v.fields, "id"), Text(Lookup(v.fields, "action")),
                 Lookup(v.fields, "details"), Text(Lookup(v.fields, "timestamp")))
  }

  /** The entry made of the members read, when all are present and of the right kind. */
  function EntryOf(id: Option<Json>, action: Option<string>, details: Option<Json>, timestamp: Option<string>): Option<Entry>
  {
    if id.None? || !id.value.JNum? || action.None? || details.None? || timestamp.None? then None
    else
      match ReadOptionalText(details.value)
      case None => None
      case Some(d) => Some(Entry(id.value.n, action.value, d, timestamp.value))
  }

  function EncodeEntries(log: seq<Entry>): seq<Json>
  {
    if log == [] then [] else [EncodeEntry(log[0])] + EncodeEntries(log[1..])
  }

  function DecodeEntries(items: seq<Json>): Option<seq<Entry>>
  {
    if items == [] then Some([])
    else
      match DecodeEntry(items[0])
      case None => None
      case Some(e) =>
        match DecodeEntries(items[1..])
        case None => None
        case Some(es) => Some([e] + es)
  }

  function EncodeLog(log: seq<Entry>): Json
  {
    JArr(EncodeEntries(log))
  }

  function DecodeLog(v: Json): Option<seq<Entry>>
  {
    if v.JArr? then DecodeEntries(v.items) else None
  }

  lemma DecodeEncodePrincipal(p: Principal)
    ensures DecodePrincipal(EncodePrincipal(p)) == Some(p)
  {
    assert "id"[0] != "email"[0] && "id"[0] != "name"[0] && "id"[0] != "avatar"[0];
    assert "email"[0] != "name"[0] && "email"[0] != "avatar"[0] && "name"[0] != "avatar"[0];
    LookupFour(Field("id", JStr(p.id)), Field("email", JStr(p.email)),
               Field("name", JStr(p.name)), Field("avatar", OptionalText(p.avatar)));
  }

  lemma DecodeEncodeEntry(e: Entry)
    ensures DecodeEntry(EncodeEntry(e)) == Some(e)
  {
    assert "id"[0] != "action"[0] && "id"[0] != "details"[0] && "id"[0] != "timestamp"[0];
    assert "action"[0] != "details"[0] && "action"[0] != "timestamp"[0] && "details"[0] != "timestamp"[0];
    LookupFour(Field("id", JNum(e.id)), Field("action", JStr(e.action)),
               Field("details", OptionalText(e.details)), Field("timestamp", JStr(e.timestamp)));
  }

  lemma {:induction false} DecodeEncodeLog(log: seq<Entry>)
    ensures DecodeLog(EncodeLog(log)) == Some(log)
    decreases |log|
  {
    if log != [] {
      var items := EncodeEntries(log);
      DecodeEncodeEntry(log[0]);
      DecodeEncodeLog(log[1..]);
      assert items[0] == EncodeEntry(log[0]);
      assert items[1..] == EncodeEntries(log[1..]);
      DecodeEntriesStep(items, log[0], log[1..]);
      assert [log[0]] + log[1..] == log;
    }
  }

  /** Decoding an array whose first element and the rest decode. */
  lemma DecodeEntriesStep(items: seq<Json>, e: Entry, es: seq<Entry>)
    requires items != []
    requires DecodeEntry(items[0]) == Some(e) && DecodeEntries(items[1..]) == Some(es)
    ensures DecodeEntries(items) == Some([e] + es)
  {
  }

  // ----- the initial load -----

  /**
    How the mount effect ended. `Corrupt(k)`: `JSON.parse` threw on the item
    under `k`; the effect does not catch this, so it stops there and loading is
    never finished. `Unrecognized(k)`: the item parsed but is not a principal
    (an object, or `null`) or not a list of entries; the model ignores that item.
  */
  datatype Status = Loaded | Corrupt(key: string) | Unrecognized(key: string)

  datatype Restored = Restored(user: Option<Principal>, log: seq<Entry>, status: Status)

  /** What reading and parsing one item gives: absent or empty (falsy), unparsable, or a value. */
  datatype Item = Absent | Unparsable | Value(v: Json)

  function ReadItem(kv: map<string, string>, key: string): (r: Item)
    ensures r.Absent? <==> key !in kv || kv[key] == ""
    ensures r.Value? ==> Parse(kv[key]) == Some(r.v)
  {
    if key !in kv || kv[key] == "" then Absent
    else
      match Parse(kv[key])
      case None => Unparsable
      case Some(v) => Value(v)
  }

  /** The state the mount effect leaves the provider in, starting from no user and an empty log. */
  function LoadSession(kv: map<string, string>): Restored
  {
    match ReadItem(kv, UserKey)
    case Unparsable => Restored(None, [], Corrupt(UserKey))
    case first =>
      var user := if first.Value? then DecodePrincipal(first.v) else None;
      var status := if first.Value? && first.v != JNull && user.None? then Unrecognized(UserKey) else Loaded;
      match ReadItem(kv, ActivityKey)
      case Absent => Restored(user, [], status)
      case Unparsable => Restored(user, [], Corrupt(ActivityKey))
      case Value(v) =>
        match DecodeLog(v)
        case Some(log) => Restored(user, log, status)
        case None => Restored(user, [], if status == Loaded then Unrecognized(ActivityKey) else status)
  }

  /** The store holds exactly the principal in memory under `user` (nothing when there is none). */
  ghost predicate UserPersisted(kv: map<string, string>, user: Option<Principal>)
  {
    match user
    case None => UserKey !in kv
    case Some(p) => UserKey in kv && kv[UserKey] == Serialize(EncodePrincipal(p))
  }

  /** The store holds the log in memory under `recentActivity`, or nothing when the log is empty. */
  ghost predicate LogPersisted(kv: map<string, string>, log: seq<Entry>)
  {
    if ActivityKey in kv then kv[ActivityKey] == Serialize(EncodeLog(log)) else log == []
  }

  /**
    What the provider persists is what a later mount restores: when the store
    mirrors a principal and a log, loading it gives back that principal and log.
  */
  lemma RestorePersisted(kv: map<string, string>, user: Option<Principal>, log: seq<Entry>)
    requires UserPersisted(kv, user) && LogPersisted(kv, log)
    ensures LoadSession(kv) == Restored(user, log, Loaded)
  {
    if user.Some? {
      var v := EncodePrincipal(user.value);
      ParseRoundTrip(v);
      DecodeEncodePrincipal(user.value);
      SerializeStart(v);
      assert ReadItem(kv, UserKey) == Value(v);
    }
    if ActivityKey in kv {
      var v := EncodeLog(log);
      ParseRoundTrip(v);
      DecodeEncodeLog(log);
      SerializeStart(v);
      assert ReadItem(kv, ActivityKey) == Value(v);
    }
  }

  // ----- the provider -----

  class AuthProvider {
    /** The page's `localStorage`. */
    const store: Store
    var user: Option<Principal>
    var loading: bool
    var recentActivity: seq<Entry>

    /** The first render: no user, loading, an empty log; the mount effect has not run yet. */
    constructor (store: Store)
      ensures this.store == store
      ensures user == None && loading && recentActivity == []
    {
      this.store := store;
      user := None;
      loading := true;
      recentActivity := [];
    }

    /**
      The mount effect: take the principal and the log from the store when the
      keys `user` and `recentActivity` hold something, then finish loading.
      Parse errors are not caught.
    */
    method LoadSaved() returns (status: Status)
      requires loading && user == None && recentActivity == []
      modifies this
      ensures user == LoadSession(store.kv).user
      ensures recentActivity == LoadSession(store.kv).log
      ensures status == LoadSession(store.kv).status
      ensures loading <==> status.Corrupt?
    {
      status := Loaded;
      var savedUser := store.GetItem(UserKey);
      var savedActivity := store.GetItem(ActivityKey);
      if savedUser.Some? && savedUser.value != "" {
        var parsed := Parse(savedUser.value);
        if parsed.None? {
          return Corrupt(UserKey);
        }
        user := DecodePrincipal(parsed.value);
        if parsed.value != JNull && user.None? {
          status := Unrecognized(UserKey);
        }
      }
      if savedActivity.Some? && savedActivity.value != "" {
        var parsed := Parse(savedActivity.value);
        if parsed.None? {
          return Corrupt(ActivityKey);
        }
        var log := DecodeLog(parsed.value);
        if log.Some? {
          recentActivity := log.value;
        } else if status == Loaded {
          status := Unrecognized(ActivityKey);
        }
      }
      loading := false;
    }

    /** `addActivity(action, details)`: prepend an entry, keep 5, write the whole log. */
    method AddActivity(action: string, details: Option<string>, at: Instant)
      modifies this, store
      ensures recentActivity == Prepend(old(recentActivity), Entry(at.millis, action, details, at.iso))
      ensures store.kv == old(store.kv)[ActivityKey := Serialize(EncodeLog(recentActivity))]
      ensures user == old(user) && loading == old(loading)
      ensures LogPersisted(store.kv, recentActivity)
      ensures UserPersisted(store.kv, user) == old(UserPersisted(store.kv, user))
    {
      var entry := Entry(at.millis, action, details, at.iso);
      var updated := Prepend(recentActivity, entry);
      recentActivity := updated;
      store.SetItem(ActivityKey, Serialize(EncodeLog(updated)));
    }

    /** `signIn(email, password)`: the password is not checked by this placeholder. */
    method SignIn(email: string, password: string, at: Instant) returns (p: Principal)
      modifies this, store
      ensures p == Principal(MockId, email, EmailPrefix(email), None)
      ensures user == Some(p)
      ensures recentActivity == Prepend(old(recentActivity), Entry(at.millis, "User signed in", None, at.iso))
      ensures store.kv == old(store.kv)[UserKey := Serialize(EncodePrincipal(p))]
                                       [ActivityKey := Serialize(EncodeLog(recentActivity))]
      ensures loading == old(loading)
      ensures UserPersisted(store.kv, user) && LogPersisted(store.kv, recentActivity)
    {
      p := Principal(MockId, email, EmailPrefix(email), None);
      user := Some(p);
      store.SetItem(UserKey, Serialize(EncodePrincipal(p)));
      AddActivity("User signed in", None, at);
    }

    /**
      `signUp(email, password, name)`: as `signIn`, but the name is `name` when
      it is truthy (non-empty; an omitted name is the empty string here).
    */
    method SignUp(email: string, password: string, name: string, at: Instant) returns (p: Principal)
      modifies this, store
      ensures p.id == MockId && p.email == email && p.avatar == None
      ensures p.name == if name != "" then name else EmailPrefix(email)
      ensures user == Some(p)
      ensures recentActivity == Prepend(old(recentActivity), Entry(at.millis, "User account created", None, at.iso))
      ensures store.kv == old(store.kv)[UserKey := Serialize(EncodePrincipal(p))]
                                       [ActivityKey := Serialize(EncodeLog(recentActivity))]
      ensures loading == old(loading)
      ensures UserPersisted(store.kv, user) && LogPersisted(store.kv, recentActivity)
    {
      p := Principal(MockId, email, if name != "" then name else EmailPrefix(email), None);
      user := Some(p);
      store.SetItem(UserKey, Serialize(EncodePrincipal(p)));
      AddActivity("User account created", None, at);
    }

    /** `signOut()`: forget the principal and the log, in memory and in the store. */
    method SignOut()
      modifies this, store
      ensures user == None && recentActivity == []
      ensures store.kv == old(store.kv) - {UserKey, ActivityKey}
      ensures loading == old(loading)
      ensures UserPersisted(store.kv, user) && LogPersisted(store.kv, recentActivity)
    {
      user := None;
      store.RemoveItem(UserKey);
      store.RemoveItem(ActivityKey);
      recentActivity := [];
    }
  }
}
