/** `localApi`: JSON values kept under string keys in the device's
    persistent key-value store, with fixed keys for the signed-in user and
    for the tenant's lease.

    The store itself is a map from keys to the text stored under them.
    Whether the storage backend fails on a given call is not something the
    service decides, so every operation takes the backend's outcome for
    that call as a parameter: None when it succeeds, Some(error) for the
    error it throws. */
module LocalApi {
  import opened Wrappers
  import opened Json
  import opened Js

  const UserKey := "trustlord_user"
  const TenantLeaseKey := "trustlord_tenant_lease"

  // ---------------------------------------------------------------------
  // The store as a value

  /** The store after `value` is written under `key`: the text replaces
      whatever was there (no merging). */
  function Written(items: map<string, string>, key: string, value: Json): map<string, string> {
    items[key := Stringify(value)]
  }

  /** The store after the entry for `key` is removed. */
  function Removed(items: map<string, string>, key: string): map<string, string> {
    items - {key}
  }

  /** What `getItem(key)` answers when the backend reads successfully: null
      for a missing or empty (falsy) text, null when the text is not JSON
      (the parse error is swallowed), the parsed value otherwise. */
  function Read(items: map<string, string>, key: string): Json {
    if key !in items || items[key] == "" then JNull
    else
      match Parse(items[key])
      case None => JNull
      case Some(v) => v
  }

  /** Every stored text is the JSON text of the value it parses to, as is
      the case for a store written only through this service. */
  ghost predicate Canonical(items: map<string, string>) {
    forall key :: key in items ==> Parse(items[key]).Some? && Stringify(Parse(items[key]).value) == items[key]
  }

  // ---------------------------------------------------------------------
  // Store laws

  /** Get after set: reading a key returns the value last written there. */
  lemma ReadWritten(items: map<string, string>, key: string, value: Json)
    ensures Read(Written(items, key, value), key) == value
  {
    StringifyNonEmpty(value);
    ParseStringify(value);
  }

  /** Get after remove: a removed key reads as null. */
  lemma ReadRemoved(items: map<string, string>, key: string)
    ensures Read(Removed(items, key), key) == JNull
  {
  }

  /** Writing or removing one key leaves every other key's answer alone. */
  lemma OtherKeysUnchanged(items: map<string, string>, key: string, other: string, value: Json)
    requires other != key
    ensures Read(Written(items, key, value), other) == Read(items, other)
    ensures Read(Removed(items, key), other) == Read(items, other)
  {
  }

  /** A second write replaces the first rather than merging with it. */
  lemma WriteOverwrites(items: map<string, string>, key: string, first: Json, second: Json)
    ensures Written(Written(items, key, first), key, second) == Written(items, key, second)
  {
  }

  /** The lease wrappers never disturb the stored user, and the user
      wrappers never disturb the stored lease. */
  lemma UserAndLeaseIsolated(items: map<string, string>, value: Json)
    ensures Read(Written(items, TenantLeaseKey, value), UserKey) == Read(items, UserKey)
    ensures Read(Removed(items, TenantLeaseKey), UserKey) == Read(items, UserKey)
    ensures Read(Written(items, UserKey, value), TenantLeaseKey) == Read(items, TenantLeaseKey)
    ensures Read(Removed(items, UserKey), TenantLeaseKey) == Read(items, TenantLeaseKey)
  {
    OtherKeysUnchanged(items, TenantLeaseKey, UserKey, value);
    OtherKeysUnchanged(items, UserKey, TenantLeaseKey, value);
  }

  /** Writes and removals keep a canonical store canonical. */
  lemma CanonicalPreserved(items: map<string, string>, key: string, value: Json)
    ensures Canonical(items) ==> Canonical(Written(items, key, value))
    ensures Canonical(items) ==> Canonical(Removed(items, key))
  {
    ParseStringify(value);
  }

  /** In a canonical store, a key reads as null exactly when it is missing
      or holds the JSON null. */
  lemma CanonicalReadNull(items: map<string, string>, key: string)
    requires Canonical(items)
    ensures Read(items, key) == JNull <==> key !in items || items[key] == "null"
  {
    if key in items {
      var v := Parse(items[key]).value;
      StringifyNonEmpty(v);
    }
  }

  // ---------------------------------------------------------------------
  // The service

  class LocalStorage {
    /** What the persistent store holds. */
    var items: map<string, string>

    /** A store that holds nothing. */
    constructor ()
      ensures items == map[] && Canonical(items)
    {
      items := map[];
    }

    /** `setItem(key, value)`: writes `JSON.stringify(value)`; an error from
        the backend is rethrown and nothing is written. */
    method SetItem(key: string, value: Json, fault: Option<Thrown>) returns (r: Outcome<Thrown>)
      modifies this
      ensures fault.None? ==> r == Pass && items == Written(old(items), key, value)
      ensures fault.Some? ==> r == Fail(fault.value) && items == old(items)
      ensures old(Canonical(items)) ==> Canonical(items)
    {
      if fault.Some? {
        return Fail(fault.value);
      }
      CanonicalPreserved(items, key, value);
      items := items[key := Stringify(value)];
      r := Pass;
    }

    /** `getItem(key)`: never throws; a backend error reads as null. */
    method GetItem(key: string, fault: Option<Thrown>) returns (v: Json)
      ensures fault.Some? ==> v == JNull
      ensures fault.None? ==> v == Read(items, key)
    {
      if fault.Some? {
        return JNull;
      }
      var text: Option<string> := if key in items then Some(items[key]) else None;
      if text.None? || text.value == "" {
        return JNull;
      }
      var parsed := Parse(text.value);
      if parsed.None? {
        return JNull;
      }
      v := parsed.value;
    }

    /** `removeItem(key)`: an error from the backend is rethrown and nothing
        is removed. */
    method RemoveItem(key: string, fault: Option<Thrown>) returns (r: Outcome<Thrown>)
      modifies this
      ensures fault.None? ==> r == Pass && items == Removed(old(items), key)
      ensures fault.Some? ==> r == Fail(fault.value) && items == old(items)
      ensures old(Canonical(items)) ==> Canonical(items)
    {
      if fault.Some? {
        return Fail(fault.value);
      }
      CanonicalPreserved(items, key, JNull);
      items := items - {key};
      r := Pass;
    }

    method SaveUser(user: Json, fault: Option<Thrown>) returns (r: Outcome<Thrown>)
      modifies this
      ensures fault.None? ==> r == Pass && items == Written(old(items), UserKey, user)
      ensures fault.Some? ==> r == Fail(fault.value) && items == old(items)
      ensures old(Canonical(items)) ==> Canonical(items)
    {
      r := SetItem(UserKey, user, fault);
    }

    method GetUser(fault: Option<Thrown>) returns (user: Json)
      ensures fault.Some? ==> user == JNull
      ensures fault.None? ==> user == Read(items, UserKey)
    {
      user := GetItem(UserKey, fault);
    }

    method ClearUser(fault: Option<Thrown>) returns (r: Outcome<Thrown>)
      modifies this
      ensures fault.None? ==> r == Pass && items == Removed(old(items), UserKey)
      ensures fault.Some? ==> r == Fail(fault.value) && items == old(items)
      ensures old(Canonical(items)) ==> Canonical(items)
    {
      r := RemoveItem(UserKey, fault);
    }

    method SaveTenantLease(lease: Json, fault: Option<Thrown>) returns (r: Outcome<Thrown>)
      modifies this
      ensures fault.None? ==> r == Pass && items == Written(old(items), TenantLeaseKey, lease)
      ensures fault.Some? ==> r == Fail(fault.value) && items == old(items)
      ensures old(Canonical(items)) ==> Canonical(items)
    {
      r := SetItem(TenantLeaseKey, lease, fault);
    }

    method GetTenantLease(fault: Option<Thrown>) returns (lease: Json)
      ensures fault.Some? ==> lease == JNull
      ensures fault.None? ==> lease == Read(items, TenantLeaseKey)
    {
      lease := GetItem(TenantLeaseKey, fault);
    }

    method ClearTenantLease(fault: Option<Thrown>) returns (r: Outcome<Thrown>)
      modifies this
      ensures fault.None? ==> r == Pass && items == Removed(old(items), TenantLeaseKey)
      ensures fault.Some? ==> r == Fail(fault.value) && items == old(items)
      ensures old(Canonical(items)) ==> Canonical(items)
    {
      r := RemoveItem(TenantLeaseKey, fault);
    }
  }

  /** A caller's view: a lease saved and read back comes back intact, and
      the user read before and after is the same. */
  method SaveAndReloadLease(store: LocalStorage, lease: Json) returns (user0: Json, reloaded: Json, user1: Json)
    modifies store
    ensures reloaded == lease && user1 == user0
  {
    user0 := store.GetUser(None);
    var saved := store.SaveTenantLease(lease, None);
    ReadWritten(old(store.items), TenantLeaseKey, lease);
    UserAndLeaseIsolated(old(store.items), lease);
    reloaded := store.GetTenantLease(None);
    user1 := store.GetUser(None);
  }
}
