/** The browser's `localStorage` for the application's origin (section 12 of
    the WHATWG HTML Standard): a map from keys to stored values, read with
    `getItem` and overwritten with `setItem`. */
module WebStorage {

  import opened Optional

  /** The object the registration form stores under `user-data`. `photo` is
      `None` when the host's body has no `display_url`; the JSON text then has
      no `photo` property. */
  datatype UserRecord = UserRecord(name: string, email: string, photo: Option<string>, phone: string, password: string)

  /** A stored string. `Serialized(r)` stands for the JSON text of `r`, kept
      abstract: distinct records give distinct texts, and the text of an
      object is never the empty string. */
  datatype StoredValue = Text(text: string) | Serialized(record: UserRecord)

  type Storage = map<string, StoredValue>

  const UserDataKey: string := "user-data"
  const LoginStatusKey: string := "login-status"

  /** `getItem(key)`: `null` when the key is absent. */
  function GetItem(store: Storage, key: string): (item: Option<StoredValue>)
    ensures item == None <==> key !in store
    ensures item != None ==> item.value == store[key]
  {
    if key in store then Some(store[key]) else None
  }

  /** `setItem(key, value)`: the key now holds the value, every other key
      holds what it held before. */
  function SetItem(store: Storage, key: string, value: StoredValue): (updated: Storage)
    ensures GetItem(updated, key) == Some(value)
    ensures forall k :: k != key ==> GetItem(updated, k) == GetItem(store, k)
    ensures updated.Keys == store.Keys + {key}
  {
    store[key := value]
  }

  /** ToString of a Boolean (section 7.1.17 of ECMA-262), which `setItem`
      applies to a non-string value. */
  function BooleanToString(b: bool): (s: string)
    ensures s == "true" <==> b
    ensures s != ""
  {
    if b then "true" else "false"
  }

  /** Writing the same value twice leaves storage as one write does. */
  lemma SetItemIdempotent(store: Storage, key: string, value: StoredValue)
    ensures SetItem(SetItem(store, key, value), key, value) == SetItem(store, key, value)
  {
  }

  /** A second write to a key hides the first one entirely. */
  lemma SetItemOverwrites(store: Storage, key: string, first: StoredValue, second: StoredValue)
    ensures SetItem(SetItem(store, key, first), key, second) == SetItem(store, key, second)
  {
  }
}
