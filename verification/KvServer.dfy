/** The versioned key/value server and the sequential specification its histories are checked against. */
module KvServer {
  import opened Texts

  type Key = Text

  type Version = nat

  // The errors a clerk can return; the server itself never answers ErrMaybe.
  datatype Err = OK | ErrNoKey | ErrVersion | ErrMaybe

  datatype Item<V> = Item(key: Key, value: V, version: Version)

  type Store<V> = map<Key, Item<V>>

  datatype GetReply<V> = Found(value: V, version: Version) | NoKey

  function GetOf<V>(store: Store<V>, key: Key): GetReply<V> {
    if key in store then Found(store[key].value, store[key].version) else NoKey
  }

  function PutOf<V>(store: Store<V>, key: Key, value: V, version: Version): (Store<V>, Err) {
    if key !in store then
      if version != 0 then (store, ErrNoKey)
      else (store[key := Item(key, value, 1)], OK)
    else if store[key].version != version then (store, ErrVersion)
    else (store[key := Item(key, value, version + 1)], OK)
  }

  // The version of a key, 0 while it is missing.
  function VersionOf<V>(store: Store<V>, key: Key): Version {
    if key in store then store[key].version else 0
  }

  // Present keys have been put at least once.
  ghost predicate WellFormed<V>(store: Store<V>) {
    forall key | key in store :: store[key].version >= 1
  }

  // A put takes effect exactly when it names the current version; then the version goes up by one and
  // the value is the new one, and otherwise nothing changes. No put touches another key.
  lemma PutMeaning<V>(store: Store<V>, key: Key, value: V, version: Version)
    requires WellFormed(store)
    ensures var (after, err) := PutOf(store, key, value, version);
            && WellFormed(after)
            && (err == OK <==> version == VersionOf(store, key))
            && (err == ErrNoKey <==> key !in store && version != 0)
            && err != ErrMaybe
            && (err == OK ==> GetOf(after, key) == Found(value, version + 1))
            && (err != OK ==> after == store)
            && forall k | k != key :: GetOf(after, k) == GetOf(store, k)
  {
  }

  class KVServer {
    var KeyValueItems: Store<string>

    constructor ()
      ensures KeyValueItems == map[]
    {
      KeyValueItems := map[];
    }

    method Get(key: Key) returns (reply: GetReply<string>)
      ensures reply == GetOf(KeyValueItems, key)
    {
      if key !in KeyValueItems {
        reply := NoKey;
      } else {
        var existing := KeyValueItems[key];
        reply := Found(existing.value, existing.version);
      }
    }

    method Put(key: Key, value: string, version: Version) returns (err: Err)
      modifies this
      ensures (KeyValueItems, err) == PutOf(old(KeyValueItems), key, value, version)
    {
      err := HandlePut(Item(key, value, version));
    }

    method HandlePut(kvi: Item<string>) returns (err: Err)
      modifies this
      ensures (KeyValueItems, err) == PutOf(old(KeyValueItems), kvi.key, kvi.value, kvi.version)
    {
      if kvi.key !in KeyValueItems {
        if kvi.version != 0 {
          return ErrNoKey;
        }
        KeyValueItems := KeyValueItems[kvi.key := Item(kvi.key, kvi.value, 1)];
        return OK;
      }
      var existing := KeyValueItems[kvi.key];
      if existing.version != kvi.version {
        return ErrVersion;
      }
      KeyValueItems := KeyValueItems[kvi.key := Item(kvi.key, kvi.value, existing.version + 1)];
      return OK;
    }
  }
}

/** The sequential model of one key. */
module KvModel {
  import opened KvServer

  datatype Input = GetIn(key: Key) | PutIn(key: Key, value: string, version: Version)

  datatype Output = Output(value: string, version: Version, err: Err)

  datatype State = State(value: string, version: Version)

  const INIT := State("", 0)

  // Whether the model allows the output, and the state afterwards.
  function Step(st: State, input: Input, output: Output): (bool, State) {
    match input
    case GetIn(_) => (output.value == st.value, st)
    case PutIn(_, value, version) =>
      if st.version == version then (output.err == OK || output.err == ErrMaybe, State(value, st.version + 1))
      else (output.err == ErrVersion || output.err == ErrMaybe, st)
  }

  // The model with the version of a get checked as well.
  function StrictStep(st: State, input: Input, output: Output): (bool, State) {
    var (ok, after) := Step(st, input, output);
    (ok && (input.GetIn? ==> output.version == st.version), after)
  }
}
