/** The in-memory embedding store: a map from utterance text to embedding
    that `Set` writes, `Get` reads and `Close` drops. */
module Memory {
  import opened Domain

  /** A Go map value: `Nil` is the nil map, which reads as empty and
      cannot be written. */
  datatype NilableMap = Nil | Made(entries: map<string, Vector>)

  /** What `Get` answers for `key` when the store's map is `m`. */
  function Lookup(m: NilableMap, key: string): (r: Result<Vector>)
    ensures r.Ok? <==> m.Made? && key in m.entries
    ensures r.Ok? ==> r.value == m.entries[key]
    ensures r.Err? ==> r.error == KeyDoesNotExist(key)
  {
    if m.Made? && key in m.entries then Ok(m.entries[key]) else Err(KeyDoesNotExist(key))
  }

  /** Writing `u` into the map `m`: its text now maps to its embedding, and
      every other key reads as before. */
  lemma SetThenLookup(m: map<string, Vector>, u: Utterance, key: string)
    ensures Lookup(Made(m[u.utterance := u.embed]), key)
         == if key == u.utterance then Ok(u.embed) else Lookup(Made(m), key)
  {
  }

  /** Neither an empty map nor the nil map holds any key. */
  lemma EmptyAndNilHoldNothing(key: string)
    ensures Lookup(Made(map[]), key) == Err(KeyDoesNotExist(key))
    ensures Lookup(Nil, key) == Err(KeyDoesNotExist(key))
  {
  }

  class Store {
    /** The map from utterance text to embedding; `Nil` once closed. */
    var store: NilableMap

    /** A fresh store holds an empty, writable map. */
    constructor NewStore()
      ensures store == Made(map[])
    {
      store := Made(map[]);
    }

    /** Reads the embedding stored under `utterance`; fails, with no
        embedding, when the key is absent or the store is closed. */
    method Get(utterance: string) returns (r: Result<Vector>)
      ensures r.Ok? <==> store.Made? && utterance in store.entries
      ensures r.Ok? ==> r.value == store.entries[utterance]
      ensures r.Err? ==> r.error == KeyDoesNotExist(utterance)
    {
      if store.Made? && utterance in store.entries {
        r := Ok(store.entries[utterance]);
      } else {
        r := Err(KeyDoesNotExist(utterance));
      }
    }

    /** Stores `u.embed` under `u.utterance`, replacing any older value. Go
        panics when writing a nil map, hence the precondition. */
    method Set(u: Utterance) returns (err: Outcome)
      requires store.Made?
      modifies this
      ensures store == Made(old(store.entries)[u.utterance := u.embed])
      ensures err == Pass
    {
      store := Made(store.entries[u.utterance := u.embed]);
      err := Pass;
    }

    /** Drops the map; closing a closed store changes nothing. */
    method Close() returns (err: Outcome)
      modifies this
      ensures store == Nil
      ensures err == Pass
    {
      if store == Nil {
        return Pass;
      }
      store := Nil;
      err := Pass;
    }
  }

  /** The store's life cycle as a client sees it. */
  method StoreLifeCycle(key: string, other: string, v: Vector)
    requires key != other
  {
    var s := new Store.NewStore();
    var r := s.Get(key);
    assert r.Err?;
    var e := s.Set(Utterance(key, v));
    r := s.Get(key);
    assert r == Ok(v);
    r := s.Get(other);
    assert r.Err?;
    e := s.Close();
    e := s.Close();
    r := s.Get(key);
    assert r.Err?;
  }
}
