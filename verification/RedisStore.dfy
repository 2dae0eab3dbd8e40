/** The part of Redis that the rate limiter uses: hashes with an expiry time, on a millisecond clock. */
module RedisStore {
  import opened Prelude

  datatype Field = Tokens | LastRefillMs | Count | WindowStart | PreviousCount | CurrentCount

  /** Hash values are numbers; `Tokens` holds the six-decimal value that the script formats, in millionths. */
  type Hash = map<Field, int>

  datatype Entry = Entry(fields: Hash, expireAt: Option<int>)

  type Database = map<string, Entry>

  function Lookup(db: Database, key: string): Option<Entry> {
    if key in db then Some(db[key]) else None
  }

  predicate Live(e: Option<Entry>, nowMs: int) {
    e.Some? && (e.value.expireAt.Some? ==> nowMs <= e.value.expireAt.value)
  }

  /** What a command sees: nothing at all once the entry has expired. */
  function Visible(e: Option<Entry>, nowMs: int): Hash {
    if Live(e, nowMs) then e.value.fields else map[]
  }

  function Get(f: Hash, name: Field, default: int): int {
    if name in f then f[name] else default
  }

  /** The entry a write starts from: the live one, or a fresh one without expiry. */
  function Touched(e: Option<Entry>, nowMs: int): Entry {
    if Live(e, nowMs) then e.value else Entry(map[], None)
  }

  class Redis {
    var db: Database

    constructor ()
      ensures db == map[]
    {
      db := map[];
    }

    method HGet(key: string, name: Field, nowMs: int) returns (v: Option<int>)
      ensures v == var f := Visible(Lookup(db, key), nowMs); if name in f then Some(f[name]) else None
    {
      v := None;
      if key in db && Live(Some(db[key]), nowMs) && name in db[key].fields {
        v := Some(db[key].fields[name]);
      }
    }

    method HGetAll(key: string, nowMs: int) returns (f: Hash)
      ensures f == Visible(Lookup(db, key), nowMs)
    {
      f := map[];
      if key in db && Live(Some(db[key]), nowMs) {
        f := db[key].fields;
      }
    }

    method HSet(key: string, name: Field, v: int, nowMs: int)
      modifies this
      ensures db == old(db)[key := var e := Touched(Lookup(old(db), key), nowMs); e.(fields := e.fields[name := v])]
    {
      var e := Touched(Lookup(db, key), nowMs);
      db := db[key := e.(fields := e.fields[name := v])];
    }

    method Expire(key: string, seconds: nat, nowMs: int)
      modifies this
      ensures Live(Lookup(old(db), key), nowMs) ==>
                db == old(db)[key := old(db)[key].(expireAt := Some(nowMs + 1000 * seconds))]
      ensures !Live(Lookup(old(db), key), nowMs) ==> db == old(db)
    {
      if key in db && Live(Some(db[key]), nowMs) {
        db := db[key := db[key].(expireAt := Some(nowMs + 1000 * seconds))];
      }
    }

    method Delete(key: string)
      modifies this
      ensures db == old(db) - {key}
    {
      db := db - {key};
    }
  }
}
