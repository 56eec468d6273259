/**
 * The `DB` client (clients/db.py). The `configs` table is a map from key to row; the
 * SQLAlchemy session is the flag `open`, set by `Start` and cleared by `Close`. Each
 * mutating call is one atomic commit.
 */
module Store {
  import opened Wrappers
  import opened ConfigEntity

  type Table = map<string, Config>

  /** The unique constraint on `key`: each row is stored under its own key, so no two rows share one. */
  ghost predicate Keyed(t: Table)
  {
    forall k :: k in t ==> t[k].key == k
  }

  /** `s` is a listing of the whole table: every row of `t` exactly once, in some order. */
  ghost predicate ListsTable(s: seq<Config>, t: Table)
  {
    && |s| == |t|
    && (forall i :: 0 <= i < |s| ==> s[i].key in t && t[s[i].key] == s[i])
    && (forall i, j :: 0 <= i < j < |s| ==> s[i].key != s[j].key)
    && (forall k :: k in t ==> exists i :: 0 <= i < |s| && s[i].key == k)
  }

  class DB {
    /** Whether a session is open (`self.db is not None`). */
    var open: bool
    /** The rows of the `configs` table as seen through the session. */
    var rows: Table
    /** How many sessions this client has created. */
    ghost var sessions: nat

    ghost predicate Valid()
      reads this
    {
      Keyed(rows)
    }

    /** `DB(engine)`: bound to a database already holding `table`; no session yet. */
    constructor (table: Table)
      requires Keyed(table)
      ensures Valid() && !open && rows == table && sessions == 0
    {
      open := false;
      rows := table;
      sessions := 0;
    }

    /** Opens a session unless one is already open; the table is untouched. */
    method Start()
      requires Valid()
      modifies this
      ensures Valid() && open && rows == old(rows)
      ensures sessions == if old(open) then old(sessions) else old(sessions) + 1
    {
      if !open {
        open := true;
        sessions := sessions + 1;
      }
    }

    /** The row whose key is `key`, if there is one. */
    method Get(key: string) returns (r: Option<Config>)
      requires Valid() && open
      ensures r.Some? <==> exists c :: c in rows.Values && c.key == key
      ensures r.Some? ==> r.value in rows.Values && r.value.key == key
    {
      if key in rows {
        r := Some(rows[key]);
      } else {
        r := None;
      }
    }

    /** Every row of the table, each once. */
    method GetAll() returns (all: seq<Config>)
      requires Valid() && open
      ensures ListsTable(all, rows)
    {
      all := [];
      var pending := rows.Keys;
      while pending != {}
        invariant pending <= rows.Keys
        invariant |all| + |pending| == |rows|
        invariant forall i :: 0 <= i < |all| ==> all[i].key in rows && all[i].key !in pending && rows[all[i].key] == all[i]
        invariant forall i, j :: 0 <= i < j < |all| ==> all[i].key != all[j].key
        invariant forall k :: k in rows && k !in pending ==> exists i :: 0 <= i < |all| && all[i].key == k
        decreases pending
      {
        var k :| k in pending;
        ghost var before := all;
        all := all + [rows[k]];
        pending := pending - {k};
        assert all[|all| - 1].key == k;
        forall k' | k' in rows && k' !in pending
          ensures exists i :: 0 <= i < |all| && all[i].key == k'
        {
          if k' != k {
            var i :| 0 <= i < |before| && before[i].key == k';
            assert all[i] == before[i];
          }
        }
      }
      assert |rows.Keys| == |rows|;
    }

    /** Inserts the row `(key, value, kind)`; the unique constraint forbids an existing key. */
    method Create(key: string, value: string, kind: string) returns (c: Config)
      requires Valid() && open
      requires key !in rows
      modifies this
      ensures Valid() && open == old(open) && sessions == old(sessions)
      ensures c == Config(key, value, kind)
      ensures rows == old(rows)[key := c]
    {
      c := Config(key, value, kind);
      rows := rows[key := c];
    }

    /** Sets the value of the row under `key`, which must exist (the source dereferences the lookup). */
    method Update(key: string, value: string) returns (c: Config)
      requires Valid() && open
      requires key in rows
      modifies this
      ensures Valid() && open == old(open) && sessions == old(sessions)
      ensures c == Config(key, value, old(rows)[key].kind)
      ensures rows == old(rows)[key := c]
    {
      var found := Get(key);
      c := found.value.(value := value);
      rows := rows[key := c];
    }

    /** Removes the row under `key` and returns it; a missing key leaves the table as it was. */
    method Delete(key: string) returns (r: Option<Config>)
      requires Valid() && open
      modifies this
      ensures Valid() && open == old(open) && sessions == old(sessions)
      ensures key in old(rows) ==> r == Some(old(rows)[key]) && rows == old(rows) - {key}
      ensures key !in old(rows) ==> r == None && rows == old(rows)
    {
      r := Get(key);
      if r.Some? {
        rows := rows - {key};
      }
    }

    /** Releases the session if one is open; the table is untouched. */
    method Close()
      requires Valid()
      modifies this
      ensures Valid() && !open && rows == old(rows) && sessions == old(sessions)
    {
      if open {
        open := false;
      }
    }
  }

  /** Starting twice is starting once. */
  method StartIsIdempotent(db: DB)
    requires db.Valid()
    modifies db
    ensures db.Valid() && db.open && db.rows == old(db.rows)
    ensures db.sessions == if old(db.open) then old(db.sessions) else old(db.sessions) + 1
  {
    db.Start();
    db.Start();
  }

  /** Closing twice is closing once. */
  method CloseIsIdempotent(db: DB)
    requires db.Valid()
    modifies db
    ensures db.Valid() && !db.open && db.rows == old(db.rows) && db.sessions == old(db.sessions)
  {
    db.Close();
    db.Close();
  }
}
