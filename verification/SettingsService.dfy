/** The settings cache and the table behind it
    (backend/app/core/settings_service.py:442-644, 882-911). */
module SettingsService {
  import opened Options
  import opened SettingCoercion

  type Key = string
  type Row = (Key, Value)

  /** The settings there are. `coerce` is None for a value that key refuses. */
  datatype Catalogue = Catalogue(defaults: map<Key, Value>, readOnly: set<Key>, coerce: (Key, Value) -> Option<Value>)

  function CatalogueOf(defs: map<Key, Def>, readers: Readers): Catalogue {
    Catalogue(map key | key in defs :: defs[key].default,
              set key | key in defs && defs[key].readOnly,
              (key, raw) => if key in defs then Coerce(defs[key], readers, raw) else None)
  }

  predicate Understands(c: Catalogue, table: map<Key, Value>, key: Key)
    requires key in table
  {
    key in c.defaults && c.coerce(key, table[key]).Some?
  }

  // ----- The table alone decides --------------------------------------------------------

  function CacheOf(c: Catalogue, table: map<Key, Value>): (cache: map<Key, Value>)
    ensures cache.Keys == c.defaults.Keys
  {
    map key | key in c.defaults ::
      if key in table && Understands(c, table, key) then c.coerce(key, table[key]).value else c.defaults[key]
  }

  function ExplicitOf(c: Catalogue, table: map<Key, Value>): set<Key> {
    set key | key in table && Understands(c, table, key)
  }

  /** One key per row, and the rows are the table. */
  ghost predicate RowsOf(rows: seq<Row>, table: map<Key, Value>) {
    && (forall i, j :: 0 <= i < j < |rows| ==> rows[i].0 != rows[j].0)
    && (forall key :: key in table <==> exists i :: 0 <= i < |rows| && rows[i].0 == key)
    && (forall i :: 0 <= i < |rows| ==> rows[i].0 in table && table[rows[i].0] == rows[i].1)
  }

  /** `_build_cache`: later rows of the loop override nothing but their own key's default. */
  method BuildCache(c: Catalogue, rows: seq<Row>, ghost table: map<Key, Value>)
      returns (values: map<Key, Value>, explicit: set<Key>, unknown: seq<Key>)
    requires RowsOf(rows, table)
    ensures values == CacheOf(c, table) && explicit == ExplicitOf(c, table)
    ensures forall key :: key in unknown <==> key in table && key !in c.defaults
  {
    hide CacheOf, ExplicitOf;
    values := c.defaults;
    explicit, unknown := {}, [];
    for i := 0 to |rows|
      invariant values.Keys == c.defaults.Keys
      invariant forall key :: key in explicit <==> Seen(rows, i, key) && Understands(c, table, key)
      invariant forall key :: key in values ==>
                  (values[key] == if key in explicit then c.coerce(key, table[key]).value else c.defaults[key])
      invariant forall key :: key in unknown <==> Seen(rows, i, key) && key !in c.defaults
    {
      var (key, raw) := rows[i];
      if key !in c.defaults {
        unknown := unknown + [key];
      } else {
        var value := c.coerce(key, raw);
        if value.Some? {
          values := values[key := value.value];
          explicit := explicit + {key};
        }
      }
    }
    AllSeen(c, rows, table, values, explicit);
  }

  lemma AllSeen(c: Catalogue, rows: seq<Row>, table: map<Key, Value>, values: map<Key, Value>, explicit: set<Key>)
    requires RowsOf(rows, table) && values.Keys == c.defaults.Keys
    requires forall key :: key in explicit <==> Seen(rows, |rows|, key) && Understands(c, table, key)
    requires forall key :: key in values && key in explicit ==>
               key in table && Understands(c, table, key) && values[key] == c.coerce(key, table[key]).value
    requires forall key :: key in values && key !in explicit ==> values[key] == c.defaults[key]
    ensures values == CacheOf(c, table) && explicit == ExplicitOf(c, table)
  {
  }

  ghost predicate Seen(rows: seq<Row>, n: nat, key: Key)
    requires n <= |rows|
  {
    exists i :: 0 <= i < n && rows[i].0 == key
  }

  // ----- The service as a state ---------------------------------------------------------

  datatype State = State(table: map<Key, Value>, cache: map<Key, Value>, explicit: set<Key>, version: nat, loaded: bool)

  /** What Python compares a value as, when it compares as a number. */
  function Amount(v: Value): Option<real> {
    match v
    case Flag(b) => Some(if b then 1.0 else 0.0)
    case Whole(i) => Some(i as real)
    case Number(r) => Some(r)
    case _ => None
  }

  /** Python's `==`: 1, 1.0 and True are the same value. */
  predicate SameValue(a: Value, b: Value) {
    a == b || (Amount(a).Some? && Amount(a) == Amount(b))
  }

  /** The updates that say something the cache did not. */
  function Changed(cache: map<Key, Value>, updates: map<Key, Value>): set<Key> {
    set key | key in updates && (key !in cache || !SameValue(cache[key], updates[key]))
  }

  /** One value changed, or several: one bump. */
  function WithCache(s: State, cache: map<Key, Value>, changed: set<Key>): State {
    s.(cache := cache, version := if changed == {} then s.version else s.version + 1)
  }

  datatype Batch = Batch(values: map<Key, Value>, internal: bool, permits: (Key, Value) -> bool)

  predicate Accepts(c: Catalogue, b: Batch, key: Key)
    requires key in b.values
  {
    && Understands(c, b.values, key) && (b.internal || key !in c.readOnly)
    && b.permits(key, c.coerce(key, b.values[key]).value)
  }

  predicate AcceptsAll(c: Catalogue, b: Batch) {
    forall key :: key in b.values ==> Accepts(c, b, key)
  }

  function Coerced(c: Catalogue, b: Batch): (coerced: map<Key, Value>)
    requires AcceptsAll(c, b)
    ensures coerced.Keys == b.values.Keys
  {
    map key | key in b.values :: c.coerce(key, b.values[key]).value
  }

  /** `set_many`: all of the batch, or nothing. */
  function AfterSet(c: Catalogue, s: State, b: Batch): State {
    if !AcceptsAll(c, b) then s
    else
      var coerced := Coerced(c, b);
      WithCache(s, s.cache + coerced, Changed(s.cache, coerced)).(
        table := s.table + coerced, explicit := s.explicit + coerced.Keys)
  }

  function Defaults(c: Catalogue, keys: set<Key>): map<Key, Value>
    requires keys <= c.defaults.Keys
  {
    map key | key in keys :: c.defaults[key]
  }

  /** `reset_many`. */
  function AfterReset(c: Catalogue, s: State, keys: set<Key>): State {
    if !(keys <= c.defaults.Keys) then s
    else
      var defaults := Defaults(c, keys);
      WithCache(s, s.cache + defaults, Changed(s.cache, defaults)).(
        table := s.table - keys, explicit := s.explicit - keys)
  }

  /** What a reload moves: the first load only sets the baseline. */
  function Moved(c: Catalogue, s: State): set<Key> {
    if s.loaded then Changed(s.cache, CacheOf(c, s.table)) else {}
  }

  /** `reload`. */
  function AfterReload(c: Catalogue, s: State): State {
    WithCache(s, CacheOf(c, s.table), Moved(c, s)).(explicit := ExplicitOf(c, s.table), loaded := true)
  }

  lemma EmptyBatch(c: Catalogue, s: State, b: Batch)
    requires AcceptsAll(c, b) && Coerced(c, b) == map[]
    ensures b.values == map[] && AfterSet(c, s, b) == s
  {
    assert b.values.Keys == {};
    assert s.cache + map[] == s.cache && s.table + map[] == s.table && s.explicit + {} == s.explicit;
  }

  /** The service itself, with the table it writes through to. */
  class SettingsService {
    const catalogue: Catalogue
    var table: map<Key, Value>
    var cache: map<Key, Value>
    var explicit: set<Key>
    var version: nat
    var loaded: bool

    function Now(): State
      reads this
    {
      State(table, cache, explicit, version, loaded)
    }

    constructor (catalogue: Catalogue, table: map<Key, Value>)
      ensures this.catalogue == catalogue
      ensures Now() == State(table, CacheOf(catalogue, map[]), {}, 0, false)
    {
      this.catalogue, this.table, version, loaded := catalogue, table, 0, false;
      cache, explicit := catalogue.defaults, {};
    }

    /** The values to store, unless one of them is refused. */
    method Validate(b: Batch) returns (coerced: Option<map<Key, Value>>)
      ensures coerced.Some? <==> AcceptsAll(catalogue, b)
      ensures coerced.Some? ==> coerced.value == Coerced(catalogue, b)
    {
      var values: map<Key, Value> := map[];
      var left := b.values.Keys;
      while left != {}
        invariant left <= b.values.Keys && values.Keys == b.values.Keys - left
        invariant forall key :: key in values ==>
                    Accepts(catalogue, b, key) && values[key] == catalogue.coerce(key, b.values[key]).value
        decreases |left|
      {
        var key :| key in left;
        if key !in catalogue.defaults || (key in catalogue.readOnly && !b.internal) {
          assert !Accepts(catalogue, b, key);
          return None;
        }
        var value := catalogue.coerce(key, b.values[key]);
        if value.None? || !b.permits(key, value.value) {
          assert !Accepts(catalogue, b, key);
          return None;
        }
        values, left := values[key := value.value], left - {key};
      }
      return Some(values);
    }

    /** `set_many`. A batch that is refused, or that the database fails to commit, changes nothing. */
    method SetMany(b: Batch, commits: bool) returns (stored: Option<map<Key, Value>>)
      modifies this
      ensures stored.Some? <==> AcceptsAll(catalogue, b) && (commits || b.values == map[])
      ensures stored.Some? ==> stored.value == Coerced(catalogue, b)
      ensures Now() == if stored.Some? then AfterSet(catalogue, old(Now()), b) else old(Now())
    {
      var coerced := Validate(b);
      if coerced.None? {
        return None;
      }
      if coerced.value == map[] {
        EmptyBatch(catalogue, Now(), b);
        return coerced;
      }
      if !commits {
        assert b.values.Keys != {};
        return None;
      }
      table := table + coerced.value;
      Publish(cache + coerced.value, Changed(cache, coerced.value));
      explicit := explicit + coerced.value.Keys;
      return coerced;
    }

    /** Swap in the new cache, and bump the version if a value changed. */
    method Publish(values: map<Key, Value>, changed: set<Key>)
      modifies `cache, `version
      ensures Now() == WithCache(old(Now()), values, changed)
    {
      cache := values;
      if changed != {} {
        version := version + 1;
      }
    }

    /** `reset_many`. */
    method ResetMany(keys: set<Key>, commits: bool) returns (done: bool)
      modifies this
      ensures done <==> keys <= catalogue.defaults.Keys && (commits || keys == {})
      ensures Now() == if done then AfterReset(catalogue, old(Now()), keys) else old(Now())
    {
      if !(keys <= catalogue.defaults.Keys) {
        return false;
      }
      if keys == {} {
        assert cache + Defaults(catalogue, keys) == cache && table - keys == table;
        return true;
      }
      if !commits {
        return false;
      }
      table := table - keys;
      var defaults := Defaults(catalogue, keys);
      Publish(cache + defaults, Changed(cache, defaults));
      explicit := explicit - keys;
      return true;
    }

    /** `reload`: how many values moved. */
    method Reload(rows: seq<Row>) returns (moved: nat)
      requires RowsOf(rows, table)
      modifies this
      ensures Now() == AfterReload(catalogue, old(Now()))
      ensures moved == |Moved(catalogue, old(Now()))|
    {
      var values, known, unknown := BuildCache(catalogue, rows, table);
      var changed := if loaded then Changed(cache, values) else {};
      Publish(values, changed);
      explicit, loaded := known, true;
      return |changed|;
    }
  }
}
