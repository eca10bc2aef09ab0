/** The cache is always what the table says (backend/app/core/settings_service.py:442-644, 892-911). */
module SettingsLaws {
  import opened Options
  import opened SettingCoercion
  import opened SettingsService

  ghost predicate InSync(c: Catalogue, s: State) {
    s.cache == CacheOf(c, s.table) && s.explicit == ExplicitOf(c, s.table)
  }

  /** Coercing the value again gives it back. */
  predicate Stable(c: Catalogue, key: Key, v: Value) {
    c.coerce(key, v) == Some(v)
  }

  /** Every value of the batch, once coerced, coerces to itself. */
  ghost predicate StableBatch(c: Catalogue, b: Batch)
    requires AcceptsAll(c, b)
  {
    forall key :: key in b.values ==> Stable(c, key, Coerced(c, b)[key])
  }

  lemma StableSetKeepsSync(c: Catalogue, s: State, b: Batch)
    requires InSync(c, s) && AcceptsAll(c, b) && StableBatch(c, b)
    ensures InSync(c, AfterSet(c, s, b))
  {
    hide Changed;
    var coerced, after := Coerced(c, b), AfterSet(c, s, b);
    assert forall key :: key in coerced ==> Stable(c, key, coerced[key]) && Accepts(c, b, key);
    assert forall key :: key in c.defaults ==> CacheOf(c, after.table)[key] == after.cache[key];
    assert after.explicit == ExplicitOf(c, after.table);
  }

  lemma UnstableSetBreaksSync(c: Catalogue, s: State, b: Batch, key: Key)
    requires InSync(c, s) && AcceptsAll(c, b) && key in b.values && !Stable(c, key, Coerced(c, b)[key])
    ensures !InSync(c, AfterSet(c, s, b))
  {
    hide Changed;
    var v, after := Coerced(c, b)[key], AfterSet(c, s, b);
    assert Accepts(c, b, key) && after.table[key] == v == after.cache[key] && key in after.explicit;
    if c.coerce(key, v).Some? {
      assert CacheOf(c, after.table)[key] != after.cache[key];
    } else {
      assert key !in ExplicitOf(c, after.table);
    }
  }

  /** Writing keeps cache and table in step exactly when coercion has nothing more to do. */
  lemma SetKeepsSync(c: Catalogue, s: State, b: Batch)
    requires InSync(c, s) && AcceptsAll(c, b)
    ensures InSync(c, AfterSet(c, s, b)) <==> StableBatch(c, b)
  {
    hide InSync, AfterSet, Stable;
    if StableBatch(c, b) {
      StableSetKeepsSync(c, s, b);
    } else {
      var key :| key in b.values && !Stable(c, key, Coerced(c, b)[key]);
      UnstableSetBreaksSync(c, s, b, key);
    }
  }

  /** The values of the shipped kinds other than paths are stable, so such batches keep step. */
  lemma WellFormedBatchIsStable(defs: map<Key, Def>, r: Readers, b: Batch)
    requires Faithful(r) && AcceptsAll(CatalogueOf(defs, r), b)
    requires forall key :: key in b.values ==> NeverReread(defs, r, key)
    ensures StableBatch(CatalogueOf(defs, r), b)
  {
    var c := CatalogueOf(defs, r);
    forall key | key in b.values
      ensures Stable(c, key, Coerced(c, b)[key])
    {
      assert NeverReread(defs, r, key) && Accepts(c, b, key);
      CoercedIsStable(defs[key], r, b.values[key]);
    }
  }

  predicate NeverReread(defs: map<Key, Def>, r: Readers, key: Key) {
    key in defs && WellFormed(defs[key], r) && (defs[key].kind.PathKind? ==> defs[key].fixed.Some?)
  }

  lemma ResetKeepsSync(c: Catalogue, s: State, keys: set<Key>)
    requires InSync(c, s)
    ensures InSync(c, AfterReset(c, s, keys))
  {
    var after := AfterReset(c, s, keys);
    if keys <= c.defaults.Keys {
      assert forall key :: key in c.defaults ==> after.cache[key] == CacheOf(c, after.table)[key];
    }
  }

  lemma ReloadSyncs(c: Catalogue, s: State)
    ensures InSync(c, AfterReload(c, s)) && AfterReload(c, s).loaded
  {
  }

  /** With no other writer, a reload moves nothing. */
  lemma ReloadMovesNothing(c: Catalogue, s: State)
    requires InSync(c, s) && s.loaded
    ensures AfterReload(c, s) == s && Moved(c, s) == {}
  {
  }

  /** Unstable values are what a reload moves: "/a /" is read back as something else. */
  lemma ReloadMovesUnstableValue(c: Catalogue, s: State, b: Batch, key: Key)
    requires AcceptsAll(c, b) && key in b.values && s.loaded
    requires var v := Coerced(c, b)[key]; c.coerce(key, v).Some? && !SameValue(v, c.coerce(key, v).value)
    ensures key in Moved(c, AfterSet(c, s, b))
    ensures AfterReload(c, AfterSet(c, s, b)).version == AfterSet(c, s, b).version + 1
  {
    var after := AfterSet(c, s, b);
    assert Accepts(c, b, key) && after.table[key] == Coerced(c, b)[key] == after.cache[key];
    assert CacheOf(c, after.table)[key] == c.coerce(key, after.table[key]).value;
  }

  // ----- Runs ---------------------------------------------------------------------------

  datatype Op = SetMany(batch: Batch) | ResetMany(keys: set<Key>) | Reload

  function After(c: Catalogue, s: State, op: Op): State {
    match op
    case SetMany(batch) => AfterSet(c, s, batch)
    case ResetMany(keys) => AfterReset(c, s, keys)
    case Reload => AfterReload(c, s)
  }

  function Run(c: Catalogue, s: State, ops: seq<Op>): State {
    if ops == [] then s else After(c, Run(c, s, ops[..|ops| - 1]), ops[|ops| - 1])
  }

  ghost predicate KeepsStable(c: Catalogue, op: Op) {
    op.SetMany? && AcceptsAll(c, op.batch) ==> StableBatch(c, op.batch)
  }

  lemma StepKeepsSync(c: Catalogue, s: State, op: Op)
    requires InSync(c, s) && s.loaded && KeepsStable(c, op)
    ensures InSync(c, After(c, s, op)) && After(c, s, op).loaded
  {
    match op
    case SetMany(batch) =>
      if AcceptsAll(c, batch) {
        SetKeepsSync(c, s, batch);
      }
    case ResetMany(keys) => ResetKeepsSync(c, s, keys);
    case Reload => ReloadSyncs(c, s);
  }

  /** After a load, any run of writes, resets and reloads leaves the cache saying what the table says. */
  lemma {:induction false} RunKeepsSync(c: Catalogue, s: State, ops: seq<Op>)
    requires InSync(c, s) && s.loaded && forall op :: op in ops ==> KeepsStable(c, op)
    ensures InSync(c, Run(c, s, ops)) && Run(c, s, ops).loaded
  {
    if ops != [] {
      RunKeepsSync(c, s, ops[..|ops| - 1]);
      StepKeepsSync(c, Run(c, s, ops[..|ops| - 1]), ops[|ops| - 1]);
    }
  }

  /** Each operation looks only at the values it writes, yet the version rises by one exactly when some
      effective value of all the settings moved. */
  lemma VersionCountsMoves(c: Catalogue, s: State, op: Op)
    requires s.loaded && s.cache.Keys == c.defaults.Keys
    ensures var after := After(c, s, op);
            && after.cache.Keys == c.defaults.Keys
            && after.version == s.version +
                 if exists key :: key in c.defaults && !SameValue(s.cache[key], after.cache[key]) then 1 else 0
  {
    var cache := After(c, s, op).cache;
    match op
    case SetMany(batch) =>
      if AcceptsAll(c, batch) {
        assert forall key :: key in batch.values ==> Accepts(c, batch, key);
        ChangedIsMoved(c, s.cache, cache, Coerced(c, batch));
      }
    case ResetMany(keys) =>
      if keys <= c.defaults.Keys {
        ChangedIsMoved(c, s.cache, cache, Defaults(c, keys));
      }
    case Reload => ChangedIsMoved(c, s.cache, cache, CacheOf(c, s.table));
  }

  lemma ChangedIsMoved(c: Catalogue, before: map<Key, Value>, after: map<Key, Value>, updates: map<Key, Value>)
    requires before.Keys == c.defaults.Keys && updates.Keys <= c.defaults.Keys && after == before + updates
    ensures after.Keys == c.defaults.Keys
    ensures Changed(before, updates) != {}
       <==> exists key :: key in c.defaults && !SameValue(before[key], after[key])
  {
    if key :| key in Changed(before, updates) {
      assert key in c.defaults && !SameValue(before[key], after[key]);
    }
    if key :| key in c.defaults && !SameValue(before[key], after[key]) {
      assert key in Changed(before, updates);
    }
  }

  // ----- Which batches are accepted, and what becomes of them -------------------------------

  /** A batch is accepted exactly when every key is known, every value can be coerced, only the program
      itself writes read-only settings, and the caller has nothing against the outcome. */
  lemma AcceptedIff(defs: map<Key, Def>, r: Readers, b: Batch)
    ensures AcceptsAll(CatalogueOf(defs, r), b)
       <==> forall key :: key in b.values ==>
              && key in defs && Coerce(defs[key], r, b.values[key]).Some? && (defs[key].readOnly ==> b.internal)
              && b.permits(key, Coerce(defs[key], r, b.values[key]).value)
  {
    hide Coerce;
    var c := CatalogueOf(defs, r);
    forall key | key in b.values
      ensures Accepts(c, b, key)
         <==> && key in defs && Coerce(defs[key], r, b.values[key]).Some? && (defs[key].readOnly ==> b.internal)
              && b.permits(key, Coerce(defs[key], r, b.values[key]).value)
    {
    }
  }

  /** What is said of one key: in the table, in the cache, and whether it was set. */
  ghost predicate SameAt(before: State, after: State, key: Key) {
    && (key in before.table <==> key in after.table)
    && (key in before.table ==> before.table[key] == after.table[key])
    && (key in before.cache <==> key in after.cache)
    && (key in before.cache ==> before.cache[key] == after.cache[key])
    && (key in before.explicit <==> key in after.explicit)
  }

  /** All of an accepted batch is stored, cached and counted as set, and no other key is touched; of a
      refused one nothing is. */
  lemma BatchIsAllOrNothing(c: Catalogue, s: State, b: Batch, key: Key)
    ensures var after := AfterSet(c, s, b);
            if AcceptsAll(c, b) && key in b.values then
              && c.coerce(key, b.values[key]).Some? && key in after.explicit
              && key in after.table && after.table[key] == c.coerce(key, b.values[key]).value
              && key in after.cache && after.cache[key] == c.coerce(key, b.values[key]).value
            else SameAt(s, after, key)
  {
    hide Changed;
    if AcceptsAll(c, b) && key in b.values {
      assert Accepts(c, b, key);
    }
  }

  /** Resetting known keys takes them out of the table and brings their defaults back, and touches no other
      key; with one that is unknown it does nothing. */
  lemma ResetIsAllOrNothing(c: Catalogue, s: State, keys: set<Key>, key: Key)
    ensures var after := AfterReset(c, s, keys);
            if key in keys && (forall k :: k in keys ==> k in c.defaults) then
              && key !in after.table && key !in after.explicit
              && key in after.cache && after.cache[key] == c.defaults[key]
            else SameAt(s, after, key)
  {
    hide Changed;
  }

  /** No run of batches from outside ever changes a read-only setting. */
  lemma {:induction false} ReadOnlyIsKept(c: Catalogue, s: State, ops: seq<Op>, key: Key)
    requires key in c.readOnly && forall op :: op in ops ==> op.SetMany? && !op.batch.internal
    ensures SameAt(s, Run(c, s, ops), key)
  {
    if ops != [] {
      hide AfterSet, SameAt;
      var before, op := Run(c, s, ops[..|ops| - 1]), ops[|ops| - 1];
      assert op in ops;
      ReadOnlyIsKept(c, s, ops[..|ops| - 1], key);
      BatchIsAllOrNothing(c, before, op.batch, key);
      if key in op.batch.values {
        ReadOnlyIsRefused(c, op.batch, key);
      }
      SameAtTwice(s, before, Run(c, s, ops), key);
    } else {
      SameAtItself(s, key);
    }
  }

  lemma ReadOnlyIsRefused(c: Catalogue, b: Batch, key: Key)
    requires key in c.readOnly && key in b.values && !b.internal
    ensures !AcceptsAll(c, b)
  {
    assert !Accepts(c, b, key);
  }

  lemma SameAtItself(s: State, key: Key)
    ensures SameAt(s, s, key)
  {
  }

  lemma SameAtTwice(a: State, b: State, c: State, key: Key)
    requires SameAt(a, b, key) && SameAt(b, c, key)
    ensures SameAt(a, c, key)
  {
  }

  // ----- What counts as a change ------------------------------------------------------------

  /** Two values are the same when they are equal as numbers, a truth value being 0 or 1, or else when they are
      the same thing. */
  lemma SameValueIff(a: Value, b: Value)
    ensures SameValue(a, b) <==>
              match (a, b)
              case (Null, Null) => true
              case (Text(s), Text(t)) => s == t
              case (Flag(x), Flag(y)) => x == y
              case (Whole(i), Whole(j)) => i == j
              case (Number(x), Number(y)) => x == y
              case (Flag(x), Whole(i)) => i == (if x then 1 else 0)
              case (Whole(i), Flag(x)) => i == (if x then 1 else 0)
              case (Flag(x), Number(y)) => y == (if x then 1.0 else 0.0)
              case (Number(y), Flag(x)) => y == (if x then 1.0 else 0.0)
              case (Whole(i), Number(y)) => y == i as real
              case (Number(y), Whole(i)) => y == i as real
              case _ => false
  {
  }

  /** The first load sets the baseline: nobody is told of a change. Afterwards a reload counts every setting
      whose value is not the same as before. */
  lemma ReloadCountsMoves(c: Catalogue, s: State)
    requires s.cache.Keys == c.defaults.Keys
    ensures var after := AfterReload(c, s);
            && (!s.loaded ==> after.version == s.version && Moved(c, s) == {})
            && (s.loaded ==> forall key :: key in Moved(c, s)
                               <==> key in c.defaults && !SameValue(s.cache[key], after.cache[key]))
  {
  }

  /** What a reset brings back is the default of the setting's own definition. */
  lemma ResetBringsDefault(defs: map<Key, Def>, r: Readers, s: State, keys: set<Key>, key: Key)
    requires keys <= defs.Keys && key in keys
    ensures var after := AfterReset(CatalogueOf(defs, r), s, keys);
            key in after.cache && after.cache[key] == defs[key].default
  {
    var c := CatalogueOf(defs, r);
    assert c.defaults.Keys == defs.Keys;
    ResetIsAllOrNothing(c, s, keys, key);
  }
}
