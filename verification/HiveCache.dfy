/** The TTL/LRU cache in front of the Hive metadata gateway.

    The ordered dictionary of the source is a sequence of entries with distinct keys, least
    recently used first.  `get_or_load` runs its loader outside the lock, so one call is two
    atomic steps, `Lookup` and `Complete`, and the steps of other calls may fall between them.
    Times are integers. */
module HiveCache {
  import opened Wrappers

  const MAX_CACHE_ENTRIES: nat := 256

  // ---------------------------------------------------------------------------------------------
  // Canonical keys

  datatype Key =
    | ListDatabases
    | ListTables(database: string)
    | GetTableSchema(database: string, table: string, includeDdl: bool)

  /** The values a key component or a whole key may arrive as. */
  datatype PyValue = Str(text: string) | Bool(flag: bool) | Tuple(items: seq<PyValue>) | Other

  predicate IdentifierStart(c: char) {
    'A' <= c <= 'Z' || 'a' <= c <= 'z' || c == '_'
  }

  predicate ValidIdentifier(s: string) {
    s != [] && IdentifierStart(s[0]) && forall c :: c in s ==> IdentifierStart(c) || '0' <= c <= '9'
  }

  /** `str.casefold` on the ASCII characters an identifier can hold. */
  function FoldChar(c: char): char {
    if 'A' <= c <= 'Z' then (c as int + 32) as char else c
  }

  function Fold(s: string): (r: string)
    ensures |r| == |s|
    ensures forall i :: 0 <= i < |s| ==> r[i] == FoldChar(s[i])
  {
    seq(|s|, i requires 0 <= i < |s| => FoldChar(s[i]))
  }

  function Normalized(value: Option<string>): Option<string> {
    if value.Some? && ValidIdentifier(value.value) then Some(Fold(value.value)) else None
  }

  /** `make_hive_cache_key`; `None` is the ValueError. */
  function MakeKey(tool: string, database: Option<string>, table: Option<string>, includeDdl: bool): Option<Key> {
    if tool == "list_databases" then
      if database.Some? || table.Some? || includeDdl then None else Some(ListDatabases)
    else if tool == "list_tables" then
      if table.Some? || includeDdl || Normalized(database).None? then None
      else Some(ListTables(Normalized(database).value))
    else if tool == "get_table_schema" then
      if Normalized(database).None? || Normalized(table).None? then None
      else Some(GetTableSchema(Normalized(database).value, Normalized(table).value, includeDdl))
    else None
  }

  function Encode(k: Key): PyValue {
    match k
    case ListDatabases => Tuple([Str("list_databases")])
    case ListTables(d) => Tuple([Str("list_tables"), Str(d)])
    case GetTableSchema(d, t, ddl) => Tuple([Str("get_table_schema"), Str(d), Str(t), Bool(ddl)])
  }

  /** `_validated_key`; `None` is the ValueError. */
  function ValidatedKey(raw: PyValue): Option<Key> {
    if !raw.Tuple? then None
    else
      var canonical :=
        if raw.items == [Str("list_databases")] then Some(ListDatabases)
        else if |raw.items| == 2 && raw.items[0] == Str("list_tables") && raw.items[1].Str? then
          MakeKey("list_tables", Some(raw.items[1].text), None, false)
        else if |raw.items| == 4 && raw.items[0] == Str("get_table_schema")
                && raw.items[1].Str? && raw.items[2].Str? && raw.items[3].Bool? then
          MakeKey("get_table_schema", Some(raw.items[1].text), Some(raw.items[2].text), raw.items[3].flag)
        else None;
      if canonical.Some? && Encode(canonical.value) == raw then canonical else None
  }

  lemma FoldIsStable(s: string)
    requires ValidIdentifier(s)
    ensures ValidIdentifier(Fold(s)) && Fold(Fold(s)) == Fold(s)
  {
    var f := Fold(s);
    forall c | c in f ensures IdentifierStart(c) || '0' <= c <= '9' {
      var i :| 0 <= i < |f| && f[i] == c;
      assert s[i] in s;
    }
    assert Fold(f) == f;
  }

  /** A key that `make_hive_cache_key` produces is accepted and stands for itself. */
  lemma MadeKeysAreCanonical(tool: string, d: Option<string>, t: Option<string>, ddl: bool)
    requires MakeKey(tool, d, t, ddl).Some?
    ensures ValidatedKey(Encode(MakeKey(tool, d, t, ddl).value)) == MakeKey(tool, d, t, ddl)
  {
    if d.Some? && ValidIdentifier(d.value) {
      FoldIsStable(d.value);
    }
    if t.Some? && ValidIdentifier(t.value) {
      FoldIsStable(t.value);
    }
  }

  /** A raw key is accepted exactly when it encodes a key that `make_hive_cache_key` can produce,
      and is taken for that key. */
  lemma KeysAreCanonical(raw: PyValue, k: Key)
    ensures ValidatedKey(raw) == Some(k) <==>
            raw == Encode(k) && exists tool, d, t, ddl :: MakeKey(tool, d, t, ddl) == Some(k)
  {
    if ValidatedKey(raw) == Some(k) {
      match k
      case ListDatabases => assert MakeKey("list_databases", None, None, false) == Some(k);
      case ListTables(d) => assert MakeKey("list_tables", Some(raw.items[1].text), None, false) == Some(k);
      case GetTableSchema(d, t, ddl) =>
        assert MakeKey("get_table_schema", Some(raw.items[1].text), Some(raw.items[2].text), ddl) == Some(k);
    } else if raw == Encode(k) && exists tool, d, t, ddl :: MakeKey(tool, d, t, ddl) == Some(k) {
      var tool, d, t, ddl :| MakeKey(tool, d, t, ddl) == Some(k);
      MadeKeysAreCanonical(tool, d, t, ddl);
    }
  }

  /** A Hive identifier, as the pattern [A-Za-z_][A-Za-z0-9_]* spells it. */
  predicate Identifier(s: string) {
    && |s| > 0 && !('0' <= s[0] <= '9')
    && forall i :: 0 <= i < |s| ==> s[i] == '_' || '0' <= s[i] <= '9' || 'a' <= s[i] <= 'z' || 'A' <= s[i] <= 'Z'
  }

  predicate GivenIdentifier(value: Option<string>) {
    value.Some? && Identifier(value.value)
  }

  lemma ValidIdentifiers(s: string)
    ensures ValidIdentifier(s) <==> Identifier(s)
  {
    if ValidIdentifier(s) {
      forall i | 0 <= i < |s| ensures s[i] == '_' || '0' <= s[i] <= '9' || 'a' <= s[i] <= 'z' || 'A' <= s[i] <= 'Z' {
        assert s[i] in s;
      }
    }
  }

  /** The requests that have a key: each tool with exactly its own arguments, all identifiers. */
  lemma KeysAcceptRequests(tool: string, d: Option<string>, t: Option<string>, ddl: bool)
    ensures MakeKey(tool, d, t, ddl).Some? <==>
            || (tool == "list_databases" && d.None? && t.None? && !ddl)
            || (tool == "list_tables" && GivenIdentifier(d) && t.None? && !ddl)
            || (tool == "get_table_schema" && GivenIdentifier(d) && GivenIdentifier(t))
  {
    if d.Some? {
      ValidIdentifiers(d.value);
    }
    if t.Some? {
      ValidIdentifiers(t.value);
    }
  }

  /** Two requests share a key exactly when they name the same tool and the same objects up to
      letter case. */
  lemma KeysIdentifyRequests(tool: string, d: Option<string>, t: Option<string>, ddl: bool,
                             tool': string, d': Option<string>, t': Option<string>, ddl': bool)
    requires MakeKey(tool, d, t, ddl).Some? && MakeKey(tool', d', t', ddl').Some?
    ensures MakeKey(tool, d, t, ddl) == MakeKey(tool', d', t', ddl') <==>
            tool == tool' && ddl == ddl' && SameName(d, d') && SameName(t, t')
  {
    if d.Some? && d'.Some? {
      FoldsAgree(d.value, d'.value);
    }
    if t.Some? && t'.Some? {
      FoldsAgree(t.value, t'.value);
    }
  }

  predicate SameName(a: Option<string>, b: Option<string>) {
    a.Some? == b.Some? && (a.Some? ==> SameLetters(a.value, b.value))
  }

  /** Equal up to the case of ASCII letters. */
  predicate SameLetters(a: string, b: string) {
    |a| == |b| && forall i :: 0 <= i < |a| ==> a[i] == b[i] || CaseOf(a[i], b[i]) || CaseOf(b[i], a[i])
  }

  predicate CaseOf(upper: char, lower: char) {
    'A' <= upper <= 'Z' && lower as int - 'a' as int == upper as int - 'A' as int
  }

  lemma FoldsAgree(a: string, b: string)
    ensures Fold(a) == Fold(b) <==> SameLetters(a, b)
  {
    if Fold(a) == Fold(b) {
      forall i | 0 <= i < |a| ensures a[i] == b[i] || CaseOf(a[i], b[i]) || CaseOf(b[i], a[i]) {
        assert Fold(a)[i] == Fold(b)[i];
      }
    }
  }

  // ---------------------------------------------------------------------------------------------
  // Results

  datatype Result =
    | Databases(databases: seq<string>, cached: bool)
    | Tables(database: string, tables: seq<string>, cached: bool)
    | Schema(database: string, table: string, columns: seq<string>, ddl: Option<string>, cached: bool)

  /** What a loader may hand back: a result model, or any other Python value. */
  datatype Loaded = Model(result: Result) | Foreign

  predicate Matches(k: Key, r: Result) {
    match (k, r)
    case (ListDatabases, Databases(_, _)) => true
    case (ListTables(d), Tables(d', _, _)) => Fold(d') == d
    case (GetTableSchema(d, t, ddl), Schema(d', t', _, text, _)) => Fold(d') == d && Fold(t') == t && text.Some? == ddl
    case _ => false
  }

  /** `_validated_result`; `None` is the TypeError. */
  function ValidatedResult(k: Key, loaded: Loaded): Option<Result> {
    if loaded.Model? && Matches(k, loaded.result) then Some(loaded.result) else None
  }

  /** What a loader must hand back for a request: the same kind of result about the same objects up
      to letter case, with a DDL text exactly if one was asked for. */
  predicate Fulfils(tool: string, d: Option<string>, t: Option<string>, ddl: bool, r: Result) {
    || (tool == "list_databases" && r.Databases?)
    || (tool == "list_tables" && r.Tables? && SameName(Some(r.database), d))
    || (tool == "get_table_schema" && r.Schema? && SameName(Some(r.database), d) && SameName(Some(r.table), t)
        && (r.ddl.Some? <==> ddl))
  }

  /** A result is stored and returned for a key exactly if it fulfils the request behind it. */
  lemma ResultsFulfilRequests(tool: string, d: Option<string>, t: Option<string>, ddl: bool, r: Result)
    requires MakeKey(tool, d, t, ddl).Some?
    ensures Matches(MakeKey(tool, d, t, ddl).value, r) <==> Fulfils(tool, d, t, ddl, r)
  {
    if d.Some? && !r.Databases? {
      FoldsAgree(r.database, d.value);
    }
    if t.Some? && r.Schema? {
      FoldsAgree(r.table, t.value);
    }
  }

  /** `_with_cache_status`: the flag is as asked, and every other field stays. */
  function WithCacheStatus(r: Result, cached: bool): (s: Result)
    ensures s.cached == cached && s.(cached := r.cached) == r
  {
    match r
    case Databases(names, _) => Databases(names, cached)
    case Tables(database, names, _) => Tables(database, names, cached)
    case Schema(database, table, columns, ddl, _) => Schema(database, table, columns, ddl, cached)
  }

  // ---------------------------------------------------------------------------------------------
  // The ordered dictionary

  datatype Entry = Entry(key: Key, value: Result, expiresAt: int)

  function Find(es: seq<Entry>, k: Key): Option<Entry> {
    if es == [] then None else if es[0].key == k then Some(es[0]) else Find(es[1..], k)
  }

  function Delete(es: seq<Entry>, k: Key): seq<Entry> {
    if es == [] then [] else if es[0].key == k then es[1..] else [es[0]] + Delete(es[1..], k)
  }

  function Unexpired(es: seq<Entry>, now: int): seq<Entry> {
    if es == [] then []
    else if now < es[0].expiresAt then [es[0]] + Unexpired(es[1..], now)
    else Unexpired(es[1..], now)
  }

  /** The dictionary and the answer after `_get`. */
  function AfterGet(es: seq<Entry>, k: Key, now: int): (seq<Entry>, Option<Result>) {
    match Find(es, k)
    case None => (es, None)
    case Some(e) =>
      if now >= e.expiresAt then (Delete(es, k), None) else (Delete(es, k) + [e], Some(e.value))
  }

  /** The entries of `_put` before the eviction: expired ones gone, the new one at the end. */
  function Storing(es: seq<Entry>, k: Key, v: Result, expiresAt: int, now: int): seq<Entry> {
    Delete(Unexpired(es, now), k) + [Entry(k, v, expiresAt)]
  }

  /** The dictionary after `_put`: the oldest entry goes if there is one too many. */
  function AfterPut(es: seq<Entry>, k: Key, v: Result, expiresAt: int, now: int): seq<Entry> {
    var stored := Storing(es, k, v, expiresAt, now);
    if |stored| > MAX_CACHE_ENTRIES then stored[1..] else stored
  }

  function Keys(es: seq<Entry>): set<Key> {
    if es == [] then {} else {es[0].key} + Keys(es[1..])
  }

  /** What `get_or_load` stores: a result for this very key, not flagged as cached. */
  predicate Storable(k: Key, v: Result) {
    Matches(k, v) && !v.cached
  }

  /** No key occurs twice, and every value belongs to its key. */
  predicate Coherent(es: seq<Entry>) {
    es != [] ==> es[0].key !in Keys(es[1..]) && Storable(es[0].key, es[0].value) && Coherent(es[1..])
  }

  predicate Wellformed(es: seq<Entry>) {
    Coherent(es) && |es| <= MAX_CACHE_ENTRIES
  }

  lemma {:induction false} FindFacts(es: seq<Entry>, k: Key)
    requires Coherent(es)
    ensures Find(es, k).Some? <==> k in Keys(es)
    ensures Find(es, k).Some? ==> Find(es, k).value.key == k && Storable(k, Find(es, k).value.value)
  {
    if es != [] {
      FindFacts(es[1..], k);
    }
  }

  lemma {:induction false} DeleteFacts(es: seq<Entry>, k: Key)
    requires Coherent(es)
    ensures Coherent(Delete(es, k)) && Keys(Delete(es, k)) == Keys(es) - {k}
    ensures |Delete(es, k)| == if k in Keys(es) then |es| - 1 else |es|
  {
    if es != [] {
      DeleteFacts(es[1..], k);
    }
  }

  lemma {:induction false} UnexpiredFacts(es: seq<Entry>, now: int)
    requires Coherent(es)
    ensures Coherent(Unexpired(es, now)) && Keys(Unexpired(es, now)) <= Keys(es)
    ensures |Unexpired(es, now)| <= |es|
  {
    if es != [] {
      UnexpiredFacts(es[1..], now);
    }
  }

  lemma {:induction false} AppendFacts(es: seq<Entry>, e: Entry)
    requires Coherent(es) && e.key !in Keys(es) && Storable(e.key, e.value)
    ensures Coherent(es + [e]) && Keys(es + [e]) == Keys(es) + {e.key}
  {
    if es == [] {
      assert [] + [e] == [e];
    } else {
      AppendFacts(es[1..], e);
      assert (es + [e])[1..] == es[1..] + [e];
    }
  }

  lemma {:induction false} UnexpiredAppend(es: seq<Entry>, e: Entry, now: int)
    ensures Unexpired(es + [e], now) == Unexpired(es, now) + (if now < e.expiresAt then [e] else [])
  {
    if es == [] {
      assert [] + [e] == [e];
    } else {
      UnexpiredAppend(es[1..], e, now);
      assert (es + [e])[1..] == es[1..] + [e];
    }
  }

  lemma AfterGetKeeps(es: seq<Entry>, k: Key, now: int)
    requires Wellformed(es)
    ensures Wellformed(AfterGet(es, k, now).0)
    ensures AfterGet(es, k, now).1.Some? ==> Storable(k, AfterGet(es, k, now).1.value)
  {
    FindFacts(es, k);
    DeleteFacts(es, k);
    if Find(es, k).Some? {
      AppendFacts(Delete(es, k), Find(es, k).value);
    }
  }

  lemma StoringKeeps(es: seq<Entry>, k: Key, v: Result, expiresAt: int, now: int)
    requires Wellformed(es) && Storable(k, v)
    ensures Coherent(Storing(es, k, v, expiresAt, now))
    ensures |Storing(es, k, v, expiresAt, now)| <= MAX_CACHE_ENTRIES + 1
  {
    UnexpiredFacts(es, now);
    DeleteFacts(Unexpired(es, now), k);
    AppendFacts(Delete(Unexpired(es, now), k), Entry(k, v, expiresAt));
  }

  lemma AfterPutKeeps(es: seq<Entry>, k: Key, v: Result, expiresAt: int, now: int)
    requires Wellformed(es) && Storable(k, v)
    ensures Wellformed(AfterPut(es, k, v, expiresAt, now))
  {
    StoringKeeps(es, k, v, expiresAt, now);
  }

  /** The in-place cache. */
  class HiveMetadataCache {
    const ttl: int
    var entries: seq<Entry>

    ghost predicate Valid()
      reads this
    {
      0 <= ttl && Wellformed(entries) && (ttl == 0 ==> entries == [])
    }

    constructor (ttl: int)
      requires 0 <= ttl
      ensures Valid() && this.ttl == ttl && entries == []
    {
      this.ttl := ttl;
      entries := [];
    }

    /** `_get`: one lookup under the lock. */
    method Get(k: Key, now: int) returns (r: Option<Result>)
      requires Valid()
      modifies this
      ensures Valid()
      ensures (entries, r) == AfterGet(old(entries), k, now)
    {
      AfterGetKeeps(entries, k, now);
      var entry := Find(entries, k);
      if entry.None? {
        return None;
      }
      entries := Delete(entries, k);
      if now >= entry.value.expiresAt {
        return None;
      }
      entries := entries + [entry.value];
      return Some(entry.value.value);
    }

    /** `_put`: purge, store at the end, evict from the front. */
    method Put(k: Key, v: Result, now: int)
      requires Valid() && 0 < ttl && Storable(k, v)
      modifies this
      ensures Valid()
      ensures entries == AfterPut(old(entries), k, v, now + ttl, now)
    {
      AfterPutKeeps(entries, k, v, now + ttl, now);
      StoringKeeps(entries, k, v, now + ttl, now);
      var kept := Purge(entries, now);
      entries := Delete(kept, k) + [Entry(k, v, now + ttl)];
      ghost var stored := entries;
      while |entries| > MAX_CACHE_ENTRIES
        invariant entries == stored || (|stored| > MAX_CACHE_ENTRIES && entries == stored[1..])
        decreases |entries|
      {
        entries := entries[1..];
      }
    }

    /** The part of `get_or_load` before the loader runs: a hit, or the key to load. */
    method Lookup(raw: PyValue, now: int) returns (key: Option<Key>, hit: Option<Result>)
      requires Valid()
      modifies this
      ensures Valid() && key == ValidatedKey(raw)
      ensures key.None? || ttl == 0 ==> hit.None? && entries == old(entries)
      ensures key.Some? && ttl > 0 ==> entries == StepEntries(old(entries), LookupStep(key.value, now), ttl)
      ensures key.Some? && ttl > 0 ==>
        var (es, r) := AfterGet(old(entries), key.value, now);
        entries == es && hit == if r.Some? then Some(r.value.(cached := true)) else None
    {
      key := ValidatedKey(raw);
      hit := None;
      if key.Some? && ttl > 0 {
        var r := Get(key.value, now);
        if r.Some? {
          hit := Some(WithCacheStatus(r.value, true));
        }
      }
    }

    /** The part of `get_or_load` after the loader returned; `None` is the TypeError. */
    method Complete(key: Key, loaded: Loaded, now: int) returns (r: Option<Result>)
      requires Valid()
      modifies this
      ensures Valid()
      ensures r == if loaded.Model? && Matches(key, loaded.result) then Some(loaded.result.(cached := false)) else None
      ensures entries == if r.Some? && ttl > 0
                         then AfterPut(old(entries), key, r.value, now + ttl, now)
                         else old(entries)
      ensures ttl > 0 ==> entries == StepEntries(old(entries), CompleteStep(key, loaded, now), ttl)
    {
      var valid := ValidatedResult(key, loaded);
      if valid.None? {
        return None;
      }
      var uncached := WithCacheStatus(valid.value, false);
      if ttl > 0 {
        Put(key, uncached, now);
      }
      return Some(uncached);
    }
  }

  /** The purge loop of `_put`. */
  method Purge(es: seq<Entry>, now: int) returns (kept: seq<Entry>)
    ensures kept == Unexpired(es, now)
  {
    kept := [];
    var i := 0;
    while i < |es|
      invariant i <= |es| && kept == Unexpired(es[..i], now)
    {
      UnexpiredAppend(es[..i], es[i], now);
      assert es[..i] + [es[i]] == es[..i + 1];
      if now < es[i].expiresAt {
        kept := kept + [es[i]];
      }
      i := i + 1;
    }
    assert es[..i] == es;
  }

  // ---------------------------------------------------------------------------------------------
  // Runs: any interleaving of the steps of any number of calls

  datatype Event = LookupStep(key: Key, now: int) | CompleteStep(key: Key, loaded: Loaded, now: int)

  /** The dictionary of a cache with positive TTL after one step of some call. */
  function StepEntries(es: seq<Entry>, e: Event, ttl: int): seq<Entry> {
    match e
    case LookupStep(k, now) => AfterGet(es, k, now).0
    case CompleteStep(k, loaded, now) =>
      if ValidatedResult(k, loaded).None? then es
      else AfterPut(es, k, WithCacheStatus(loaded.result, false), now + ttl, now)
  }

  function After(run: seq<Event>, ttl: int): seq<Entry> {
    if run == [] then [] else StepEntries(After(run[..|run| - 1], ttl), run[|run| - 1], ttl)
  }

  lemma {:induction false} RunsKeepWellformed(run: seq<Event>, ttl: int)
    ensures Wellformed(After(run, ttl))
  {
    if run != [] {
      RunsKeepWellformed(run[..|run| - 1], ttl);
      StepKeepsWellformed(After(run[..|run| - 1], ttl), run[|run| - 1], ttl);
    }
  }

  lemma StepKeepsWellformed(es: seq<Entry>, e: Event, ttl: int)
    requires Wellformed(es)
    ensures Wellformed(StepEntries(es, e, ttl))
  {
    match e
    case LookupStep(k, now) => AfterGetKeeps(es, k, now);
    case CompleteStep(k, loaded, now) =>
      if ValidatedResult(k, loaded).Some? {
        AfterPutKeeps(es, k, WithCacheStatus(loaded.result, false), now + ttl, now);
      }
  }

  // ---------------------------------------------------------------------------------------------
  // Transparency

  /** The step at position `i` of the run stored this value for this key. */
  ghost predicate StoredAt(run: seq<Event>, i: int, k: Key, v: Result) {
    0 <= i < |run| && run[i].CompleteStep? && run[i].key == k &&
    run[i].loaded.Model? && Matches(k, run[i].loaded.result) && v == run[i].loaded.result.(cached := false)
  }

  ghost predicate StoredEarlier(run: seq<Event>, ttl: int, e: Entry) {
    exists i :: StoredAt(run, i, e.key, e.value) && e.expiresAt == run[i].now + ttl
  }

  /** The entry is one of the dictionary's. */
  predicate Holds(es: seq<Entry>, e: Entry) {
    es != [] && (es[0] == e || Holds(es[1..], e))
  }

  lemma {:induction false} FindHolds(es: seq<Entry>, k: Key)
    requires Find(es, k).Some?
    ensures Holds(es, Find(es, k).value) && Find(es, k).value.key == k
  {
    if es[0].key != k {
      FindHolds(es[1..], k);
    }
  }

  lemma {:induction false} HoldsInAppend(es: seq<Entry>, x: Entry, e: Entry)
    ensures Holds(es + [x], e) <==> Holds(es, e) || x == e
  {
    if es == [] {
      assert [] + [x] == [x];
    } else {
      HoldsInAppend(es[1..], x, e);
      assert (es + [x])[1..] == es[1..] + [x];
    }
  }

  lemma {:induction false} RemovalsHoldLess(es: seq<Entry>, k: Key, now: int, e: Entry)
    ensures Holds(Delete(es, k), e) ==> Holds(es, e)
    ensures Holds(Unexpired(es, now), e) ==> Holds(es, e)
  {
    if es != [] {
      RemovalsHoldLess(es[1..], k, now, e);
    }
  }

  lemma StepHoldsLess(es: seq<Entry>, ev: Event, ttl: int, e: Entry)
    requires Holds(StepEntries(es, ev, ttl), e)
    ensures Holds(es, e) || (ev.CompleteStep? && ValidatedResult(ev.key, ev.loaded).Some? &&
              e == Entry(ev.key, ev.loaded.result.(cached := false), ev.now + ttl))
  {
    match ev
    case LookupStep(k, now) =>
      RemovalsHoldLess(es, k, now, e);
      if Find(es, k).Some? {
        FindHolds(es, k);
        HoldsInAppend(Delete(es, k), Find(es, k).value, e);
      }
    case CompleteStep(k, loaded, now) =>
      if ValidatedResult(k, loaded).Some? {
        var x := Entry(k, WithCacheStatus(loaded.result, false), now + ttl);
        RemovalsHoldLess(es, k, now, e);
        RemovalsHoldLess(Unexpired(es, now), k, now, e);
        HoldsInAppend(Delete(Unexpired(es, now), k), x, e);
      }
  }

  /** Every entry was stored by some step under its own key, and expires TTL after that. */
  lemma {:induction false} EntriesComeFromLoaders(run: seq<Event>, ttl: int, e: Entry)
    requires Holds(After(run, ttl), e)
    ensures StoredEarlier(run, ttl, e)
  {
    if run != [] {
      var before, last := run[..|run| - 1], run[|run| - 1];
      StepHoldsLess(After(before, ttl), last, ttl, e);
      if Holds(After(before, ttl), e) {
        EntriesComeFromLoaders(before, ttl, e);
        var i :| StoredAt(before, i, e.key, e.value) && e.expiresAt == before[i].now + ttl;
        assert StoredAt(run, i, e.key, e.value);
      } else {
        assert StoredAt(run, |run| - 1, e.key, e.value);
      }
    }
  }

  /** Transparency: whatever other calls did in between, a hit equals, but for its flag, a value
      that a loader returned for the same key less than TTL ago, and it matches that key. */
  lemma HitsAreTransparent(run: seq<Event>, ttl: int, k: Key, now: int)
    requires AfterGet(After(run, ttl), k, now).1.Some?
    ensures var v := AfterGet(After(run, ttl), k, now).1.value;
            Storable(k, v) && exists i :: StoredAt(run, i, k, v) && now - run[i].now < ttl
  {
    RunsKeepWellformed(run, ttl);
    AfterGetKeeps(After(run, ttl), k, now);
    var e := Find(After(run, ttl), k).value;
    FindHolds(After(run, ttl), k);
    EntriesComeFromLoaders(run, ttl, e);
  }

  // ---------------------------------------------------------------------------------------------
  // The least-recently-used guarantee

  /** The step put its key, or hit it. */
  predicate Touches(es: seq<Entry>, e: Event) {
    match e
    case LookupStep(k, now) => AfterGet(es, k, now).1.Some?
    case CompleteStep(k, loaded, _) => ValidatedResult(k, loaded).Some?
  }

  function Touched(es: seq<Entry>, e: Event): set<Key> {
    if Touches(es, e) then {e.key} else {}
  }

  /** The keys that the steps from position `from` on put or hit. */
  function TouchedSince(run: seq<Event>, ttl: int, from: nat): set<Key>
    decreases |run|
  {
    if |run| <= from then {}
    else TouchedSince(run[..|run| - 1], ttl, from) + Touched(After(run[..|run| - 1], ttl), run[|run| - 1])
  }

  /** The entry is present, with only touched keys behind it. */
  predicate Sheltered(es: seq<Entry>, e: Entry, touched: set<Key>) {
    es != [] && if es[0] == e then Keys(es[1..]) <= touched else Sheltered(es[1..], e, touched)
  }

  lemma {:induction false} ShelteredByDelete(es: seq<Entry>, e: Entry, touched: set<Key>, k: Key)
    requires Coherent(es) && Sheltered(es, e, touched) && k != e.key
    ensures Sheltered(Delete(es, k), e, touched)
  {
    if es[0] == e {
      DeleteFacts(es[1..], k);
    } else {
      ShelteredByDelete(es[1..], e, touched, k);
    }
  }

  lemma {:induction false} ShelteredByPurge(es: seq<Entry>, e: Entry, touched: set<Key>, now: int)
    requires Coherent(es) && Sheltered(es, e, touched) && now < e.expiresAt
    ensures Sheltered(Unexpired(es, now), e, touched)
  {
    if es[0] == e {
      UnexpiredFacts(es[1..], now);
    } else {
      ShelteredByPurge(es[1..], e, touched, now);
    }
  }

  lemma {:induction false} ShelteredByAppend(es: seq<Entry>, e: Entry, touched: set<Key>, x: Entry)
    requires Sheltered(es, e, touched)
    ensures Sheltered(es + [x], e, touched + {x.key})
  {
    assert (es + [x])[1..] == es[1..] + [x];
    if es[0] == e {
      KeysAppend(es[1..], x);
    } else {
      ShelteredByAppend(es[1..], e, touched, x);
    }
  }

  lemma {:induction false} KeysAppend(es: seq<Entry>, x: Entry)
    ensures Keys(es + [x]) == Keys(es) + {x.key}
  {
    if es == [] {
      assert [] + [x] == [x];
    } else {
      KeysAppend(es[1..], x);
      assert (es + [x])[1..] == es[1..] + [x];
    }
  }

  lemma {:induction false} KeysAreCounted(es: seq<Entry>)
    requires Coherent(es)
    ensures |Keys(es)| == |es|
  {
    if es != [] {
      KeysAreCounted(es[1..]);
    }
  }

  lemma CardinalityGrows<T>(a: set<T>, b: set<T>)
    requires a <= b
    ensures |a| <= |b|
  {
    assert b == a + (b - a);
  }

  /** The eviction of the oldest entry spares a sheltered one. */
  lemma ShelteredByEviction(stored: seq<Entry>, e: Entry, touched: set<Key>)
    requires Coherent(stored) && Sheltered(stored, e, touched)
    requires |stored| == MAX_CACHE_ENTRIES + 1 && |touched| < MAX_CACHE_ENTRIES
    ensures Sheltered(stored[1..], e, touched)
  {
    KeysAreCounted(stored[1..]);
    if Keys(stored[1..]) <= touched {
      CardinalityGrows(Keys(stored[1..]), touched);
    }
  }

  lemma {:induction false} ShelteredIsFound(es: seq<Entry>, e: Entry, touched: set<Key>)
    requires Coherent(es) && Sheltered(es, e, touched)
    ensures Find(es, e.key) == Some(e)
  {
    if es[0] != e {
      ShelteredIsFound(es[1..], e, touched);
      FindFacts(es[1..], e.key);
    }
  }

  lemma ShelteredByLookup(es: seq<Entry>, e: Entry, touched: set<Key>, k: Key, now: int)
    requires Wellformed(es) && Sheltered(es, e, touched) && k != e.key
    ensures Sheltered(AfterGet(es, k, now).0, e,
                      touched + if AfterGet(es, k, now).1.Some? then {k} else {})
  {
    ShelteredByDelete(es, e, touched, k);
    FindFacts(es, k);
    assert touched + {} == touched;
    if Find(es, k).Some? {
      ShelteredByAppend(Delete(es, k), e, touched, Find(es, k).value);
    }
  }

  lemma ShelteredByPut(es: seq<Entry>, e: Entry, touched: set<Key>, k: Key, v: Result, expiresAt: int, now: int)
    requires Wellformed(es) && Sheltered(es, e, touched) && k != e.key && now < e.expiresAt
    requires Storable(k, v) && |touched + {k}| < MAX_CACHE_ENTRIES
    ensures Sheltered(AfterPut(es, k, v, expiresAt, now), e, touched + {k})
  {
    ShelteredByPurge(es, e, touched, now);
    UnexpiredFacts(es, now);
    ShelteredByDelete(Unexpired(es, now), e, touched, k);
    ShelteredByAppend(Delete(Unexpired(es, now), k), e, touched, Entry(k, v, expiresAt));
    StoringKeeps(es, k, v, expiresAt, now);
    var stored := Storing(es, k, v, expiresAt, now);
    if |stored| > MAX_CACHE_ENTRIES {
      ShelteredByEviction(stored, e, touched + {k});
    }
  }

  lemma ShelteredByStep(es: seq<Entry>, e: Entry, touched: set<Key>, ev: Event, ttl: int)
    requires Wellformed(es) && Sheltered(es, e, touched)
    requires ev.now < e.expiresAt && !(ev.key == e.key && Touches(es, ev))
    requires |touched + Touched(es, ev)| < MAX_CACHE_ENTRIES
    ensures Sheltered(StepEntries(es, ev, ttl), e, touched + Touched(es, ev))
  {
    ShelteredIsFound(es, e, touched);
    if ev.key == e.key {
      assert ev.CompleteStep?;
      assert touched + {} == touched;
    } else {
      match ev
      case LookupStep(k, now) => ShelteredByLookup(es, e, touched, k, now);
      case CompleteStep(k, loaded, now) =>
        if ValidatedResult(k, loaded).Some? {
          ShelteredByPut(es, e, touched, k, WithCacheStatus(loaded.result, false), now + ttl, now);
        } else {
          assert touched + {} == touched;
        }
    }
  }

  lemma {:induction false} EntriesStaySheltered(run: seq<Event>, ttl: int, from: nat, e: Entry)
    requires from <= |run| && Sheltered(After(run[..from], ttl), e, {})
    requires forall i :: from <= i < |run| ==>
      run[i].now < e.expiresAt && !(run[i].key == e.key && Touches(After(run[..i], ttl), run[i]))
    requires |TouchedSince(run, ttl, from)| < MAX_CACHE_ENTRIES
    ensures Sheltered(After(run, ttl), e, TouchedSince(run, ttl, from))
  {
    if |run| == from {
      assert run[..from] == run;
    } else {
      var before, last := run[..|run| - 1], run[|run| - 1];
      var touched := TouchedSince(before, ttl, from);
      assert before[..from] == run[..from];
      assert forall i :: from <= i < |before| ==> before[..i] == run[..i];
      CardinalityGrows(touched, TouchedSince(run, ttl, from));
      EntriesStaySheltered(before, ttl, from, e);
      RunsKeepWellformed(before, ttl);
      ShelteredByStep(After(before, ttl), e, touched, last, ttl);
    }
  }

  lemma {:induction false} LastIsSheltered(es: seq<Entry>, e: Entry)
    requires e.key !in Keys(es)
    ensures Sheltered(es + [e], e, {})
  {
    if es == [] {
      assert [] + [e] == [e];
    } else {
      LastIsSheltered(es[1..], e);
      assert (es + [e])[1..] == es[1..] + [e];
    }
  }

  /** A put or a hit leaves the key's entry at the recent end; a put makes it expire TTL later. */
  lemma TouchedIsLast(es: seq<Entry>, ttl: int, ev: Event) returns (e: Entry)
    requires Wellformed(es) && Touches(es, ev)
    ensures e.key == ev.key && Sheltered(StepEntries(es, ev, ttl), e, {})
    ensures if ev.LookupStep? then Find(es, ev.key) == Some(e)
            else e == Entry(ev.key, ev.loaded.result.(cached := false), ev.now + ttl)
  {
    match ev
    case LookupStep(k, now) =>
      FindFacts(es, k);
      DeleteFacts(es, k);
      e := Find(es, k).value;
      LastIsSheltered(Delete(es, k), e);
    case CompleteStep(k, loaded, now) =>
      e := Entry(k, WithCacheStatus(loaded.result, false), now + ttl);
      UnexpiredFacts(es, now);
      var kept := Delete(Unexpired(es, now), k);
      DeleteFacts(Unexpired(es, now), k);
      LastIsSheltered(kept, e);
      if kept != [] {
        LastIsSheltered(kept[1..], e);
        assert (kept + [e])[1..] == kept[1..] + [e];
      }
  }

  /** A key is a hit while the expiry of its entry has not passed and fewer than 256 keys were put
      or hit since its own last put or hit, which is the step before position `from`. */
  lemma RecentKeysHit(run: seq<Event>, ttl: int, from: nat, now: int) returns (e: Entry)
    requires 0 < from <= |run| && Touches(After(run[..from - 1], ttl), run[from - 1])
    requires forall i :: from <= i < |run| ==> run[i].now <= now
    requires forall i :: from <= i < |run| && run[i].key == run[from - 1].key ==> !Touches(After(run[..i], ttl), run[i])
    requires |TouchedSince(run, ttl, from)| < 256
    ensures e.key == run[from - 1].key && Find(After(run[..from], ttl), e.key) == Some(e)
    ensures run[from - 1].CompleteStep? ==> e.expiresAt == run[from - 1].now + ttl
    ensures now < e.expiresAt ==> AfterGet(After(run, ttl), e.key, now).1 == Some(e.value)
  {
    assert run[..from][..from - 1] == run[..from - 1];
    RunsKeepWellformed(run[..from - 1], ttl);
    RunsKeepWellformed(run[..from], ttl);
    e := TouchedIsLast(After(run[..from - 1], ttl), ttl, run[from - 1]);
    ShelteredIsFound(After(run[..from], ttl), e, {});
    if now < e.expiresAt {
      EntriesStaySheltered(run, ttl, from, e);
      RunsKeepWellformed(run, ttl);
      ShelteredIsFound(After(run, ttl), e, TouchedSince(run, ttl, from));
    }
  }

  /** After any run the cache holds at most 256 entries, and the next put has at most one entry
      too many for its eviction loop to remove. */
  lemma CapacityIsKept(run: seq<Event>, ttl: int, k: Key, v: Result, now: int)
    requires Storable(k, v)
    ensures |After(run, ttl)| <= 256
    ensures |Storing(After(run, ttl), k, v, now + ttl, now)| <= 256 + 1
  {
    RunsKeepWellformed(run, ttl);
    StoringKeeps(After(run, ttl), k, v, now + ttl, now);
  }
}
