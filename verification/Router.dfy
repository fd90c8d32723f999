/** Where each reading of a micro-batch goes (services/spark_jobs/kafka_to_timescaledb.py,
    services/spark_jobs/reading_guard.py and services/spark_jobs/kafka_aggregations.py). */
module Router {
  import opened Common

  datatype Reason =
    | MissingOrMalformed | InvalidCompany | InvalidDevice | FutureTimestamp
    | UnknownTenant | SuspendedTenant | UnknownSensor | UnknownEquipment

  datatype Key = Key(company: string, sensor: string, equipment: string)

  /** `reject` is the stateless check's reason, if any. */
  datatype Reading = Reading(key: Key, time: int, body: string, reject: Option<Reason>)

  /** The tenant schema of a company id, and the canonical spelling of an id. */
  datatype Names = Names(schema: string -> string, canonical: string -> string)

  /** The registry's active flags by schema, the schemas with a measurements table, and the ids known
      in each. */
  datatype Database = Database(
    active: map<string, bool>, tables: set<string>, sensors: map<string, set<string>>, equipment: map<string, set<string>>)

  /** What a lookup found: a tenant's refusal or none, and the known ids among those asked for. */
  datatype Facts = Facts(refusal: map<string, Option<Reason>>, sensors: map<string, set<string>>, equipment: map<string, set<string>>)

  function In(m: map<string, set<string>>, k: string): set<string> { if k in m then m[k] else {} }

  // ---------------------------------------------------------------- classification

  /** Whether the database itself refuses a key. */
  function Decide(db: Database, names: Names, k: Key): Option<Reason> {
    var schema := names.schema(k.company);
    if schema !in db.active then Some(UnknownTenant)
    else if !db.active[schema] then Some(SuspendedTenant)
    else if schema !in db.tables then Some(UnknownTenant)
    else if names.canonical(k.sensor) !in In(db.sensors, schema) then Some(UnknownSensor)
    else if names.canonical(k.equipment) !in In(db.equipment, schema) then Some(UnknownEquipment)
    else None
  }

  /** Whether the facts looked up refuse it. */
  function Refusal(f: Facts, names: Names, k: Key): Option<Reason> {
    var tenant := if k.company in f.refusal then f.refusal[k.company] else Some(UnknownTenant);
    if tenant.Some? then tenant
    else if names.canonical(k.sensor) !in In(f.sensors, k.company) then Some(UnknownSensor)
    else if names.canonical(k.equipment) !in In(f.equipment, k.company) then Some(UnknownEquipment)
    else None
  }

  function ReadTenant(db: Database, schema: string, sensors: set<string>, equipment: set<string>): (Option<Reason>, set<string>, set<string>) {
    if schema !in db.active then (Some(UnknownTenant), {}, {})
    else if !db.active[schema] then (Some(SuspendedTenant), {}, {})
    else if schema !in db.tables then (Some(UnknownTenant), {}, {})
    else (None, sensors * In(db.sensors, schema), equipment * In(db.equipment, schema))
  }

  type Asked = map<string, (set<string>, set<string>)>

  /** The key's ids are among those asked for. */
  predicate Asks(ids: Asked, names: Names, k: Key) {
    k.company in ids && names.canonical(k.sensor) in ids[k.company].0 && names.canonical(k.equipment) in ids[k.company].1
  }

  method GroupByCompany(keys: seq<Key>, names: Names) returns (ids: Asked)
    ensures forall k :: k in keys ==> Asks(ids, names, k)
  {
    ids := map[];
    for i := 0 to |keys|
      invariant forall k :: k in keys[..i] ==> Asks(ids, names, k)
    {
      var k := keys[i];
      assert keys[..i + 1] == keys[..i] + [k];
      var (sensors, equipment) := if k.company in ids then ids[k.company] else ({}, {});
      ids := ids[k.company := (sensors + {names.canonical(k.sensor)}, equipment + {names.canonical(k.equipment)})];
    }
    assert keys[..|keys|] == keys;
  }

  ghost predicate HasRead(db: Database, names: Names, ids: Asked, f: Facts, c: string)
    requires c in ids
  {
    && c in f.refusal && c in f.sensors && c in f.equipment
    && (f.refusal[c], f.sensors[c], f.equipment[c]) == ReadTenant(db, names.schema(c), ids[c].0, ids[c].1)
  }

  method ReadTenants(db: Database, names: Names, ids: Asked) returns (f: Facts)
    ensures f.refusal.Keys == ids.Keys && forall c :: c in ids ==> HasRead(db, names, ids, f, c)
  {
    f := Facts(map[], map[], map[]);
    var todo := ids.Keys;
    while todo != {}
      invariant todo <= ids.Keys && f.refusal.Keys == ids.Keys - todo
      invariant forall c :: c in ids.Keys - todo ==> HasRead(db, names, ids, f, c)
      decreases |todo|
    {
      var c :| c in todo;
      var (refusal, sensors, equipment) := ReadTenant(db, names.schema(c), ids[c].0, ids[c].1);
      f := Facts(f.refusal[c := refusal], f.sensors[c := sensors], f.equipment[c := equipment]);
      todo := todo - {c};
    }
  }

  /** Reads, once per tenant, what classification needs. It decides every key of the batch as the
      database itself would, though only the batch's own ids were asked for. */
  method LookupReferences(db: Database, names: Names, keys: seq<Key>) returns (f: Facts)
    ensures forall k :: k in keys ==> k.company in f.refusal && Refusal(f, names, k) == Decide(db, names, k)
  {
    var ids := GroupByCompany(keys, names);
    f := ReadTenants(db, names, ids);
    forall k | k in keys ensures Refusal(f, names, k) == Decide(db, names, k) {
      ReadDecides(db, names, ids, f, k);
    }
  }

  lemma ReadDecides(db: Database, names: Names, ids: Asked, f: Facts, k: Key)
    requires Asks(ids, names, k) && HasRead(db, names, ids, f, k.company)
    ensures Refusal(f, names, k) == Decide(db, names, k)
  {
  }

  function Classified(f: Facts, names: Names, keys: seq<Key>): seq<(Key, Reason)> {
    if keys == [] then []
    else
      var k := keys[|keys| - 1];
      Classified(f, names, keys[..|keys| - 1]) + if Refusal(f, names, k).Some? then [(k, Refusal(f, names, k).value)] else []
  }

  method ClassifyReferences(f: Facts, names: Names, keys: seq<Key>) returns (rejected: seq<(Key, Reason)>)
    ensures rejected == Classified(f, names, keys)
  {
    rejected := [];
    for i := 0 to |keys|
      invariant rejected == Classified(f, names, keys[..i])
    {
      assert keys[..i + 1][..i] == keys[..i];
      var k := keys[i];
      var reason := if k.company in f.refusal then f.refusal[k.company] else Some(UnknownTenant);
      if reason.None? {
        if names.canonical(k.sensor) !in In(f.sensors, k.company) {
          reason := Some(UnknownSensor);
        } else if names.canonical(k.equipment) !in In(f.equipment, k.company) {
          reason := Some(UnknownEquipment);
        } else {
          continue;
        }
      }
      rejected := rejected + [(k, reason.value)];
    }
    assert keys[..|keys|] == keys;
  }

  // ---------------------------------------------------------------- the join

  function ReasonsFor(refused: seq<(Key, Reason)>, k: Key): seq<Reason> {
    if refused == [] then []
    else ReasonsFor(refused[..|refused| - 1], k) + if refused[|refused| - 1].0 == k then [refused[|refused| - 1].1] else []
  }

  datatype Tagged = Tagged(reading: Reading, reason: Option<Reason>)

  function Tags(r: Reading, reasons: seq<Reason>): seq<Tagged> {
    if reasons == [] then [Tagged(r, None)] else seq(|reasons|, i requires 0 <= i < |reasons| => Tagged(r, Some(reasons[i])))
  }

  function Flatten(valid: seq<Reading>, tagsOf: Reading -> seq<Tagged>): seq<Tagged> {
    if valid == [] then [] else Flatten(valid[..|valid| - 1], tagsOf) + tagsOf(valid[|valid| - 1])
  }

  /** The left join: one row for each match of a reading, or one without a reason. */
  function Join(valid: seq<Reading>, refused: seq<(Key, Reason)>): seq<Tagged> {
    Flatten(valid, (r: Reading) => Tags(r, ReasonsFor(refused, r.key)))
  }

  predicate DistinctKeys(keys: seq<Key>) { forall i, j :: 0 <= i < j < |keys| ==> keys[i] != keys[j] }

  /** A key looked up once has one reason, the classification's. */
  lemma {:induction false} OneReason(f: Facts, names: Names, keys: seq<Key>, k: Key)
    requires DistinctKeys(keys)
    ensures ReasonsFor(Classified(f, names, keys), k) ==
      if k in keys && Refusal(f, names, k).Some? then [Refusal(f, names, k).value] else []
  {
    if keys != [] {
      var front, last := keys[..|keys| - 1], keys[|keys| - 1];
      OneReason(f, names, front, k);
      assert k in keys <==> k in front || k == last;
      var rest := Classified(f, names, front);
      if Refusal(f, names, last).Some? {
        assert (rest + [(last, Refusal(f, names, last).value)])[..|rest|] == rest;
      } else {
        assert Classified(f, names, keys) == rest;
      }
    }
  }

  function Tag(f: Facts, names: Names, valid: seq<Reading>): seq<Tagged> {
    seq(|valid|, i requires 0 <= i < |valid| => Tagged(valid[i], Refusal(f, names, valid[i].key)))
  }

  /** When each reading has one tag, the rows are those tags. */
  lemma {:induction false} FlattenSingles(valid: seq<Reading>, tagsOf: Reading -> seq<Tagged>, tags: seq<Tagged>)
    requires |tags| == |valid| && forall i :: 0 <= i < |valid| ==> tagsOf(valid[i]) == [tags[i]]
    ensures Flatten(valid, tagsOf) == tags
  {
    if valid != [] {
      var n := |valid| - 1;
      FlattenSingles(valid[..n], tagsOf, tags[..n]);
      assert tags == tags[..n] + [tags[n]];
    }
  }

  /** The join neither drops nor repeats a reading: each gets its own key's verdict. */
  lemma JoinTags(f: Facts, names: Names, keys: seq<Key>, valid: seq<Reading>)
    requires DistinctKeys(keys) && forall i :: 0 <= i < |valid| ==> valid[i].key in keys
    ensures Join(valid, Classified(f, names, keys)) == Tag(f, names, valid)
  {
    var refused, tags := Classified(f, names, keys), Tag(f, names, valid);
    var tagsOf := (r: Reading) => Tags(r, ReasonsFor(refused, r.key));
    forall i | 0 <= i < |valid| ensures tagsOf(valid[i]) == [tags[i]] {
      OneReason(f, names, keys, valid[i].key);
    }
    FlattenSingles(valid, tagsOf, tags);
  }

  // ---------------------------------------------------------------- one batch

  /** The stateless check's own reasons. */
  function ByReject(batch: seq<Reading>): seq<Tagged> {
    seq(|batch|, i requires 0 <= i < |batch| => Tagged(batch[i], batch[i].reject))
  }

  /** What the stateless check rejected, and what it let through. */
  function Stateless(batch: seq<Reading>): seq<(Reading, Reason)> { Refused(ByReject(batch)) }
  function Valid(batch: seq<Reading>): seq<Reading> { Kept(ByReject(batch)) }

  function KeysOf(valid: seq<Reading>): seq<Key> {
    if valid == [] then []
    else
      var front, k := KeysOf(valid[..|valid| - 1]), valid[|valid| - 1].key;
      if k in front then front else front + [k]
  }

  lemma {:induction false} KeysDistinct(valid: seq<Reading>)
    ensures DistinctKeys(KeysOf(valid)) && forall i :: 0 <= i < |valid| ==> valid[i].key in KeysOf(valid)
  {
    if valid != [] {
      var front, k := valid[..|valid| - 1], valid[|valid| - 1].key;
      KeysDistinct(front);
      if k !in KeysOf(front) { DistinctAppend(KeysOf(front), k); }
      forall i | 0 <= i < |valid| ensures valid[i].key in KeysOf(valid) {
        if i < |front| { assert front[i].key in KeysOf(front); }
      }
    }
  }

  lemma DistinctAppend(keys: seq<Key>, k: Key)
    requires DistinctKeys(keys) && k !in keys
    ensures DistinctKeys(keys + [k])
  {
  }

  /** The tagged readings that carry a reason, and those that do not. */
  function Refused(tags: seq<Tagged>): seq<(Reading, Reason)> {
    if tags == [] then []
    else var t := tags[|tags| - 1]; Refused(tags[..|tags| - 1]) + if t.reason.Some? then [(t.reading, t.reason.value)] else []
  }

  function Kept(tags: seq<Tagged>): seq<Reading> {
    if tags == [] then []
    else var t := tags[|tags| - 1]; Kept(tags[..|tags| - 1]) + if t.reason.None? then [t.reading] else []
  }

  /** Where the database's own verdict sends a batch: dead letters with their one reason, and rows to
      write. */
  function DbTags(db: Database, names: Names, valid: seq<Reading>): seq<Tagged> {
    seq(|valid|, i requires 0 <= i < |valid| => Tagged(valid[i], Decide(db, names, valid[i].key)))
  }

  function DeadOf(db: Database, names: Names, batch: seq<Reading>): seq<(Reading, Reason)> {
    Stateless(batch) + Refused(DbTags(db, names, Valid(batch)))
  }

  function KeptOf(db: Database, names: Names, batch: seq<Reading>): seq<Reading> { Kept(DbTags(db, names, Valid(batch))) }

  function Readings(dead: seq<(Reading, Reason)>): seq<Reading> { seq(|dead|, i requires 0 <= i < |dead| => dead[i].0) }

  lemma ReadingsAppend(dead: seq<(Reading, Reason)>, d: (Reading, Reason))
    ensures Readings(dead + [d]) == Readings(dead) + [d.0]
  {
  }

  function Untagged(tags: seq<Tagged>): seq<Reading> { seq(|tags|, i requires 0 <= i < |tags| => tags[i].reading) }

  lemma {:induction false} TagsConserve(tags: seq<Tagged>)
    ensures multiset(Readings(Refused(tags))) + multiset(Kept(tags)) == multiset(Untagged(tags))
  {
    if tags != [] {
      var front, t := tags[..|tags| - 1], tags[|tags| - 1];
      TagsConserve(front);
      assert Untagged(tags) == Untagged(front) + [t.reading];
      if t.reason.Some? {
        ReadingsAppend(Refused(front), (t.reading, t.reason.value));
        assert Kept(tags) == Kept(front);
      } else {
        assert Refused(tags) == Refused(front);
      }
    }
  }

  /** Each reading of a batch, counted as often as it occurs, is dead-lettered or kept, never both. */
  lemma BatchConserved(db: Database, names: Names, batch: seq<Reading>)
    ensures multiset(Readings(DeadOf(db, names, batch))) + multiset(KeptOf(db, names, batch)) == multiset(batch)
  {
    var byReject, byFacts := ByReject(batch), DbTags(db, names, Valid(batch));
    TagsConserve(byFacts);
    TagsConserve(byReject);
    assert Untagged(byFacts) == Kept(byReject) && Untagged(byReject) == batch;
    ReadingsConcat(Refused(byReject), Refused(byFacts));
    Adding(Readings(Refused(byReject)), Readings(Refused(byFacts)), Kept(byFacts), Kept(byReject), batch);
  }

  lemma ReadingsConcat(a: seq<(Reading, Reason)>, b: seq<(Reading, Reason)>)
    ensures Readings(a + b) == Readings(a) + Readings(b)
  {
  }

  lemma Adding(a: seq<Reading>, b: seq<Reading>, c: seq<Reading>, d: seq<Reading>, all: seq<Reading>)
    requires multiset(b) + multiset(c) == multiset(d) && multiset(a) + multiset(d) == multiset(all)
    ensures multiset(a + b) + multiset(c) == multiset(all)
  {
  }

  // ---------------------------------------------------------------- writing

  /** A tenant's measurements by their natural key. */
  type Table = map<(int, string), Reading>
  type Tables = map<string, Table>

  function At(tables: Tables, schema: string): Table { if schema in tables then tables[schema] else map[] }

  function NaturalKey(names: Names, r: Reading): (int, string) { (r.time, names.canonical(r.key.sensor)) }

  /** `INSERT … ON CONFLICT (time, sensor_id) DO NOTHING` into the reading's own tenant. */
  function Insert(tables: Tables, names: Names, r: Reading): Tables {
    var schema := names.schema(r.key.company);
    if NaturalKey(names, r) in At(tables, schema) then tables
    else tables[schema := At(tables, schema)[NaturalKey(names, r) := r]]
  }

  function InsertAll(tables: Tables, names: Names, rows: seq<Reading>): Tables {
    if rows == [] then tables else Insert(InsertAll(tables, names, rows[..|rows| - 1]), names, rows[|rows| - 1])
  }

  function ForCompany(rows: seq<Reading>, c: string): seq<Reading> {
    if rows == [] then []
    else var r := rows[|rows| - 1]; ForCompany(rows[..|rows| - 1], c) + if r.key.company == c then [r] else []
  }

  /** The rows written, tenant after tenant. */
  function InTurn(rows: seq<Reading>, order: seq<string>): seq<Reading> {
    if order == [] then [] else InTurn(rows, order[..|order| - 1]) + ForCompany(rows, order[|order| - 1])
  }

  predicate DistinctNames(order: seq<string>) { forall i, j :: 0 <= i < j < |order| ==> order[i] != order[j] }

  lemma {:induction false} InTurnAppend(rows: seq<Reading>, r: Reading, order: seq<string>)
    requires DistinctNames(order)
    ensures multiset(InTurn(rows + [r], order)) == multiset(InTurn(rows, order)) + if r.key.company in order then multiset{r} else multiset{}
  {
    if order != [] {
      var front, c := order[..|order| - 1], order[|order| - 1];
      InTurnAppend(rows, r, front);
      assert (rows + [r])[..|rows|] == rows;
      assert r.key.company in order <==> r.key.company in front || r.key.company == c;
    } else {
      assert InTurn(rows + [r], order) == [] && InTurn(rows, order) == [];
    }
  }

  /** Written tenant after tenant, every row is written once, if every row's tenant has its turn. */
  lemma {:induction false} InTurnConserves(rows: seq<Reading>, order: seq<string>)
    requires DistinctNames(order) && forall i :: 0 <= i < |rows| ==> rows[i].key.company in order
    ensures multiset(InTurn(rows, order)) == multiset(rows)
  {
    if rows == [] {
      InTurnEmpty(order);
    } else {
      var front, r := rows[..|rows| - 1], rows[|rows| - 1];
      assert rows == front + [r];
      InTurnConserves(front, order);
      InTurnAppend(front, r, order);
    }
  }

  /** Each reading of a batch, as often as it occurs, goes to exactly one place: a dead letter, or the
      turn of its own tenant. */
  lemma EachReadingOnce(db: Database, names: Names, batch: seq<Reading>, order: seq<string>)
    requires DistinctNames(order) && forall r :: r in KeptOf(db, names, batch) ==> r.key.company in order
    ensures multiset(Readings(DeadOf(db, names, batch))) + multiset(InTurn(KeptOf(db, names, batch), order)) == multiset(batch)
  {
    BatchConserved(db, names, batch);
    InTurnConserves(KeptOf(db, names, batch), order);
  }

  lemma {:induction false} InTurnEmpty(order: seq<string>)
    ensures InTurn([], order) == []
  {
    if order != [] { InTurnEmpty(order[..|order| - 1]); }
  }

  /** Each row's natural key ends up in its own tenant's table; no other key appears, nothing there is
      rewritten. */
  lemma {:induction false} InsertAllExactly(tables: Tables, names: Names, rows: seq<Reading>, schema: string, k: (int, string))
    ensures var t := At(InsertAll(tables, names, rows), schema);
      && (k in t <==> k in At(tables, schema) || exists i :: 0 <= i < |rows| && names.schema(rows[i].key.company) == schema && NaturalKey(names, rows[i]) == k)
      && (k in At(tables, schema) ==> k in t && t[k] == At(tables, schema)[k])
  {
    if rows != [] {
      var front, r := rows[..|rows| - 1], rows[|rows| - 1];
      InsertAllExactly(tables, names, front, schema, k);
      assert forall i :: 0 <= i < |front| ==> front[i] == rows[i];
      if names.schema(r.key.company) == schema && NaturalKey(names, r) == k {
        assert rows[|rows| - 1] == r;
      }
    }
  }

  lemma {:induction false} InsertAllSplit(tables: Tables, names: Names, a: seq<Reading>, b: seq<Reading>)
    ensures InsertAll(tables, names, a + b) == InsertAll(InsertAll(tables, names, a), names, b)
  {
    if b == [] {
      assert a + b == a;
    } else {
      assert (a + b)[..|a + b| - 1] == a + b[..|b| - 1];
      InsertAllSplit(tables, names, a, b[..|b| - 1]);
    }
  }

  lemma {:induction false} InsertAgain(tables: Tables, names: Names, rows: seq<Reading>)
    requires forall i :: 0 <= i < |rows| ==> NaturalKey(names, rows[i]) in At(tables, names.schema(rows[i].key.company))
    ensures InsertAll(tables, names, rows) == tables
  {
    if rows != [] { InsertAgain(tables, names, rows[..|rows| - 1]); }
  }

  /** A batch cut off after any of its rows and processed again leaves the tables as one whole pass
      does. */
  lemma RetryAddsNothing(tables: Tables, names: Names, rows: seq<Reading>, k: nat)
    requires k <= |rows|
    ensures InsertAll(InsertAll(tables, names, rows[..k]), names, rows) == InsertAll(tables, names, rows)
  {
    var part, cut := rows[..k], InsertAll(tables, names, rows[..k]);
    assert rows == part + rows[k..];
    InsertAllSplit(tables, names, part, rows[k..]);
    InsertAllSplit(cut, names, part, rows[k..]);
    forall i | 0 <= i < k ensures NaturalKey(names, part[i]) in At(cut, names.schema(part[i].key.company)) {
      InsertAllExactly(tables, names, part, names.schema(part[i].key.company), NaturalKey(names, part[i]));
    }
    InsertAgain(cut, names, part);
  }

  predicate SamePlace(names: Names, a: Reading, b: Reading) {
    names.schema(a.key.company) == names.schema(b.key.company) && NaturalKey(names, a) == NaturalKey(names, b)
  }

  /** A row that is new in a table is one of those inserted there. */
  lemma {:induction false} NewRowsAreInserted(tables: Tables, names: Names, rows: seq<Reading>, schema: string, k: (int, string))
    requires k in At(InsertAll(tables, names, rows), schema) && k !in At(tables, schema)
    ensures var r := At(InsertAll(tables, names, rows), schema)[k];
      r in rows && names.schema(r.key.company) == schema && NaturalKey(names, r) == k
  {
    if rows != [] {
      var front, r := rows[..|rows| - 1], rows[|rows| - 1];
      if k in At(InsertAll(tables, names, front), schema) {
        NewRowsAreInserted(tables, names, front, schema, k);
      }
    }
  }

  /** Whatever rows of the batch were written before it failed, in whatever order the partitions wrote
      them, the retried batch leaves at every natural key what one whole pass leaves there, given that
      rows of one key are the same reading. */
  lemma RetryAfterAnyPart(tables: Tables, names: Names, part: seq<Reading>, rows: seq<Reading>, schema: string, k: (int, string))
    requires forall i :: 0 <= i < |part| ==> part[i] in rows
    requires forall a, b :: a in rows && b in rows && SamePlace(names, a, b) ==> a == b
    ensures var once, again := At(InsertAll(tables, names, rows), schema), At(InsertAll(InsertAll(tables, names, part), names, rows), schema);
      (k in again <==> k in once) && (k in once ==> again[k] == once[k])
  {
    var cut := InsertAll(tables, names, part);
    InsertAllExactly(tables, names, rows, schema, k);
    InsertAllExactly(tables, names, part, schema, k);
    InsertAllExactly(cut, names, rows, schema, k);
    if k in At(InsertAll(tables, names, rows), schema) && k !in At(tables, schema) {
      NewRowsAreInserted(tables, names, rows, schema, k);
      if k in At(cut, schema) {
        NewRowsAreInserted(tables, names, part, schema, k);
      } else {
        NewRowsAreInserted(cut, names, rows, schema, k);
      }
    }
  }

  // ---------------------------------------------------------------- the batch router

  lemma {:induction false} KeepsAll(tags: seq<Tagged>)
    requires forall i :: 0 <= i < |tags| ==> tags[i].reason.None?
    ensures Refused(tags) == [] && Kept(tags) == Untagged(tags)
  {
    if tags != [] {
      KeepsAll(tags[..|tags| - 1]);
      assert Untagged(tags) == Untagged(tags[..|tags| - 1]) + [tags[|tags| - 1].reading];
    }
  }

  lemma JoinNothing(valid: seq<Reading>)
    ensures Refused(Join(valid, [])) == [] && Kept(Join(valid, [])) == valid
  {
    var tags := seq(|valid|, i requires 0 <= i < |valid| => Tagged(valid[i], None));
    FlattenSingles(valid, (r: Reading) => Tags(r, ReasonsFor([], r.key)), tags);
    KeepsAll(tags);
    assert Untagged(tags) == valid;
  }

  predicate TenantReason(reason: Reason) { reason == UnknownTenant || reason == SuspendedTenant }

  /** A tenant refused for one key is refused for all of them. */
  lemma TenantRefused(f: Facts, names: Names, a: Key, b: Key)
    requires a.company == b.company && Refusal(f, names, a).Some? && TenantReason(Refusal(f, names, a).value)
    ensures Refusal(f, names, b).Some?
  {
  }

  lemma {:induction false} ClassifiedIs(f: Facts, names: Names, keys: seq<Key>, e: (Key, Reason))
    ensures e in Classified(f, names, keys) <==> e.0 in keys && Refusal(f, names, e.0) == Some(e.1)
  {
    if keys != [] {
      var front, k := keys[..|keys| - 1], keys[|keys| - 1];
      ClassifiedIs(f, names, front, e);
      assert e.0 in keys <==> e.0 in front || e.0 == k;
    }
  }

  /** Every tenant of a kept reading has its turn. */
  lemma TurnsCover(f: Facts, names: Names, keys: seq<Key>, valid: seq<Reading>, order: seq<string>, r: Reading)
    requires forall i :: 0 <= i < |valid| ==> valid[i].key in keys
    requires r in Kept(Tag(f, names, valid))
    requires (forall e :: e in Classified(f, names, keys) && TenantReason(e.1) ==> e.0.company != r.key.company) ==> r.key.company in order
    ensures r.key.company in order
  {
    KeptIsKept(Tag(f, names, valid), r);
    forall e | e in Classified(f, names, keys) && TenantReason(e.1) ensures e.0.company != r.key.company {
      ClassifiedIs(f, names, keys, e);
      if e.0.company == r.key.company {
        TenantRefused(f, names, e.0, r.key);
      }
    }
  }

  lemma {:induction false} KeptIsKept(tags: seq<Tagged>, r: Reading)
    ensures r in Kept(tags) <==> exists i :: 0 <= i < |tags| && tags[i] == Tagged(r, None)
  {
    if tags != [] {
      var front := tags[..|tags| - 1];
      KeptIsKept(front, r);
      assert forall i :: 0 <= i < |front| ==> front[i] == tags[i];
      assert tags[|tags| - 1] == Tagged(r, None) ==> r in Kept(tags);
    }
  }

  /** The tenants that have their turn: those of the keys, without the refused ones. */
  method Turns(keys: seq<Key>, refused: seq<(Key, Reason)>) returns (order: seq<string>)
    ensures DistinctNames(order)
    ensures forall k :: k in keys && (forall e :: e in refused && TenantReason(e.1) ==> e.0.company != k.company) ==> k.company in order
  {
    var out := set e | e in refused && TenantReason(e.1) :: e.0.company;
    order := [];
    for i := 0 to |keys|
      invariant DistinctNames(order)
      invariant forall k :: k in keys[..i] && k.company !in out ==> k.company in order
    {
      assert keys[..i + 1] == keys[..i] + [keys[i]];
      if keys[i].company !in out && keys[i].company !in order {
        order := order + [keys[i].company];
      }
    }
    assert keys[..|keys|] == keys;
  }

  /** The dead-letter topic and the tenants' tables, which fail after `calls` more writes. */
  class Sinks {
    var dead: seq<(Reading, Reason)>
    var tables: Tables
    var calls: nat

    constructor (calls: nat)
      ensures dead == [] && tables == map[] && this.calls == calls
    {
      dead, tables, this.calls := [], map[], calls;
    }

    method Publish(rejected: seq<(Reading, Reason)>) returns (up: bool)
      modifies this
      ensures tables == old(tables) && dead == if up then old(dead) + rejected else old(dead)
      ensures up == (old(calls) > 0) && calls == if up then old(calls) - 1 else 0
    {
      up := calls > 0;
      if up { calls, dead := calls - 1, dead + rejected; }
    }

    /** Writes rows in order until one fails. */
    method Upsert(names: Names, rows: seq<Reading>) returns (n: nat)
      modifies this
      ensures n == Min(|rows|, old(calls)) && calls == old(calls) - n
      ensures dead == old(dead) && tables == InsertAll(old(tables), names, rows[..n])
    {
      n := 0;
      while n < |rows|
        invariant n <= |rows| && calls + n == old(calls) && dead == old(dead) && tables == InsertAll(old(tables), names, rows[..n])
      {
        if calls == 0 { return; }
        calls := calls - 1;
        assert rows[..n + 1][..n] == rows[..n];
        tables := Insert(tables, names, rows[n]);
        n := n + 1;
      }
    }

    /** Writes each tenant's rows in turn; cut off, it has written a first part of them. */
    method UpsertInTurn(names: Names, kept: seq<Reading>, order: seq<string>) returns (ok: bool, ghost n: nat)
      modifies this
      ensures n == Min(|InTurn(kept, order)|, old(calls)) && dead == old(dead) && (ok <==> old(calls) >= |InTurn(kept, order)|)
      ensures tables == InsertAll(old(tables), names, InTurn(kept, order)[..n])
    {
      n := 0;
      for i := 0 to |order|
        invariant n == |InTurn(kept, order[..i])| && calls + n == old(calls) && dead == old(dead)
        invariant tables == InsertAll(old(tables), names, InTurn(kept, order[..i]))
      {
        var rows := ForCompany(kept, order[i]);
        assert order[..i + 1][..i] == order[..i];
        var m := Upsert(names, rows);
        InsertAllSplit(old(tables), names, InTurn(kept, order[..i]), rows[..m]);
        if m < |rows| {
          n := n + m;
          InTurnPrefix(kept, order, i + 1);
          assert InTurn(kept, order)[..n] == InTurn(kept, order[..i]) + rows[..m];
          return false, n;
        }
        assert rows[..m] == rows;
        n := n + m;
      }
      assert order[..|order|] == order;
      assert InTurn(kept, order)[..n] == InTurn(kept, order);
      ok := true;
    }

    /** Dead-letters what cannot be written, then writes the rest to its own tenants. It gets through
        exactly when the sinks answer one publication, if there is anything to publish, and one write per
        kept reading; cut off, it has published all of the dead letters and written a first part of the
        rows, or done nothing. */
    method ProcessBatch(db: Database, names: Names, batch: seq<Reading>) returns (ok: bool, order: seq<string>, ghost n: nat)
      modifies this
      ensures DistinctNames(order) && forall r :: r in KeptOf(db, names, batch) ==> r.key.company in order
      ensures ok <==> old(calls) >= Publications(db, names, batch) + |KeptOf(db, names, batch)|
      ensures n == if old(calls) < Publications(db, names, batch) then 0
                   else Min(|InTurn(KeptOf(db, names, batch), order)|, old(calls) - Publications(db, names, batch))
      ensures tables == InsertAll(old(tables), names, InTurn(KeptOf(db, names, batch), order)[..n])
      ensures dead == old(dead) + if old(calls) < Publications(db, names, batch) then [] else DeadOf(db, names, batch)
    {
      n := 0;
      var rejected, kept;
      rejected, kept, order := Route(db, names, batch);
      InTurnLength(kept, order);
      if rejected != [] {
        var up := Publish(rejected);
        if !up { ok := false; return; }
      }
      ok, n := UpsertInTurn(names, kept, order);
    }
  }

  function Min(a: nat, b: nat): nat { if a < b then a else b }

  function Publications(db: Database, names: Names, batch: seq<Reading>): nat { if DeadOf(db, names, batch) == [] then 0 else 1 }

  lemma InTurnLength(rows: seq<Reading>, order: seq<string>)
    requires DistinctNames(order) && forall r :: r in rows ==> r.key.company in order
    ensures |InTurn(rows, order)| == |rows|
  {
    InTurnConserves(rows, order);
    assert |multiset(InTurn(rows, order))| == |InTurn(rows, order)| && |multiset(rows)| == |rows|;
  }

  /** Sends each reading of a batch to the dead letters, with the one reason the database itself gives,
      or to its tenant's turn. */
  method Route(db: Database, names: Names, batch: seq<Reading>) returns (rejected: seq<(Reading, Reason)>, kept: seq<Reading>, order: seq<string>)
    ensures rejected == DeadOf(db, names, batch) && kept == KeptOf(db, names, batch)
    ensures DistinctNames(order) && forall r :: r in kept ==> r.key.company in order
  {
    rejected, kept := Refused(ByReject(batch)), Kept(ByReject(batch));
    var keys := KeysOf(kept);
    KeysDistinct(kept);
    var f := LookupReferences(db, names, keys);
    var refused := ClassifyReferences(f, names, keys);
    order := Turns(keys, refused);
    RoutedByFacts(db, names, f, keys, kept);
    forall r | r in Kept(Tag(f, names, kept)) ensures r.key.company in order {
      KeptIsKept(Tag(f, names, kept), r);
      TurnsCover(f, names, keys, kept, order, r);
    }
    if refused != [] {
      var tagged := Join(kept, refused);
      rejected, kept := rejected + Refused(tagged), Kept(tagged);
    }
  }

  /** The join on the facts of the batch tags each reading as the database itself would. */
  lemma RoutedByFacts(db: Database, names: Names, f: Facts, keys: seq<Key>, valid: seq<Reading>)
    requires DistinctKeys(keys) && forall i :: 0 <= i < |valid| ==> valid[i].key in keys
    requires forall k :: k in keys ==> Refusal(f, names, k) == Decide(db, names, k)
    ensures var refused := Classified(f, names, keys); var tags := Tag(f, names, valid);
      && tags == DbTags(db, names, valid) && Join(valid, refused) == tags
      && (refused == [] ==> Refused(tags) == [] && Kept(tags) == valid)
  {
    JoinTags(f, names, keys, valid);
    JoinNothing(valid);
    assert Tag(f, names, valid) == DbTags(db, names, valid);
  }

  lemma {:induction false} InTurnPrefix(rows: seq<Reading>, order: seq<string>, i: nat)
    requires i <= |order|
    ensures InTurn(rows, order[..i]) <= InTurn(rows, order)
  {
    if i == |order| {
      assert order[..i] == order;
    } else {
      InTurnPrefix(rows, order[..|order| - 1], i);
      assert order[..|order| - 1][..i] == order[..i];
    }
  }

  // ---------------------------------------------------------------- the aggregation writer

  /** What the aggregation writer keeps of one tenant's rows, asking for that tenant's facts alone: it
      excludes exactly the keys the streaming job dead-letters. */
  method ExcludeRefused(db: Database, names: Names, company: string, rows: seq<Reading>) returns (kept: seq<Reading>)
    requires forall i :: 0 <= i < |rows| ==> rows[i].key.company == company
    ensures kept == Kept(DbTags(db, names, rows))
  {
    var keys := KeysOf(rows);
    KeysDistinct(rows);
    var f := TenantFacts(db, names, company, keys);
    var refused := ClassifyReferences(f, names, keys);
    var out := set e | e in refused :: e.0;
    kept := [];
    for i := 0 to |rows|
      invariant kept == Kept(DbTags(db, names, rows[..i]))
    {
      OutExactly(f, names, keys, rows[i].key, out);
      KeptAppend(db, names, rows, i);
      if rows[i].key !in out { kept := kept + [rows[i]]; }
    }
    assert rows[..|rows|] == rows;
  }

  /** One tenant's facts for its keys decide them as the database does. */
  method TenantFacts(db: Database, names: Names, company: string, keys: seq<Key>) returns (f: Facts)
    ensures forall k :: k in keys && k.company == company ==> Refusal(f, names, k) == Decide(db, names, k)
  {
    var sensors, equipment := set k | k in keys :: names.canonical(k.sensor), set k | k in keys :: names.canonical(k.equipment);
    ghost var ids: Asked := map[company := (sensors, equipment)];
    var (refusal, ss, es) := ReadTenant(db, names.schema(company), sensors, equipment);
    f := Facts(map[company := refusal], map[company := ss], map[company := es]);
    assert HasRead(db, names, ids, f, company);
    forall k | k in keys && k.company == company ensures Refusal(f, names, k) == Decide(db, names, k) {
      ReadDecides(db, names, ids, f, k);
    }
  }

  lemma KeptAppend(db: Database, names: Names, rows: seq<Reading>, i: nat)
    requires i < |rows|
    ensures Kept(DbTags(db, names, rows[..i + 1])) ==
      Kept(DbTags(db, names, rows[..i])) + if Decide(db, names, rows[i].key).None? then [rows[i]] else []
  {
    var tags := DbTags(db, names, rows[..i]);
    assert DbTags(db, names, rows[..i + 1]) == tags + [Tagged(rows[i], Decide(db, names, rows[i].key))];
    assert (tags + [Tagged(rows[i], Decide(db, names, rows[i].key))])[..|tags|] == tags;
  }

  lemma OutExactly(f: Facts, names: Names, keys: seq<Key>, k: Key, out: set<Key>)
    requires k in keys && out == set e | e in Classified(f, names, keys) :: e.0
    ensures k in out <==> Refusal(f, names, k).Some?
  {
    if Refusal(f, names, k).Some? {
      ClassifiedIs(f, names, keys, (k, Refusal(f, names, k).value));
    }
    if k in out {
      var e :| e in Classified(f, names, keys) && e.0 == k;
      ClassifiedIs(f, names, keys, e);
    }
  }
}
