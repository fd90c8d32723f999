/** The cold-layer export of one tenant day as a state machine (services/cold_export/exporter.py,
    services/cold_export/source.py). Every event is one atomic store or database call of the
    exporter, one insert by the stream writer, or a crash of the run. */
module ColdExport {
  import opened ColdNaming

  /** The natural key of a measurement, and the rest of its row. */
  datatype Key = Key(time: int, sensorId: string)
  datatype Reading = Reading(equipmentId: string, siteId: string, value: real, unit: string, qualityCode: int)
  datatype Row = Row(key: Key, reading: Reading)
  type Rows = map<Key, Reading>
  type Files = map<FileName, Rows>

  datatype Entry = Entry(file: FileName, rows: int)
  datatype Manifest = Absent | Legacy(rows: int) | Listed(parts: seq<Entry>)

  /** Where the exporter stands between two calls, with the locals it holds there. */
  datatype Pc =
    | Idle
    | Opened(manifest: Manifest)
    | Checking(parts: seq<Entry>, pending: bool, next: nat)
    | Resuming(last: Entry)
    | Joining(base: seq<Entry>, snap: Rows, archived: set<Key>, next: nat)
    | Writing(base: seq<Entry>, snap: Rows, novel: Rows)
    | Verifying(base: seq<Entry>, snap: Rows, novel: Rows, reported: int)
    | Listing(after: seq<Entry>, part: FileName, snap: Rows)
    | Dropping(part: FileName, snap: Rows)

  /** `ingested` is history: every row the hot table ever took in for this day. */
  datatype Day = Day(hot: Rows, files: Files, manifest: Manifest, drops: set<FileName>, ingested: set<Row>, pc: Pc)

  /** A write keeps the rows in `kept` only, and the writer claims to have emitted `reported`. */
  datatype Event =
    | Insert(key: Key, reading: Reading)
    | Advance(kept: set<Key>, reported: int)
    | Crash

  // ---------------------------------------------------------------- what the exporter computes

  function ManifestParts(m: Manifest): seq<Entry> {
    match m
    case Absent => []
    case Legacy(rows) => [Entry(Part(0), rows)]
    case Listed(parts) => parts
  }

  predicate IsPending(m: Manifest, drops: set<FileName>) {
    var parts := ManifestParts(m);
    |parts| > 0 && !m.Legacy? && parts[|parts| - 1].file !in drops
  }

  function CommittedOf(parts: seq<Entry>, pending: bool): seq<Entry> {
    if pending && |parts| > 0 then parts[..|parts| - 1] else parts
  }

  predicate PartMatches(files: Files, e: Entry) {
    e.file in files && |files[e.file]| == e.rows
  }

  function Kept(rows: Rows, kept: set<Key>): Rows {
    map k | k in rows && k in kept :: rows[k]
  }

  // ---------------------------------------------------------------- the steps

  function Step(s: Day, e: Event): Day {
    match e
    case Insert(k, r) =>
      if k in s.hot then s else s.(hot := s.hot[k := r], ingested := s.ingested + {Row(k, r)})
    case Advance(kept, reported) => Proceed(s, kept, reported)
    case Crash => s.(pc := Idle)
  }

  function Proceed(s: Day, kept: set<Key>, reported: int): Day {
    match s.pc
    case Idle => s.(pc := Opened(s.manifest))
    case Opened(m) => s.(pc := Checking(ManifestParts(m), IsPending(m, s.drops), 0))
    case Checking(parts, pending, next) =>
      var base := CommittedOf(parts, pending);
      if next < |base| then
        s.(pc := if PartMatches(s.files, base[next]) then Checking(parts, pending, next + 1) else Idle)
      else if |s.hot| == 0 then
        s.(pc := if pending && |parts| > 0 then Resuming(parts[|parts| - 1]) else Idle)
      else
        s.(pc := Joining(base, s.hot, {}, 0))
    case Resuming(last) =>
      s.(pc := if PartMatches(s.files, last) then Dropping(last.file, map[]) else Idle)
    case Joining(base, snap, archived, next) =>
      if next < |base| then
        if base[next].file in s.files then
          s.(pc := Joining(base, snap, archived + s.files[base[next].file].Keys, next + 1))
        else s.(pc := Idle)
      else s.(pc := Writing(base, snap, snap - archived))
    case Writing(base, snap, novel) =>
      if |novel| > 0 then
        s.(files := s.files[Part(|base|) := Kept(novel, kept)], pc := Verifying(base, snap, novel, reported))
      else if |base| > 0 then
        s.(pc := Listing(base, base[|base| - 1].file, snap))
      else s.(pc := Idle)
    case Verifying(base, snap, novel, claimed) =>
      var entry := Entry(Part(|base|), |novel|);
      s.(pc := if claimed == |novel| && PartMatches(s.files, entry)
               then Listing(base + [entry], entry.file, snap) else Idle)
    case Listing(after, part, snap) => s.(manifest := Listed(after), pc := Dropping(part, snap))
    case Dropping(part, snap) =>
      if DropAccepts(part) && s.hot == snap
      then s.(hot := map[], drops := s.drops + {part}, pc := Idle)
      else s.(pc := Idle)
  }

  function Run(s: Day, es: seq<Event>): Day {
    if es == [] then s else Step(Run(s, es[..|es| - 1]), es[|es| - 1])
  }

  // ---------------------------------------------------------------- the invariant

  function Parts(s: Day): seq<Entry> { ManifestParts(s.manifest) }
  predicate Pending(s: Day) { IsPending(s.manifest, s.drops) }
  function Committed(s: Day): seq<Entry> { CommittedOf(Parts(s), Pending(s)) }

  predicate Holds(files: Files, f: FileName, k: Key) { f in files && k in files[f] }

  ghost predicate InParts(files: Files, es: seq<Entry>, k: Key) {
    exists i :: 0 <= i < |es| && Holds(files, es[i].file, k)
  }

  predicate Within(a: Rows, b: Rows) { forall k :: k in a ==> k in b && a[k] == b[k] }

  /** Entry i is named part i and its file is there. */
  ghost predicate Named(s: Day) {
    forall i :: 0 <= i < |Parts(s)| ==> Parts(s)[i].file == Part(i) && Parts(s)[i].file in s.files
  }

  /** A committed part holds as many rows as the manifest says. */
  ghost predicate Counted(s: Day) {
    forall i :: 0 <= i < |Committed(s)| ==> PartMatches(s.files, Parts(s)[i])
  }

  /** Files are numbered without gaps, and only listed parts have drop records. */
  ghost predicate Numbered(s: Day) {
    && (forall i: nat, j: nat :: j < i && Part(i) in s.files ==> Part(j) in s.files)
    && (forall i: nat :: Part(i) in s.drops ==> i < |Parts(s)|)
  }

  ghost predicate Shape(s: Day) {
    && Named(s) && Counted(s) && Numbered(s)
    && (s.manifest.Listed? ==> |Parts(s)| > 0)
    && (s.manifest.Legacy? ==> s.drops == {})
  }

  ghost predicate Disjoint(s: Day) {
    var parts := Parts(s);
    forall i, j, k :: 0 <= i < j < |parts| && Holds(s.files, parts[i].file, k) ==> !Holds(s.files, parts[j].file, k)
  }

  /** Every key ever ingested is in the hot table or in a committed part. */
  ghost predicate Covered(s: Day) {
    forall r :: r in s.ingested ==> r.key in s.hot || InParts(s.files, Committed(s), r.key)
  }

  /** Hot and listed rows are rows that were ingested. */
  ghost predicate Sourced(s: Day) {
    && (forall k :: k in s.hot ==> Row(k, s.hot[k]) in s.ingested)
    && (forall i, k :: 0 <= i < |Parts(s)| && Holds(s.files, Parts(s)[i].file, k) ==>
          Row(k, s.files[Parts(s)[i].file][k]) in s.ingested)
  }

  /** The key that keeps a snapshot from being wholly archived while a part is pending. */
  ghost predicate HasFresh(s: Day, rows: Rows) {
    exists k :: k in rows && !InParts(s.files, Committed(s), k)
  }

  ghost predicate PendingIsHot(s: Day) {
    Pending(s) ==>
      && (forall k :: Holds(s.files, Parts(s)[|Parts(s)| - 1].file, k) ==> k in s.hot)
      && HasFresh(s, s.hot)
  }

  /** A legacy manifest is safe to export over: its file's rows are all hot, or the hot table holds a
      row the file lacks, or nothing can come back in a way that leaves part of the file out. */
  ghost predicate LegacySafe(s: Day) {
    s.manifest.Legacy? && Part(0) in s.files ==>
      var f := s.files[Part(0)];
      f.Keys <= s.hot.Keys || !(s.hot.Keys <= f.Keys) || (|s.hot| == 0 && |f| <= 1)
  }

  ghost predicate LegacySnap(s: Day, snap: Rows) {
    s.manifest.Legacy? && Part(0) in s.files ==>
      s.files[Part(0)].Keys <= snap.Keys || !(snap.Keys <= s.files[Part(0)].Keys)
  }

  ghost predicate Snapped(s: Day, base: seq<Entry>, snap: Rows) {
    && base == Committed(s)
    && |snap| > 0
    && Within(snap, s.hot)
    && (Pending(s) ==> HasFresh(s, snap))
    && LegacySnap(s, snap)
  }

  ghost predicate IsFresh(s: Day, snap: Rows, novel: Rows) {
    && (forall k :: k in novel <==> k in snap && !InParts(s.files, Committed(s), k))
    && Within(novel, snap)
  }

  ghost predicate PcInv(s: Day) {
    match s.pc
    case Idle => true
    case Opened(m) => m == s.manifest
    case Checking(parts, pending, next) => parts == Parts(s) && pending == Pending(s) && next <= |Committed(s)|
    case Resuming(last) => Pending(s) && last == Parts(s)[|Parts(s)| - 1]
    case Joining(base, snap, archived, next) =>
      Snapped(s, base, snap) && next <= |base| && forall k :: k in archived <==> InParts(s.files, base[..next], k)
    case Writing(base, snap, novel) => Snapped(s, base, snap) && IsFresh(s, snap, novel)
    case Verifying(base, snap, novel, reported) =>
      && Snapped(s, base, snap) && IsFresh(s, snap, novel) && |novel| > 0
      && Part(|base|) in s.files && Within(s.files[Part(|base|)], novel)
    case Listing(after, part, snap) => Within(snap, s.hot) && |snap| > 0 && (ListsNew(s) || ListsOld(s))
    case Dropping(part, snap) =>
      && s.manifest.Listed? && |Parts(s)| > 0
      && part == Parts(s)[|Parts(s)| - 1].file
      && PartMatches(s.files, Parts(s)[|Parts(s)| - 1])
      && forall k :: k in snap ==> InParts(s.files, Parts(s), k)
  }

  ghost predicate ListsNew(s: Day)
    requires s.pc.Listing?
  {
    var base := Committed(s);
    && s.pc.part == Part(|base|) && s.pc.part in s.files
    && |s.files[s.pc.part]| > 0
    && s.pc.after == base + [Entry(s.pc.part, |s.files[s.pc.part]|)]
    && IsFresh(s, s.pc.snap, s.files[s.pc.part])
  }

  ghost predicate ListsOld(s: Day)
    requires s.pc.Listing?
  {
    var base := Committed(s);
    && !Pending(s) && |base| > 0 && s.pc.after == base && s.pc.part == base[|base| - 1].file
    && (forall k :: k in s.pc.snap ==> InParts(s.files, base, k))
    && (s.manifest.Legacy? && Part(0) in s.files ==> s.files[Part(0)].Keys <= s.pc.snap.Keys)
  }

  /** The part of the invariant that does not speak of the exporter's locals. */
  ghost predicate StoreInv(s: Day) {
    Shape(s) && Disjoint(s) && Covered(s) && Sourced(s) && PendingIsHot(s) && LegacySafe(s)
  }

  ghost predicate Inv(s: Day) { StoreInv(s) && PcInv(s) }

  // ---------------------------------------------------------------- every step keeps it

  lemma SingleKey(f: Rows, k: Key)
    requires |f| <= 1 && k in f
    ensures f.Keys == {k}
  {
    assert |f.Keys - {k}| == |f.Keys| - 1;
  }

  lemma InsertKeepsLegacy(s: Day, k: Key, r: Reading)
    requires LegacySafe(s) && k !in s.hot
    ensures LegacySafe(s.(hot := s.hot[k := r], ingested := s.ingested + {Row(k, r)}))
  {
    var hot := s.hot[k := r];
    if s.manifest.Legacy? && Part(0) in s.files {
      var f := s.files[Part(0)];
      assert hot.Keys == s.hot.Keys + {k};
      if |s.hot| == 0 && |f| <= 1 && k in f { SingleKey(f, k); }
    }
  }

  lemma InsertKeepsData(s: Day, k: Key, r: Reading)
    requires Shape(s) && Disjoint(s) && Covered(s) && Sourced(s) && PendingIsHot(s) && k !in s.hot
    ensures var t := s.(hot := s.hot[k := r], ingested := s.ingested + {Row(k, r)});
      Shape(t) && Disjoint(t) && Covered(t) && Sourced(t) && PendingIsHot(t)
  {
    var t := s.(hot := s.hot[k := r], ingested := s.ingested + {Row(k, r)});
    assert Committed(t) == Committed(s) && Parts(t) == Parts(s);
    if Pending(s) {
      var x :| x in s.hot && !InParts(s.files, Committed(s), x);
      assert x in t.hot && !InParts(t.files, Committed(t), x);
    }
  }

  lemma InsertKeepsPc(s: Day, k: Key, r: Reading)
    requires PcInv(s) && k !in s.hot
    ensures PcInv(s.(hot := s.hot[k := r], ingested := s.ingested + {Row(k, r)}))
  {
    var t := s.(hot := s.hot[k := r], ingested := s.ingested + {Row(k, r)});
    assert Committed(t) == Committed(s) && Parts(t) == Parts(s);
    match s.pc {
      case Joining(base, snap, archived, next) => SnappedFrame(s, t, base, snap);
      case Writing(base, snap, novel) => SnappedFrame(s, t, base, snap); assert IsFresh(t, snap, novel);
      case Verifying(base, snap, novel, _) => SnappedFrame(s, t, base, snap); assert IsFresh(t, snap, novel);
      case Listing(_, _, snap) => ListingFrame(s, t);
      case _ =>
    }
  }

  lemma ListingFrame(s: Day, t: Day)
    requires s.pc.Listing? && PcInv(s)
    requires t.pc == s.pc && t.files == s.files && t.manifest == s.manifest && t.drops == s.drops && Within(s.hot, t.hot)
    ensures PcInv(t)
  {
    assert Committed(t) == Committed(s);
    if ListsNew(s) {
      assert IsFresh(t, s.pc.snap, t.files[t.pc.part]);
      assert ListsNew(t);
    } else {
      assert ListsOld(t);
    }
  }

  lemma SnappedFrame(s: Day, t: Day, base: seq<Entry>, snap: Rows)
    requires Snapped(s, base, snap)
    requires t.files == s.files && t.manifest == s.manifest && t.drops == s.drops && Within(s.hot, t.hot)
    ensures Snapped(t, base, snap)
  {
    if Pending(s) {
      var x :| x in snap && !InParts(s.files, Committed(s), x);
      assert x in snap && !InParts(t.files, Committed(t), x);
    }
  }

  lemma InsertKeeps(s: Day, k: Key, r: Reading)
    requires Inv(s)
    ensures Inv(Step(s, Insert(k, r)))
  {
    if k !in s.hot {
      InsertKeepsLegacy(s, k, r);
      InsertKeepsData(s, k, r);
      InsertKeepsPc(s, k, r);
    }
  }

  lemma PcOnlyKeeps(s: Day, pc: Pc)
    requires StoreInv(s)
    ensures StoreInv(s.(pc := pc))
  {
    var t := s.(pc := pc);
    assert Committed(t) == Committed(s) && Parts(t) == Parts(s);
    if Pending(s) {
      var x :| x in s.hot && !InParts(s.files, Committed(s), x);
      assert x in t.hot && !InParts(t.files, Committed(t), x);
    }
  }

  predicate OnlyReads(pc: Pc) {
    pc.Idle? || pc.Opened? || pc.Checking? || pc.Resuming? || pc.Joining? || pc.Verifying? || (pc.Writing? && |pc.novel| == 0)
  }

  /** The steps that only read: nothing but the exporter's locals change. */
  lemma ReadsOnly(s: Day, kept: set<Key>, reported: int)
    requires OnlyReads(s.pc)
    ensures var t := Proceed(s, kept, reported); t == s.(pc := t.pc)
  {
  }

  lemma ReadingKeepsPc(s: Day, kept: set<Key>, reported: int)
    requires PcInv(s) && (s.pc.Idle? || s.pc.Opened? || s.pc.Resuming?)
    ensures PcInv(Proceed(s, kept, reported))
  {
  }

  lemma CheckingKeepsPc(s: Day, kept: set<Key>, reported: int)
    requires PcInv(s) && PendingIsHot(s) && LegacySafe(s) && s.pc.Checking?
    ensures PcInv(Proceed(s, kept, reported))
  {
    var t := Proceed(s, kept, reported);
    ReadsOnly(s, kept, reported);
    if t.pc.Joining? {
      assert t.pc.base[..0] == [];
      SnapsHot(s, t);
    }
  }

  lemma SnapsHot(s: Day, t: Day)
    requires PendingIsHot(s) && LegacySafe(s) && |s.hot| > 0 && t == s.(pc := t.pc)
    ensures Snapped(t, Committed(s), s.hot)
  {
    assert Committed(t) == Committed(s) && Pending(t) == Pending(s);
    if Pending(s) {
      var x :| x in s.hot && !InParts(s.files, Committed(s), x);
      assert x in s.hot && !InParts(t.files, Committed(t), x);
    }
  }

  lemma InPartsNext(files: Files, base: seq<Entry>, next: nat, k: Key)
    requires next < |base|
    ensures InParts(files, base[..next + 1], k) <==> InParts(files, base[..next], k) || Holds(files, base[next].file, k)
  {
    var upTo := base[..next + 1];
    if InParts(files, upTo, k) {
      var i :| 0 <= i < |upTo| && Holds(files, upTo[i].file, k);
      if i < next { assert Holds(files, base[..next][i].file, k); }
    }
    if InParts(files, base[..next], k) {
      var i :| 0 <= i < next && Holds(files, base[..next][i].file, k);
      assert Holds(files, upTo[i].file, k);
    }
    if Holds(files, base[next].file, k) { assert Holds(files, upTo[next].file, k); }
  }

  lemma JoiningKeepsPc(s: Day, kept: set<Key>, reported: int)
    requires PcInv(s) && s.pc.Joining?
    ensures PcInv(Proceed(s, kept, reported))
  {
    var t := Proceed(s, kept, reported);
    var Joining(base, snap, archived, next) := s.pc;
    ReadsOnly(s, kept, reported);
    SnappedFrame(s, t, base, snap);
    if next == |base| {
      assert base[..next] == base;
      assert IsFresh(t, snap, snap - archived);
    } else if t.pc.Joining? {
      forall k ensures k in t.pc.archived <==> InParts(t.files, base[..next + 1], k) {
        InPartsNext(s.files, base, next, k);
      }
    }
  }

  /** The part about to be written is never one of the committed parts, and never a recorded one. */
  lemma NextPartIsFree(s: Day)
    requires Shape(s)
    ensures var part := Part(|Committed(s)|);
      && part !in s.drops
      && (forall i :: 0 <= i < |Committed(s)| ==> Parts(s)[i].file != part)
      && (forall i :: 0 <= i < |Parts(s)| && Parts(s)[i].file == part ==> Pending(s) && i == |Parts(s)| - 1)
  {
    var n := |Committed(s)|;
    forall i | 0 <= i < |Parts(s)| && Parts(s)[i].file == Part(n) ensures i == n {
    }
  }

  lemma CommittedUntouched(s: Day, t: Day, k: Key)
    requires Committed(t) == Committed(s)
    requires forall i :: 0 <= i < |Committed(s)| ==>
      (Committed(s)[i].file in t.files <==> Committed(s)[i].file in s.files) &&
      (Committed(s)[i].file in s.files ==> t.files[Committed(s)[i].file] == s.files[Committed(s)[i].file])
    ensures InParts(t.files, Committed(t), k) <==> InParts(s.files, Committed(s), k)
  {
    if InParts(s.files, Committed(s), k) {
      var i :| 0 <= i < |Committed(s)| && Holds(s.files, Committed(s)[i].file, k);
      assert Holds(t.files, Committed(t)[i].file, k);
    }
    if InParts(t.files, Committed(t), k) {
      var i :| 0 <= i < |Committed(s)| && Holds(t.files, Committed(t)[i].file, k);
      assert Holds(s.files, Committed(s)[i].file, k);
    }
  }

  /** A write puts `rows`, all of them novel, under the next free name. */
  ghost predicate Wrote(s: Day, t: Day, rows: Rows)
    requires s.pc.Writing?
  {
    && t.hot == s.hot && t.manifest == s.manifest && t.drops == s.drops && t.ingested == s.ingested
    && t.files == s.files[Part(|s.pc.base|) := rows] && Within(rows, s.pc.novel)
    && t.pc.Verifying? && (t.pc.base, t.pc.snap, t.pc.novel) == (s.pc.base, s.pc.snap, s.pc.novel)
  }

  lemma WriteIs(s: Day, kept: set<Key>, reported: int)
    requires s.pc.Writing? && |s.pc.novel| > 0
    ensures Wrote(s, Proceed(s, kept, reported), Kept(s.pc.novel, kept))
  {
  }

  lemma WritingKeeps(s: Day, kept: set<Key>, reported: int)
    requires Inv(s) && s.pc.Writing? && |s.pc.novel| > 0
    ensures Inv(Proceed(s, kept, reported))
  {
    WriteIs(s, kept, reported);
    WrittenKeeps(s, Proceed(s, kept, reported), Kept(s.pc.novel, kept));
  }

  lemma WrittenKeeps(s: Day, t: Day, rows: Rows)
    requires Inv(s) && s.pc.Writing? && |s.pc.novel| > 0 && Wrote(s, t, rows)
    ensures Inv(t)
  {
    WriteUntouched(s, t, rows);
    WriteKeepsShape(s, t, rows);
    WriteKeepsLegacy(s, t, rows);
    WriteKeepsDisjoint(s, t, rows);
    WriteKeepsRows(s, t, rows);
    WriteKeepsPc(s, t, rows);
  }

  lemma NothingNovelIs(s: Day, kept: set<Key>, reported: int)
    requires s.pc.Writing? && |s.pc.novel| == 0
    ensures var base := s.pc.base;
      Proceed(s, kept, reported) == s.(pc := if |base| > 0 then Listing(base, base[|base| - 1].file, s.pc.snap) else Idle)
  {
  }

  lemma NothingNovelKeepsPc(s: Day, kept: set<Key>, reported: int)
    requires Named(s) && s.pc.Writing? && |s.pc.novel| == 0
    requires Snapped(s, s.pc.base, s.pc.snap) && IsFresh(s, s.pc.snap, s.pc.novel)
    ensures PcInv(Proceed(s, kept, reported))
  {
    NothingNovelIs(s, kept, reported);
    AllArchived(s, s.pc.snap, s.pc.novel);
    if |s.pc.base| > 0 { ListsArchived(s, Proceed(s, kept, reported), s.pc.base, s.pc.snap); }
  }

  lemma ListsArchived(s: Day, t: Day, base: seq<Entry>, snap: Rows)
    requires base == Committed(s) && |base| > 0 && !Pending(s) && |snap| > 0 && Within(snap, s.hot)
    requires t == s.(pc := Listing(base, base[|base| - 1].file, snap))
    requires forall k :: k in snap ==> InParts(s.files, base, k)
    requires s.manifest.Legacy? && Part(0) in s.files ==> s.files[Part(0)].Keys <= snap.Keys
    ensures PcInv(t)
  {
    assert Committed(t) == base && Pending(t) == Pending(s);
    assert ListsOld(t);
  }

  lemma AllArchived(s: Day, snap: Rows, novel: Rows)
    requires Named(s) && Snapped(s, Committed(s), snap) && IsFresh(s, snap, novel) && |novel| == 0
    ensures !Pending(s)
    ensures forall k :: k in snap ==> InParts(s.files, Committed(s), k)
    ensures s.manifest.Legacy? ==> s.files[Part(0)].Keys <= snap.Keys
  {
    assert novel == map[];
    if s.manifest.Legacy? {
      forall k | k in snap ensures k in s.files[Part(0)] {
        var i :| 0 <= i < |Committed(s)| && Holds(s.files, Committed(s)[i].file, k);
      }
    }
  }

  lemma WriteUntouched(s: Day, t: Day, rows: Rows)
    requires Shape(s) && s.pc.Writing? && s.pc.base == Committed(s) && Wrote(s, t, rows)
    ensures Committed(t) == Committed(s) && Parts(t) == Parts(s) && Pending(t) == Pending(s)
    ensures forall k :: InParts(t.files, Committed(s), k) <==> InParts(s.files, Committed(s), k)
  {
    NextPartIsFree(s);
    forall k ensures InParts(t.files, Committed(s), k) <==> InParts(s.files, Committed(s), k) {
      CommittedUntouched(s, t, k);
    }
  }

  lemma WriteKeepsShape(s: Day, t: Day, rows: Rows)
    requires Shape(s) && s.pc.Writing? && s.pc.base == Committed(s) && Wrote(s, t, rows)
    requires Committed(t) == Committed(s) && Parts(t) == Parts(s)
    ensures Shape(t)
  {
    NextPartIsFree(s);
    WriteKeepsNumbers(s, t, rows);
  }

  lemma WriteKeepsNumbers(s: Day, t: Day, rows: Rows)
    requires Named(s) && Numbered(s) && s.pc.Writing? && s.pc.base == Committed(s) && Wrote(s, t, rows)
    ensures Numbered(t)
  {
    forall i: nat, j: nat | j < i && Part(i) in t.files ensures Part(j) in t.files {
      if Part(i) !in s.files {
        assert Parts(s)[j].file == Part(j);
      }
    }
    assert Parts(t) == Parts(s);
  }

  lemma WriteKeepsLegacy(s: Day, t: Day, rows: Rows)
    requires Shape(s) && LegacySafe(s) && s.pc.Writing? && s.pc.base == Committed(s) && Wrote(s, t, rows)
    ensures LegacySafe(t)
  {
    NextPartIsFree(s);
    if s.manifest.Legacy? { assert Committed(s)[0].file == Part(0); }
  }

  lemma WriteKeepsDisjoint(s: Day, t: Day, rows: Rows)
    requires Shape(s) && Disjoint(s) && s.pc.Writing? && s.pc.base == Committed(s) && Wrote(s, t, rows)
    requires IsFresh(s, s.pc.snap, s.pc.novel) && Parts(t) == Parts(s)
    ensures Disjoint(t)
  {
    var part, parts := Part(|Committed(s)|), Parts(s);
    NextPartIsFree(s);
    forall i, j, k | 0 <= i < j < |parts| && Holds(t.files, parts[i].file, k) ensures !Holds(t.files, parts[j].file, k) {
      assert parts[i].file != part;
      assert Holds(s.files, parts[i].file, k);
      if parts[j].file == part {
        assert Committed(s)[i] == parts[i];
        assert InParts(s.files, Committed(s), k);
      } else {
        assert !Holds(s.files, parts[j].file, k);
      }
    }
  }

  lemma WriteKeepsRows(s: Day, t: Day, rows: Rows)
    requires Shape(s) && Covered(s) && Sourced(s) && PendingIsHot(s)
    requires s.pc.Writing? && Snapped(s, s.pc.base, s.pc.snap) && IsFresh(s, s.pc.snap, s.pc.novel) && Wrote(s, t, rows)
    requires Committed(t) == Committed(s) && Parts(t) == Parts(s) && Pending(t) == Pending(s)
    requires forall k :: InParts(t.files, Committed(s), k) <==> InParts(s.files, Committed(s), k)
    ensures Covered(t) && Sourced(t) && PendingIsHot(t)
  {
    WriteKeepsSourced(s, t, rows);
    NextPartIsFree(s);
    if Pending(s) {
      var x :| x in s.hot && !InParts(s.files, Committed(s), x);
      assert x in t.hot && !InParts(t.files, Committed(t), x);
    }
  }

  lemma WriteKeepsSourced(s: Day, t: Day, rows: Rows)
    requires Sourced(s) && s.pc.Writing? && Within(s.pc.snap, s.hot) && Within(s.pc.novel, s.pc.snap) && Wrote(s, t, rows)
    requires Parts(t) == Parts(s)
    ensures Sourced(t)
  {
    var part, parts := Part(|s.pc.base|), Parts(s);
    forall i, k | 0 <= i < |parts| && Holds(t.files, parts[i].file, k)
      ensures Row(k, t.files[parts[i].file][k]) in t.ingested
    {
      if parts[i].file == part { assert k in s.hot; } else { assert Holds(s.files, parts[i].file, k); }
    }
  }

  lemma WriteKeepsPc(s: Day, t: Day, rows: Rows)
    requires Shape(s) && s.pc.Writing? && Snapped(s, s.pc.base, s.pc.snap) && IsFresh(s, s.pc.snap, s.pc.novel) && Wrote(s, t, rows)
    requires Committed(t) == Committed(s) && Pending(t) == Pending(s) && |s.pc.novel| > 0
    requires forall k :: InParts(t.files, Committed(s), k) <==> InParts(s.files, Committed(s), k)
    ensures PcInv(t)
  {
    var Writing(base, snap, novel) := s.pc;
    NextPartIsFree(s);
    if Pending(s) {
      var x :| x in snap && !InParts(s.files, Committed(s), x);
      assert x in snap && !InParts(t.files, Committed(t), x);
    }
    assert LegacySnap(t, snap) by {
      if s.manifest.Legacy? { assert Committed(s)[0].file == Part(0); }
    }
    assert Snapped(t, base, snap);
    assert IsFresh(t, snap, novel);
  }

  /** A part that kept as many rows as it was given kept all of them. */
  lemma SameCount(a: Rows, b: Rows)
    requires Within(a, b) && |a| == |b|
    ensures a == b
  {
    if k :| k in b && k !in a {
      assert a.Keys <= b.Keys - {k};
      SubsetCount(a.Keys, b.Keys - {k});
    }
    assert a.Keys == b.Keys;
  }

  lemma {:induction false} SubsetCount(a: set<Key>, b: set<Key>)
    requires a <= b
    ensures |a| <= |b|
  {
    if x :| x in a {
      SubsetCount(a - {x}, b - {x});
    }
  }

  lemma VerifyingKeepsPc(s: Day, kept: set<Key>, reported: int)
    requires PcInv(s) && s.pc.Verifying?
    ensures PcInv(Proceed(s, kept, reported))
  {
    var t := Proceed(s, kept, reported);
    var Verifying(base, snap, novel, _) := s.pc;
    ReadsOnly(s, kept, reported);
    if t.pc.Listing? {
      SameCount(s.files[Part(|base|)], novel);
      assert IsFresh(t, snap, t.files[t.pc.part]);
      assert ListsNew(t);
    }
  }

  /** Every step that only reads keeps the invariant. */
  lemma ReadingKeeps(s: Day, kept: set<Key>, reported: int)
    requires Inv(s) && OnlyReads(s.pc)
    ensures Inv(Proceed(s, kept, reported))
  {
    var t := Proceed(s, kept, reported);
    ReadsOnly(s, kept, reported);
    PcOnlyKeeps(s, t.pc);
    match s.pc
    case Checking(_, _, _) => CheckingKeepsPc(s, kept, reported);
    case Joining(_, _, _, _) => JoiningKeepsPc(s, kept, reported);
    case Verifying(_, _, _, _) => VerifyingKeepsPc(s, kept, reported);
    case Writing(_, _, _) => NothingNovelKeepsPc(s, kept, reported);
    case _ => ReadingKeepsPc(s, kept, reported);
  }

  /** The manifest write, and nothing else. */
  predicate Lists(s: Day, t: Day)
    requires s.pc.Listing?
  {
    t == s.(manifest := Listed(s.pc.after), pc := Dropping(s.pc.part, s.pc.snap))
  }

  lemma ListIs(s: Day, kept: set<Key>, reported: int)
    requires s.pc.Listing?
    ensures Lists(s, Proceed(s, kept, reported))
  {
  }

  lemma ListNewPending(s: Day, t: Day)
    requires Shape(s) && s.pc.Listing? && ListsNew(s) && Lists(s, t)
    ensures Pending(t) && Committed(t) == Committed(s)
    ensures Parts(t) == Committed(s) + [Entry(s.pc.part, |s.files[s.pc.part]|)]
  {
    NextPartIsFree(s);
    assert Parts(t)[..|Parts(t)| - 1] == Committed(s);
  }

  lemma ListNewNames(s: Day, t: Day)
    requires Named(s) && Counted(s) && s.pc.Listing? && ListsNew(s) && t.files == s.files && Committed(t) == Committed(s)
    requires Parts(t) == Committed(s) + [Entry(s.pc.part, |s.files[s.pc.part]|)]
    ensures Named(t) && Counted(t)
  {
    var base, parts := Committed(s), Parts(t);
    assert forall i :: 0 <= i < |base| ==> parts[i] == Parts(s)[i];
  }

  lemma ListNewKeepsShape(s: Day, t: Day)
    requires Shape(s) && s.pc.Listing? && ListsNew(s) && Lists(s, t)
    requires Committed(t) == Committed(s) && Parts(t) == Committed(s) + [Entry(s.pc.part, |s.files[s.pc.part]|)]
    ensures Shape(t)
  {
    ListNewNames(s, t);
    assert |Parts(t)| >= |Parts(s)|;
  }

  lemma ListedCovers(s: Day, t: Day, k: Key)
    requires s.pc.Listing? && ListsNew(s) && t.files == s.files && k in s.pc.snap
    requires Parts(t) == Committed(s) + [Entry(s.pc.part, |s.files[s.pc.part]|)]
    ensures InParts(t.files, Parts(t), k)
  {
    if InParts(s.files, Committed(s), k) {
      var i :| 0 <= i < |Committed(s)| && Holds(s.files, Committed(s)[i].file, k);
      assert Holds(t.files, Parts(t)[i].file, k);
    } else {
      assert Holds(t.files, Parts(t)[|Committed(s)|].file, k);
    }
  }

  lemma ListNewKeepsDisjoint(s: Day, t: Day)
    requires Disjoint(s) && s.pc.Listing? && ListsNew(s)
    requires t.files == s.files && Parts(t) == Committed(s) + [Entry(s.pc.part, |s.files[s.pc.part]|)]
    ensures Disjoint(t)
  {
    var base, parts := Committed(s), Parts(t);
    forall i, j, k | 0 <= i < j < |parts| && Holds(t.files, parts[i].file, k) ensures !Holds(t.files, parts[j].file, k) {
      assert parts[i] == base[i] == Parts(s)[i];
      assert Holds(s.files, base[i].file, k);
      if j == |base| {
        assert InParts(s.files, base, k);
      } else {
        assert parts[j] == Parts(s)[j];
      }
    }
  }

  lemma ListNewKeepsRows(s: Day, t: Day)
    requires Covered(s) && Sourced(s) && s.pc.Listing? && ListsNew(s) && Within(s.pc.snap, s.hot)
    requires t.hot == s.hot && t.files == s.files && t.ingested == s.ingested && Committed(t) == Committed(s)
    requires Parts(t) == Committed(s) + [Entry(s.pc.part, |s.files[s.pc.part]|)]
    ensures Covered(t) && Sourced(t) && PendingIsHot(t)
  {
    var base, part, parts := Committed(s), s.pc.part, Parts(t);
    forall i, k | 0 <= i < |parts| && Holds(t.files, parts[i].file, k)
      ensures Row(k, t.files[parts[i].file][k]) in t.ingested
    {
      if i == |base| { assert k in s.hot; } else { assert parts[i] == Parts(s)[i]; assert Holds(s.files, Parts(s)[i].file, k); }
    }
    assert s.files[part].Keys != {};
    var x :| x in s.files[part];
    assert x in t.hot && !InParts(t.files, Committed(t), x);
  }

  lemma ListNewKeeps(s: Day, t: Day)
    requires Inv(s) && s.pc.Listing? && ListsNew(s) && Lists(s, t)
    ensures Inv(t)
  {
    ListNewPending(s, t);
    ListNewKeepsShape(s, t);
    ListNewKeepsDisjoint(s, t);
    ListNewKeepsRows(s, t);
    ListNewKeepsPc(s, t);
  }

  lemma ListNewKeepsPc(s: Day, t: Day)
    requires s.pc.Listing? && ListsNew(s) && Lists(s, t)
    requires Parts(t) == Committed(s) + [Entry(s.pc.part, |s.files[s.pc.part]|)]
    ensures PcInv(t)
  {
    forall k | k in s.pc.snap ensures InParts(t.files, Parts(t), k) { ListedCovers(s, t, k); }
  }

  /** A legacy day turned into a format-2 one: its only part becomes a pending part. */
  lemma ListLegacyKeeps(s: Day, t: Day)
    requires Inv(s) && s.pc.Listing? && ListsOld(s) && s.manifest.Legacy? && Lists(s, t)
    ensures Inv(t)
  {
    assert Parts(t) == Parts(s) == Committed(s) && Committed(t) == [];
    assert s.files[Part(0)].Keys <= s.hot.Keys;
    assert s.pc.snap.Keys != {};
    var x :| x in s.pc.snap;
    assert x in t.hot && !InParts(t.files, Committed(t), x);
    LegacyCovered(s, t);
  }

  lemma LegacyCovered(s: Day, t: Day)
    requires Covered(s) && s.manifest.Legacy? && Part(0) in s.files && s.files[Part(0)].Keys <= s.hot.Keys
    requires t.ingested == s.ingested && t.hot == s.hot
    ensures Covered(t)
  {
    forall r | r in t.ingested ensures r.key in t.hot {
      if InParts(s.files, Committed(s), r.key) {
        var i :| 0 <= i < |Committed(s)| && Holds(s.files, Committed(s)[i].file, r.key);
      }
    }
  }

  lemma ListOldKeeps(s: Day, t: Day)
    requires Inv(s) && s.pc.Listing? && ListsOld(s) && !s.manifest.Legacy? && Lists(s, t)
    ensures Inv(t)
  {
    assert s.manifest.Listed? && Committed(s) == Parts(s);
    assert t == s.(pc := t.pc);
    PcOnlyKeeps(s, t.pc);
    assert PartMatches(s.files, Parts(s)[|Parts(s)| - 1]);
  }

  lemma DropKeeps(s: Day, t: Day)
    requires Inv(s) && s.pc.Dropping? && s.hot == s.pc.snap
    requires t == s.(hot := map[], drops := s.drops + {s.pc.part}, pc := Idle)
    ensures Inv(t)
  {
    DropKeepsShape(s, t);
    DropKeepsRows(s, t);
  }

  lemma DropKeepsRows(s: Day, t: Day)
    requires Covered(s) && Sourced(s) && Disjoint(s) && PcInv(s) && s.pc.Dropping? && s.hot == s.pc.snap
    requires t == s.(hot := map[], drops := s.drops + {s.pc.part}, pc := Idle)
    ensures Covered(t) && Sourced(t) && Disjoint(t)
  {
    assert Committed(t) == Parts(t) == Parts(s);
    DropKeepsCovered(s, t);
    DropKeepsSourced(s, t);
  }

  lemma DropKeepsSourced(s: Day, t: Day)
    requires Sourced(s) && t.hot == map[] && t.files == s.files && t.ingested == s.ingested && Parts(t) == Parts(s)
    ensures Sourced(t)
  {
  }

  lemma DropKeepsCovered(s: Day, t: Day)
    requires Covered(s) && t.files == s.files && t.ingested == s.ingested && Committed(t) == Parts(s)
    requires forall k :: k in s.hot ==> InParts(s.files, Parts(s), k)
    ensures Covered(t)
  {
    forall r | r in t.ingested ensures InParts(t.files, Committed(t), r.key) {
      if InParts(s.files, Committed(s), r.key) {
        var i :| 0 <= i < |Committed(s)| && Holds(s.files, Committed(s)[i].file, r.key);
        assert Holds(t.files, Committed(t)[i].file, r.key);
      }
    }
  }

  lemma DropKeepsShape(s: Day, t: Day)
    requires Shape(s) && PcInv(s) && s.pc.Dropping?
    requires t == s.(hot := map[], drops := s.drops + {s.pc.part}, pc := Idle)
    ensures Shape(t)
  {
    assert Committed(t) == Parts(t) == Parts(s);
    var last := |Parts(s)| - 1;
    forall i | 0 <= i < |Parts(t)| ensures PartMatches(t.files, Parts(t)[i]) {
      if i < last { assert PartMatches(s.files, Parts(s)[i]); }
    }
    forall i: nat | Part(i) in t.drops ensures i < |Parts(t)| {
      if Part(i) == s.pc.part { }
    }
  }

  lemma ListingKeeps(s: Day, kept: set<Key>, reported: int)
    requires Inv(s) && s.pc.Listing?
    ensures Inv(Proceed(s, kept, reported))
  {
    var t := Proceed(s, kept, reported);
    ListIs(s, kept, reported);
    if ListsNew(s) { ListNewKeeps(s, t); }
    else if s.manifest.Legacy? { ListLegacyKeeps(s, t); }
    else { ListOldKeeps(s, t); }
  }

  lemma DroppingKeeps(s: Day, kept: set<Key>, reported: int)
    requires Inv(s) && s.pc.Dropping?
    ensures Inv(Proceed(s, kept, reported))
  {
    if DropAccepts(s.pc.part) && s.hot == s.pc.snap { DropKeeps(s, Proceed(s, kept, reported)); } else { PcOnlyKeeps(s, Idle); }
  }

  lemma StepKeeps(s: Day, e: Event)
    requires Inv(s)
    ensures Inv(Step(s, e))
  {
    match e {
      case Insert(k, r) => InsertKeeps(s, k, r);
      case Crash => PcOnlyKeeps(s, Idle);
      case Advance(kept, reported) =>
        if s.pc.Listing? { ListingKeeps(s, kept, reported); }
        else if s.pc.Dropping? { DroppingKeeps(s, kept, reported); }
        else if OnlyReads(s.pc) { ReadingKeeps(s, kept, reported); }
        else { WritingKeeps(s, kept, reported); }
    }
  }

  lemma {:induction false} RunKeeps(s: Day, es: seq<Event>)
    requires Inv(s)
    ensures Inv(Run(s, es))
  {
    if es != [] {
      RunKeeps(s, es[..|es| - 1]);
      StepKeeps(Run(s, es[..|es| - 1]), es[|es| - 1]);
    }
  }
}
