/** A run of the exporter that meets no fault and no concurrent insert: `export_day` and
    `export_tenant` as the source writes them, and what they leave behind. */
module ColdRun {
  import opened ColdNaming
  import opened ColdExport
  import opened ColdTheorems

  datatype Outcome = Empty | AlreadyDone | ResumedDrop | Reexported | LateRowsExported | FirstExport | Failed

  /** The natural keys some parts hold. */
  function ArchivedKeys(files: Files, es: seq<Entry>): set<Key> {
    if es == [] then {} else
      var last := es[|es| - 1].file;
      ArchivedKeys(files, es[..|es| - 1]) + if last in files then files[last].Keys else {}
  }

  lemma {:induction false} ArchivedAre(files: Files, es: seq<Entry>, k: Key)
    ensures k in ArchivedKeys(files, es) <==> InParts(files, es, k)
  {
    if es != [] {
      var n := |es| - 1;
      ArchivedAre(files, es[..n], k);
      InPartsNext(files, es, n, k);
      assert es[..n + 1] == es;
    }
  }

  /** The new rows of the day: what is hot and in no committed part. */
  function Novel(s: Day): Rows { s.hot - ArchivedKeys(s.files, Committed(s)) }

  /** The entries the run lists. */
  function After(s: Day): seq<Entry> {
    var base := Committed(s);
    if |Novel(s)| > 0 then base + [Entry(Part(|base|), |Novel(s)|)] else base
  }

  function Written(s: Day): Files {
    if |Novel(s)| > 0 then s.files[Part(|Committed(s)|) := Novel(s)] else s.files
  }

  predicate Intact(s: Day) { forall i :: 0 <= i < |Committed(s)| ==> PartMatches(s.files, Committed(s)[i]) }

  /** What one undisturbed `export_day` does to a day, and what it answers. */
  function Export(s: Day): (Day, Outcome) {
    var parts := Parts(s);
    if !Intact(s) then (s, Failed)
    else if |s.hot| == 0 then
      if !Pending(s) then (s, if parts == [] then Empty else AlreadyDone)
      else
        var last := parts[|parts| - 1];
        if PartMatches(s.files, last) && DropAccepts(last.file)
        then (s.(drops := s.drops + {last.file}), ResumedDrop) else (s, Failed)
    else Ship(s)
  }

  /** The part of `export_day` after the day was found to hold rows. */
  function Ship(s: Day): (Day, Outcome) {
    var after := After(s);
    if |after| == 0 then (s, Failed)
    else
      var part := after[|after| - 1].file;
      var listed := s.(files := Written(s), manifest := Listed(after));
      if DropAccepts(part)
      then (listed.(hot := map[], drops := s.drops + {part}),
            if |Novel(s)| == 0 then ResumedDrop else if Pending(s) then Reexported
            else if |Committed(s)| > 0 then LateRowsExported else FirstExport)
      else (listed, Failed)
  }

  /** The days of one tenant in turn, each exported by `exportDay`; the first failing day ends the run. */
  function ExportAll(exportDay: Day -> (Day, Outcome), days: map<int, Day>, order: seq<int>): (map<int, Day>, bool)
    requires forall i :: 0 <= i < |order| ==> order[i] in days
  {
    if order == [] then (days, true)
    else
      var (day, outcome) := exportDay(days[order[0]]);
      if outcome == Failed then (days[order[0] := day], false)
      else ExportAll(exportDay, days[order[0] := day], order[1..])
  }

  /** What the manifest write and the drop do to a day. */
  function ListedAndDropped(s: Day, after: seq<Entry>, part: FileName): Day {
    if DropAccepts(part) then s.(manifest := Listed(after), hot := map[], drops := s.drops + {part})
    else s.(manifest := Listed(after))
  }

  lemma ShipsNovel(s: Day, novel: Rows, part: FileName)
    requires novel == Novel(s) && |novel| > 0 && part == Part(|Committed(s)|)
    ensures Ship(s).0 ==
      ListedAndDropped(s.(files := s.files[part := novel]), Committed(s) + [Entry(part, |novel|)], part)
    ensures Ship(s).1 == if !DropAccepts(part) then Failed else if Pending(s) then Reexported
                         else if |Committed(s)| > 0 then LateRowsExported else FirstExport
  {
    assert After(s)[|After(s)| - 1].file == part;
  }

  lemma ShipsArchived(s: Day, base: seq<Entry>)
    requires base == Committed(s) && |base| > 0 && |Novel(s)| == 0
    ensures var part := base[|base| - 1].file;
      Ship(s) == (ListedAndDropped(s, base, part), if DropAccepts(part) then ResumedDrop else Failed)
  {
  }

  lemma AllNovelIf(s: Day)
    ensures Committed(s) == [] ==> Novel(s) == s.hot
  {
    assert s.hot - {} == s.hot;
  }

  class TenantArchive {
    /** The tenant's days, each with its hot rows, its files, its manifest and its drop records. */
    var days: map<int, Day>

    constructor (days: map<int, Day>)
      ensures this.days == days
    {
      this.days := days;
    }

    static method CheckParts(files: Files, base: seq<Entry>) returns (ok: bool)
      ensures ok <==> forall i :: 0 <= i < |base| ==> PartMatches(files, base[i])
    {
      for i := 0 to |base|
        invariant forall j :: 0 <= j < i ==> PartMatches(files, base[j])
      {
        if !PartMatches(files, base[i]) { return false; }
      }
      ok := true;
    }

    /** The snapshot rows whose key no committed part holds. */
    static method WithoutArchived(snap: Rows, files: Files, base: seq<Entry>) returns (novel: Rows)
      requires forall i :: 0 <= i < |base| ==> base[i].file in files
      ensures forall k :: k in novel <==> k in snap && !InParts(files, base, k)
      ensures Within(novel, snap) && novel == snap - ArchivedKeys(files, base)
    {
      var archived: set<Key> := {};
      for i := 0 to |base|
        invariant archived == ArchivedKeys(files, base[..i])
      {
        assert base[..i + 1][..i] == base[..i];
        archived := archived + files[base[i].file].Keys;
      }
      assert base[..|base|] == base;
      novel := snap - archived;
      forall k { ArchivedAre(files, base, k); }
    }

    method ExportDay(day: int) returns (outcome: Outcome)
      requires day in days && days[day].pc == Idle
      modifies this
      ensures days == old(days)[day := Export(old(days)[day]).0]
      ensures outcome == Export(old(days)[day]).1
    {
      ghost var s := days[day];
      var parts := ManifestParts(days[day].manifest);
      var legacy := days[day].manifest.Legacy?;
      var pending := |parts| > 0 && !legacy && parts[|parts| - 1].file !in days[day].drops;
      var base := if pending then parts[..|parts| - 1] else parts;
      assert base == Committed(s);
      var intact := CheckParts(days[day].files, base);
      if !intact { return Failed; }
      var snap := days[day].hot;
      if |snap| == 0 {
        if !pending { return if parts == [] then Empty else AlreadyDone; }
        var last := parts[|parts| - 1];
        if !PartMatches(days[day].files, last) || !DropAccepts(last.file) { return Failed; }
        days := days[day := days[day].(drops := days[day].drops + {last.file})];
        return ResumedDrop;
      }
      outcome := ExportSnapshot(day, base, pending);
    }

    /** The rest of `export_day`, once the day was found to hold rows. */
    method ExportSnapshot(day: int, base: seq<Entry>, pending: bool) returns (outcome: Outcome)
      requires day in days && |days[day].hot| > 0
      requires base == Committed(days[day]) && pending == Pending(days[day])
      requires forall i :: 0 <= i < |base| ==> base[i].file in days[day].files
      modifies this
      ensures days == old(days)[day := Ship(old(days)[day]).0]
      ensures outcome == Ship(old(days)[day]).1
    {
      var novel := days[day].hot;
      AllNovelIf(days[day]);
      if |base| > 0 {
        novel := WithoutArchived(days[day].hot, days[day].files, base);
      }
      if |novel| > 0 {
        outcome := ShipNovel(day, base, pending, novel);
      } else {
        outcome := ShipArchived(day, base);
      }
    }

    /** Every row of the snapshot is already archived: only the manifest and the drop are left. */
    method ShipArchived(day: int, base: seq<Entry>) returns (outcome: Outcome)
      requires day in days && base == Committed(days[day]) && |base| > 0 && |Novel(days[day])| == 0
      modifies this
      ensures days == old(days)[day := Ship(old(days)[day]).0]
      ensures outcome == Ship(old(days)[day]).1
    {
      ShipsArchived(days[day], base);
      var part := base[|base| - 1].file;
      ListAndDrop(day, base, part);
      outcome := if DropAccepts(part) then ResumedDrop else Failed;
    }

    method ShipNovel(day: int, base: seq<Entry>, pending: bool, novel: Rows) returns (outcome: Outcome)
      requires day in days && base == Committed(days[day]) && pending == Pending(days[day])
      requires novel == Novel(days[day]) && |novel| > 0
      modifies this
      ensures days == old(days)[day := Ship(old(days)[day]).0]
      ensures outcome == Ship(old(days)[day]).1
    {
      var part := Part(|base|);
      ShipsNovel(days[day], novel, part);
      days := days[day := days[day].(files := days[day].files[part := novel])];
      ListAndDrop(day, base + [Entry(part, |novel|)], part);
      outcome := if !DropAccepts(part) then Failed else if pending then Reexported
                 else if |base| > 0 then LateRowsExported else FirstExport;
    }

    /** The manifest write and the drop. Undisturbed, the day still is what the snapshot read. */
    method ListAndDrop(day: int, after: seq<Entry>, part: FileName)
      requires day in days
      modifies this
      ensures days == old(days)[day := ListedAndDropped(old(days)[day], after, part)]
    {
      days := days[day := days[day].(manifest := Listed(after))];
      if DropAccepts(part) {
        days := days[day := days[day].(hot := map[], drops := days[day].drops + {part})];
      }
    }

    /** `order` is the database's answer to `exportable_days`. */
    method ExportTenant(order: seq<int>) returns (ok: bool)
      requires forall d :: d in days ==> days[d].pc == Idle
      requires forall i :: 0 <= i < |order| ==> order[i] in days
      requires forall i, j :: 0 <= i < j < |order| ==> order[i] < order[j]
      modifies this
      ensures (days, ok) == ExportAll(Export, old(days), order)
    {
      var i := 0;
      while i < |order|
        invariant 0 <= i <= |order| && days.Keys == old(days).Keys
        invariant forall j :: i <= j < |order| ==> order[j] in days && days[order[j]].pc == Idle
        invariant ExportAll(Export, old(days), order) == ExportAll(Export, days, order[i..])
      {
        var outcome := ExportDay(order[i]);
        assert order[i..][1..] == order[i + 1..];
        if outcome == Failed { return false; }
        i := i + 1;
      }
      ok := true;
    }
  }
}
