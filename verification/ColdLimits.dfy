/** Days with every number of parts exist, up to the one no drop accepts
    (services/cold_export/exporter.py and the drop function of the database). */
module ColdLimits {
  import opened ColdNaming
  import opened ColdExport
  import opened ColdTheorems
  import opened ColdRun
  import opened ColdOutcome
  import opened ColdReader

  const NEW_DAY := Day(map[], map[], Absent, {}, {}, Idle)

  /** A day with n exported and dropped parts, whose readings are all from before time n. */
  ghost predicate Shipped(s: Day, n: nat) {
    && Inv(s) && s.pc == Idle && s.hot == map[] && !s.manifest.Legacy? && |Parts(s)| == n && !Pending(s)
    && (forall r :: r in s.ingested ==> r.key.time < n)
    && (forall i: nat :: Part(i) in s.files <==> i < n)
  }

  const LATE := Reading("", "", 0.0, "", 0)

  function Late(n: nat): Event { Insert(Key(n, ""), LATE) }

  lemma NewDayShipped()
    ensures Unexported(NEW_DAY) && Shipped(NEW_DAY, 0)
  {
  }

  /** A late row of a shipped day is new: the next export writes it as part n. */
  lemma LateIsNovel(s: Day, n: nat)
    requires Shipped(s, n)
    ensures var u := Step(s, Late(n));
      && Inv(u) && u.pc == Idle && u.hot == map[Key(n, "") := LATE] && Novel(u) == u.hot && |u.hot| == 1
      && Committed(u) == Parts(u) == Parts(s) && !Pending(u) && u.files == s.files && u.manifest == s.manifest && u.drops == s.drops
      && u.ingested == s.ingested + {Row(Key(n, ""), LATE)}
  {
    StepKeeps(s, Late(n));
    var u := Step(s, Late(n));
    assert Committed(u) == Parts(u) == Parts(s);
    UnarchivedAt(s, n);
    OnlyNovel(u, Key(n, ""));
  }

  lemma UnarchivedAt(s: Day, n: nat)
    requires Sourced(s) && forall r :: r in s.ingested ==> r.key.time < n
    ensures !InParts(s.files, Parts(s), Key(n, ""))
  {
    forall i | 0 <= i < |Parts(s)| ensures !Holds(s.files, Parts(s)[i].file, Key(n, "")) { }
  }

  lemma OnlyNovel(u: Day, k: Key)
    requires u.hot.Keys == {k} && !InParts(u.files, Committed(u), k)
    ensures Novel(u) == u.hot && |u.hot| == 1
  {
    ArchivedAre(u.files, Committed(u), k);
    assert |u.hot| == |u.hot.Keys|;
  }

  lemma LateIsShipped(s: Day, n: nat)
    requires Shipped(s, n) && n < 10000
    ensures Shipped(Export(Step(s, Late(n))).0, n + 1)
  {
    LateIsNovel(s, n);
    var u := Step(s, Late(n));
    AllMatch(u);
    ExportKeepsInv(u);
    assert Export(u) == Ship(u);
    ShipsOne(u, n);
    var t := Export(u).0;
    assert forall i: nat :: Part(i) in t.files <==> i < n + 1;
  }

  /** Shipping one new row over n committed parts. */
  lemma ShipsOne(u: Day, n: nat)
    requires Committed(u) == Parts(u) && |Parts(u)| == n < 10000 && Novel(u) == u.hot && |u.hot| == 1
    ensures var t := Ship(u).0;
      && t == u.(files := u.files[Part(n) := u.hot], manifest := Listed(Parts(u) + [Entry(Part(n), 1)]),
                 hot := map[], drops := u.drops + {Part(n)})
      && |Parts(t)| == n + 1 && !Pending(t)
  {
    assert After(u) == Parts(u) + [Entry(Part(n), 1)];
  }

  /** Some run from a day never exported ends with n parts, all of them dropped. */
  lemma {:induction false} EveryNumberOfParts(n: nat) returns (es: seq<Event>)
    requires n <= 10000
    ensures Shipped(Run(NEW_DAY, es), n)
  {
    if n == 0 {
      NewDayShipped();
      es := [];
    } else {
      var before := EveryNumberOfParts(n - 1);
      var s := Run(NEW_DAY, before);
      var u := Step(s, Late(n - 1));
      LateIsNovel(s, n - 1);
      LateIsShipped(s, n - 1);
      ExportIsARun(u);
      var more :| NoInserts(more) && Run(u, more) == Export(u).0;
      RunAppend(NEW_DAY, before, Late(n - 1));
      RunConcat(NEW_DAY, before + [Late(n - 1)], more);
      es := before + [Late(n - 1)] + more;
    }
  }

  /** And some run then meets a late row whose part the drop does not accept: the export fails. */
  lemma NamesRunOut() returns (es: seq<Event>)
    ensures var s := Run(NEW_DAY, es); Unexported(NEW_DAY) && Inv(s) && s.pc == Idle && OutOfNames(s) && Export(s).1 == Failed
  {
    NewDayShipped();
    var before := EveryNumberOfParts(10000);
    var s := Run(NEW_DAY, before);
    LateIsNovel(s, 10000);
    RunAppend(NEW_DAY, before, Late(10000));
    es := before + [Late(10000)];
    ExportEmptiesExactly(Run(NEW_DAY, es));
  }

  /** For every number of parts, some run reaches a day on which a reader's listing goes stale. */
  lemma StaleListingsExist(n: nat) returns (es: seq<Event>)
    requires 0 < n <= 10000
    ensures var s := Run(NEW_DAY, es);
      && Inv(s) && s.pc == Idle && s.manifest.Listed? && |Novel(s)| > 0 && Part(|Committed(s)|) !in s.files
      && exists more :: NoInserts(more) && !ReadsThrough(s.files.Keys, true, Run(s, more).manifest)
  {
    var before := EveryNumberOfParts(n);
    var s := Run(NEW_DAY, before);
    LateIsNovel(s, n);
    RunAppend(NEW_DAY, before, Late(n));
    es := before + [Late(n)];
    StaleListingFails(Run(NEW_DAY, es));
  }
}
