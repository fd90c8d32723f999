/** Any number of drain consumers over one stream and one table: every event is one call to the stream
    or one transaction of the database, and a consumer may stop between any two
    (services/api_gateway/messaging/capability_audit_drain.py). */
module AuditRuns {
  import opened Common
  import opened AuditDrain

  const BATCH: nat := 500

  datatype Consumer =
    | Idle
    | Claimed(entries: seq<Entry>)
    | Holding(entries: seq<Entry>)
    | RowWise(entries: seq<Entry>, i: nat)
    | Acking(ids: seq<Id>)

  /** `entries` is every entry ever appended; `written`, `trimmed` and `expired` are history. */
  datatype State = State(
    entries: map<Id, Fields>, stream: set<Id>, delivered: Id, pending: set<Id>, next: Id,
    rows: seq<Stored>, consumers: map<nat, Consumer>,
    written: set<Id>, trimmed: set<Id>, expired: set<Id>)

  const NEW := State(map[], {}, 0, {}, 0, [], map[], {}, {}, {})

  datatype Event =
    | Append(fields: Fields)
    | Trim(id: Id)
    | Expire(id: Id)
    | Claim(c: nat, ids: seq<Id>)
    | Read(c: nat, ids: seq<Id>, upTo: Id)
    | Commit(c: nat)
    | WriteRow(c: nat)
    | Ack(c: nat)
    | Stop(c: nat)

  function At(s: State, c: nat): Consumer { if c in s.consumers then s.consumers[c] else Idle }
  function Put(s: State, c: nat, x: Consumer): State { s.(consumers := s.consumers[c := x]) }

  function ToSet(ids: seq<Id>): set<Id> { set x | x in ids }

  function Fetch(s: State, ids: seq<Id>): seq<Entry>
    requires ToSet(ids) <= s.entries.Keys
  {
    seq(|ids|, i requires 0 <= i < |ids| => assert ids[i] in ToSet(ids); Entry(ids[i], s.entries[ids[i]]))
  }

  function Without(rows: seq<Stored>, id: Id): seq<Stored> {
    if rows == [] then []
    else Without(rows[..|rows| - 1], id) + if rows[|rows| - 1].id == id then [] else [rows[|rows| - 1]]
  }

  /** The entries a read of new ones may return: all up to `upTo` not yet delivered. */
  predicate Unread(s: State, ids: seq<Id>, upTo: Id) {
    && s.delivered <= upTo <= s.next && |ids| <= BATCH
    && ToSet(ids) == set x | x in s.stream && s.delivered <= x < upTo
  }

  function Taken(es: seq<Entry>): set<Id> { set e | e in es && Takes(e) :: e.id }

  function Step(s: State, e: Event): State {
    match e
    case Append(f) => s.(entries := s.entries[s.next := f], stream := s.stream + {s.next}, next := s.next + 1)
    case Trim(id) => if id in s.stream then s.(stream := s.stream - {id}, trimmed := s.trimmed + {id}) else s
    case Expire(id) => s.(rows := Without(s.rows, id), expired := s.expired + {id})
    case Claim(c, ids) =>
      if At(s, c).Idle? && |ids| <= BATCH && ToSet(ids) <= s.pending * s.stream && s.stream <= s.entries.Keys
      then Put(s, c, Claimed(Fetch(s, ids))) else s
    case Read(c, ids, upTo) =>
      if At(s, c).Claimed? && Unread(s, ids, upTo) && s.stream <= s.entries.Keys
      then Put(s.(delivered := upTo, pending := s.pending + ToSet(ids)), c, Holding(At(s, c).entries + Fetch(s, ids))) else s
    case Commit(c) => if At(s, c).Holding? then CommitBatch(s, c, At(s, c).entries) else s
    case WriteRow(c) => if At(s, c).RowWise? then CommitRow(s, c, At(s, c).entries, At(s, c).i) else s
    case Ack(c) =>
      if At(s, c).Acking?
      then Put(s.(stream := s.stream - ToSet(At(s, c).ids), pending := s.pending - ToSet(At(s, c).ids)), c, Idle) else s
    case Stop(c) => Put(s, c, Idle)
  }

  /** One transaction for the readable entries; refused as a whole when one of them is. */
  function CommitBatch(s: State, c: nat, es: seq<Entry>): State {
    if AllTaken(Readable(es))
    then Put(s.(rows := InsertAll(s.rows, Accepted(es)), written := s.written + Taken(es)), c, Acking(Ids(es)))
    else Put(s, c, RowWise(es, 0))
  }

  function CommitRow(s: State, c: nat, es: seq<Entry>, i: nat): State {
    if i < |es|
    then Put(s.(rows := InsertEntry(s.rows, es[i]), written := s.written + Taken([es[i]])), c, RowWise(es, i + 1))
    else Put(s, c, Acking(Ids(es)))
  }

  function Run(s: State, es: seq<Event>): State {
    if es == [] then s else Step(Run(s, es[..|es| - 1]), es[|es| - 1])
  }

  // ---------------------------------------------------------------- the invariant

  /** Written at some time, unreadable, or refused for its own data. */
  ghost predicate Settled(s: State, id: Id) {
    id in s.entries && (id in s.written || !Takes(Entry(id, s.entries[id])))
  }

  ghost predicate Genuine(s: State, es: seq<Entry>) {
    forall k :: 0 <= k < |es| ==> es[k].id in s.entries && s.entries[es[k].id] == es[k].fields
  }

  ghost predicate ConsumerInv(s: State, x: Consumer) {
    match x
    case Idle => true
    case Claimed(es) => Genuine(s, es)
    case Holding(es) => Genuine(s, es)
    case RowWise(es, i) => Genuine(s, es) && i <= |es| && forall k :: 0 <= k < i ==> Settled(s, es[k].id)
    case Acking(ids) => forall k :: 0 <= k < |ids| ==> Settled(s, ids[k])
  }

  ghost predicate StreamInv(s: State) {
    && s.stream <= s.entries.Keys && s.delivered <= s.next
    && (forall id: nat :: id in s.entries <==> id < s.next)
    && (forall id :: id in s.stream ==> s.delivered <= id || id in s.pending)
    && (forall id :: id in s.entries ==> id in s.stream || id in s.trimmed || Settled(s, id))
  }

  ghost predicate TableInv(s: State) {
    && UniqueIds(s.rows)
    && (forall r :: r in s.rows ==> r.id in s.written && r.id in s.entries && s.entries[r.id] == Row(false, r.body))
    && (forall id :: id in s.written ==> id in s.entries && Takes(Entry(id, s.entries[id])) && (Holds(s.rows, id) || id in s.expired))
  }

  ghost predicate ConsumersInv(s: State) { forall c :: c in s.consumers ==> ConsumerInv(s, s.consumers[c]) }

  ghost predicate Inv(s: State) { StreamInv(s) && TableInv(s) && ConsumersInv(s) }

  /** What no step undoes. */
  ghost predicate Follows(s: State, t: State) {
    && (forall id :: id in s.entries ==> id in t.entries && t.entries[id] == s.entries[id])
    && s.written <= t.written
  }

  lemma OthersKeep(s: State, t: State, x: Consumer)
    requires ConsumerInv(s, x) && Follows(s, t)
    ensures ConsumerInv(t, x)
  {
  }

  lemma StepFollows(s: State, e: Event)
    requires StreamInv(s)
    ensures Follows(s, Step(s, e))
  {
  }

  // ---------------------------------------------------------------- the table

  lemma {:induction false} WithoutRows(rows: seq<Stored>, id: Id)
    ensures forall r :: r in Without(rows, id) <==> r in rows && r.id != id
    ensures UniqueIds(rows) ==> UniqueIds(Without(rows, id))
  {
    if rows != [] {
      var front, last := rows[..|rows| - 1], rows[|rows| - 1];
      WithoutRows(front, id);
      assert forall r :: r in rows <==> r in front || r == last;
      if UniqueIds(rows) {
        assert UniqueIds(front);
        assert forall i :: 0 <= i < |front| ==> front[i].id != last.id;
        assert forall r :: r in Without(front, id) ==> r.id != last.id;
      }
    }
  }

  ghost predicate TableFrom(rows: seq<Stored>, entries: map<Id, Fields>, written: set<Id>) {
    forall r :: r in rows ==> r.id in written && r.id in entries && entries[r.id] == Row(false, r.body)
  }

  /** Inserting genuine rows leaves a table of genuine rows, each id once, that holds all of them. */
  lemma InsertKeepsTable(s: State, more: seq<Stored>, ids: set<Id>)
    requires TableInv(s)
    requires forall r :: r in more ==> r.id in ids && r.id in s.entries && s.entries[r.id] == Row(false, r.body)
    requires forall id :: id in ids ==> Holds(more, id)
    ensures TableInv(s.(rows := InsertAll(s.rows, more), written := s.written + ids))
  {
    InsertAllUnique(s.rows, more);
    InsertAllFrom(s.rows, more);
    var t := s.(rows := InsertAll(s.rows, more), written := s.written + ids);
    forall id | id in t.written
      ensures id in t.entries && Takes(Entry(id, t.entries[id])) && (Holds(t.rows, id) || id in t.expired)
    {
      if id in ids {
        assert Holds(more, id);
      }
    }
  }

  lemma {:induction false} InsertAllFrom(rows: seq<Stored>, more: seq<Stored>)
    ensures forall r :: r in InsertAll(rows, more) ==> r in rows || r in more
  {
    if more != [] {
      InsertAllFrom(rows, more[..|more| - 1]);
      assert forall r :: r in more[..|more| - 1] ==> r in more;
    }
  }

  lemma AcceptedGenuine(s: State, es: seq<Entry>)
    requires Genuine(s, es)
    ensures forall r :: r in Accepted(es) ==> r.id in Taken(es) && r.id in s.entries && s.entries[r.id] == Row(false, r.body)
    ensures forall id :: id in Taken(es) ==> Holds(Accepted(es), id)
  {
    forall r | r in Accepted(es) ensures r.id in Taken(es) && r.id in s.entries && s.entries[r.id] == Row(false, r.body) {
      AcceptedIds(es, r);
      var e :| e in es && Takes(e) && r == Stored(e.id, e.fields.body);
      var k :| 0 <= k < |es| && es[k] == e;
    }
    forall id | id in Taken(es) ensures Holds(Accepted(es), id) {
      var e :| e in es && Takes(e) && e.id == id;
      AcceptedIds(es, Stored(id, e.fields.body));
    }
  }

  lemma InsertOne(rows: seq<Stored>, e: Entry)
    ensures InsertEntry(rows, e) == InsertAll(rows, Accepted([e]))
  {
    InsertNext(rows, [e], 0);
    assert [e][..0] == [] && [e][..1] == [e];
  }

  lemma StepTable(s: State, e: Event)
    requires Inv(s)
    ensures TableInv(Step(s, e))
  {
    match e
    case Expire(id) => ExpireTable(s, id);
    case Commit(c) => if At(s, c).Holding? { CommitTable(s, c); }
    case WriteRow(c) => if At(s, c).RowWise? { RowTable(s, c); }
    case _ =>
  }

  lemma ExpireTable(s: State, id: Id)
    requires TableInv(s)
    ensures TableInv(Step(s, Expire(id)))
  {
    WithoutRows(s.rows, id);
    var t := Step(s, Expire(id));
    forall x | x in t.written ensures Holds(t.rows, x) || x in t.expired {
      if x != id && Holds(s.rows, x) {
        var r :| r in s.rows && r.id == x;
        assert r in t.rows;
      }
    }
  }

  lemma CommitTable(s: State, c: nat)
    requires TableInv(s) && ConsumersInv(s) && At(s, c).Holding?
    ensures TableInv(Step(s, Commit(c)))
  {
    var es := At(s, c).entries;
    assert ConsumerInv(s, s.consumers[c]);
    AcceptedGenuine(s, es);
    InsertKeepsTable(s, Accepted(es), Taken(es));
  }

  lemma RowTable(s: State, c: nat)
    requires TableInv(s) && ConsumersInv(s) && At(s, c).RowWise?
    ensures TableInv(Step(s, WriteRow(c)))
  {
    var es, i := At(s, c).entries, At(s, c).i;
    assert ConsumerInv(s, s.consumers[c]);
    if i < |es| {
      InsertOne(s.rows, es[i]);
      AcceptedGenuine(s, [es[i]]);
      InsertKeepsTable(s, Accepted([es[i]]), Taken([es[i]]));
    }
  }

  // ---------------------------------------------------------------- consumers and stream

  lemma FetchGenuine(s: State, ids: seq<Id>)
    requires ToSet(ids) <= s.entries.Keys
    ensures Genuine(s, Fetch(s, ids))
  {
    forall k | 0 <= k < |ids| ensures ids[k] in s.entries { assert ids[k] in ToSet(ids); }
  }

  lemma StepConsumer(s: State, e: Event, c: nat)
    requires StreamInv(s) && ConsumersInv(s) && c in Step(s, e).consumers
    ensures ConsumerInv(Step(s, e), Step(s, e).consumers[c])
  {
    var t := Step(s, e);
    StepFollows(s, e);
    if c in s.consumers {
      assert ConsumerInv(s, s.consumers[c]);
      OthersKeep(s, t, s.consumers[c]);
    }
    if At(t, c) != At(s, c) {
      match e
      case Claim(_, ids) => FetchGenuine(s, ids);
      case Read(_, ids, _) => FetchGenuine(s, ids);
      case Commit(_) => CommitSettles(s, c);
      case WriteRow(_) => RowSettles(s, c);
      case _ =>
    }
  }

  lemma CommitSettles(s: State, c: nat)
    requires At(s, c).Holding? && ConsumerInv(s, At(s, c))
    ensures ConsumerInv(Step(s, Commit(c)), At(Step(s, Commit(c)), c))
  {
    var es, t := At(s, c).entries, Step(s, Commit(c));
    if AllTaken(Readable(es)) {
      forall k | 0 <= k < |es| ensures Settled(t, es[k].id) {
        if Takes(es[k]) {
          assert es[k].id in Taken(es);
        }
      }
    }
  }

  lemma RowSettles(s: State, c: nat)
    requires At(s, c).RowWise? && ConsumerInv(s, At(s, c))
    ensures ConsumerInv(Step(s, WriteRow(c)), At(Step(s, WriteRow(c)), c))
  {
    var es, i, t := At(s, c).entries, At(s, c).i, Step(s, WriteRow(c));
    if i < |es| && Takes(es[i]) {
      assert es[i] in [es[i]];
      assert es[i].id in Taken([es[i]]);
    }
  }

  lemma StepStream(s: State, e: Event)
    requires StreamInv(s) && ConsumersInv(s)
    ensures StreamInv(Step(s, e))
  {
    StepFollows(s, e);
    match e
    case Ack(c) => if At(s, c).Acking? { AckStream(s, c); }
    case Read(c, ids, upTo) =>
    case _ =>
  }

  lemma AckStream(s: State, c: nat)
    requires StreamInv(s) && ConsumersInv(s) && At(s, c).Acking?
    ensures StreamInv(Step(s, Ack(c)))
  {
    var ids, t := At(s, c).ids, Step(s, Ack(c));
    assert ConsumerInv(s, s.consumers[c]);
    forall id | id in t.entries ensures id in t.stream || id in t.trimmed || Settled(t, id) {
      if id in ToSet(ids) {
        var k :| 0 <= k < |ids| && ids[k] == id;
        assert Settled(s, ids[k]);
      }
    }
  }

  lemma StepKeeps(s: State, e: Event)
    requires Inv(s)
    ensures Inv(Step(s, e))
  {
    StepTable(s, e);
    StepStream(s, e);
    forall c | c in Step(s, e).consumers ensures ConsumerInv(Step(s, e), Step(s, e).consumers[c]) {
      StepConsumer(s, e, c);
    }
  }

  lemma {:induction false} RunKeeps(s: State, es: seq<Event>)
    requires Inv(s)
    ensures Inv(Run(s, es))
  {
    if es != [] {
      RunKeeps(s, es[..|es| - 1]);
      StepKeeps(Run(s, es[..|es| - 1]), es[|es| - 1]);
    }
  }

  // ---------------------------------------------------------------- every run

  /** An untrimmed entry leaves the stream only once written, unless it is unreadable or refused for
      its own data; while it is in the stream it is still to be delivered, or pending and claimable. */
  lemma EntriesAccounted(es: seq<Event>, id: Id)
    requires id in Run(NEW, es).entries && id !in Run(NEW, es).trimmed
    ensures var s := Run(NEW, es);
      if id in s.stream then s.delivered <= id || id in s.pending
      else Takes(Entry(id, s.entries[id])) ==> id in s.written && (Holds(s.rows, id) || id in s.expired)
  {
    RunKeeps(NEW, es);
  }

  /** The table holds each id at most once, and only rows of entries the database takes, as appended. */
  lemma TableSound(es: seq<Event>)
    ensures var s := Run(NEW, es); UniqueIds(s.rows) && TableFrom(s.rows, s.entries, s.written)
  {
    RunKeeps(NEW, es);
  }

  // ---------------------------------------------------------------- one whole pass

  /** The consumer a call belongs to. */
  predicate Of(e: Event, c: nat) {
    match e
    case Claim(x, _) => x == c
    case Read(x, _, _) => x == c
    case Commit(x) => x == c
    case WriteRow(x) => x == c
    case Ack(x) => x == c
    case Stop(x) => x == c
    case _ => false
  }

  function Own(es: seq<Event>, c: nat): seq<Event> {
    if es == [] then [] else Own(es[..|es| - 1], c) + if Of(es[|es| - 1], c) then [es[|es| - 1]] else []
  }

  /** What the calls after its batch make of a consumer, whatever the rest of the world does. */
  function Moves(x: Consumer, e: Event): Consumer {
    match e
    case Commit(_) => if !x.Holding? then x else if AllTaken(Readable(x.entries)) then Acking(Ids(x.entries)) else RowWise(x.entries, 0)
    case WriteRow(_) =>
      if !x.RowWise? then x else if x.i < |x.entries| then RowWise(x.entries, x.i + 1) else Acking(Ids(x.entries))
    case Ack(_) => if x.Acking? then Idle else x
    case _ => x
  }

  function MovesAll(x: Consumer, es: seq<Event>): Consumer {
    if es == [] then x else Moves(MovesAll(x, es[..|es| - 1]), es[|es| - 1])
  }

  lemma MovesOn(x: Consumer, es: seq<Event>, e: Event)
    ensures MovesAll(x, es + [e]) == Moves(MovesAll(x, es), e)
  {
    assert (es + [e])[..|es|] == es;
  }

  lemma OwnOn(more: seq<Event>, c: nat)
    requires more != []
    ensures var front, e := more[..|more| - 1], more[|more| - 1];
      Own(more, c) == if Of(e, c) then Own(front, c) + [e] else Own(front, c)
  {
  }

  predicate AfterBatch(e: Event) { e.Commit? || e.WriteRow? || e.Ack? }

  /** All of the batch has left the stream, settled. */
  ghost predicate Done(t: State, es: seq<Entry>) {
    forall k :: 0 <= k < |es| ==> es[k].id !in t.stream && Settled(t, es[k].id)
  }

  /** The stages of a consumer that holds this batch. */
  predicate Works(x: Consumer, es: seq<Entry>) {
    x == Holding(es) || (x.RowWise? && x.entries == es) || x == Acking(Ids(es)) || x == Idle
  }

  lemma DoneStays(s: State, e: Event, es: seq<Entry>)
    requires StreamInv(s) && Done(s, es)
    ensures Done(Step(s, e), es)
  {
    StepFollows(s, e);
  }

  lemma OthersLeave(s: State, e: Event, c: nat)
    requires !Of(e, c)
    ensures At(Step(s, e), c) == At(s, c)
  {
  }

  lemma OwnMoves(s: State, e: Event, c: nat)
    requires Of(e, c) && AfterBatch(e)
    ensures At(Step(s, e), c) == Moves(At(s, c), e)
  {
  }

  lemma AckDone(s: State, c: nat, es: seq<Entry>)
    requires Inv(s) && At(s, c) == Acking(Ids(es))
    ensures Done(Step(s, Ack(c)), es)
  {
    assert ConsumerInv(s, s.consumers[c]);
    forall k | 0 <= k < |es| ensures es[k].id !in Step(s, Ack(c)).stream && Settled(s, es[k].id) {
      assert Ids(es)[k] == es[k].id && es[k].id in ToSet(Ids(es));
    }
  }

  lemma WorkStep(s: State, e: Event, c: nat, es: seq<Entry>)
    requires Inv(s) && Works(At(s, c), es) && (At(s, c).Idle? ==> Done(s, es)) && (Of(e, c) ==> AfterBatch(e))
    ensures Works(At(Step(s, e), c), es) && (At(Step(s, e), c).Idle? ==> Done(Step(s, e), es))
    ensures At(Step(s, e), c) == if Of(e, c) then Moves(At(s, c), e) else At(s, c)
  {
    if Of(e, c) { OwnMoves(s, e, c); } else { OthersLeave(s, e, c); }
    if At(s, c).Idle? {
      DoneStays(s, e, es);
    } else if Of(e, c) && e.Ack? && At(s, c).Acking? {
      AckDone(s, c, es);
    }
  }

  /** From the batch on, whatever the other consumers, the planes and the bounds do in between. */
  lemma {:induction false} WorkRun(s: State, more: seq<Event>, c: nat, es: seq<Entry>)
    requires Inv(s) && At(s, c) == Holding(es) && forall i :: 0 <= i < |more| && Of(more[i], c) ==> AfterBatch(more[i])
    ensures var t := Run(s, more);
      Inv(t) && Works(At(t, c), es) && (At(t, c).Idle? ==> Done(t, es)) && At(t, c) == MovesAll(Holding(es), Own(more, c))
  {
    if more != [] {
      var front, e := more[..|more| - 1], more[|more| - 1];
      WorkRun(s, front, c, es);
      RunKeeps(s, more);
      WorkStep(Run(s, front), e, c, es);
      OwnOn(more, c);
      MovesOn(Holding(es), Own(front, c), e);
    }
  }

  /** A pass's calls after its batch: the transaction, as many single rows as there may be, the
      acknowledgement. */
  function PassCalls(c: nat, n: nat): seq<Event> { Rows(c, n) + [Ack(c)] }

  function Rows(c: nat, n: nat): seq<Event> { if n == 0 then [Commit(c)] else Rows(c, n - 1) + [WriteRow(c)] }

  lemma {:induction false} RowsMove(c: nat, n: nat, es: seq<Entry>)
    ensures MovesAll(Holding(es), Rows(c, n)) ==
      if AllTaken(Readable(es)) || n > |es| then Acking(Ids(es)) else RowWise(es, n)
  {
    if n == 0 {
      assert [] + [Commit(c)] == [Commit(c)];
      MovesOn(Holding(es), [], Commit(c));
    } else {
      RowsMove(c, n - 1, es);
      MovesOn(Holding(es), Rows(c, n - 1), WriteRow(c));
    }
  }

  /** A pass that is not stopped removes every entry of its batch from the stream, settled, whatever every
      other consumer does between its calls. */
  lemma PassSettles(s: State, more: seq<Event>, c: nat, es: seq<Entry>)
    requires Inv(s) && At(s, c) == Holding(es) && Own(more, c) == PassCalls(c, |es| + 1)
    ensures Inv(Run(s, more)) && At(Run(s, more), c).Idle? && Done(Run(s, more), es)
  {
    OwnAre(more, c);
    CallsAre(c, |es| + 1);
    WorkRun(s, more, c, es);
    RowsMove(c, |es| + 1, es);
    MovesOn(Holding(es), Rows(c, |es| + 1), Ack(c));
  }

  lemma {:induction false} OwnAre(more: seq<Event>, c: nat)
    ensures forall i :: 0 <= i < |more| && Of(more[i], c) ==> more[i] in Own(more, c)
  {
    if more != [] { OwnAre(more[..|more| - 1], c); }
  }

  lemma {:induction false} CallsAre(c: nat, n: nat)
    ensures forall e :: e in Rows(c, n) ==> AfterBatch(e)
    ensures forall e :: e in PassCalls(c, n) ==> AfterBatch(e)
  {
    if n > 0 { CallsAre(c, n - 1); }
  }

  lemma FetchIds(s: State, a: seq<Id>, b: seq<Id>)
    requires ToSet(a) <= s.entries.Keys && ToSet(b) <= s.entries.Keys
    ensures Ids(Fetch(s, a) + Fetch(s, b)) == a + b
  {
  }

  /** The claim and the read together hand the consumer exactly the ids it was given, at most a batch of
      each. */
  lemma Fetches(s: State, c: nat, claimed: seq<Id>, unread: seq<Id>, upTo: Id)
    requires Inv(s) && At(s, c).Idle?
    requires |claimed| <= BATCH && ToSet(claimed) <= s.pending * s.stream && Unread(s, unread, upTo)
    ensures var t := Step(Step(s, Claim(c, claimed)), Read(c, unread, upTo));
      Inv(t) && t.stream == s.stream && At(t, c).Holding? && Ids(At(t, c).entries) == claimed + unread
  {
    var s1 := Step(s, Claim(c, claimed));
    StepKeeps(s, Claim(c, claimed));
    StepKeeps(s1, Read(c, unread, upTo));
    assert At(s1, c) == Claimed(Fetch(s, claimed)) && Unread(s1, unread, upTo);
    FetchIds(s, claimed, unread);
  }
}
