/** The writer that drains the capability-use stream into its table
    (services/api_gateway/messaging/capability_audit_drain.py). */
module AuditDrain {
  import opened Common

  type Id = nat

  /** What a stream entry holds, as the writer finds it: not an event of the contract, or a row, which
      the database refuses for its own data or takes. */
  datatype Fields = Unreadable | Row(refused: bool, body: string)
  datatype Entry = Entry(id: Id, fields: Fields)
  datatype Stored = Stored(id: Id, body: string)

  // ---------------------------------------------------------------- the table

  predicate Holds(rows: seq<Stored>, id: Id) { exists r :: r in rows && r.id == id }

  /** `INSERT … ON CONFLICT (stream_id) DO NOTHING`. */
  function Insert(rows: seq<Stored>, r: Stored): seq<Stored> { if Holds(rows, r.id) then rows else rows + [r] }

  function InsertAll(rows: seq<Stored>, more: seq<Stored>): seq<Stored> {
    if more == [] then rows else Insert(InsertAll(rows, more[..|more| - 1]), more[|more| - 1])
  }

  predicate Takes(e: Entry) { e.fields.Row? && !e.fields.refused }

  predicate AllTaken(es: seq<Entry>) { forall i :: 0 <= i < |es| ==> Takes(es[i]) }

  lemma TakenNext(es: seq<Entry>, i: nat)
    requires i < |es| && AllTaken(es[..i])
    ensures AllTaken(es[..i + 1]) <==> Takes(es[i])
    ensures !Takes(es[i]) ==> !AllTaken(es)
  {
    assert es[..i + 1] == es[..i] + [es[i]];
  }

  predicate AllRows(es: seq<Entry>) { forall i :: 0 <= i < |es| ==> es[i].fields.Row? }

  /** The rows the database takes of these entries, in order. */
  function Accepted(es: seq<Entry>): seq<Stored> {
    if es == [] then []
    else
      var e := es[|es| - 1];
      Accepted(es[..|es| - 1]) + if Takes(e) then [Stored(e.id, e.fields.body)] else []
  }

  predicate UniqueIds(rows: seq<Stored>) { forall i, j :: 0 <= i < j < |rows| ==> rows[i].id != rows[j].id }

  lemma InsertUnique(rows: seq<Stored>, r: Stored)
    requires UniqueIds(rows)
    ensures UniqueIds(Insert(rows, r))
    ensures forall id :: Holds(Insert(rows, r), id) <==> Holds(rows, id) || id == r.id
  {
    assert r in rows + [r];
    assert forall x :: x in rows ==> x in rows + [r];
    if !Holds(rows, r.id) {
      assert forall i :: 0 <= i < |rows| ==> rows[i] in rows && rows[i].id != r.id;
    }
  }

  /** Inserting any rows, again or not, leaves each id once, keeps what was there and adds no id but
      theirs. */
  lemma {:induction false} InsertAllUnique(rows: seq<Stored>, more: seq<Stored>)
    requires UniqueIds(rows)
    ensures UniqueIds(InsertAll(rows, more)) && rows <= InsertAll(rows, more)
    ensures forall id :: Holds(InsertAll(rows, more), id) <==> Holds(rows, id) || Holds(more, id)
  {
    if more != [] {
      var front, r := more[..|more| - 1], more[|more| - 1];
      InsertAllUnique(rows, front);
      InsertUnique(InsertAll(rows, front), r);
      assert r in more && forall x :: x in front ==> x in more;
      assert forall x :: x in more ==> x in front || x == r;
    }
  }

  /** Redelivered rows change nothing. */
  lemma {:induction false} InsertAgain(rows: seq<Stored>, more: seq<Stored>)
    requires forall i :: 0 <= i < |more| ==> Holds(rows, more[i].id)
    ensures InsertAll(rows, more) == rows
  {
    if more != [] {
      InsertAgain(rows, more[..|more| - 1]);
    }
  }

  lemma {:induction false} InsertAllSplit(rows: seq<Stored>, a: seq<Stored>, b: seq<Stored>)
    ensures InsertAll(rows, a + b) == InsertAll(InsertAll(rows, a), b)
  {
    if b == [] {
      assert a + b == a;
    } else {
      assert (a + b)[..|a + b| - 1] == a + b[..|b| - 1];
      InsertAllSplit(rows, a, b[..|b| - 1]);
    }
  }

  lemma AcceptedAppend(es: seq<Entry>, e: Entry)
    ensures Accepted(es + [e]) == Accepted(es) + if Takes(e) then [Stored(e.id, e.fields.body)] else []
  {
    assert (es + [e])[..|es|] == es;
  }

  function InsertEntry(rows: seq<Stored>, e: Entry): seq<Stored> {
    if Takes(e) then Insert(rows, Stored(e.id, e.fields.body)) else rows
  }

  lemma InsertNext(rows: seq<Stored>, es: seq<Entry>, i: nat)
    requires i < |es|
    ensures InsertAll(rows, Accepted(es[..i + 1])) == InsertEntry(InsertAll(rows, Accepted(es[..i])), es[i])
  {
    assert es[..i + 1] == es[..i] + [es[i]];
    AcceptedAppend(es[..i], es[i]);
    if !Takes(es[i]) {
      assert Accepted(es[..i + 1]) == Accepted(es[..i]);
    } else {
      var r := Stored(es[i].id, es[i].fields.body);
      InsertAllSplit(rows, Accepted(es[..i]), [r]);
      assert [r][..0] == [];
      assert InsertAll(InsertAll(rows, Accepted(es[..i])), [r]) == Insert(InsertAll(rows, Accepted(es[..i])), r);
    }
  }

  lemma {:induction false} AcceptedIds(es: seq<Entry>, r: Stored)
    ensures r in Accepted(es) <==> exists e :: e in es && Takes(e) && r == Stored(e.id, e.fields.body)
  {
    if es != [] {
      var e := es[|es| - 1];
      AcceptedIds(es[..|es| - 1], r);
      assert forall x :: x in es <==> x in es[..|es| - 1] || x == e;
    }
  }

  function Ids(es: seq<Entry>): seq<Id> { seq(|es|, i requires 0 <= i < |es| => es[i].id) }

  /** The readable entries, in order. */
  function Readable(es: seq<Entry>): seq<Entry> {
    if es == [] then []
    else Readable(es[..|es| - 1]) + if es[|es| - 1].fields.Row? then [es[|es| - 1]] else []
  }

  lemma {:induction false} AcceptedReadable(es: seq<Entry>)
    ensures Accepted(Readable(es)) == Accepted(es)
    ensures AllRows(Readable(es))
    ensures |Readable(es)| <= |es|
  {
    if es != [] {
      var front, e := es[..|es| - 1], es[|es| - 1];
      AcceptedReadable(front);
      if e.fields.Row? {
        AcceptedAppend(Readable(front), e);
      } else {
        assert Readable(es) == Readable(front) && Accepted(es) == Accepted(front);
      }
    }
  }

  // ---------------------------------------------------------------- write_batch

  /** The database. `statements` is how many statements it still answers before it is unreachable. */
  class Database {
    var rows: seq<Stored>
    var statements: nat

    constructor (statements: nat)
      ensures rows == [] && this.statements == statements
    {
      rows, this.statements := [], statements;
    }

    /** All rows in one transaction: committed, refused for a row's data, or cut off. */
    method WriteTogether(readable: seq<Entry>) returns (done: bool, fault: bool)
      requires AllRows(readable)
      modifies this
      ensures done ==> !fault && rows == InsertAll(old(rows), Accepted(readable)) && AllTaken(readable)
      ensures !done ==> rows == old(rows)
      ensures fault ==> !AllTaken(readable)
      ensures old(statements) >= |readable| ==> (done <==> AllTaken(readable)) && (done || fault)
      ensures statements + |readable| >= old(statements)
    {
      var pending := rows;
      var i := 0;
      while i < |readable|
        invariant i <= |readable| && pending == InsertAll(rows, Accepted(readable[..i]))
        invariant rows == old(rows) && statements + i == old(statements)
        invariant AllTaken(readable[..i])
      {
        if statements == 0 { return false, false; }
        statements := statements - 1;
        TakenNext(readable, i);
        if readable[i].fields.refused { return false, true; }
        InsertNext(rows, readable, i);
        pending := InsertEntry(pending, readable[i]);
        i := i + 1;
      }
      assert readable[..i] == readable;
      rows := pending;
      return true, false;
    }

    /** Each row in a transaction of its own; the refused ones are passed over. */
    method WriteAlone(readable: seq<Entry>) returns (done: bool)
      requires AllRows(readable)
      modifies this
      ensures done ==> rows == InsertAll(old(rows), Accepted(readable))
      ensures !done ==> exists k :: 0 <= k <= |readable| && rows == InsertAll(old(rows), Accepted(readable[..k]))
      ensures old(statements) >= |readable| ==> done
    {
      var i := 0;
      assert readable[..0] == [];
      while i < |readable|
        invariant i <= |readable| && rows == InsertAll(old(rows), Accepted(readable[..i]))
        invariant statements + i == old(statements)
      {
        var e := readable[i];
        if statements == 0 { return false; }
        statements := statements - 1;
        InsertNext(old(rows), readable, i);
        if !e.fields.refused {
          rows := Insert(rows, Stored(e.id, e.fields.body));
        }
        i := i + 1;
      }
      assert readable[..i] == readable;
      return true;
    }

    /** Writes a batch and says what to acknowledge, or raises. Whichever way the rows went in, the table
        gains exactly what the database takes of the batch; a raise leaves it with some first part. */
    method WriteBatch(entries: seq<Entry>) returns (ack: Option<seq<Id>>)
      modifies this
      ensures ack.Some? ==> ack.value == Ids(entries) && rows == InsertAll(old(rows), Accepted(entries))
      ensures ack.None? ==> exists k :: 0 <= k <= |Readable(entries)| && rows == InsertAll(old(rows), Accepted(Readable(entries)[..k]))
      ensures old(statements) >= 2 * |entries| ==> ack.Some?
    {
      var readable, ids := [], [];
      var i := 0;
      while i < |entries|
        invariant i <= |entries| && readable == Readable(entries[..i]) && ids == Ids(entries[..i])
      {
        assert entries[..i + 1][..i] == entries[..i];
        if entries[i].fields.Row? {
          readable := readable + [entries[i]];
        }
        ids := ids + [entries[i].id];
        i := i + 1;
      }
      assert entries[..i] == entries;
      AcceptedReadable(entries);
      if readable == [] { return Some(ids); }
      var done, fault := WriteTogether(readable);
      if !done {
        assert readable[..0] == [];
        if !fault { return None; }
        done := WriteAlone(readable);
        if !done { return None; }
      }
      return Some(ids);
    }
  }
}
