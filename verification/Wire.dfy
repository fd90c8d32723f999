/** The PostgreSQL v3 message codec (services/notebook_sql_proxy/wire.py; the formats are section 55.7,
    "Message Formats", of the PostgreSQL 15 documentation). Text is its encoded bytes. */
module Wire {
  import opened Common

  type Byte = x: int | 0 <= x < 256
  type Bytes = seq<Byte>

  const PROTOCOL_3 := 196608
  const SSL_REQUEST := 80877103
  const GSSENC_REQUEST := 80877104
  const CANCEL_REQUEST := 80877102

  // ---------------------------------------------------------------- 32-bit fields

  predicate Fits(n: int) { 0 <= n < 0x1_0000_0000 }

  function Pack(n: int): (r: Bytes)
    requires Fits(n)
    ensures |r| == 4
  {
    [n / 0x100_0000, n / 0x1_0000 % 256, n / 256 % 256, n % 256]
  }

  function Unpack(b: Bytes): int
    requires |b| == 4
  {
    b[0] as int * 0x100_0000 + b[1] as int * 0x1_0000 + b[2] as int * 256 + b[3]
  }

  lemma UnpackPack(n: int)
    requires Fits(n)
    ensures Unpack(Pack(n)) == n
  {
    Carry(n);
    Carry(n / 256);
    Carry(n / 256 / 256);
    assert n / 0x1_0000 == n / 256 / 256 && n / 0x100_0000 == n / 256 / 256 / 256;
  }

  lemma Carry(n: int)
    requires n >= 0
    ensures n == n / 256 * 256 + n % 256
  {
  }

  lemma PackUnpack(b: Bytes)
    requires |b| == 4
    ensures Fits(Unpack(b)) && Pack(Unpack(b)) == b
  {
    var n := Unpack(b);
    assert n / 256 == b[0] as int * 0x1_0000 + b[1] as int * 256 + b[2];
    assert n / 0x1_0000 == b[0] as int * 256 + b[1];
    assert n / 0x100_0000 == b[0];
  }

  // ---------------------------------------------------------------- regular messages

  datatype Message = Message(kind: Byte, payload: Bytes)

  /** `None` where the length field cannot hold the length. */
  function BuildMessage(m: Message): Option<Bytes> {
    if Fits(|m.payload| + 4) then Some([m.kind] + Pack(|m.payload| + 4) + m.payload) else None
  }

  datatype Split = Split(message: Message, rest: Bytes)

  /** The message at the front, or `None` while it is incomplete. The length field is taken as it is:
      one below four, which no message has, leaves part of the header in the rest. */
  function SplitMessage(data: Bytes): (r: Option<Split>)
    ensures r.Some? ==> |r.value.rest| < |data|
  {
    if |data| < 5 then None
    else
      var total := 1 + Unpack(data[1..5]);
      if |data| < total then None
      else Some(Split(Message(data[0], if total < 5 then [] else data[5..total]), data[total..]))
  }

  lemma SplitUndoesBuild(m: Message, rest: Bytes)
    requires BuildMessage(m).Some?
    ensures SplitMessage(BuildMessage(m).value + rest) == Some(Split(m, rest))
  {
    var n := |m.payload| + 4;
    var data := BuildMessage(m).value + rest;
    UnpackPack(n);
    assert data[1..5] == Pack(n);
    assert data[5..1 + n] == m.payload;
    assert data[1 + n..] == rest;
  }

  /** What is split off is what a message was built from, exactly when the length field is at least
      four. */
  lemma BuildUndoesSplitExactly(data: Bytes)
    requires SplitMessage(data).Some?
    ensures var s := SplitMessage(data).value;
      (BuildMessage(s.message).Some? && BuildMessage(s.message).value + s.rest == data) <==> Unpack(data[1..5]) >= 4
  {
    var s, n := SplitMessage(data).value, Unpack(data[1..5]);
    PackUnpack(data[1..5]);
    if n >= 4 {
      assert |s.message.payload| + 4 == n;
      assert data == [data[0]] + data[1..5] + data[5..1 + n] + data[1 + n..];
    } else {
      assert |BuildMessage(s.message).value + s.rest| == 5 + |data| - 1 - n;
    }
  }

  /** A length field of zero is not refused: what is split off rebuilds to other bytes. */
  lemma ShortLengthTaken(kind: Byte)
    ensures var data: Bytes := [kind, 0, 0, 0, 0];
      && SplitMessage(data) == Some(Split(Message(kind, []), [0, 0, 0, 0]))
      && BuildMessage(Message(kind, [])).value + [0, 0, 0, 0] != data
  {
    var data: Bytes := [kind, 0, 0, 0, 0];
    assert data[1..5] == [0, 0, 0, 0] && data[1..] == [0, 0, 0, 0];
    assert Unpack(data[1..5]) == 0;
  }

  /** A cut-off message is recognised as incomplete, wherever it is cut. */
  lemma IncompleteWaits(m: Message, k: nat)
    requires BuildMessage(m).Some? && k < |BuildMessage(m).value|
    ensures SplitMessage(BuildMessage(m).value[..k]).None?
  {
    var whole := BuildMessage(m).value;
    if k >= 5 {
      UnpackPack(|m.payload| + 4);
      assert whole[..k][1..5] == Pack(|m.payload| + 4);
    }
  }

  predicate AllBuild(ms: seq<Message>) { forall i :: 0 <= i < |ms| ==> BuildMessage(ms[i]).Some? }

  function Concat(ms: seq<Message>): Bytes
    requires AllBuild(ms)
  {
    if ms == [] then [] else BuildMessage(ms[0]).value + Concat(ms[1..])
  }

  /** Splits messages off a buffer until none is complete. */
  method SplitAll(buffer: Bytes) returns (ms: seq<Message>, rest: Bytes)
    ensures SplitMessage(rest).None? && Splits(buffer, ms, rest)
  {
    ms, rest := [], buffer;
    var next := SplitMessage(rest);
    while next.Some?
      invariant next == SplitMessage(rest) && Splits(buffer, ms, rest)
      decreases |rest|
    {
      SplitsOneMore(buffer, ms, rest);
      ms, rest := ms + [next.value.message], next.value.rest;
      next := SplitMessage(rest);
    }
  }

  /** Repeated splitting takes `buffer` to `ms` and `rest`. */
  ghost predicate Splits(buffer: Bytes, ms: seq<Message>, rest: Bytes) {
    if ms == [] then buffer == rest
    else SplitMessage(buffer).Some? && SplitMessage(buffer).value.message == ms[0] && Splits(SplitMessage(buffer).value.rest, ms[1..], rest)
  }

  lemma {:induction false} SplitsOneMore(buffer: Bytes, ms: seq<Message>, rest: Bytes)
    requires Splits(buffer, ms, rest) && SplitMessage(rest).Some?
    ensures Splits(buffer, ms + [SplitMessage(rest).value.message], SplitMessage(rest).value.rest)
  {
    var more := ms + [SplitMessage(rest).value.message];
    if ms == [] {
      assert more[1..] == [];
    } else {
      SplitsOneMore(SplitMessage(buffer).value.rest, ms[1..], rest);
      assert more[1..] == ms[1..] + [SplitMessage(rest).value.message];
    }
  }

  /** Splitting any concatenation of built messages, and the beginning of one more, gives back exactly
      those messages and that beginning. */
  lemma {:induction false} SplitsExactly(ms: seq<Message>, next: Message, k: nat, got: seq<Message>, rest: Bytes)
    requires AllBuild(ms) && BuildMessage(next).Some? && k < |BuildMessage(next).value|
    requires Splits(Concat(ms) + BuildMessage(next).value[..k], got, rest) && SplitMessage(rest).None?
    ensures got == ms && rest == BuildMessage(next).value[..k]
  {
    IncompleteWaits(next, k);
    SplitsTo(ms, BuildMessage(next).value[..k], got, rest);
  }

  lemma {:induction false} SplitsTo(ms: seq<Message>, part: Bytes, got: seq<Message>, rest: Bytes)
    requires AllBuild(ms) && SplitMessage(part).None? && SplitMessage(rest).None? && Splits(Concat(ms) + part, got, rest)
    ensures got == ms && rest == part
  {
    if ms == [] {
      assert Concat(ms) + part == part;
    } else {
      FirstSplits(ms, part);
      SplitsTo(ms[1..], part, got[1..], rest);
      assert got == [got[0]] + got[1..];
    }
  }

  lemma FirstSplits(ms: seq<Message>, part: Bytes)
    requires AllBuild(ms) && ms != []
    ensures SplitMessage(Concat(ms) + part) == Some(Split(ms[0], Concat(ms[1..]) + part))
  {
    assert Concat(ms) + part == BuildMessage(ms[0]).value + (Concat(ms[1..]) + part);
    SplitUndoesBuild(ms[0], Concat(ms[1..]) + part);
  }

  // ---------------------------------------------------------------- NUL-terminated strings

  /** The pieces between NULs. */
  function Pieces(b: Bytes): (r: seq<Bytes>)
    ensures r != []
  {
    if b == [] then [[]]
    else if b[0] == 0 then [[]] + Pieces(b[1..])
    else var rest := Pieces(b[1..]); [[b[0]] + rest[0]] + rest[1..]
  }

  /** A NUL-terminated string and what follows it. */
  function Cut(a: Bytes, rest: Bytes): Bytes { a + [0] + rest }

  lemma CutAppend(a: Bytes, rest: Bytes, tail: Bytes)
    ensures Cut(a, rest) + tail == Cut(a, rest + tail)
  {
  }

  lemma {:induction false} PiecesJoin(a: Bytes, b: Bytes)
    requires 0 !in a
    ensures Pieces(Cut(a, b)) == [a] + Pieces(b)
  {
    if a == [] {
      assert Cut(a, b)[1..] == b;
    } else {
      assert Cut(a, b)[1..] == Cut(a[1..], b);
      PiecesJoin(a[1..], b);
      assert [a[0]] + a[1..] == a;
    }
  }

  /** Cutting at the first NUL. */
  lemma {:induction false} FirstPiece(b: Bytes) returns (rest: Bytes)
    requires |Pieces(b)| > 1
    ensures b == Cut(Pieces(b)[0], rest) && Pieces(rest) == Pieces(b)[1..] && 0 !in Pieces(b)[0]
  {
    if b[0] == 0 {
      rest := b[1..];
    } else {
      rest := FirstPiece(b[1..]);
      assert b == [b[0]] + b[1..];
    }
  }

  lemma {:induction false} OnePiece(b: Bytes)
    requires |Pieces(b)| == 1
    ensures Pieces(b) == [b] && 0 !in b
  {
    if b != [] { OnePiece(b[1..]); assert b == [b[0]] + b[1..]; }
  }

  // ---------------------------------------------------------------- the startup message

  datatype Param = Param(key: Bytes, value: Bytes)

  predicate Sendable(ps: seq<Param>) { forall i :: 0 <= i < |ps| ==> ps[i].key != [] && 0 !in ps[i].key && 0 !in ps[i].value }

  function Pairs(ps: seq<Param>): Bytes { if ps == [] then [] else Cut(ps[0].key, Cut(ps[0].value, Pairs(ps[1..]))) }

  /** The map a sequence of parameters sets, a later value replacing an earlier one. */
  function Settings(ps: seq<Param>): map<Bytes, Bytes> {
    if ps == [] then map[] else Settings(ps[..|ps| - 1])[ps[|ps| - 1].key := ps[|ps| - 1].value]
  }

  method BuildStartupMessage(params: seq<Param>) returns (r: Option<Bytes>)
    ensures r == if Fits(|Pairs(params)| + 9) then Some(Pack(|Pairs(params)| + 9) + Pack(PROTOCOL_3) + Pairs(params) + [0]) else None
  {
    var body := Pack(PROTOCOL_3);
    for i := 0 to |params|
      invariant body == Pack(PROTOCOL_3) + Pairs(params[..i])
    {
      PairsAppend(params[..i], params[i]);
      assert params[..i + 1] == params[..i] + [params[i]];
      PairBytes(body, params[i]);
      body := body + params[i].key + [0] + params[i].value + [0];
    }
    assert params[..|params|] == params;
    body := body + [0];
    if !Fits(|body| + 4) { return None; }
    assert Pack(|body| + 4) + body == Pack(|Pairs(params)| + 9) + Pack(PROTOCOL_3) + Pairs(params) + [0];
    return Some(Pack(|body| + 4) + body);
  }

  lemma PairBytes(body: Bytes, p: Param)
    ensures body + p.key + [0] + p.value + [0] == body + Cut(p.key, Cut(p.value, []))
  {
  }

  lemma {:induction false} PairsAppend(ps: seq<Param>, p: Param)
    ensures Pairs(ps + [p]) == Pairs(ps) + Cut(p.key, Cut(p.value, []))
  {
    var last := Cut(p.key, Cut(p.value, []));
    if ps == [] {
      assert ps + [p] == [p] && [p][1..] == [];
      assert Pairs(ps) + last == last;
    } else {
      assert (ps + [p])[1..] == ps[1..] + [p];
      PairsAppend(ps[1..], p);
      CutAppend(ps[0].value, Pairs(ps[1..]), last);
      CutAppend(ps[0].key, Cut(ps[0].value, Pairs(ps[1..])), last);
    }
  }

  /** Pairs of pieces up to the first empty key; `None` when they run out first. */
  function Parameters(pieces: seq<Bytes>): Option<seq<Param>> {
    if pieces == [] then None
    else if pieces[0] == [] then Some([])
    else if |pieces| == 1 then None
    else
      var rest := Parameters(pieces[2..]);
      if rest.None? then None else Some([Param(pieces[0], pieces[1])] + rest.value)
  }

  datatype Startup = Startup(code: int, params: map<Bytes, Bytes>)

  function StartupOf(data: Bytes): Option<Startup> {
    if |data| < 4 then None
    else
      var code := Unpack(data[..4]);
      if code in {SSL_REQUEST, GSSENC_REQUEST, CANCEL_REQUEST} then Some(Startup(code, map[]))
      else if code != PROTOCOL_3 || |data| == 4 || data[|data| - 1] != 0 then None
      else
        var ps := Parameters(Pieces(data[4..]));
        if ps.None? then None else Some(Startup(code, Settings(ps.value)))
  }

  lemma {:induction false} SettingsAppend(ps: seq<Param>, p: Param)
    ensures Settings(ps + [p]) == Settings(ps)[p.key := p.value]
  {
    assert (ps + [p])[..|ps|] == ps;
  }

  method ParseStartupPacket(data: Bytes) returns (r: Option<Startup>)
    ensures r == StartupOf(data)
  {
    if |data| < 4 { return None; }
    var code := Unpack(data[..4]);
    if code in {SSL_REQUEST, GSSENC_REQUEST, CANCEL_REQUEST} { return Some(Startup(code, map[])); }
    if code != PROTOCOL_3 { return None; }
    var body := data[4..];
    if body == [] || body[|body| - 1] != 0 { return None; }
    var pieces, i, params := Pieces(body), 0, map[];
    ghost var done: seq<Param> := [];
    assert pieces[0..] == pieces && forall ps: seq<Param> :: done + ps == ps;
    while i < |pieces|
      invariant i <= |pieces| && params == Settings(done)
      invariant var left := Parameters(pieces[i..]);
        Parameters(pieces) == if left.None? then None else Some(done + left.value)
      decreases |pieces| - i
    {
      if pieces[i] == [] {
        assert done + [] == done;
        return Some(Startup(code, params));
      }
      if i + 1 >= |pieces| { return None; }
      var p := Param(pieces[i], pieces[i + 1]);
      assert pieces[i..][2..] == pieces[i + 2..];
      SettingsAppend(done, p);
      assert forall ps: seq<Param> :: done + ([p] + ps) == done + [p] + ps;
      params := params[p.key := p.value];
      done := done + [p];
      i := i + 2;
    }
    return None;
  }

  lemma PiecesOfPair(k: Bytes, v: Bytes, rest: Bytes)
    requires 0 !in k && 0 !in v
    ensures Pieces(Cut(k, Cut(v, rest))) == [k, v] + Pieces(rest)
  {
    PiecesJoin(k, Cut(v, rest));
    PiecesJoin(v, rest);
  }

  lemma {:induction false} PiecesOfPairs(ps: seq<Param>, tail: Bytes)
    requires Sendable(ps)
    ensures Pieces(Pairs(ps) + tail) == Flat(ps) + Pieces(tail)
  {
    if ps == [] {
      assert Pairs(ps) + tail == tail && Flat(ps) + Pieces(tail) == Pieces(tail);
    } else {
      PiecesOfPairs(ps[1..], tail);
      PiecesOfPair(ps[0].key, ps[0].value, Pairs(ps[1..]) + tail);
      PairsFirst(ps[0], ps[1..], tail);
      assert [ps[0]] + ps[1..] == ps;
      FlatFirst(ps, Pieces(tail));
    }
  }

  lemma FlatFirst(ps: seq<Param>, rest: seq<Bytes>)
    requires ps != []
    ensures Flat(ps) + rest == [ps[0].key, ps[0].value] + (Flat(ps[1..]) + rest)
  {
  }

  function Flat(ps: seq<Param>): seq<Bytes> { if ps == [] then [] else [ps[0].key, ps[0].value] + Flat(ps[1..]) }

  lemma {:induction false} ParametersOfFlat(ps: seq<Param>, rest: seq<Bytes>)
    requires Sendable(ps) && rest != [] && rest[0] == []
    ensures Parameters(Flat(ps) + rest) == Some(ps)
  {
    if ps == [] {
      assert Flat(ps) + rest == rest;
    } else {
      var all := Flat(ps) + rest;
      assert all[2..] == Flat(ps[1..]) + rest;
      ParametersOfFlat(ps[1..], rest);
      assert [ps[0]] + ps[1..] == ps;
    }
  }

  /** Parsing undoes building: the body of a built startup message gives back the parameters sent, empty
      values included. */
  lemma StartupRoundTrip(ps: seq<Param>)
    requires Sendable(ps)
    ensures StartupOf(Pack(PROTOCOL_3) + Pairs(ps) + [0]) == Some(Startup(PROTOCOL_3, Settings(ps)))
  {
    var data := Pack(PROTOCOL_3) + Pairs(ps) + [0];
    UnpackPack(PROTOCOL_3);
    assert data[..4] == Pack(PROTOCOL_3) && data[4..] == Pairs(ps) + [0];
    PiecesOfPairs(ps, [0]);
    assert [0 as Byte][1..] == [];
    ParametersOfFlat(ps, Pieces([0]));
  }

  predicate DistinctKeys(ps: seq<Param>) { forall i, j :: 0 <= i < j < |ps| ==> ps[i].key != ps[j].key }

  lemma {:induction false} SettingsHold(ps: seq<Param>, i: nat)
    requires DistinctKeys(ps) && i < |ps|
    ensures ps[i].key in Settings(ps) && Settings(ps)[ps[i].key] == ps[i].value
  {
    if i < |ps| - 1 { SettingsHold(ps[..|ps| - 1], i); }
  }

  lemma {:induction false} SettingsFrom(ps: seq<Param>, k: Bytes) returns (i: nat)
    requires k in Settings(ps)
    ensures i < |ps| && ps[i].key == k
  {
    i := |ps| - 1;
    if ps[i].key != k { i := SettingsFrom(ps[..i], k); }
  }

  /** For parameters that are a map, in whatever order it is walked, that is the map itself. */
  lemma SettingsOfMap(ps: seq<Param>, m: map<Bytes, Bytes>)
    requires DistinctKeys(ps) && forall i :: 0 <= i < |ps| ==> ps[i].key in m && m[ps[i].key] == ps[i].value
    requires forall k :: k in m ==> Param(k, m[k]) in ps
    ensures Settings(ps) == m
  {
    forall k | k in m ensures k in Settings(ps) && Settings(ps)[k] == m[k] {
      var i :| 0 <= i < |ps| && ps[i] == Param(k, m[k]);
      SettingsHold(ps, i);
    }
    forall k | k in Settings(ps) ensures k in m {
      var i := SettingsFrom(ps, k);
    }
  }

  /** The bytes a parameter area may hold: pairs, then nothing, or a NUL and whatever ends in one. */
  ghost predicate Area(body: Bytes, ps: seq<Param>) {
    Sendable(ps) && exists tail :: body == Pairs(ps) + tail && AreaEnd(tail, ps)
  }

  predicate AreaEnd(tail: Bytes, ps: seq<Param>) {
    if tail == [] then ps != [] else tail[0] == 0 && tail[|tail| - 1] == 0
  }

  /** A startup body is accepted exactly when it is a parameter area: the last terminator may be
      missing, and anything after it is ignored. */
  lemma StartupAccepted(body: Bytes, ps: seq<Param>)
    ensures Area(body, ps) <==> body != [] && body[|body| - 1] == 0 && Parameters(Pieces(body)) == Some(ps)
  {
    if Area(body, ps) {
      var tail :| body == Pairs(ps) + tail && AreaEnd(tail, ps);
      PiecesOfPairs(ps, tail);
      ParametersOfFlat(ps, Pieces(tail));
      if tail == [] { PairsEnd(ps); }
    }
    if body != [] && body[|body| - 1] == 0 && Parameters(Pieces(body)) == Some(ps) {
      var tail := ParametersFrom(body, ps);
    }
  }

  /** Any startup body with a parameter is accepted without its final terminator, and read the same. */
  lemma UnterminatedTaken(ps: seq<Param>)
    requires Sendable(ps) && ps != []
    ensures StartupOf(Pack(PROTOCOL_3) + Pairs(ps)) == StartupOf(Pack(PROTOCOL_3) + Pairs(ps) + [0])
    ensures StartupOf(Pack(PROTOCOL_3) + Pairs(ps)) == Some(Startup(PROTOCOL_3, Settings(ps)))
  {
    var data := Pack(PROTOCOL_3) + Pairs(ps);
    UnpackPack(PROTOCOL_3);
    assert data[..4] == Pack(PROTOCOL_3) && data[4..] == Pairs(ps);
    PairsEnd(ps);
    assert Pairs(ps) == Pairs(ps) + [] && AreaEnd([], ps);
    StartupAccepted(Pairs(ps), ps);
    StartupRoundTrip(ps);
  }

  lemma {:induction false} PairsEnd(ps: seq<Param>)
    requires ps != []
    ensures Pairs(ps) != [] && Pairs(ps)[|Pairs(ps)| - 1] == 0
  {
    if |ps| > 1 { PairsEnd(ps[1..]); }
  }

  /** Cutting at the second NUL. */
  lemma TwoPieces(b: Bytes) returns (rest: Bytes)
    requires |Pieces(b)| > 2
    ensures var k, v := Pieces(b)[0], Pieces(b)[1];
      b == Cut(k, Cut(v, rest)) && Pieces(rest) == Pieces(b)[2..] && 0 !in k && 0 !in v
  {
    var one := FirstPiece(b);
    rest := FirstPiece(one);
  }

  lemma PairsFirst(p: Param, ps: seq<Param>, tail: Bytes)
    ensures Pairs([p] + ps) + tail == Cut(p.key, Cut(p.value, Pairs(ps) + tail))
  {
    assert ([p] + ps)[1..] == ps;
    CutAppend(p.value, Pairs(ps), tail);
    CutAppend(p.key, Cut(p.value, Pairs(ps)), tail);
  }

  lemma {:induction false} ParametersFrom(body: Bytes, ps: seq<Param>) returns (tail: Bytes)
    requires (body == [] || body[|body| - 1] == 0) && Parameters(Pieces(body)) == Some(ps)
    ensures Sendable(ps) && body == Pairs(ps) + tail
    ensures tail == [] || (tail[0] == 0 && tail[|tail| - 1] == 0)
    ensures tail == [] ==> body == [] || ps != []
    decreases |body|
  {
    var pieces := Pieces(body);
    if pieces[0] == [] {
      tail := body;
    } else {
      assert |pieces| > 2;
      var rest := TwoPieces(body);
      assert rest != [] ==> rest[|rest| - 1] == body[|body| - 1];
      tail := ParametersFrom(rest, ps[1..]);
      var p := Param(pieces[0], pieces[1]);
      assert ps == [p] + ps[1..];
      PairsFirst(p, ps[1..], tail);
    }
  }

  // ---------------------------------------------------------------- the other messages

  function BuildCancel(pid: int, key: int): Bytes
    requires Fits(pid) && Fits(key)
  {
    Pack(16) + Pack(CANCEL_REQUEST) + Pack(pid) + Pack(key)
  }

  function ParseCancel(data: Bytes): Option<(int, int)> {
    if |data| != 12 || Unpack(data[..4]) != CANCEL_REQUEST then None else Some((Unpack(data[4..8]), Unpack(data[8..12])))
  }

  /** A cancel request is parsed exactly from the body of the one built for its process and key. */
  lemma CancelExactly(data: Bytes, pid: int, key: int)
    requires Fits(pid) && Fits(key)
    ensures ParseCancel(data) == Some((pid, key)) <==> data == BuildCancel(pid, key)[4..]
  {
    var body := Pack(CANCEL_REQUEST) + Pack(pid) + Pack(key);
    assert BuildCancel(pid, key)[4..] == body;
    UnpackPack(CANCEL_REQUEST);
    UnpackPack(pid);
    UnpackPack(key);
    assert body[..4] == Pack(CANCEL_REQUEST) && body[4..8] == Pack(pid) && body[8..12] == Pack(key);
    if ParseCancel(data) == Some((pid, key)) {
      PackUnpack(data[..4]);
      PackUnpack(data[4..8]);
      PackUnpack(data[8..12]);
      assert data == data[..4] + data[4..8] + data[8..12];
    }
  }

  const TAG_S: Byte := 83
  const TAG_V: Byte := 86
  const TAG_C: Byte := 67
  const TAG_M: Byte := 77

  function ErrorBody(message: Bytes, code: Bytes, severity: Bytes): Bytes {
    Cut([TAG_S] + severity, Cut([TAG_V] + severity, Cut([TAG_C] + code, Cut([TAG_M] + message, [0]))))
  }

  function Tagged(pieces: seq<Bytes>): map<Byte, Bytes> {
    if pieces == [] then map[]
    else
      var before, last := Tagged(pieces[..|pieces| - 1]), pieces[|pieces| - 1];
      if last == [] then before else before[last[0] := last[1..]]
  }

  method ParseErrorResponse(payload: Bytes) returns (fields: map<Byte, Bytes>)
    ensures fields == Tagged(Pieces(payload))
  {
    fields := map[];
    var pieces := Pieces(payload);
    for i := 0 to |pieces|
      invariant fields == Tagged(pieces[..i])
    {
      assert pieces[..i + 1][..i] == pieces[..i];
      if pieces[i] != [] { fields := fields[pieces[i][0] := pieces[i][1..]]; }
    }
    assert pieces[..|pieces|] == pieces;
  }

  /** An error built of NUL-free text is read back field by field, whatever is empty in it. */
  lemma ErrorRoundTrip(message: Bytes, code: Bytes, severity: Bytes)
    requires 0 !in message && 0 !in code && 0 !in severity
    ensures Tagged(Pieces(ErrorBody(message, code, severity))) == map[TAG_S := severity, TAG_V := severity, TAG_C := code, TAG_M := message]
  {
    var m: Bytes := Cut([TAG_M] + message, [0]);
    var c: Bytes := Cut([TAG_C] + code, m);
    PiecesJoin([TAG_S] + severity, Cut([TAG_V] + severity, c));
    PiecesJoin([TAG_V] + severity, c);
    PiecesJoin([TAG_C] + code, m);
    PiecesJoin([TAG_M] + message, [0]);
    assert Pieces([0]) == [[], []] by { assert [0 as Byte][1..] == []; }
    var four: seq<Bytes> := [[TAG_S] + severity, [TAG_V] + severity, [TAG_C] + code, [TAG_M] + message];
    assert Pieces(ErrorBody(message, code, severity)) == four + [[], []];
    EmptyPieces(four);
    FourFields(severity, severity, code, message);
  }

  lemma EmptyPieces(pieces: seq<Bytes>)
    ensures Tagged(pieces + [[], []]) == Tagged(pieces)
  {
    var one := pieces + [[]];
    assert pieces + [[], []] == one + [[]];
    assert (one + [[]])[..|one|] == one && one[..|pieces|] == pieces;
  }

  lemma FourFields(a: Bytes, b: Bytes, c: Bytes, d: Bytes)
    ensures Tagged([[TAG_S] + a, [TAG_V] + b, [TAG_C] + c, [TAG_M] + d]) == map[TAG_S := a, TAG_V := b, TAG_C := c, TAG_M := d]
  {
    var all: seq<Bytes> := [[TAG_S] + a, [TAG_V] + b, [TAG_C] + c, [TAG_M] + d];
    assert all[..3][..2] == all[..2] && all[..2][..1] == all[..1] && all[..1][..0] == [];
    assert Tagged(all[..1]) == map[TAG_S := a];
    assert Tagged(all[..2]) == map[TAG_S := a, TAG_V := b];
    assert Tagged(all[..3]) == map[TAG_S := a, TAG_V := b, TAG_C := c];
  }
}
