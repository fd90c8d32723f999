/** The alert worker's consumer loop (services/alert_service/worker/kafka_consumer.py): what it may
    commit, what it dead-letters, and how it backs off. The broker, the rules engine and the
    dead-letter producer answer through an `Environment`. */
module AlertConsumer {
  import opened Common

  /** How one evaluation attempt ends. */
  datatype Attempt = Fine | Invalid | Infrastructure | OtherError

  /** One record and everything its handling will meet. */
  datatype Message = Message(partition: nat, offset: nat, decodes: bool, attempts: nat -> Attempt, letterSent: bool)

  datatype Reason = Undecodable | InvalidReading | RetriesExhausted
  datatype Letter = Letter(partition: nat, offset: nat, reason: Reason)
  datatype Fate = Evaluated | Refused(reason: Reason) | Stalled

  /** The commit's answer; a commit that failed may have been applied all the same. */
  datatype CommitAnswer = Accepted | Recoverable(applied: bool) | Fatal(applied: bool)
  datatype BatchResult = Committed | Redeliver | Raised

  // ---------------------------------------------------------------- one message

  function AttemptFrom(attempts: nat -> Attempt, i: nat, max: nat): Fate
    requires i <= max
    decreases max - i
  {
    if i == max then Refused(RetriesExhausted)
    else match attempts(i)
      case Fine => Evaluated
      case Invalid => Refused(InvalidReading)
      case Infrastructure => Stalled
      case OtherError => AttemptFrom(attempts, i + 1, max)
  }

  function FateOf(m: Message, max: nat): Fate { if !m.decodes then Refused(Undecodable) else AttemptFrom(m.attempts, 0, max) }

  /** Evaluated, or refused with its dead letter sent: its offset may be committed. */
  predicate Handled(m: Message, max: nat) { FateOf(m, max) == Evaluated || (FateOf(m, max).Refused? && m.letterSent) }

  /** The first attempt that is not a plain failure. */
  predicate Decisive(attempts: nat -> Attempt, i: nat, j: nat) {
    i <= j && attempts(j) != OtherError && forall k: nat :: i <= k < j ==> attempts(k) == OtherError
  }

  function Decided(a: Attempt): Fate {
    if a == Fine then Evaluated else if a == Invalid then Refused(InvalidReading) else Stalled
  }

  lemma {:induction false} AttemptsDecide(attempts: nat -> Attempt, i: nat, max: nat)
    requires i <= max
    ensures AttemptFrom(attempts, i, max) == Refused(RetriesExhausted) <==> forall j: nat :: i <= j < max ==> attempts(j) == OtherError
    ensures forall j: nat :: Decisive(attempts, i, j) && j < max ==> AttemptFrom(attempts, i, max) == Decided(attempts(j))
    ensures AttemptFrom(attempts, i, max) != Refused(RetriesExhausted) ==> exists j: nat :: Decisive(attempts, i, j) && j < max
    decreases max - i
  {
    if i < max {
      if attempts(i) == OtherError {
        AttemptsDecide(attempts, i + 1, max);
        forall j: nat ensures Decisive(attempts, i, j) <==> Decisive(attempts, i + 1, j) {
          DecisiveNext(attempts, i, j);
        }
        if AttemptFrom(attempts, i, max) != Refused(RetriesExhausted) {
          var j: nat :| Decisive(attempts, i + 1, j) && j < max;
          assert Decisive(attempts, i, j);
        }
      } else {
        assert Decisive(attempts, i, i);
      }
    }
  }

  lemma DecisiveNext(attempts: nat -> Attempt, i: nat, j: nat)
    requires attempts(i) == OtherError
    ensures Decisive(attempts, i, j) <==> Decisive(attempts, i + 1, j)
  {
  }

  /** An infrastructure failure never dead-letters: a message is refused exactly if it does not decode,
      or its first decisive attempt found the reading invalid, or every attempt failed otherwise; and it
      stalls exactly when an infrastructure failure is its first decisive attempt. */
  lemma InfrastructureNeverDeadLetters(m: Message, max: nat)
    ensures FateOf(m, max) == Stalled <==>
      m.decodes && exists j: nat :: Decisive(m.attempts, 0, j) && j < max && m.attempts(j) == Infrastructure
    ensures FateOf(m, max).Refused? <==>
      !m.decodes ||
      (exists j: nat :: Decisive(m.attempts, 0, j) && j < max && m.attempts(j) == Invalid) ||
      (forall j: nat :: j < max ==> m.attempts(j) == OtherError)
  {
    AttemptsDecide(m.attempts, 0, max);
  }

  // ---------------------------------------------------------------- the loop

  /** Answers to every call the loop makes: how many records a partition has in a round, each record
      and what its handling meets, the commit's answer, the assigned partitions, and whether the process
      dies after the round. A death inside a round is a round that does not commit. */
  datatype Environment = Environment(
    count: (nat, nat) -> nat,
    record: (nat, nat, nat) -> Message,
    commit: nat -> CommitAnswer,
    assignment: nat -> seq<nat>,
    dies: nat -> bool)

  function Pow2(n: nat): nat { if n == 0 then 1 else 2 * Pow2(n - 1) }

  function BackOff(base: real, cap: real, failed: nat): real
    requires failed > 0
  {
    AtMost(base * Pow2(failed - 1) as real, cap)
  }

  function AtMost(delay: real, cap: real): real { if delay < cap then delay else cap }

  lemma AtMostGrows(x: real, y: real, cap: real)
    requires x <= y
    ensures AtMost(x, cap) <= AtMost(y, cap) <= cap
  {
  }

  /** The offsets that were processed or dead-lettered. */
  function Settled(processed: set<(nat, nat)>, letters: set<Letter>): set<(nat, nat)> {
    processed + set l | l in letters :: (l.partition, l.offset)
  }

  /** Every offset below the given ones is settled. */
  ghost predicate AllBelow(settled: set<(nat, nat)>, offsets: map<nat, nat>) {
    forall p, o: nat :: p in offsets && o < offsets[p] ==> (p, o) in settled
  }

  ghost predicate Below(settled: set<(nat, nat)>, p: nat, end: nat) { forall o: nat :: o < end ==> (p, o) in settled }

  /** Every partition handled so far is settled up to the end of its batch. */
  ghost predicate BelowAll(settled: set<(nat, nat)>, parts: seq<nat>, position: map<nat, nat>, env: Environment, round: nat) {
    forall i :: 0 <= i < |parts| ==> parts[i] in position && Below(settled, parts[i], position[parts[i]] + env.count(round, parts[i]))
  }

  lemma BelowOneMore(was: set<(nat, nat)>, now: set<(nat, nat)>, parts: seq<nat>, i: nat, position: map<nat, nat>, env: Environment, round: nat)
    requires i < |parts| && was <= now && BelowAll(was, parts[..i], position, env, round)
    requires parts[i] in position && Below(now, parts[i], position[parts[i]] + env.count(round, parts[i]))
    ensures BelowAll(now, parts[..i + 1], position, env, round)
    ensures parts[..i + 1][..i] == parts[..i]
  {
    assert parts[..i + 1] == parts[..i] + [parts[i]];
  }

  /** The offsets past the batches of these partitions, of those that had one. */
  function OffsetsOf(parts: seq<nat>, position: map<nat, nat>, env: Environment, round: nat): map<nat, nat> {
    if parts == [] then map[]
    else
      var before, p := OffsetsOf(parts[..|parts| - 1], position, env, round), parts[|parts| - 1];
      if env.count(round, p) > 0 && p in position then before[p := position[p] + env.count(round, p)] else before
  }

  lemma {:induction false} OffsetsHold(parts: seq<nat>, position: map<nat, nat>, env: Environment, round: nat, p: nat)
    ensures var m := OffsetsOf(parts, position, env, round);
      && (p in m <==> p in parts && env.count(round, p) > 0 && p in position)
      && (p in m ==> m[p] == position[p] + env.count(round, p))
  {
    if parts != [] {
      OffsetsHold(parts[..|parts| - 1], position, env, round, p);
      assert p in parts <==> p in parts[..|parts| - 1] || p == parts[|parts| - 1];
    }
  }

  lemma OffsetsAre(parts: seq<nat>, position: map<nat, nat>, env: Environment, round: nat)
    requires position.Keys == set p | p in parts
    ensures OffsetsOf(parts, position, env, round) == ToCommit(position, env, round)
  {
    forall p ensures p in OffsetsOf(parts, position, env, round) <==> p in ToCommit(position, env, round) {
      OffsetsHold(parts, position, env, round, p);
    }
    forall p | p in ToCommit(position, env, round)
      ensures OffsetsOf(parts, position, env, round)[p] == ToCommit(position, env, round)[p]
    {
      OffsetsHold(parts, position, env, round, p);
    }
  }

  lemma BelowEnds(settled: set<(nat, nat)>, parts: seq<nat>, position: map<nat, nat>, env: Environment, round: nat)
    requires BelowAll(settled, parts, position, env, round) && position.Keys == set p | p in parts
    ensures AllBelow(settled, Ends(position, env, round))
  {
    var ends := Ends(position, env, round);
    forall p, o: nat | p in ends && o < ends[p] ensures (p, o) in settled {
      assert p in parts;
      var i :| 0 <= i < |parts| && parts[i] == p;
    }
  }

  function Ends(position: map<nat, nat>, env: Environment, round: nat): map<nat, nat> {
    map p | p in position :: position[p] + env.count(round, p)
  }

  function ToCommit(position: map<nat, nat>, env: Environment, round: nat): map<nat, nat> {
    map p | p in position && env.count(round, p) > 0 :: position[p] + env.count(round, p)
  }

  // ---------------------------------------------------------------- where marks come from

  function FateIn(env: Environment, max: nat, round: nat, p: nat, o: nat): Fate { FateOf(env.record(round, p, o), max) }

  /** What this round added to the marks: offsets whose record it evaluated, letters of records it
      refused for that reason and whose letter was sent. */
  ghost predicate MarkedIn(env: Environment, max: nat, round: nat, was: Marks, now: Marks) {
    && was.processed <= now.processed && was.letters <= now.letters
    && (forall x :: x in now.processed && x !in was.processed ==> FateIn(env, max, round, x.0, x.1) == Evaluated)
    && (forall l :: l in now.letters && l !in was.letters ==> Lettered(env, max, round, l))
  }

  predicate Lettered(env: Environment, max: nat, round: nat, l: Letter) {
    FateIn(env, max, round, l.partition, l.offset) == Refused(l.reason) && env.record(round, l.partition, l.offset).letterSent
  }

  datatype Marks = Marks(processed: set<(nat, nat)>, letters: set<Letter>)

  /** What the rounds before `rounds` added to the marks. */
  ghost predicate MarkedBefore(env: Environment, max: nat, rounds: nat, was: Marks, now: Marks) {
    && was.processed <= now.processed && was.letters <= now.letters
    && (forall x :: x in now.processed && x !in was.processed ==> exists r: nat :: r < rounds && FateIn(env, max, r, x.0, x.1) == Evaluated)
    && (forall l :: l in now.letters && l !in was.letters ==> exists r: nat :: r < rounds && Lettered(env, max, r, l))
  }

  lemma MarkedNext(env: Environment, max: nat, round: nat, was: Marks, mid: Marks, now: Marks)
    requires MarkedBefore(env, max, round, was, mid) && MarkedIn(env, max, round, mid, now)
    ensures MarkedBefore(env, max, round + 1, was, now)
  {
    forall x | x in now.processed && x !in was.processed
      ensures exists r: nat :: r < round + 1 && FateIn(env, max, r, x.0, x.1) == Evaluated
    {
      if x in mid.processed {
        var r: nat :| r < round && FateIn(env, max, r, x.0, x.1) == Evaluated;
      }
    }
    forall l | l in now.letters && l !in was.letters ensures exists r: nat :: r < round + 1 && Lettered(env, max, r, l) {
      if l in mid.letters {
        var r: nat :| r < round && Lettered(env, max, r, l);
      }
    }
  }

  lemma MarkedOn(env: Environment, max: nat, round: nat, was: Marks, mid: Marks, now: Marks)
    requires MarkedIn(env, max, round, was, mid) && MarkedIn(env, max, round, mid, now)
    ensures MarkedIn(env, max, round, was, now)
  {
  }

  // ---------------------------------------------------------------- what the offsets become

  /** Every record of the batch that starts at these positions is handled. */
  ghost predicate AllHandled(env: Environment, max: nat, round: nat, position: map<nat, nat>) {
    forall p: nat :: p in position ==> PartHandled(env, max, round, p, position[p])
  }

  ghost predicate PartHandled(env: Environment, max: nat, round: nat, p: nat, from: nat) {
    forall o: nat :: from <= o < from + env.count(round, p) ==> Handled(env.record(round, p, o), max)
  }

  /** How a batch ends: redelivered unless every record was handled and the commit went through. */
  function BatchEnd(all: bool, answer: CommitAnswer): BatchResult {
    if !all || answer.Recoverable? then Redeliver else if answer.Fatal? then Raised else Committed
  }

  predicate Applied(a: CommitAnswer) { a.Accepted? || a.applied }

  function Sought(parts: seq<nat>, committed: map<nat, nat>): map<nat, nat> {
    map p | p in parts :: if p in committed then committed[p] else 0
  }

  datatype Offsets = Offsets(committed: map<nat, nat>, position: map<nat, nat>)

  /** Where a round starts: a changed assignment starts from the commits. */
  function Start(env: Environment, round: nat, s: Offsets): map<nat, nat> {
    if s.position.Keys == (set p | p in env.assignment(round)) then s.position else Sought(env.assignment(round), s.committed)
  }

  function CommittedBy(env: Environment, round: nat, committed: map<nat, nat>, from: map<nat, nat>, all: bool): map<nat, nat> {
    if all && Applied(env.commit(round)) then committed + ToCommit(from, env, round) else committed
  }

  /** What one round makes of the offsets. */
  ghost function RoundOf(env: Environment, max: nat, round: nat, s: Offsets): Offsets {
    var from := Start(env, round, s);
    var all := AllHandled(env, max, round, from);
    var committed := CommittedBy(env, round, s.committed, from, all);
    Offsets(committed,
            if all && env.commit(round).Accepted? && !env.dies(round) then Ends(from, env, round)
            else Sought(env.assignment(round), committed))
  }

  ghost function RunOf(env: Environment, max: nat, rounds: nat, s: Offsets): Offsets {
    if rounds == 0 then s else RoundOf(env, max, rounds - 1, RunOf(env, max, rounds - 1, s))
  }

  class AlertKafkaConsumer {
    const maxRetries: nat
    const retryBackOff: real
    const maxBackOff: real
    /** The offsets the group committed, and the next offset to handle of each assigned partition. */
    var committed: map<nat, nat>
    var position: map<nat, nat>
    var processed: set<(nat, nat)>
    var letters: set<Letter>
    var failedBatches: nat

    ghost function Marked(): Marks reads this { Marks(processed, letters) }

    /** Every offset below a committed or current position was processed or dead-lettered. */
    ghost predicate Valid()
      reads this
    {
      AllBelow(Settled(processed, letters), committed) && AllBelow(Settled(processed, letters), position)
    }

    constructor (maxRetries: nat, retryBackOff: real, maxBackOff: real, committed: map<nat, nat>,
                 processed: set<(nat, nat)>, letters: set<Letter>)
      requires AllBelow(Settled(processed, letters), committed)
      ensures Valid() && this.committed == committed && position == map[] && failedBatches == 0
      ensures this.maxRetries == if maxRetries < 1 then 1 else maxRetries
    {
      this.maxRetries := if maxRetries < 1 then 1 else maxRetries;
      this.retryBackOff := retryBackOff;
      this.maxBackOff := maxBackOff;
      this.committed := committed;
      this.position := map[];
      this.processed := processed;
      this.letters := letters;
      this.failedBatches := 0;
    }

    method DeadLetter(m: Message, reason: Reason) returns (handled: bool)
      modifies this`letters
      ensures handled == m.letterSent
      ensures letters == old(letters) + if m.letterSent then {Letter(m.partition, m.offset, reason)} else {}
    {
      if m.letterSent { letters := letters + {Letter(m.partition, m.offset, reason)}; }
      handled := m.letterSent;
    }

    method HandleMessage(m: Message) returns (handled: bool)
      modifies this`processed, this`letters
      ensures var fate := FateOf(m, maxRetries);
        && processed == old(processed) + (if fate == Evaluated then {(m.partition, m.offset)} else {})
        && letters == old(letters) + (if fate.Refused? && m.letterSent then {Letter(m.partition, m.offset, fate.reason)} else {})
        && (handled <==> Handled(m, maxRetries))
      ensures handled ==> (m.partition, m.offset) in Settled(processed, letters)
      ensures Settled(old(processed), old(letters)) <= Settled(processed, letters)
    {
      if !m.decodes {
        handled := DeadLetter(m, Undecodable);
        return;
      }
      var attempt := 0;
      while attempt < maxRetries
        invariant attempt <= maxRetries
        invariant AttemptFrom(m.attempts, attempt, maxRetries) == AttemptFrom(m.attempts, 0, maxRetries)
        invariant processed == old(processed) && letters == old(letters)
      {
        match m.attempts(attempt) {
          case Fine =>
            processed := processed + {(m.partition, m.offset)};
            return true;
          case Invalid =>
            handled := DeadLetter(m, InvalidReading);
            return;
          case Infrastructure => return false;
          case OtherError =>
        }
        attempt := attempt + 1;
      }
      handled := DeadLetter(m, RetriesExhausted);
    }

    /** One partition's records of a batch, in order; stops at the first that is not handled. */
    method HandlePartition(messages: seq<Message>) returns (ok: bool)
      modifies this`processed, this`letters
      ensures processed >= old(processed) && letters >= old(letters)
      ensures forall x :: x in processed && x !in old(processed) ==> exists j :: 0 <= j < |messages| && MarksOf(messages[j], x, maxRetries)
      ensures forall l :: l in letters && l !in old(letters) ==> exists j :: 0 <= j < |messages| && LetterOf(messages[j], l, maxRetries)
      ensures ok <==> forall j :: 0 <= j < |messages| ==> Handled(messages[j], maxRetries)
      ensures ok ==> forall j :: 0 <= j < |messages| ==> (messages[j].partition, messages[j].offset) in Settled(processed, letters)
    {
      for j := 0 to |messages|
        invariant processed >= old(processed) && letters >= old(letters)
        invariant forall x :: x in processed && x !in old(processed) ==> exists k :: 0 <= k < j && MarksOf(messages[k], x, maxRetries)
        invariant forall l :: l in letters && l !in old(letters) ==> exists k :: 0 <= k < j && LetterOf(messages[k], l, maxRetries)
        invariant forall k :: 0 <= k < j ==> Handled(messages[k], maxRetries)
        invariant forall k :: 0 <= k < j ==> (messages[k].partition, messages[k].offset) in Settled(processed, letters)
      {
        ghost var was := Marked();
        var handled := HandleMessage(messages[j]);
        assert forall x :: x in processed && x !in was.processed ==> MarksOf(messages[j], x, maxRetries);
        assert forall l :: l in letters && l !in was.letters ==> LetterOf(messages[j], l, maxRetries);
        if !handled { return false; }
      }
      ok := true;
    }

    /** The records a poll delivers of one partition: contiguous from its position. */
    static function Polled(env: Environment, round: nat, p: nat, from: nat): seq<Message> {
      seq(env.count(round, p), i requires 0 <= i => env.record(round, p, from + i).(partition := p, offset := from + i))
    }

    method HandlePolled(env: Environment, round: nat, p: nat) returns (ok: bool)
      requires Valid() && p in position
      modifies this`processed, this`letters
      ensures Valid() && MarkedIn(env, maxRetries, round, old(Marked()), Marked())
      ensures Settled(old(processed), old(letters)) <= Settled(processed, letters)
      ensures ok <==> PartHandled(env, maxRetries, round, p, position[p])
      ensures ok ==> Below(Settled(processed, letters), p, position[p] + env.count(round, p))
    {
      var messages := Polled(env, round, p, position[p]);
      ok := HandlePartition(messages);
      PolledMarks(env, maxRetries, round, p, position[p], messages, old(Marked()), Marked());
      PolledHandled(env, maxRetries, round, p, position[p], messages);
      if ok { SettledUpTo(Settled(processed, letters), p, position[p], messages); }
    }

    /** Handles every record of these partitions; stops at the first that is not handled. */
    method HandleEach(env: Environment, round: nat, parts: seq<nat>) returns (ok: bool, offsets: map<nat, nat>)
      requires Valid() && forall i :: 0 <= i < |parts| ==> parts[i] in position
      modifies this`processed, this`letters
      ensures Valid() && MarkedIn(env, maxRetries, round, old(Marked()), Marked())
      ensures ok <==> forall i :: 0 <= i < |parts| ==> PartHandled(env, maxRetries, round, parts[i], position[parts[i]])
      ensures ok ==> BelowAll(Settled(processed, letters), parts, position, env, round)
      ensures ok ==> offsets == OffsetsOf(parts, position, env, round)
    {
      offsets := map[];
      ghost var was := Marked();
      for i := 0 to |parts|
        invariant Valid() && EachSoFar(env, maxRetries, round, parts[..i], position, was, Marked())
        invariant offsets == OffsetsOf(parts[..i], position, env, round)
      {
        ghost var mid := Marked();
        ok := HandlePolled(env, round, parts[i]);
        if !ok {
          MarkedOn(env, maxRetries, round, was, mid, Marked());
          return;
        }
        EachNext(env, maxRetries, round, parts, i, position, was, mid, Marked());
        if env.count(round, parts[i]) > 0 { offsets := offsets[parts[i] := position[parts[i]] + env.count(round, parts[i])]; }
      }
      assert parts[..|parts|] == parts;
      ok := true;
    }

    /** Handles every record of the assigned partitions, and says what to commit. */
    method HandleRecords(env: Environment, round: nat, parts: seq<nat>) returns (ok: bool, offsets: map<nat, nat>)
      requires Valid() && position.Keys == set p | p in parts
      modifies this`processed, this`letters
      ensures Valid() && MarkedIn(env, maxRetries, round, old(Marked()), Marked())
      ensures ok <==> AllHandled(env, maxRetries, round, position)
      ensures ok ==> AllBelow(Settled(processed, letters), Ends(position, env, round)) && offsets == ToCommit(position, env, round)
    {
      ok, offsets := HandleEach(env, round, parts);
      EachIsAll(env, maxRetries, round, parts, position);
      if ok {
        BelowEnds(Settled(processed, letters), parts, position, env, round);
        OffsetsAre(parts, position, env, round);
      }
    }

    /** Sends the commit of a handled batch; it may be applied although its answer is an error. */
    method CommitOffsets(env: Environment, round: nat, offsets: map<nat, nat>) returns (result: BatchResult)
      requires Valid() && Ahead(position, committed) && offsets == ToCommit(position, env, round)
      requires AllBelow(Settled(processed, letters), Ends(position, env, round))
      modifies this`committed, this`position
      ensures Valid() && NeverBack(old(committed), committed)
      ensures result == Committed ==> Ahead(position, committed)
      ensures result == BatchEnd(true, env.commit(round))
      ensures committed == CommittedBy(env, round, old(committed), old(position), true)
      ensures position == if result == Committed then Ends(old(position), env, round) else old(position)
    {
      CommitMovesOn(position, committed, env, round);
      if Applied(env.commit(round)) { committed := committed + offsets; }
      match env.commit(round) {
        case Fatal(_) => result := Raised;
        case Recoverable(_) => result := Redeliver;
        case Accepted =>
          position := map p | p in position :: position[p] + env.count(round, p);
          result := Committed;
      }
    }

    /** Handles and commits one batch over the assigned partitions. The commit is sent exactly when every
        record of the batch was handled, and moves each partition just past its batch. */
    method HandleBatch(env: Environment, round: nat, parts: seq<nat>) returns (result: BatchResult)
      requires Valid() && position.Keys == (set p | p in parts) && Ahead(position, committed)
      modifies this`processed, this`letters, this`committed, this`position
      ensures Valid() && MarkedIn(env, maxRetries, round, old(Marked()), Marked()) && NeverBack(old(committed), committed)
      ensures result == Committed ==> Ahead(position, committed)
      ensures result == BatchEnd(AllHandled(env, maxRetries, round, old(position)), env.commit(round))
      ensures committed == CommittedBy(env, round, old(committed), old(position), AllHandled(env, maxRetries, round, old(position)))
      ensures position == if result == Committed then Ends(old(position), env, round) else old(position)
    {
      var ok, offsets := HandleRecords(env, round, parts);
      if ok { result := CommitOffsets(env, round, offsets); } else { result := Redeliver; }
    }

    /** Back to the last commit of every assigned partition, or to its beginning. */
    method SeekToCommitted(parts: seq<nat>)
      requires Valid()
      modifies this`position
      ensures Valid() && Ahead(position, committed)
      ensures position == Sought(parts, committed)
    {
      position := map p | p in parts :: if p in committed then committed[p] else 0;
    }

    method RewindAndBackOff(parts: seq<nat>) returns (delay: real)
      requires Valid()
      modifies this`position, this`failedBatches
      ensures Valid() && Ahead(position, committed) && failedBatches == old(failedBatches) + 1
      ensures position == Sought(parts, committed)
      ensures delay == BackOff(retryBackOff, maxBackOff, failedBatches)
    {
      failedBatches := failedBatches + 1;
      SeekToCommitted(parts);
      delay := BackOff(retryBackOff, maxBackOff, failedBatches);
    }

    /** One round of the loop, with any answers, a rebalance before it or a process death after it. */
    method ConsumeRound(env: Environment, round: nat)
      requires Valid() && Ahead(position, committed)
      modifies this
      ensures Valid() && Ahead(position, committed) && NeverBack(old(committed), committed)
      ensures MarkedIn(env, maxRetries, round, old(Marked()), Marked())
      ensures Offsets(committed, position) == RoundOf(env, maxRetries, round, old(Offsets(committed, position)))
    {
      var parts := env.assignment(round);
      TakeAssignment(env, round);
      var result := HandleBatch(env, round, parts);
      EndRound(env, round, result);
    }

    /** A changed assignment starts from the commits. */
    method TakeAssignment(env: Environment, round: nat)
      requires Valid() && Ahead(position, committed)
      modifies this`position
      ensures Valid() && Ahead(position, committed) && position.Keys == set p | p in env.assignment(round)
      ensures position == Start(env, round, old(Offsets(committed, position)))
    {
      if position.Keys != set p | p in env.assignment(round) { SeekToCommitted(env.assignment(round)); }
    }

    /** After a batch: on with the next one, or back to the last commit, by this process or a new one. */
    method EndRound(env: Environment, round: nat, result: BatchResult)
      requires Valid() && (result == Committed ==> Ahead(position, committed))
      modifies this`position, this`failedBatches
      ensures Valid() && Ahead(position, committed)
      ensures position == if result == Committed && !env.dies(round) then old(position) else Sought(env.assignment(round), committed)
    {
      if result == Committed {
        failedBatches := 0;
      } else if result == Redeliver {
        var _ := RewindAndBackOff(env.assignment(round));
      }
      if result == Raised || env.dies(round) {
        // A new process starts from the last commit.
        SeekToCommitted(env.assignment(round));
        failedBatches := 0;
      }
    }

    /** Any number of rounds of the loop, with any answers, rebalances and process deaths: no offset is
        ever committed unhandled, no committed offset moves back, whatever is newly marked as processed
        was evaluated in some round, and every new dead letter is one of a record refused in some round
        for that reason. */
    method ConsumeMessages(env: Environment, rounds: nat)
      requires Valid()
      modifies this
      ensures Valid() && NeverBack(old(committed), committed)
      ensures MarkedBefore(env, maxRetries, rounds, old(Marked()), Marked())
      ensures Offsets(committed, position) == RunOf(env, maxRetries, rounds, Offsets(old(committed), map[]))
    {
      position := map[];
      ghost var was, start := Marked(), Offsets(committed, position);
      MarkedAtFirst(env, maxRetries, was);
      for round := 0 to rounds
        invariant Valid() && Ahead(position, committed) && NeverBack(start.committed, committed)
        invariant MarkedBefore(env, maxRetries, round, was, Marked())
        invariant Offsets(committed, position) == RunOf(env, maxRetries, round, start)
      {
        ghost var mid, from := Marked(), committed;
        ConsumeRound(env, round);
        MarkedNext(env, maxRetries, round, was, mid, Marked());
        NeverBackOn(start.committed, from, committed);
      }
    }
  }

  lemma NeverBackOn(a: map<nat, nat>, b: map<nat, nat>, c: map<nat, nat>)
    requires NeverBack(a, b) && NeverBack(b, c)
    ensures NeverBack(a, c)
  {
  }

  lemma MarkedAtFirst(env: Environment, max: nat, was: Marks)
    ensures MarkedBefore(env, max, 0, was, was)
  {
  }

  /** These partitions' batches are handled and settled, and the round marked nothing it should not. */
  ghost predicate EachSoFar(env: Environment, max: nat, round: nat, parts: seq<nat>, position: map<nat, nat>, was: Marks, now: Marks) {
    && MarkedIn(env, max, round, was, now) && BelowAll(Settled(now.processed, now.letters), parts, position, env, round)
    && forall k :: 0 <= k < |parts| ==> parts[k] in position && PartHandled(env, max, round, parts[k], position[parts[k]])
  }

  lemma EachNext(env: Environment, max: nat, round: nat, parts: seq<nat>, i: nat, position: map<nat, nat>, was: Marks, mid: Marks, now: Marks)
    requires i < |parts| && EachSoFar(env, max, round, parts[..i], position, was, mid) && MarkedIn(env, max, round, mid, now)
    requires Settled(mid.processed, mid.letters) <= Settled(now.processed, now.letters)
    requires parts[i] in position && PartHandled(env, max, round, parts[i], position[parts[i]])
    requires Below(Settled(now.processed, now.letters), parts[i], position[parts[i]] + env.count(round, parts[i]))
    ensures EachSoFar(env, max, round, parts[..i + 1], position, was, now) && parts[..i + 1][..i] == parts[..i]
  {
    MarkedOn(env, max, round, was, mid, now);
    BelowOneMore(Settled(mid.processed, mid.letters), Settled(now.processed, now.letters), parts, i, position, env, round);
    assert parts[..i + 1] == parts[..i] + [parts[i]];
  }

  predicate MarksOf(m: Message, x: (nat, nat), max: nat) { x == (m.partition, m.offset) && FateOf(m, max) == Evaluated }

  predicate LetterOf(m: Message, l: Letter, max: nat) {
    FateOf(m, max).Refused? && m.letterSent && l == Letter(m.partition, m.offset, FateOf(m, max).reason)
  }

  /** A polled record meets what the environment's record meets. */
  lemma PolledFate(env: Environment, max: nat, round: nat, p: nat, from: nat, j: nat)
    requires j < env.count(round, p)
    ensures var m := AlertKafkaConsumer.Polled(env, round, p, from)[j];
      && m.partition == p && m.offset == from + j && m.letterSent == env.record(round, p, from + j).letterSent
      && FateOf(m, max) == FateIn(env, max, round, p, from + j) && Handled(m, max) == Handled(env.record(round, p, from + j), max)
  {
  }

  lemma PolledHandled(env: Environment, max: nat, round: nat, p: nat, from: nat, messages: seq<Message>)
    requires messages == AlertKafkaConsumer.Polled(env, round, p, from)
    ensures (forall j :: 0 <= j < |messages| ==> Handled(messages[j], max)) <==> PartHandled(env, max, round, p, from)
  {
    forall j | 0 <= j < |messages| ensures Handled(messages[j], max) == Handled(env.record(round, p, from + j), max) {
      PolledFate(env, max, round, p, from, j);
    }
    if forall j :: 0 <= j < |messages| ==> Handled(messages[j], max) {
      forall o: nat | from <= o < from + env.count(round, p) ensures Handled(env.record(round, p, o), max) {
        assert Handled(messages[o - from], max);
      }
    }
  }

  lemma PolledMarks(env: Environment, max: nat, round: nat, p: nat, from: nat, messages: seq<Message>, was: Marks, now: Marks)
    requires messages == AlertKafkaConsumer.Polled(env, round, p, from)
    requires was.processed <= now.processed && was.letters <= now.letters
    requires forall x :: x in now.processed && x !in was.processed ==> exists j :: 0 <= j < |messages| && MarksOf(messages[j], x, max)
    requires forall l :: l in now.letters && l !in was.letters ==> exists j :: 0 <= j < |messages| && LetterOf(messages[j], l, max)
    ensures MarkedIn(env, max, round, was, now)
  {
    forall x | x in now.processed && x !in was.processed ensures FateIn(env, max, round, x.0, x.1) == Evaluated {
      var j :| 0 <= j < |messages| && MarksOf(messages[j], x, max);
      PolledFate(env, max, round, p, from, j);
    }
    forall l | l in now.letters && l !in was.letters ensures Lettered(env, max, round, l) {
      var j :| 0 <= j < |messages| && LetterOf(messages[j], l, max);
      PolledFate(env, max, round, p, from, j);
    }
  }

  lemma EachIsAll(env: Environment, max: nat, round: nat, parts: seq<nat>, position: map<nat, nat>)
    requires position.Keys == set p | p in parts
    ensures (forall i :: 0 <= i < |parts| ==> parts[i] in position && PartHandled(env, max, round, parts[i], position[parts[i]]))
      <==> AllHandled(env, max, round, position)
  {
    forall i | 0 <= i < |parts| ensures parts[i] in position { assert parts[i] in (set p | p in parts); }
    if forall i :: 0 <= i < |parts| ==> parts[i] in position && PartHandled(env, max, round, parts[i], position[parts[i]]) {
      forall p: nat | p in position ensures PartHandled(env, max, round, p, position[p]) {
        assert p in parts;
        var i :| 0 <= i < |parts| && parts[i] == p;
      }
    }
  }

  // ---------------------------------------------------------------- infrastructure failures over a run

  /** Every round meets an infrastructure failure at this record before anything decides it. */
  ghost predicate AlwaysStalled(env: Environment, max: nat, rounds: nat, p: nat, o: nat) {
    forall r: nat :: r < rounds ==> env.record(r, p, o).decodes && InfrastructureFirst(env.record(r, p, o), max)
  }

  ghost predicate InfrastructureFirst(m: Message, max: nat) {
    exists j: nat :: Decisive(m.attempts, 0, j) && j < max && m.attempts(j) == Infrastructure
  }

  /** What a dead letter's reason says its record met; none of it is an infrastructure failure. */
  ghost predicate Grounds(m: Message, max: nat, reason: Reason) {
    match reason
    case Undecodable => !m.decodes
    case InvalidReading => m.decodes && exists j: nat :: Decisive(m.attempts, 0, j) && j < max && m.attempts(j) == Invalid
    case RetriesExhausted => m.decodes && forall j: nat :: j < max ==> m.attempts(j) == OtherError
  }

  lemma RefusedOnGrounds(m: Message, max: nat)
    ensures FateOf(m, max).Refused? ==> Grounds(m, max, FateOf(m, max).reason)
  {
    AttemptsDecide(m.attempts, 0, max);
  }

  /** Over every run, a dead letter sent is that of a record which, in some round, did not decode, was
      found invalid before any infrastructure failure, or failed otherwise on every attempt. */
  lemma LettersOfARun(env: Environment, max: nat, rounds: nat, was: Marks, now: Marks, l: Letter)
    requires MarkedBefore(env, max, rounds, was, now) && l in now.letters && l !in was.letters
    ensures exists r: nat :: r < rounds && Lettered(env, max, r, l) && Grounds(env.record(r, l.partition, l.offset), max, l.reason)
  {
    var r: nat :| r < rounds && Lettered(env, max, r, l);
    RefusedOnGrounds(env.record(r, l.partition, l.offset), max);
  }

  /** Over every run, a record that infrastructure keeps failing is neither processed nor dead-lettered,
      and its partition's commit never passes it. */
  lemma StalledNeverPassed(env: Environment, max: nat, rounds: nat, was: Marks, now: Marks, committed: map<nat, nat>, p: nat, o: nat)
    requires MarkedBefore(env, max, rounds, was, now) && AllBelow(Settled(now.processed, now.letters), committed)
    requires (p, o) !in Settled(was.processed, was.letters) && AlwaysStalled(env, max, rounds, p, o)
    ensures (p, o) !in Settled(now.processed, now.letters)
    ensures p in committed ==> committed[p] <= o
  {
    forall r: nat | r < rounds ensures FateIn(env, max, r, p, o) == Stalled {
      InfrastructureNeverDeadLetters(env.record(r, p, o), max);
    }
    forall x | x in now.processed && x !in was.processed ensures x != (p, o) {
      var r: nat :| r < rounds && FateIn(env, max, r, x.0, x.1) == Evaluated;
    }
    forall l | l in now.letters && l !in was.letters ensures (l.partition, l.offset) != (p, o) {
      var r: nat :| r < rounds && Lettered(env, max, r, l);
    }
  }

  ghost predicate NeverBack(was: map<nat, nat>, now: map<nat, nat>) { forall p :: p in was ==> p in now && now[p] >= was[p] }

  /** The next offset to handle is never before the last commit. */
  ghost predicate Ahead(position: map<nat, nat>, committed: map<nat, nat>) {
    forall p :: p in position && p in committed ==> committed[p] <= position[p]
  }

  lemma CommitMovesOn(position: map<nat, nat>, committed: map<nat, nat>, env: Environment, round: nat)
    requires Ahead(position, committed)
    ensures var now := committed + ToCommit(position, env, round);
      NeverBack(committed, now) && Ahead(Ends(position, env, round), now)
  {
  }

  lemma SettledUpTo(settled: set<(nat, nat)>, p: nat, from: nat, messages: seq<Message>)
    requires forall o: nat :: o < from ==> (p, o) in settled
    requires forall j :: 0 <= j < |messages| ==> messages[j].partition == p && messages[j].offset == from + j
    requires forall j :: 0 <= j < |messages| ==> (messages[j].partition, messages[j].offset) in settled
    ensures forall o: nat :: o < from + |messages| ==> (p, o) in settled
  {
    forall o: nat | o < from + |messages| ensures (p, o) in settled {
      if o >= from { assert messages[o - from].offset == o; }
    }
  }

  lemma {:induction false} PowGrows(n: nat, m: nat)
    requires n <= m
    ensures 1 <= Pow2(n) <= Pow2(m)
  {
    if n < m {
      PowGrows(n, m - 1);
    } else if n > 0 {
      PowGrows(n - 1, n - 1);
    }
  }

  lemma Scaled(base: real, a: real, b: real)
    requires base >= 0.0 && a <= b
    ensures base * a <= base * b
  {
    assert base * (b - a) >= 0.0;
  }

  /** The wait never shrinks with further failures and never exceeds the cap. */
  lemma BackOffGrows(base: real, cap: real, n: nat, m: nat)
    requires base >= 0.0 && 0 < n <= m
    ensures BackOff(base, cap, n) <= BackOff(base, cap, m) <= cap
  {
    PowGrows(n - 1, m - 1);
    var a, b := Pow2(n - 1) as real, Pow2(m - 1) as real;
    Scaled(base, a, b);
    AtMostGrows(base * a, base * b, cap);
  }

  /** Below the cap it doubles with each failure. */
  lemma BackOffDoubles(base: real, cap: real, n: nat)
    requires base >= 0.0 && 0 < n && base * Pow2(n) as real <= cap
    ensures BackOff(base, cap, n + 1) == 2.0 * BackOff(base, cap, n)
  {
    var a := Pow2(n - 1) as real;
    assert Pow2(n) as real == 2.0 * a;
    PowGrows(n - 1, n);
    Scaled(base, a, Pow2(n) as real);
    assert base * (2.0 * a) == 2.0 * (base * a);
  }
}
