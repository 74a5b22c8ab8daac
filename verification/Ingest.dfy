/**
 Event ingest of the convergence monitor: validation, per-session hash chains kept in memory and
 rolled back when persistence fails, sequence numbers taken from the log, and calibration counts.  The
 table is shared: other writers may add rows at any time.
 */
module Ingest {
  import opened Wrappers
  import opened Blake3
  import opened HashChain
  import RateLimiter

  /** A UUID as the 128-bit number it is. */
  type Uuid = nat

  const NIL: Uuid := 0

  /** An ingest event; its agent id is `record.agent`. */
  datatype Event = Event(session: Uuid, record: Record)

  /** A row of `itp_events`; `record` is what the monitor would hash for it, if it is an ingest event. */
  datatype Row = Row(session: Uuid, record: Option<Record>, sequence: int, eventHash: Digest, previousHash: Digest) {
    predicate StartsSession(agent: BarFree) {
      record.Some? && record.value.kind.SessionStart? && record.value.agent == agent
    }
  }

  function EventHash<S>(h: Hasher<S>, r: Record, previous: Digest): Digest {
    Hash(h, Preimage(r, previous))
  }

  /** The rows of `itp_events` in the order they were inserted; `own` marks those of this process. */
  datatype Log = NoRows | Add(past: Log, row: Row, own: bool)

  /** The rows of `a` followed by those of `b`. */
  function Concat(a: Log, b: Log): Log {
    match b
    case NoRows => a
    case Add(past, row, own) => Add(Concat(a, past), row, own)
  }

  // ---------------------------------------------------------------- what a log says about a session

  function Rows(log: Log, s: Uuid): nat {
    match log
    case NoRows => 0
    case Add(past, row, _) => Rows(past, s) + if row.session == s then 1 else 0
  }

  function LastHash(log: Log, s: Uuid): Digest {
    match log
    case NoRows => Genesis()
    case Add(past, row, _) => if row.session == s then row.eventHash else LastHash(past, s)
  }

  /** Each row of the session hashes its event onto the row before it, the first onto genesis. */
  predicate Linked<S>(h: Hasher<S>, log: Log, s: Uuid) {
    match log
    case NoRows => true
    case Add(past, row, _) =>
      && Linked(h, past, s)
      && (row.session == s ==>
            && row.record.Some? && row.previousHash == LastHash(past, s)
            && row.eventHash == EventHash(h, row.record.value, row.previousHash))
  }

  /** The rows of the session are numbered 0, 1, 2, ... */
  predicate Numbered(log: Log, s: Uuid) {
    match log
    case NoRows => true
    case Add(past, row, _) => Numbered(past, s) && (row.session == s ==> row.sequence == Rows(past, s))
  }

  /** `COALESCE(MAX(sequence_number), -1)`. */
  function MaxSequence(log: Log, s: Uuid): int {
    match log
    case NoRows => -1
    case Add(past, row, _) =>
      var max := MaxSequence(past, s);
      if row.session == s && (Rows(past, s) == 0 || row.sequence > max) then row.sequence else max
  }

  /** `COUNT(*) ... WHERE event_type = 'SessionStart' GROUP BY sender`. */
  function StartRows(log: Log, agent: BarFree): nat {
    match log
    case NoRows => 0
    case Add(past, row, _) =>
      StartRows(past, agent) + if row.StartsSession(agent) then 1 else 0
  }

  function Senders(log: Log): set<BarFree> {
    match log
    case NoRows => {}
    case Add(past, row, _) =>
      Senders(past) + if row.record.Some? && row.record.value.kind.SessionStart? then {row.record.value.agent} else {}
  }

  lemma {:induction false} SendersHaveStarts(log: Log, agent: BarFree)
    ensures agent in Senders(log) <==> StartRows(log, agent) > 0
  {
    if log.Add? {
      SendersHaveStarts(log.past, agent);
    }
  }

  predicate HasRow(log: Log, row: Row) {
    log.Add? && (log.row == row || HasRow(log.past, row))
  }

  /** The largest number of the session is one of its rows', and none is larger. */
  lemma {:induction false} LargestNumber(log: Log, s: Uuid)
    ensures forall row :: HasRow(log, row) && row.session == s ==> row.sequence <= MaxSequence(log, s) && Rows(log, s) > 0
    ensures if Rows(log, s) == 0 then MaxSequence(log, s) == -1
            else exists row :: HasRow(log, row) && row.session == s && row.sequence == MaxSequence(log, s)
  {
    if log.Add? {
      LargestNumber(log.past, s);
      assert HasRow(log, log.row);
    }
  }

  function SessionChain(log: Log, s: Uuid): Chain {
    match log
    case NoRows => Start
    case Add(past, row, _) =>
      if row.session == s && row.record.Some? then Link(SessionChain(past, s), row.record.value)
      else SessionChain(past, s)
  }

  /** A linked log's last hash is the head of the chain of everything the session recorded. */
  lemma {:induction false} LinkedHead<S>(h: Hasher<S>, log: Log, s: Uuid)
    requires Linked(h, log, s)
    ensures LastHash(log, s) == Head(h, SessionChain(log, s))
  {
    if log.Add? {
      LinkedHead(h, log.past, s);
    }
  }

  lemma {:induction false} NumberedMax(log: Log, s: Uuid)
    requires Numbered(log, s)
    ensures MaxSequence(log, s) + 1 == Rows(log, s)
  {
    if log.Add? {
      NumberedMax(log.past, s);
    }
  }

  lemma {:induction false} NoRowsNoHash(log: Log, s: Uuid)
    requires Rows(log, s) == 0
    ensures LastHash(log, s) == Genesis()
  {
    if log.Add? {
      NoRowsNoHash(log.past, s);
    }
  }

  lemma {:induction false} Across(before: Log, later: Log, s: Uuid)
    ensures Rows(Concat(before, later), s) == Rows(before, s) + Rows(later, s)
    ensures LastHash(Concat(before, later), s) == if Rows(later, s) == 0 then LastHash(before, s) else LastHash(later, s)
  {
    if later.Add? {
      Across(before, later.past, s);
    }
  }

  /**
   Two chains laid end to end, as a restart does, form one chain exactly when one of them is
   empty (or the older one ends in the genesis value).
   */
  lemma {:induction false} RestartBreaksChain<S>(h: Hasher<S>, before: Log, later: Log, s: Uuid)
    requires Linked(h, before, s) && Linked(h, later, s)
    ensures Linked(h, Concat(before, later), s) <==>
            Rows(before, s) == 0 || Rows(later, s) == 0 || LastHash(before, s) == Genesis()
  {
    if later.Add? {
      RestartBreaksChain(h, before, later.past, s);
      Across(before, later.past, s);
      if Rows(before, s) == 0 {
        NoRowsNoHash(before, s);
      }
      if Rows(later.past, s) == 0 {
        NoRowsNoHash(later.past, s);
      }
    }
  }

  /** The failing case: one event before a restart and one after it. */
  lemma RestartExample<S>(h: Hasher<S>, s: Uuid, r: Record, r': Record) returns (before: Log, later: Log)
    requires EventHash(h, r, Genesis()) != Genesis()
    ensures Linked(h, before, s) && Linked(h, later, s) && Numbered(Concat(before, later), s)
    ensures !Linked(h, Concat(before, later), s)
  {
    before := Add(NoRows, Row(s, Some(r), 0, EventHash(h, r, Genesis()), Genesis()), false);
    later := Add(NoRows, Row(s, Some(r'), 1, EventHash(h, r', Genesis()), Genesis()), true);
    RestartBreaksChain(h, before, later, s);
  }

  /** Two sessions whose linked logs end in the same hash recorded the same events. */
  lemma EqualLastHashes<S>(h: Hasher<S>, log: Log, s: Uuid, log': Log, s': Uuid, inputs: set<bytes>)
    requires Linked(h, log, s) && Linked(h, log', s') && LastHash(log, s) == LastHash(log', s')
    requires BuiltFrom(h, SessionChain(log, s), inputs) && BuiltFrom(h, SessionChain(log', s'), inputs)
    requires Sound(h, inputs)
    ensures SessionChain(log, s) == SessionChain(log', s')
  {
    LinkedHead(h, log, s);
    LinkedHead(h, log', s');
    EqualHeadsEqualHistories(h, SessionChain(log, s), SessionChain(log', s'), inputs);
  }

  // ---------------------------------------------------------------- a table with other writers

  /** The rows of this process alone. */
  function Own(log: Log): Log {
    match log
    case NoRows => NoRows
    case Add(past, row, own) => if own then Add(Own(past), row, true) else Own(past)
  }

  /** Somebody else has written into the session. */
  predicate Shared(log: Log, s: Uuid) {
    match log
    case NoRows => false
    case Add(past, row, own) => Shared(past, s) || (row.session == s && !own)
  }

  /** No row of this process stands behind one of another writer. */
  predicate OwnFirst(log: Log, s: Uuid) {
    match log
    case NoRows => true
    case Add(past, row, own) => OwnFirst(past, s) && (row.session == s && own ==> !Shared(past, s))
  }

  /** The rows of the others continue the session as this process would have done. */
  predicate OthersLink<S>(h: Hasher<S>, log: Log, s: Uuid) {
    match log
    case NoRows => true
    case Add(past, row, own) =>
      && OthersLink(h, past, s)
      && (row.session == s && !own ==>
            && row.record.Some? && row.previousHash == LastHash(past, s)
            && row.eventHash == EventHash(h, row.record.value, row.previousHash))
  }

  predicate OthersNumber(log: Log, s: Uuid) {
    match log
    case NoRows => true
    case Add(past, row, own) => OthersNumber(past, s) && (row.session == s && !own ==> row.sequence == Rows(past, s))
  }

  /** Every row of this process has the number behind the largest before it. */
  predicate OwnNumber(log: Log, s: Uuid) {
    match log
    case NoRows => true
    case Add(past, row, own) =>
      OwnNumber(past, s) && (row.session == s && own ==> row.sequence == MaxSequence(past, s) + 1)
  }

  /** The session is numbered through exactly when the others keep to the numbers. */
  lemma {:induction false} NumberedExactly(log: Log, s: Uuid)
    requires OwnNumber(log, s)
    ensures Numbered(log, s) <==> OthersNumber(log, s)
  {
    if log.Add? {
      NumberedExactly(log.past, s);
      if Numbered(log.past, s) {
        NumberedMax(log.past, s);
      }
    }
  }

  lemma {:induction false} OwnRows(log: Log, s: Uuid)
    ensures Rows(Own(log), s) <= Rows(log, s)
    ensures Shared(log, s) <==> Rows(Own(log), s) < Rows(log, s)
    ensures !Shared(log, s) ==> LastHash(Own(log), s) == LastHash(log, s)
  {
    if log.Add? {
      OwnRows(log.past, s);
    }
  }

  /** What the session's rows were hashed from is among these strings. */
  predicate HashedFrom(log: Log, s: Uuid, inputs: set<bytes>) {
    match log
    case NoRows => true
    case Add(past, row, _) =>
      && HashedFrom(past, s, inputs)
      && (row.session == s && row.record.Some? ==> Preimage(row.record.value, row.previousHash) in inputs)
  }

  lemma {:induction false} OwnHashedFrom(log: Log, s: Uuid, inputs: set<bytes>)
    requires HashedFrom(log, s, inputs)
    ensures HashedFrom(Own(log), s, inputs)
  {
    if log.Add? {
      OwnHashedFrom(log.past, s, inputs);
    }
  }

  lemma {:induction false} LinkedIsBuilt<S>(h: Hasher<S>, log: Log, s: Uuid, inputs: set<bytes>)
    requires Linked(h, log, s) && HashedFrom(log, s, inputs)
    ensures BuiltFrom(h, SessionChain(log, s), inputs) && Length(SessionChain(log, s)) == Rows(log, s)
  {
    if log.Add? {
      LinkedIsBuilt(h, log.past, s, inputs);
      LinkedHead(h, log.past, s);
    }
  }

  function Length(chain: Chain): nat {
    match chain
    case Start => 0
    case Link(past, _) => Length(past) + 1
  }

  /** Behind the row of another writer, the last hash of the session is not the last hash of this process. */
  lemma HashesPart<S>(h: Hasher<S>, log: Log, s: Uuid, inputs: set<bytes>)
    requires Linked(h, log, s) && Linked(h, Own(log), s) && Shared(log, s)
    requires HashedFrom(log, s, inputs) && Sound(h, inputs)
    ensures LastHash(log, s) != LastHash(Own(log), s)
  {
    OwnRows(log, s);
    OwnHashedFrom(log, s, inputs);
    LinkedIsBuilt(h, log, s, inputs);
    LinkedIsBuilt(h, Own(log), s, inputs);
    if LastHash(log, s) == LastHash(Own(log), s) {
      EqualLastHashes(h, log, s, Own(log), s, inputs);
    }
  }

  /**
   A session that several writers share is one chain exactly when the others link their rows as the
   monitor does, and none of the monitor's rows stands behind one of theirs.
   */
  lemma {:induction false} LinkedExactly<S>(h: Hasher<S>, log: Log, s: Uuid, inputs: set<bytes>)
    requires Linked(h, Own(log), s) && HashedFrom(log, s, inputs) && Sound(h, inputs)
    ensures Linked(h, log, s) <==> OthersLink(h, log, s) && OwnFirst(log, s)
  {
    if log.Add? {
      LinkedExactly(h, log.past, s, inputs);
      OwnRows(log.past, s);
      if Linked(h, log.past, s) && Shared(log.past, s) {
        HashesPart(h, log.past, s, inputs);
      }
    }
  }

  /** The number and the hash of the row with the largest number, as the gateway looks them up. */
  function Latest(log: Log, s: Uuid): (int, Digest) {
    match log
    case NoRows => (0, Genesis())
    case Add(past, row, _) =>
      if row.session == s && (Rows(past, s) == 0 || row.sequence > Latest(past, s).0) then (row.sequence, row.eventHash)
      else Latest(past, s)
  }

  /** What the gateway finds is a row of the session with the largest number. */
  lemma {:induction false} LatestIsLargest(log: Log, s: Uuid)
    ensures if Rows(log, s) == 0 then Latest(log, s) == (0, Genesis())
            else exists row :: HasRow(log, row) && row.session == s && Latest(log, s) == (row.sequence, row.eventHash)
                               && row.sequence == MaxSequence(log, s)
  {
    if log.Add? {
      LatestIsLargest(log.past, s);
      assert HasRow(log, log.row);
    }
  }

  /** A row that the gateway adds for a turn: it hashes the digest text of its content and the latest hash. */
  function GatewayRow<S>(h: Hasher<S>, log: Log, s: Uuid, digest: bytes): Row {
    var (number, previous) := Latest(log, s);
    Row(s, None, number + 1, Hash(h, digest + previous), previous)
  }

  /**
   The failing case: the gateway opens the session, with number 1, and one event comes in.  What the
   monitor writes is a chain of its own, which does not go on from the gateway's row.
   */
  lemma GatewayExample<S>(h: Hasher<S>, s: Uuid, digest: bytes, r: Record) returns (log: Log)
    requires Hash(h, digest + Genesis()) != Genesis()
    ensures log == Add(Add(NoRows, GatewayRow(h, NoRows, s, digest), false),
                       Row(s, Some(r), 2, EventHash(h, r, Genesis()), Genesis()), true)
    ensures Linked(h, Own(log), s) && OwnNumber(log, s)
    ensures !Linked(h, log, s) && !Numbered(log, s) && log.row.previousHash != LastHash(log.past, s)
  {
    var first := Add(NoRows, GatewayRow(h, NoRows, s, digest), false);
    log := Add(first, Row(s, Some(r), 2, EventHash(h, r, Genesis()), Genesis()), true);
    assert first.row.sequence == 1 && Rows(NoRows, s) == 0;
    assert Own(first) == NoRows;
  }

  // ---------------------------------------------------------------- the monitor

  function HeadIn(chains: map<Uuid, Digest>, s: Uuid): Digest {
    if s in chains then chains[s] else Genesis()
  }

  function CountIn(counts: map<BarFree, nat>, agent: BarFree): nat {
    if agent in counts then counts[agent] else 0
  }

  /** One more for this agent. */
  function Raised(counts: map<BarFree, nat>, agent: BarFree): (raised: map<BarFree, nat>)
    ensures raised.Keys == counts.Keys + {agent}
    ensures raised[agent] == if agent in counts then counts[agent] + 1 else 1
    ensures forall a :: a in counts && a != agent ==> raised[a] == counts[a]
  {
    counts[agent := CountIn(counts, agent) + 1]
  }

  class ConvergenceMonitor<S(!new)> {
    const hasher: Hasher<S>
    const limiter: RateLimiter.Limiter
    var hashChains: map<Uuid, Digest>
    var calibrationCounts: map<BarFree, nat>
    var database: Log
    var dbWriteHealthy: bool

    ghost var newSessions: map<BarFree, nat>  // accepted session starts that were not duplicates

    /** The chains in memory continue what this process has written. */
    ghost predicate ChainsMatch()
      reads this
    {
      forall s :: Linked(hasher, Own(database), s) && HeadIn(hashChains, s) == LastHash(Own(database), s)
    }

    ghost predicate LogMatches()
      reads this
    {
      Incremental(hasher) && forall s :: OwnNumber(database, s)
    }

    /** Every agent is credited with the new sessions seen here, and with no more than the log can show. */
    ghost predicate CountsCovered()
      reads this
    {
      forall a :: CountIn(newSessions, a) <= CountIn(calibrationCounts, a) <= StartRows(database, a)
    }

    ghost predicate Valid()
      reads this
    {
      LogMatches() && ChainsMatch() && CountsCovered()
    }

    /** Nothing in the table has been written by this process. */
    constructor (hasher: Hasher<S>, limiter: RateLimiter.Limiter, database: Log)
      requires Incremental(hasher) && Own(database) == NoRows
      ensures this.hasher == hasher && this.limiter == limiter && this.database == database
      ensures Valid() && calibrationCounts == newSessions == map[] && hashChains == map[]
    {
      this.hasher, this.limiter, this.database := hasher, limiter, database;
      newSessions := map[];
      hashChains, calibrationCounts, dbWriteHealthy := map[], map[], true;
      new;
      forall s ensures OwnNumber(database, s) {
        NothingOwn(database, s);
      }
    }

    /** Another process adds any row it likes. */
    method ForeignInsert(row: Row)
      requires Valid()
      modifies this`database
      ensures Valid() && database == Add(old(database), row, false)
      ensures forall a ::
                StartRows(database, a) == StartRows(old(database), a) +
                  match row.record
                  case None => 0
                  case Some(record) => if record.kind == SessionStart && record.agent == a then 1 else 0
    {
      database := Add(database, row, false);
    }

    /** The row an event is stored as: its sequence number is one above the largest of the session. */
    function RowFor(event: Event, eventHash: Digest, previousHash: Digest): Row
      reads this
    {
      Row(event.session, Some(event.record), MaxSequence(database, event.session) + 1, eventHash, previousHash)
    }

    /** The insert goes through if `works`. */
    method PersistItpEvent(event: Event, eventHash: Digest, previousHash: Digest, works: bool) returns (ok: bool)
      requires LogMatches() && CountsCovered()
      modifies this`database, this`dbWriteHealthy
      ensures LogMatches() && CountsCovered()
      ensures dbWriteHealthy == ok == works
      ensures database ==
              if ok then Add(old(database), old(RowFor(event, eventHash, previousHash)), true) else old(database)
    {
      ok := works;
      dbWriteHealthy := ok;
      if ok {
        database := Add(database, RowFor(event, eventHash, previousHash), true);
      }
    }

    /** Step 4: extend the session's chain, persist, and roll back if that fails. */
    method ExtendChain(event: Event, works: bool) returns (ok: bool)
      requires Valid()
      modifies this`hashChains, this`database, this`dbWriteHealthy
      ensures Valid() && ok == works
      ensures !ok ==> database == old(database)
      ensures ok ==>
                database == Add(old(database), Row(event.session, Some(event.record),
                                                   MaxSequence(old(database), event.session) + 1,
                                                   HeadIn(hashChains, event.session),
                                                   HeadIn(old(hashChains), event.session)), true)
      ensures forall s :: !ok || s != event.session ==> HeadIn(hashChains, s) == HeadIn(old(hashChains), s)
    {
      var previous := HeadIn(hashChains, event.session);
      var hash := ComputeEventHash(hasher, event.record, previous);
      hashChains := hashChains[event.session := hash];
      ok := PersistItpEvent(event, hash, previous, works);
      if !ok {
        RollBack(event.session, previous);
      }
    }

    /** Puts back the head the session had; the genesis value is stored as no entry at all. */
    method RollBack(session: Uuid, previous: Digest)
      modifies this`hashChains
      ensures HeadIn(hashChains, session) == previous
      ensures forall s :: s != session ==> HeadIn(hashChains, s) == HeadIn(old(hashChains), s)
    {
      if previous == Genesis() {
        hashChains := hashChains - {session};
      } else {
        hashChains := hashChains[session := previous];
      }
    }

    /** The limiter has a token for this connection. */
    ghost predicate WithinRate(source: string, now: nat)
      reads limiter
    {
      RateLimiter.Touch(limiter.maxPerMin, limiter.Found(source, now), now).tokens > 0
    }

    /**
     Steps 1 to 5 of `handle_event`.  A rejected or unpersisted event leaves no trace, except that an
     event which passes the validator takes a token of its connection.  What the validator, the
     database and the session registry say is given.
     */
    method HandleEvent(event: Event, source: string, now: nat, inTheFuture: bool, works: bool, duplicate: bool)
      returns (accepted: bool)
      requires Valid() && limiter.Valid() && limiter.clock <= now
      modifies this, limiter
      ensures Valid() && limiter.Valid()
      ensures accepted <==> !inTheFuture && event.session != 0 && old(WithinRate(source, now)) && works
      ensures accepted ==>
                database == Add(old(database), Row(event.session, Some(event.record),
                                                   MaxSequence(old(database), event.session) + 1,
                                                   HeadIn(hashChains, event.session),
                                                   HeadIn(old(hashChains), event.session)), true)
      ensures !accepted ==> database == old(database)
      ensures forall s :: !accepted || s != event.session ==> HeadIn(hashChains, s) == HeadIn(old(hashChains), s)
      ensures var counted := accepted && event.record.kind == SessionStart && !duplicate;
              && calibrationCounts ==
                 (if counted then Raised(old(calibrationCounts), event.record.agent) else old(calibrationCounts))
              && newSessions == if counted then Raised(old(newSessions), event.record.agent) else old(newSessions)
      ensures forall a ::
                StartRows(database, a) == StartRows(old(database), a) +
                  if accepted && event.record.kind == SessionStart && event.record.agent == a then 1 else 0
      ensures limiter.buckets ==
              if inTheFuture || event.session == NIL then old(limiter.buckets)
              else old(limiter.buckets)[source := RateLimiter.Consume(limiter.maxPerMin, old(limiter.Found(source, now)), now)]
    {
      accepted := false;
      if inTheFuture || event.session == NIL {
        return;
      }
      var granted := limiter.TryConsumeAt(source, now);
      if granted {
        accepted := Accept(event, works, duplicate);
      }
    }

    /** Steps 4 and 5. */
    method Accept(event: Event, works: bool, duplicate: bool) returns (accepted: bool)
      requires Valid()
      modifies this
      ensures Valid() && accepted == works
      ensures accepted ==>
                database == Add(old(database), Row(event.session, Some(event.record),
                                                   MaxSequence(old(database), event.session) + 1,
                                                   HeadIn(hashChains, event.session),
                                                   HeadIn(old(hashChains), event.session)), true)
      ensures !accepted ==> database == old(database)
      ensures forall s :: !accepted || s != event.session ==> HeadIn(hashChains, s) == HeadIn(old(hashChains), s)
      ensures var counted := accepted && event.record.kind == SessionStart && !duplicate;
              && calibrationCounts ==
                 (if counted then Raised(old(calibrationCounts), event.record.agent) else old(calibrationCounts))
              && newSessions == if counted then Raised(old(newSessions), event.record.agent) else old(newSessions)
      ensures forall a ::
                StartRows(database, a) == StartRows(old(database), a) +
                  if accepted && event.record.kind == SessionStart && event.record.agent == a then 1 else 0
    {
      assert CountIn(calibrationCounts, event.record.agent) <= StartRows(database, event.record.agent);
      accepted := ExtendChain(event, works);
      if accepted && event.record.kind.SessionStart? {
        CountSession(event.record.agent, duplicate);
      }
    }

    /** Step 5 for a session start: counted unless the session is already active for this agent. */
    method CountSession(agent: BarFree, duplicate: bool)
      requires CountsCovered() && CountIn(calibrationCounts, agent) < StartRows(database, agent)
      modifies this`calibrationCounts, this`newSessions
      ensures CountsCovered()
      ensures calibrationCounts == if duplicate then old(calibrationCounts) else Raised(old(calibrationCounts), agent)
      ensures newSessions == if duplicate then old(newSessions) else Raised(old(newSessions), agent)
    {
      if !duplicate {
        ghost var counts, sessions := calibrationCounts, newSessions;
        calibrationCounts, newSessions := Raised(calibrationCounts, agent), Raised(newSessions, agent);
        forall a
          ensures CountIn(newSessions, a) <= CountIn(calibrationCounts, a) <= StartRows(database, a)
        {
          assert CountIn(sessions, a) <= CountIn(counts, a) <= StartRows(database, a);
        }
      }
    }

    /**
     The calibration part of `reconstruct_state`: for each sender whose row can be read, its count
     replaces the one held.  Where every start in the log was counted here, that changes nothing.
     */
    method RestoreCalibrationCounts(readable: set<BarFree>)
      requires Valid()
      modifies this`calibrationCounts
      ensures Valid()
      ensures forall a :: CountIn(old(calibrationCounts), a) <= CountIn(calibrationCounts, a)
      ensures forall a :: CountIn(calibrationCounts, a) ==
                          if a in readable && StartRows(database, a) > 0 then StartRows(database, a)
                          else CountIn(old(calibrationCounts), a)
      ensures forall a :: StartRows(database, a) == CountIn(newSessions, a) ==>
                            CountIn(calibrationCounts, a) == CountIn(old(calibrationCounts), a)
    {
      var senders := Senders(database);
      while senders != {}
        invariant senders <= Senders(database)
        invariant forall a :: CountIn(calibrationCounts, a) ==
                              if a in readable && a in Senders(database) && a !in senders then StartRows(database, a)
                              else CountIn(old(calibrationCounts), a)
        decreases |senders|
      {
        var agent :| agent in senders;
        senders := senders - {agent};
        if agent in readable {
          calibrationCounts := calibrationCounts[agent := StartRows(database, agent)];
        }
      }
      forall a
        ensures a in Senders(database) <==> StartRows(database, a) > 0
      {
        SendersHaveStarts(database, a);
      }
    }

    /**
     What an auditor finds of a session after any history of this process and of the other writers: the
     rows of this process are always a chain of their own, and the session is one numbered chain exactly
     when the others keep to the numbers and the links and never come before this process.
     */
    lemma SessionLog(s: Uuid, inputs: set<bytes>)
      requires Valid() && HashedFrom(database, s, inputs) && Sound(hasher, inputs)
      ensures Linked(hasher, Own(database), s) && HeadIn(hashChains, s) == LastHash(Own(database), s)
      ensures Linked(hasher, database, s) && Numbered(database, s) <==>
              OthersLink(hasher, database, s) && OthersNumber(database, s) && OwnFirst(database, s)
    {
      LinkedExactly(hasher, database, s, inputs);
      NumberedExactly(database, s);
    }

    /** A session that nobody else writes is one numbered chain, and its head is in memory. */
    lemma OwnSessionLog(s: Uuid)
      requires Valid() && !Shared(database, s)
      ensures Linked(hasher, database, s) && Numbered(database, s) && HeadIn(hashChains, s) == LastHash(database, s)
    {
      OwnRows(database, s);
      AllOwn(hasher, database, s);
    }
  }

  lemma {:induction false} NothingOwn(log: Log, s: Uuid)
    requires Own(log) == NoRows
    ensures OwnNumber(log, s)
  {
    if log.Add? {
      NothingOwn(log.past, s);
    }
  }

  lemma {:induction false} AllOwn<S>(h: Hasher<S>, log: Log, s: Uuid)
    requires !Shared(log, s) && OwnNumber(log, s) && Linked(h, Own(log), s)
    ensures Linked(h, log, s) && Numbered(log, s)
  {
    if log.Add? {
      AllOwn(h, log.past, s);
      OwnRows(log.past, s);
      NumberedMax(log.past, s);
    }
  }
}
