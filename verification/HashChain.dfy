/**
 The hash chain of the convergence monitor: how an event and the previous hash are joined into
 one byte string, why that string can be taken apart again, and what a chain head proves.
 */
module HashChain {
  import opened Wrappers
  import opened Blake3

  const BAR: byte := 124  // '|'

  /** The hash before the first event of a session: all zero. */
  function Genesis(): Digest {
    seq(DIGEST_BYTES, _ => 0 as byte)
  }

  /** Text without the separator, as UUIDs and RFC 3339 timestamps are. */
  type BarFree = t: bytes | BAR !in t

  datatype EventType = SessionStart | SessionEnd | InteractionMessage | AgentStateSnapshot | ConvergenceAlert

  /** What the chain records of an event; the payload may be any text. */
  datatype Record = Record(kind: EventType, payload: bytes, agent: BarFree, timestamp: BarFree)

  /** The ASCII bytes of the kind's name. */
  function Name(kind: EventType): bytes {
    match kind
    case SessionStart => [83, 101, 115, 115, 105, 111, 110, 83, 116, 97, 114, 116]
    case SessionEnd => [83, 101, 115, 115, 105, 111, 110, 69, 110, 100]
    case InteractionMessage => [73, 110, 116, 101, 114, 97, 99, 116, 105, 111, 110, 77, 101, 115, 115, 97, 103, 101]
    case AgentStateSnapshot => [65, 103, 101, 110, 116, 83, 116, 97, 116, 101, 83, 110, 97, 112, 115, 104, 111, 116]
    case ConvergenceAlert => [67, 111, 110, 118, 101, 114, 103, 101, 110, 99, 101, 65, 108, 101, 114, 116]
  }

  lemma NameIsBarFree(kind: EventType)
    ensures BAR !in Name(kind)
  {
  }

  predicate IsText(bs: bytes, text: string) {
    |bs| == |text| && forall i :: 0 <= i < |bs| ==> bs[i] as int == text[i] as int
  }

  /** The names, the separator and the first hash, written out. */
  lemma Literally()
    ensures IsText(Name(SessionStart), "SessionStart") && IsText(Name(SessionEnd), "SessionEnd")
    ensures IsText(Name(InteractionMessage), "InteractionMessage")
    ensures IsText(Name(AgentStateSnapshot), "AgentStateSnapshot")
    ensures IsText(Name(ConvergenceAlert), "ConvergenceAlert")
    ensures IsText([BAR], "|") && |Genesis()| == 32 && forall i :: 0 <= i < 32 ==> Genesis()[i] == 0
  {
  }

  lemma NamesDiffer(a: EventType, b: EventType)
    ensures Name(a) == Name(b) ==> a == b
  {
    var x, y := Name(a), Name(b);
    if x == y {
      assert |x| == |y| && x[0] == y[0];
    }
  }

  /** The byte string that is hashed for an event. */
  function Preimage(r: Record, previous: Digest): bytes {
    Name(r.kind) + [BAR] + r.payload + [BAR] + r.agent + [BAR] + r.timestamp + [BAR] + previous
  }

  // ---------------------------------------------------------------- taking a pre-image apart

  function SplitFirst(s: bytes): (bytes, bytes) {
    if s == [] then ([], [])
    else if s[0] == BAR then ([], s[1..])
    else var (a, b) := SplitFirst(s[1..]); ([s[0]] + a, b)
  }

  function SplitLast(s: bytes): (bytes, bytes) {
    if s == [] then ([], [])
    else
      var n := |s| - 1;
      if s[n] == BAR then (s[..n], [])
      else var (a, b) := SplitLast(s[..n]); (a, b + [s[n]])
  }

  lemma {:induction false} SplitFirstAt(a: bytes, b: bytes)
    requires BAR !in a
    ensures SplitFirst(a + [BAR] + b) == (a, b)
  {
    var s := a + [BAR] + b;
    if a == [] {
      assert s[1..] == b;
    } else {
      SplitFirstAt(a[1..], b);
      assert s[1..] == a[1..] + [BAR] + b;
      assert [a[0]] + a[1..] == a;
    }
  }

  lemma {:induction false} SplitLastAt(a: bytes, b: bytes)
    requires BAR !in b
    ensures SplitLast(a + [BAR] + b) == (a, b)
  {
    var s := a + [BAR] + b;
    var n := |s| - 1;
    if b == [] {
      assert s[..n] == a;
    } else {
      var m := |b| - 1;
      SplitLastAt(a, b[..m]);
      assert s[..n] == a + [BAR] + b[..m];
      assert b[..m] + [b[m]] == b;
    }
  }

  datatype Parts = Parts(name: bytes, payload: bytes, agent: bytes, timestamp: bytes, previous: bytes)

  /** The previous hash is the fixed tail; the name ends at the first bar, the rest at the last bars. */
  function TakeApart(s: bytes): Option<Parts> {
    if |s| < DIGEST_BYTES + 1 then None
    else
      var n := |s| - DIGEST_BYTES;
      var (name, rest) := SplitFirst(s[..n - 1]);
      var (front, timestamp) := SplitLast(rest);
      var (payload, agent) := SplitLast(front);
      Some(Parts(name, payload, agent, timestamp, s[n..]))
  }

  /** The pre-image keeps everything: bars in the payload do no harm. */
  lemma PreimageTakenApart(r: Record, previous: Digest)
    ensures TakeApart(Preimage(r, previous)) ==
            Some(Parts(Name(r.kind), r.payload, r.agent, r.timestamp, previous))
  {
    var s := Preimage(r, previous);
    var n := |s| - DIGEST_BYTES;
    var front := r.payload + [BAR] + r.agent;
    var rest := front + [BAR] + r.timestamp;
    assert s[n..] == previous;
    assert s[..n - 1] == Name(r.kind) + [BAR] + rest;
    NameIsBarFree(r.kind);
    SplitFirstAt(Name(r.kind), rest);
    SplitLastAt(front, r.timestamp);
    SplitLastAt(r.payload, r.agent);
  }

  lemma PreimageInjective(r: Record, previous: Digest, r': Record, previous': Digest)
    requires Preimage(r, previous) == Preimage(r', previous')
    ensures r == r' && previous == previous'
  {
    PreimageTakenApart(r, previous);
    PreimageTakenApart(r', previous');
    NamesDiffer(r.kind, r'.kind);
  }

  // ---------------------------------------------------------------- chains

  /** Hashes an event by feeding its parts one after the other. */
  method ComputeEventHash<S(!new)>(h: Hasher<S>, r: Record, previous: Digest) returns (digest: Digest)
    requires Incremental(h)
    ensures digest == Hash(h, Preimage(r, previous))
  {
    var state := Begin(h);
    state := Feed(h, state, Name(r.kind), []);
    ghost var fed := [] + Name(r.kind);
    assert fed == Name(r.kind);
    state := Feed(h, state, [BAR], fed);
    state := Feed(h, state, r.payload, fed + [BAR]);
    fed := fed + [BAR] + r.payload;
    state := Feed(h, state, [BAR], fed);
    state := Feed(h, state, r.agent, fed + [BAR]);
    fed := fed + [BAR] + r.agent;
    state := Feed(h, state, [BAR], fed);
    state := Feed(h, state, r.timestamp, fed + [BAR]);
    fed := fed + [BAR] + r.timestamp;
    state := Feed(h, state, [BAR], fed);
    state := Feed(h, state, previous, fed + [BAR]);
    digest := Digested(h, state, fed + [BAR] + previous);
  }

  /** The events recorded since genesis, oldest innermost. */
  datatype Chain = Start | Link(past: Chain, record: Record)

  function Head<S>(h: Hasher<S>, chain: Chain): Digest {
    match chain
    case Start => Genesis()
    case Link(past, record) => Hash(h, Preimage(record, Head(h, past)))
  }

  /** Every byte string hashed while the chain was built is among `inputs`. */
  predicate BuiltFrom<S>(h: Hasher<S>, chain: Chain, inputs: set<bytes>) {
    match chain
    case Start => true
    case Link(past, record) => BuiltFrom(h, past, inputs) && Preimage(record, Head(h, past)) in inputs
  }

  /** No two of these strings collide and none hashes to the genesis value. */
  ghost predicate Sound<S>(h: Hasher<S>, inputs: set<bytes>) {
    && (forall p, q :: p in inputs && q in inputs && Hash(h, p) == Hash(h, q) ==> p == q)
    && (forall p :: p in inputs ==> Hash(h, p) != Genesis())
  }

  lemma EqualHashesEqualSteps<S>(h: Hasher<S>, inputs: set<bytes>, r: Record, d: Digest, r': Record, d': Digest)
    requires Sound(h, inputs) && Preimage(r, d) in inputs && Preimage(r', d') in inputs
    requires Hash(h, Preimage(r, d)) == Hash(h, Preimage(r', d'))
    ensures r == r' && d == d'
  {
    var p, q := Preimage(r, d), Preimage(r', d');
    assert p == q;
    PreimageInjective(r, d, r', d');
  }

  lemma StepIsNotGenesis<S>(h: Hasher<S>, inputs: set<bytes>, r: Record, d: Digest)
    requires Sound(h, inputs) && Preimage(r, d) in inputs
    ensures Hash(h, Preimage(r, d)) != Genesis()
  {
  }

  /** A chain head commits to the whole sequence of events before it. */
  lemma {:induction false} EqualHeadsEqualHistories<S>(h: Hasher<S>, a: Chain, b: Chain, inputs: set<bytes>)
    requires Head(h, a) == Head(h, b)
    requires BuiltFrom(h, a, inputs) && BuiltFrom(h, b, inputs) && Sound(h, inputs)
    ensures a == b
  {
    match (a, b)
    case (Start, Start) =>
    case (Link(past, record), Start) => StepIsNotGenesis(h, inputs, record, Head(h, past));
    case (Start, Link(past, record)) => StepIsNotGenesis(h, inputs, record, Head(h, past));
    case (Link(past, record), Link(past', record')) =>
      EqualHashesEqualSteps(h, inputs, record, Head(h, past), record', Head(h, past'));
      EqualHeadsEqualHistories(h, past, past', inputs);
  }
}
