/**
 Reconstruction of chat sessions from a flat list of messages: explicit session ids are kept, and
 messages without one are cut into sessions wherever the gap to the previous message is too long.
 */
module Timeline {
  import opened Wrappers
  import opened Sorting
  import opened TextOrder
  import opened Decimals

  const NANOS_PER_SECOND: int := 1_000_000_000

  /** Timestamps are nanoseconds since the epoch. */
  datatype Message = Message(sessionId: Option<string>, timestamp: int, content: string)

  datatype Session = Session(id: string, start: int, end: int, messages: seq<Message>, count: nat)

  function Time(m: Message): int {
    m.timestamp
  }

  function Start(s: Session): int {
    s.start
  }

  // ---------------------------------------------------------------- generated ids

  const PREFIX: string := "inferred-"

  function Inferred(k: nat): string {
    PREFIX + Decimal(k)
  }

  lemma InferredDiffer(j: nat, k: nat)
    requires Inferred(j) == Inferred(k)
    ensures j == k
  {
    DecimalReadsBack(j);
    DecimalReadsBack(k);
    assert Inferred(j)[|PREFIX|..] == Decimal(j);
    assert Inferred(k)[|PREFIX|..] == Decimal(k);
  }

  // ---------------------------------------------------------------- messages with an id

  type Groups = map<string, seq<Message>>

  function Having(messages: seq<Message>, id: Option<string>): seq<Message> {
    if messages == [] then []
    else
      var last := messages[|messages| - 1];
      Having(messages[..|messages| - 1], id) + if last.sessionId == id then [last] else []
  }

  function Add(groups: Groups, m: Message): Groups {
    if m.sessionId.None? then groups
    else
      var id := m.sessionId.value;
      groups[id := (if id in groups then groups[id] else []) + [m]]
  }

  /** The messages of every explicit id. */
  function Explicit(messages: seq<Message>): Groups {
    if messages == [] then map[] else Add(Explicit(messages[..|messages| - 1]), messages[|messages| - 1])
  }

  lemma {:induction false} ExplicitMeaning(messages: seq<Message>, id: string)
    ensures id in Explicit(messages) <==> Having(messages, Some(id)) != []
    ensures id in Explicit(messages) ==> Explicit(messages)[id] == Having(messages, Some(id))
    decreases |messages|
  {
    if messages != [] {
      ExplicitMeaning(messages[..|messages| - 1], id);
    }
  }

  method Group(messages: seq<Message>) returns (groups: Groups, unassigned: seq<Message>)
    ensures groups == Explicit(messages) && unassigned == Having(messages, None)
  {
    groups, unassigned := map[], [];
    for i := 0 to |messages|
      invariant groups == Explicit(messages[..i]) && unassigned == Having(messages[..i], None)
    {
      var m := messages[i];
      assert messages[..i + 1][..i] == messages[..i];
      if m.sessionId.Some? {
        var id := m.sessionId.value;
        groups := groups[id := (if id in groups then groups[id] else []) + [m]];
      } else {
        unassigned := unassigned + [m];
      }
    }
    assert messages[..|messages|] == messages;
  }

  // ---------------------------------------------------------------- runs

  /** Whole seconds from one message to a later one. */
  function Gap(a: Message, b: Message): int {
    var nanos := b.timestamp - a.timestamp;
    if nanos >= 0 then nanos / NANOS_PER_SECOND else -(-nanos / NANOS_PER_SECOND)
  }

  function Last<T>(s: seq<T>): T
    requires s != []
  {
    s[|s| - 1]
  }

  function Flatten(runs: seq<seq<Message>>): seq<Message> {
    if runs == [] then [] else Flatten(runs[..|runs| - 1]) + Last(runs)
  }

  predicate Connected(run: seq<Message>, threshold: int) {
    run != [] && forall i :: 0 < i < |run| ==> Gap(run[i - 1], run[i]) <= threshold
  }

  /** The runs are maximal: no gap inside is too long, and every gap between two runs is. */
  predicate MaximalRuns(runs: seq<seq<Message>>, threshold: int) {
    && (forall k :: 0 <= k < |runs| ==> Connected(runs[k], threshold))
    && (forall k :: 0 < k < |runs| ==> Gap(Last(runs[k - 1]), runs[k][0]) > threshold)
  }

  /** One more message: it opens a run or joins the last one. */
  function Grow(runs: seq<seq<Message>>, m: Message, threshold: int): seq<seq<Message>>
    requires runs != [] ==> Last(runs) != []
  {
    if runs == [] || Gap(Last(Last(runs)), m) > threshold then runs + [[m]]
    else runs[..|runs| - 1] + [Last(runs) + [m]]
  }

  function Runs(sorted: seq<Message>, threshold: int): (runs: seq<seq<Message>>)
    ensures runs != [] ==> Last(runs) != []
    ensures runs == [] <==> sorted == []
  {
    if sorted == [] then [] else Grow(Runs(sorted[..|sorted| - 1], threshold), Last(sorted), threshold)
  }

  lemma FlattenSnoc(runs: seq<seq<Message>>, run: seq<Message>)
    ensures Flatten(runs + [run]) == Flatten(runs) + run
  {
    assert (runs + [run])[..|runs|] == runs;
  }

  lemma GrowKeeps(runs: seq<seq<Message>>, m: Message, threshold: int)
    requires runs != [] ==> Last(runs) != []
    ensures Flatten(Grow(runs, m, threshold)) == Flatten(runs) + [m]
  {
    FlattenSnoc(runs, [m]);
    if runs != [] {
      var front, last := runs[..|runs| - 1], Last(runs);
      FlattenSnoc(front, last + [m]);
      assert Flatten(front) + (last + [m]) == Flatten(front) + last + [m];
    }
  }

  lemma GrowIsMaximal(runs: seq<seq<Message>>, m: Message, threshold: int)
    requires MaximalRuns(runs, threshold) && (runs != [] ==> Last(runs) != [])
    ensures MaximalRuns(Grow(runs, m, threshold), threshold)
  {
    var grown := Grow(runs, m, threshold);
    if runs != [] && Gap(Last(Last(runs)), m) <= threshold {
      var n := |runs| - 1;
      assert Connected(runs[n], threshold);
      assert grown[n][0] == runs[n][0];
      assert forall k :: 0 <= k < n ==> grown[k] == runs[k];
    } else {
      assert forall k :: 0 <= k < |runs| ==> grown[k] == runs[k];
    }
  }

  /** The runs cut the sorted messages into pieces... */
  lemma {:induction false} RunsConcatenate(sorted: seq<Message>, threshold: int)
    ensures Flatten(Runs(sorted, threshold)) == sorted
    decreases |sorted|
  {
    if sorted != [] {
      var front := sorted[..|sorted| - 1];
      RunsConcatenate(front, threshold);
      GrowKeeps(Runs(front, threshold), Last(sorted), threshold);
      assert front + [Last(sorted)] == sorted;
    }
  }

  /** ...that are maximal. */
  lemma {:induction false} RunsAreMaximal(sorted: seq<Message>, threshold: int)
    ensures MaximalRuns(Runs(sorted, threshold), threshold)
    decreases |sorted|
  {
    if sorted != [] {
      var front := sorted[..|sorted| - 1];
      RunsAreMaximal(front, threshold);
      GrowIsMaximal(Runs(front, threshold), Last(sorted), threshold);
    }
  }

  /** A gap of whole seconds exceeds the threshold when at least one second more has passed. */
  lemma LongGap(a: Message, b: Message, threshold: int)
    requires a.timestamp <= b.timestamp && threshold >= 0
    ensures Gap(a, b) > threshold <==> b.timestamp - a.timestamp >= (threshold + 1) * 1_000_000_000
  {
  }

  /** Between messages of one run less than a second more than the threshold passes, and more between two runs. */
  lemma RunsByTime(sorted: seq<Message>, threshold: int, k: nat)
    requires SortedBy(sorted, Time) && threshold >= 0 && k < |Runs(sorted, threshold)|
    ensures var runs, limit := Runs(sorted, threshold), (threshold + 1) * 1_000_000_000;
            && runs[k] != []
            && (forall i :: 0 < i < |runs[k]| ==> runs[k][i].timestamp - runs[k][i - 1].timestamp < limit)
            && (k > 0 ==> runs[k - 1] != [] && runs[k][0].timestamp - Last(runs[k - 1]).timestamp >= limit)
  {
    var runs := Runs(sorted, threshold);
    RunsAreMaximal(sorted, threshold);
    RunsConcatenate(sorted, threshold);
    assert Connected(runs[k], threshold);
    RunIsSorted(runs, k);
    forall i | 0 < i < |runs[k]|
      ensures runs[k][i].timestamp - runs[k][i - 1].timestamp < (threshold + 1) * 1_000_000_000
    {
      assert Time(runs[k][i - 1]) <= Time(runs[k][i]);
      LongGap(runs[k][i - 1], runs[k][i], threshold);
    }
    if k > 0 {
      assert Connected(runs[k - 1], threshold);
      NextRunIsLater(runs, k);
      LongGap(Last(runs[k - 1]), runs[k][0], threshold);
    }
  }

  lemma {:induction false} NextRunIsLater(runs: seq<seq<Message>>, k: nat)
    requires 0 < k < |runs| && runs[k - 1] != [] && runs[k] != [] && SortedBy(Flatten(runs), Time)
    ensures Last(runs[k - 1]).timestamp <= runs[k][0].timestamp
  {
    var n := |runs| - 1;
    SortedParts(Flatten(runs[..n]), runs[n]);
    if k < n {
      NextRunIsLater(runs[..n], k);
    } else {
      var front := runs[..n];
      assert front[..n - 1] == runs[..n - 1] && Last(front) == runs[n - 1];
      NeighboursInOrder(Flatten(runs[..n - 1]), runs[n - 1], runs[n]);
    }
  }

  lemma NeighboursInOrder(front: seq<Message>, a: seq<Message>, b: seq<Message>)
    requires a != [] && b != [] && SortedBy(front + a + b, Time)
    ensures Last(a).timestamp <= b[0].timestamp
  {
    var all, i := front + a + b, |front| + |a|;
    assert all[i - 1] == Last(a) && all[i] == b[0];
    assert Time(all[i - 1]) <= Time(all[i]);
  }

  /** There is only one way to cut messages into maximal runs. */
  lemma {:induction false} MaximalRunsAreRuns(runs: seq<seq<Message>>, threshold: int)
    requires MaximalRuns(runs, threshold)
    ensures Runs(Flatten(runs), threshold) == runs
    decreases |Flatten(runs)|, |runs|
  {
    if runs != [] {
      var n := |runs| - 1;
      var front, last, m := runs[..n], runs[n], Last(runs[n]);
      assert Connected(last, threshold);
      FlattenSnoc(front, last);
      assert front + [last] == runs;
      var shorter := Shortened(runs);
      ShortenedFlattens(runs);
      ShortenedIsMaximal(runs, threshold);
      MaximalRunsAreRuns(shorter, threshold);
      assert Flatten(runs)[..|Flatten(runs)| - 1] == Flatten(shorter);
      assert Last(Flatten(runs)) == m;
      GrowsBack(runs, threshold);
    }
  }

  /** The runs without the last message. */
  function Shortened(runs: seq<seq<Message>>): seq<seq<Message>>
    requires runs != [] && Last(runs) != []
  {
    var front, last := runs[..|runs| - 1], Last(runs);
    if |last| == 1 then front else front + [last[..|last| - 1]]
  }

  lemma ShortenedFlattens(runs: seq<seq<Message>>)
    requires runs != [] && Last(runs) != []
    ensures Flatten(runs) == Flatten(Shortened(runs)) + [Last(Last(runs))]
  {
    var front, last := runs[..|runs| - 1], Last(runs);
    var init := last[..|last| - 1];
    FlattenSnoc(front, init);
    assert last == init + [Last(last)];
    assert Flatten(front) + (init + [Last(last)]) == Flatten(front) + init + [Last(last)];
    if |last| == 1 {
      assert Flatten(front) + init == Flatten(front);
    }
  }

  lemma ShortenedIsMaximal(runs: seq<seq<Message>>, threshold: int)
    requires MaximalRuns(runs, threshold) && runs != [] && Last(runs) != []
    ensures MaximalRuns(Shortened(runs), threshold)
  {
    var n := |runs| - 1;
    var shorter := Shortened(runs);
    assert Connected(runs[n], threshold);
    assert forall k :: 0 <= k < n ==> shorter[k] == runs[k];
    if |runs[n]| > 1 {
      assert shorter[n][0] == runs[n][0];
    }
  }

  lemma GrowsBack(runs: seq<seq<Message>>, threshold: int)
    requires MaximalRuns(runs, threshold) && runs != [] && Last(runs) != []
    ensures Shortened(runs) != [] ==> Last(Shortened(runs)) != []
    ensures Grow(Shortened(runs), Last(Last(runs)), threshold) == runs
  {
    var n := |runs| - 1;
    var front, last, m := runs[..n], runs[n], Last(runs[n]);
    assert runs == front + [last];
    assert Connected(last, threshold);
    if |last| == 1 {
      assert last == [m];
      if n > 0 {
        assert Connected(runs[n - 1], threshold);
        assert Gap(Last(runs[n - 1]), runs[n][0]) > threshold;
      }
    } else {
      var init := last[..|last| - 1];
      assert last == init + [m];
      assert Gap(last[|last| - 2], last[|last| - 1]) <= threshold;
    }
  }

  // ---------------------------------------------------------------- all groups

  /** Inferred sessions are added under generated ids; one that is taken is overwritten. */
  function Overlay(groups: Groups, runs: seq<seq<Message>>): Groups {
    if runs == [] then groups else Overlay(groups, runs[..|runs| - 1])[Inferred(|runs| - 1) := Last(runs)]
  }

  function InferredRuns(messages: seq<Message>, threshold: int): seq<seq<Message>> {
    Runs(SortBy(Having(messages, None), Time), threshold)
  }

  function AllGroups(messages: seq<Message>, threshold: int): Groups {
    Overlay(Explicit(messages), InferredRuns(messages, threshold))
  }

  /** The loop that cuts the unassigned messages. */
  method Infer(groups: Groups, sorted: seq<Message>, threshold: int) returns (all: Groups)
    ensures all == Overlay(groups, Runs(sorted, threshold))
  {
    all := groups;
    var current: seq<Message> := [];
    var counter := 0;
    ghost var closed: seq<seq<Message>> := [];
    for i := 0 to |sorted|
      invariant |closed| == counter && all == Overlay(groups, closed)
      invariant i == 0 ==> current == [] && closed == []
      invariant i > 0 ==> current != [] && Runs(sorted[..i], threshold) == closed + [current]
    {
      var m := sorted[i];
      RunsStep(sorted, i, threshold, closed, current);
      if current != [] && Gap(Last(current), m) > threshold {
        OverlaySnoc(groups, closed, current);
        all := all[Inferred(counter) := current];
        closed := closed + [current];
        current := [];
        counter := counter + 1;
      }
      current := current + [m];
    }
    assert sorted[..|sorted|] == sorted;
    if current != [] {
      OverlaySnoc(groups, closed, current);
      all := all[Inferred(counter) := current];
    }
  }

  /** One more message, seen from the closed runs and the open one. */
  lemma RunsStep(sorted: seq<Message>, i: nat, threshold: int, closed: seq<seq<Message>>, current: seq<Message>)
    requires i < |sorted| && (i == 0 ==> closed == [] && current == [])
    requires i > 0 ==> current != [] && Runs(sorted[..i], threshold) == closed + [current]
    ensures Runs(sorted[..i + 1], threshold) ==
            if current == [] then closed + [[] + [sorted[i]]]
            else if Gap(Last(current), sorted[i]) > threshold then closed + [current] + [[] + [sorted[i]]]
            else closed + [current + [sorted[i]]]
  {
    assert sorted[..i + 1][..i] == sorted[..i];
    assert [] + [sorted[i]] == [sorted[i]];
    if i > 0 {
      assert (closed + [current])[..|closed|] == closed;
    }
  }

  lemma OverlaySnoc(groups: Groups, runs: seq<seq<Message>>, run: seq<Message>)
    ensures Overlay(groups, runs + [run]) == Overlay(groups, runs)[Inferred(|runs|) := run]
  {
    assert (runs + [run])[..|runs|] == runs;
  }

  /** An id names an inferred run, or else the explicit messages with that id. */
  lemma {:induction false} OverlayMeaning(groups: Groups, runs: seq<seq<Message>>, id: string)
    ensures (forall k :: 0 <= k < |runs| ==> Inferred(k) != id) ==>
              && (id in Overlay(groups, runs) <==> id in groups)
              && (id in groups ==> Overlay(groups, runs)[id] == groups[id])
    ensures forall k :: 0 <= k < |runs| && Inferred(k) == id ==>
                          id in Overlay(groups, runs) && Overlay(groups, runs)[id] == runs[k]
    decreases |runs|
  {
    if runs != [] {
      var n := |runs| - 1;
      OverlayMeaning(groups, runs[..n], id);
      forall k | 0 <= k < |runs| && Inferred(k) == id
        ensures id in Overlay(groups, runs) && Overlay(groups, runs)[id] == runs[k]
      {
        if Inferred(n) == id {
          InferredDiffer(k, n);
        } else {
          assert runs[..n][k] == runs[k];
        }
      }
    }
  }

  // ---------------------------------------------------------------- which messages the groups hold

  ghost function Pick(ids: set<string>): (id: string)
    requires ids != {}
    ensures id in ids
  {
    var id :| id in ids;
    id
  }

  ghost function Total(groups: Groups, ids: set<string>): multiset<Message>
    requires ids <= groups.Keys
    decreases ids
  {
    if ids == {} then multiset{}
    else
      var id := Pick(ids);
      Total(groups, ids - {id}) + multiset(groups[id])
  }

  ghost function Held(groups: Groups): multiset<Message> {
    Total(groups, groups.Keys)
  }

  /** The total does not depend on the order in which groups are counted. */
  lemma {:induction false} TotalTake(groups: Groups, ids: set<string>, id: string)
    requires ids <= groups.Keys && id in ids
    ensures Total(groups, ids) == Total(groups, ids - {id}) + multiset(groups[id])
    decreases ids
  {
    var other := Pick(ids);
    if other != id {
      TotalTake(groups, ids - {other}, id);
      TotalTake(groups, ids - {id}, other);
      assert ids - {other} - {id} == ids - {id} - {other};
    }
  }

  lemma {:induction false} TotalAgree(a: Groups, b: Groups, ids: set<string>)
    requires ids <= a.Keys && ids <= b.Keys && forall id :: id in ids ==> a[id] == b[id]
    ensures Total(a, ids) == Total(b, ids)
    decreases ids
  {
    if ids != {} {
      TotalAgree(a, b, ids - {Pick(ids)});
    }
  }

  lemma HeldAssign(groups: Groups, id: string, value: seq<Message>)
    ensures Held(groups[id := value]) + (if id in groups then multiset(groups[id]) else multiset{}) ==
            Held(groups) + multiset(value)
  {
    var after := groups[id := value];
    TotalTake(after, after.Keys, id);
    assert after.Keys - {id} == groups.Keys - {id};
    TotalAgree(after, groups, groups.Keys - {id});
    if id in groups {
      TotalTake(groups, groups.Keys, id);
    } else {
      assert groups.Keys - {id} == groups.Keys;
    }
  }

  /** Grouping by explicit id loses nothing. */
  lemma {:induction false} HeldExplicit(messages: seq<Message>)
    ensures Held(Explicit(messages)) + multiset(Having(messages, None)) == multiset(messages)
    decreases |messages|
  {
    if messages != [] {
      var front, m := messages[..|messages| - 1], messages[|messages| - 1];
      HeldExplicit(front);
      assert messages == front + [m];
      HeldAdd(Explicit(front), m);
      assert multiset(messages) == multiset(front) + multiset{m};
    }
  }

  lemma HeldAdd(groups: Groups, m: Message)
    ensures Held(Add(groups, m)) == Held(groups) + if m.sessionId.Some? then multiset{m} else multiset{}
  {
    if m.sessionId.Some? {
      var id := m.sessionId.value;
      var before := if id in groups then groups[id] else [];
      HeldAssign(groups, id, before + [m]);
      assert multiset(before + [m]) == multiset(before) + multiset{m};
      CancelRight(Held(Add(groups, m)), Held(groups) + multiset{m}, multiset(before));
    }
  }

  lemma CancelRight(a: multiset<Message>, b: multiset<Message>, c: multiset<Message>)
    requires a + c == b + c
    ensures a == b
  {
    forall m
      ensures a[m] == b[m]
    {
      assert (a + c)[m] == (b + c)[m];
    }
  }

  /** The explicit sessions that inferred ones overwrite. */
  function Lost(groups: Groups, runs: seq<seq<Message>>): multiset<Message> {
    if runs == [] then multiset{}
    else
      var id := Inferred(|runs| - 1);
      Lost(groups, runs[..|runs| - 1]) + if id in groups then multiset(groups[id]) else multiset{}
  }

  lemma {:induction false} HeldOverlay(groups: Groups, runs: seq<seq<Message>>)
    ensures Held(Overlay(groups, runs)) + Lost(groups, runs) == Held(groups) + multiset(Flatten(runs))
    decreases |runs|
  {
    if runs != [] {
      var n := |runs| - 1;
      var front, id := runs[..n], Inferred(n);
      HeldOverlay(groups, front);
      HeldAssign(Overlay(groups, front), id, runs[n]);
      forall k | 0 <= k < n
        ensures Inferred(k) != id
      {
        if Inferred(k) == id {
          InferredDiffer(k, n);
        }
      }
      OverlayMeaning(groups, front, id);
      var gone := if id in groups then multiset(groups[id]) else multiset{};
      AddUp(Held(Overlay(groups, runs)), gone, Held(Overlay(groups, front)), multiset(runs[n]),
            Lost(groups, front), Held(groups), multiset(Flatten(front)));
      assert multiset(Flatten(runs)) == multiset(Flatten(front)) + multiset(runs[n]);
    }
  }

  lemma AddUp(a: multiset<Message>, x: multiset<Message>, b: multiset<Message>, r: multiset<Message>,
              l: multiset<Message>, h: multiset<Message>, f: multiset<Message>)
    requires a + x == b + r && b + l == h + f
    ensures a + (l + x) == h + (f + r)
  {
    assert a + (l + x) == a + x + l == b + l + r;
  }

  /** An explicit id is one of the ids that are generated. */
  predicate Clash(groups: Groups, runs: seq<seq<Message>>) {
    exists k :: 0 <= k < |runs| && Inferred(k) in groups
  }

  lemma {:induction false} LostNothing(groups: Groups, runs: seq<seq<Message>>)
    requires forall id :: id in groups ==> groups[id] != []
    ensures Lost(groups, runs) == multiset{} <==> !Clash(groups, runs)
    decreases |runs|
  {
    if runs != [] {
      var n := |runs| - 1;
      LostNothing(groups, runs[..n]);
      if Inferred(n) in groups {
        assert groups[Inferred(n)][0] in Lost(groups, runs);
      } else if k :| 0 <= k < |runs| && Inferred(k) in groups {
        assert k < n;
      }
    }
  }

  /** What is held and what was overwritten are together the input. */
  lemma HeldAndLost(messages: seq<Message>, threshold: int)
    ensures Held(AllGroups(messages, threshold)) + Lost(Explicit(messages), InferredRuns(messages, threshold)) ==
            multiset(messages)
  {
    var unassigned := Having(messages, None);
    HeldExplicit(messages);
    SortSorts(unassigned, Time);
    RunsConcatenate(SortBy(unassigned, Time), threshold);
    HeldOverlay(Explicit(messages), InferredRuns(messages, threshold));
  }

  /** All messages are kept exactly when no explicit id is one of the generated ids. */
  lemma ConservedExactlyWithoutClash(messages: seq<Message>, threshold: int)
    ensures Held(AllGroups(messages, threshold)) == multiset(messages) <==>
            !Clash(Explicit(messages), InferredRuns(messages, threshold))
  {
    var groups, runs := Explicit(messages), InferredRuns(messages, threshold);
    HeldAndLost(messages, threshold);
    forall id | id in groups
      ensures groups[id] != []
    {
      ExplicitMeaning(messages, id);
    }
    LostNothing(groups, runs);
    Cancel(Held(AllGroups(messages, threshold)), Lost(groups, runs), multiset(messages));
  }

  lemma Cancel(kept: multiset<Message>, lost: multiset<Message>, all: multiset<Message>)
    requires kept + lost == all
    ensures kept == all <==> lost == multiset{}
  {
    if kept == all {
      assert |lost| == 0;
    }
  }

  // ---------------------------------------------------------------- sessions

  function Built(id: string, messages: seq<Message>): Session {
    var sorted := SortBy(messages, Time);
    if sorted == [] then Session(id, 0, 0, sorted, 0)
    else Session(id, sorted[0].timestamp, Last(sorted).timestamp, sorted, |sorted|)
  }

  /** A session holds its messages in order, those of one instant as they came, between its start and its end. */
  lemma BuiltMeaning(id: string, messages: seq<Message>)
    ensures var s := Built(id, messages);
            && multiset(s.messages) == multiset(messages) && SortedBy(s.messages, Time) && s.count == |messages|
            && (forall k :: WithKey(s.messages, Time, k) == WithKey(messages, Time, k))
            && (forall m :: m in messages ==> s.start <= m.timestamp <= s.end)
            && (messages != [] ==> (exists m :: m in messages && m.timestamp == s.start)
                                   && (exists m :: m in messages && m.timestamp == s.end))
  {
    var sorted := SortBy(messages, Time);
    SortSorts(messages, Time);
    forall k
      ensures WithKey(sorted, Time, k) == WithKey(messages, Time, k)
    {
      SortIsStable(messages, Time, k);
    }
    forall m | m in messages
      ensures sorted != [] && Time(sorted[0]) <= Time(m) <= Time(Last(sorted))
    {
      assert m in multiset(messages);
      assert m in sorted;
    }
    if messages != [] {
      assert sorted[0] in multiset(sorted) && Last(sorted) in multiset(sorted);
      assert sorted[0] in messages && Last(sorted) in messages;
    }
  }

  lemma {:induction false} RunIsSorted(runs: seq<seq<Message>>, k: nat)
    requires k < |runs| && SortedBy(Flatten(runs), Time)
    ensures SortedBy(runs[k], Time)
    decreases |runs|
  {
    var n := |runs| - 1;
    SortedParts(Flatten(runs[..n]), runs[n]);
    if k < n {
      RunIsSorted(runs[..n], k);
    }
  }

  lemma SortedParts(a: seq<Message>, b: seq<Message>)
    requires SortedBy(a + b, Time)
    ensures SortedBy(a, Time) && SortedBy(b, Time)
  {
    assert forall i :: 0 <= i < |a| ==> a[i] == (a + b)[i];
    assert forall i :: 0 <= i < |b| ==> b[i] == (a + b)[|a| + i];
  }

  /** The session of a generated id is one of the maximal runs of the messages without an id. */
  lemma InferredSession(messages: seq<Message>, threshold: int, k: nat)
    requires k < |InferredRuns(messages, threshold)|
    ensures var groups, runs := AllGroups(messages, threshold), InferredRuns(messages, threshold);
            && MaximalRuns(runs, threshold) && multiset(Flatten(runs)) == multiset(Having(messages, None))
            && Inferred(k) == "inferred-" + Decimal(k)
            && Inferred(k) in groups && Built(Inferred(k), groups[Inferred(k)]).messages == runs[k]
  {
    var sorted, runs := SortBy(Having(messages, None), Time), InferredRuns(messages, threshold);
    SortSorts(Having(messages, None), Time);
    RunsConcatenate(sorted, threshold);
    RunsAreMaximal(sorted, threshold);
    OverlayMeaning(Explicit(messages), runs, Inferred(k));
    RunIsSorted(runs, k);
    SortedIsFixed(runs[k], Time);
  }

  /** The session of any other id holds the messages with that id. */
  lemma ExplicitSession(messages: seq<Message>, threshold: int, id: string)
    requires forall k :: 0 <= k < |InferredRuns(messages, threshold)| ==> Inferred(k) != id
    ensures var groups := AllGroups(messages, threshold);
            && (id in groups <==> exists m :: m in messages && m.sessionId == Some(id))
            && (id in groups ==> groups[id] == Having(messages, Some(id)))
  {
    OverlayMeaning(Explicit(messages), InferredRuns(messages, threshold), id);
    ExplicitMeaning(messages, id);
    HavingSome(messages, Some(id));
  }

  lemma {:induction false} HavingSome(messages: seq<Message>, id: Option<string>)
    ensures Having(messages, id) != [] <==> exists m :: m in messages && m.sessionId == id
    decreases |messages|
  {
    if messages != [] {
      var front, last := messages[..|messages| - 1], messages[|messages| - 1];
      HavingSome(front, id);
      assert messages == front + [last];
      if last.sessionId == id {
        assert last in messages;
      }
    }
  }

  /** The clash does happen: the explicit session disappears. */
  lemma ClashLosesASession(a: Message, b: Message, threshold: int)
    requires a.sessionId == Some("inferred-0") && b.sessionId.None?
    ensures AllGroups([a, b], threshold) == map["inferred-0" := [b]]
  {
    assert Inferred(0) == "inferred-0";
    assert [a, b][..1] == [a] && [a][..0] == [];
    assert Explicit([a]) == map[Inferred(0) := [] + [a]];
    assert Having([a], None) == [] && Having([a, b], None) == [b];
    assert [b][..0] == [] && SortBy([b], Time) == [b];
    assert Runs([b], threshold) == [[b]];
    assert Explicit([a, b]) == Explicit([a]);
    OverlaySnoc(Explicit([a, b]), [], [b]);
    assert [] + [[b]] == [[b]];
  }

  function Messages(sessions: seq<Session>): multiset<Message> {
    if sessions == [] then multiset{} else Messages(sessions[..|sessions| - 1]) + multiset(Last(sessions).messages)
  }

  lemma MessagesSnoc(sessions: seq<Session>, s: Session)
    ensures Messages(sessions + [s]) == Messages(sessions) + multiset(s.messages)
  {
    assert (sessions + [s])[..|sessions|] == sessions;
  }

  lemma {:induction false} MessagesInsert(sessions: seq<Session>, s: Session)
    ensures Messages(Insert(sessions, s, Start)) == Messages(sessions) + multiset(s.messages)
    decreases |sessions|
  {
    MessagesSnoc(sessions, s);
    if sessions == [] {
      assert sessions + [s] == [s];
    } else {
      var front, last := sessions[..|sessions| - 1], Last(sessions);
      MessagesInsert(front, s);
      MessagesSnoc(Insert(front, s, Start), last);
    }
  }

  lemma {:induction false} MessagesSort(sessions: seq<Session>)
    ensures Messages(SortBy(sessions, Start)) == Messages(sessions)
    decreases |sessions|
  {
    if sessions != [] {
      MessagesSort(sessions[..|sessions| - 1]);
      MessagesInsert(SortBy(sessions[..|sessions| - 1], Start), Last(sessions));
    }
  }

  /** One session for every id. */
  ghost predicate Lists(sessions: seq<Session>, groups: Groups, ids: set<string>)
    requires ids <= groups.Keys
  {
    && |sessions| == |ids|
    && (forall s :: s in sessions ==> s.id in ids && s == Built(s.id, groups[s.id]))
    && (forall id :: id in ids ==> Built(id, groups[id]) in sessions)
  }

  /** The sessions come in the order of their ids. */
  ghost predicate InIdOrder(sessions: seq<Session>) {
    forall i, j :: 0 <= i < j < |sessions| ==> NotAfter(sessions[i].id, sessions[j].id)
  }

  ghost predicate Before(done: set<string>, left: set<string>) {
    forall a, b :: a in done && b in left ==> NotAfter(a, b)
  }

  lemma NextInOrder(sessions: seq<Session>, groups: Groups, done: set<string>, id: string)
    requires done <= groups.Keys && Lists(sessions, groups, done) && InIdOrder(sessions)
    requires Before(done, groups.Keys - done) && id in groups.Keys - done
    requires forall t :: t in groups.Keys - done ==> NotAfter(id, t)
    ensures InIdOrder(sessions + [Built(id, groups[id])]) && Before(done + {id}, groups.Keys - (done + {id}))
  {
    forall i | 0 <= i < |sessions|
      ensures NotAfter(sessions[i].id, id)
    {
      assert sessions[i] in sessions;
    }
  }

  /** The groups are taken in the order of their ids, as a B-tree map yields them. */
  method BuildSessions(groups: Groups) returns (sessions: seq<Session>)
    ensures Lists(sessions, groups, groups.Keys) && Messages(sessions) == Held(groups)
    ensures InIdOrder(sessions)
  {
    sessions := [];
    var done: set<string> := {};
    while done != groups.Keys
      invariant done <= groups.Keys && Lists(sessions, groups, done) && Messages(sessions) == Total(groups, done)
      invariant InIdOrder(sessions) && Before(done, groups.Keys - done)
      decreases groups.Keys - done
    {
      var id := First(groups.Keys - done);
      ListsSnoc(sessions, groups, done, id);
      NextInOrder(sessions, groups, done, id);
      sessions := sessions + [Built(id, groups[id])];
      done := done + {id};
    }
  }

  lemma ListsSnoc(sessions: seq<Session>, groups: Groups, ids: set<string>, id: string)
    requires ids <= groups.Keys && id in groups && id !in ids && Lists(sessions, groups, ids)
    ensures Lists(sessions + [Built(id, groups[id])], groups, ids + {id})
    ensures Messages(sessions) == Total(groups, ids) ==>
              Messages(sessions + [Built(id, groups[id])]) == Total(groups, ids + {id})
  {
    MessagesSnoc(sessions, Built(id, groups[id]));
    SortSorts(groups[id], Time);
    TotalTake(groups, ids + {id}, id);
    assert ids + {id} - {id} == ids;
  }

  lemma ListsSort(sessions: seq<Session>, groups: Groups)
    requires Lists(sessions, groups, groups.Keys)
    ensures Lists(SortBy(sessions, Start), groups, groups.Keys)
  {
    SortSorts(sessions, Start);
    var sorted := SortBy(sessions, Start);
    assert forall s :: s in sorted <==> s in multiset(sorted);
    assert forall s :: s in sessions <==> s in multiset(sessions);
  }

  /** Sessions that start together come in the order of their ids. */
  ghost predicate TiesInIdOrder(sessions: seq<Session>) {
    forall i, j :: 0 <= i < j < |sessions| && sessions[i].start == sessions[j].start ==>
                     NotAfter(sessions[i].id, sessions[j].id)
  }

  lemma {:induction false} InsertKeepsTies(sessions: seq<Session>, s: Session)
    requires TiesInIdOrder(sessions) && forall i :: 0 <= i < |sessions| ==> NotAfter(sessions[i].id, s.id)
    ensures TiesInIdOrder(Insert(sessions, s, Start))
    decreases |sessions|
  {
    if sessions != [] && Start(sessions[|sessions| - 1]) > Start(s) {
      var front, last := sessions[..|sessions| - 1], sessions[|sessions| - 1];
      InsertKeepsTies(front, s);
      InsertPermutes(front, s, Start);
      var inserted := Insert(front, s, Start);
      forall i | 0 <= i < |inserted| && inserted[i].start == last.start
        ensures NotAfter(inserted[i].id, last.id)
      {
        assert inserted[i] in multiset(inserted);
        assert inserted[i] in front;
      }
      TiesSnoc(inserted, last);
    } else {
      TiesSnoc(sessions, s);
    }
  }

  lemma TiesSnoc(sessions: seq<Session>, s: Session)
    requires TiesInIdOrder(sessions)
    requires forall i :: 0 <= i < |sessions| && sessions[i].start == s.start ==> NotAfter(sessions[i].id, s.id)
    ensures TiesInIdOrder(sessions + [s])
  {
  }

  lemma {:induction false} SortKeepsTies(sessions: seq<Session>)
    requires InIdOrder(sessions)
    ensures TiesInIdOrder(SortBy(sessions, Start))
    decreases |sessions|
  {
    if sessions != [] {
      var front, last := sessions[..|sessions| - 1], sessions[|sessions| - 1];
      SortKeepsTies(front);
      SortSorts(front, Start);
      var sorted := SortBy(front, Start);
      forall i | 0 <= i < |sorted|
        ensures NotAfter(sorted[i].id, last.id)
      {
        assert sorted[i] in multiset(sorted);
        assert sorted[i] in front;
      }
      InsertKeepsTies(sorted, last);
    }
  }

  /**
   `reconstruct`: one session for every explicit and every inferred id, in order of their starts and
   for equal starts of their ids, that hold together what the groups hold.
   */
  method Reconstruct(messages: seq<Message>, threshold: int) returns (sessions: seq<Session>)
    ensures var groups := AllGroups(messages, threshold);
            Lists(sessions, groups, groups.Keys) && Messages(sessions) == Held(groups)
    ensures SortedBy(sessions, Start) && TiesInIdOrder(sessions)
    ensures Messages(sessions) == multiset(messages) <==>
            !Clash(Explicit(messages), InferredRuns(messages, threshold))
  {
    ConservedExactlyWithoutClash(messages, threshold);
    if messages == [] {
      return [];
    }
    var groups, unassigned := Group(messages);
    if unassigned != [] {
      groups := Infer(groups, SortBy(unassigned, Time), threshold);
    }
    sessions := BuildSessions(groups);
    ListsSort(sessions, groups);
    MessagesSort(sessions);
    SortSorts(sessions, Start);
    SortKeepsTies(sessions);
    sessions := SortBy(sessions, Start);
  }
}
