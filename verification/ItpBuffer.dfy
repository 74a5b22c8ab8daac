/** The event buffer of degraded mode: first in, first out, at most 10 MiB or 10,000 events. */
module ItpBuffer {
  import opened Blake3

  const MAX_BUFFER_BYTES: nat := 10 * 1024 * 1024
  const MAX_BUFFER_EVENTS: nat := 10_000

  datatype Event = Event(json: bytes, sizeBytes: nat)

  function Size(events: seq<Event>): nat {
    if events == [] then 0 else events[0].sizeBytes + Size(events[1..])
  }

  predicate Fits(events: seq<Event>) {
    Size(events) <= MAX_BUFFER_BYTES && |events| <= MAX_BUFFER_EVENTS
  }

  /** What should be kept of the events pushed since the last drain. */
  function LongestFitting(pushed: seq<Event>): seq<Event> {
    if |pushed| <= 1 || Fits(pushed) then pushed else LongestFitting(pushed[1..])
  }

  lemma {:induction false} SizeAppend(events: seq<Event>, e: Event)
    ensures Size(events + [e]) == Size(events) + e.sizeBytes
  {
    if events == [] {
      assert events + [e] == [e];
    } else {
      assert (events + [e])[1..] == events[1..] + [e];
      SizeAppend(events[1..], e);
    }
  }

  /** The kept events are the longest suffix that fits, or the last event alone if none does. */
  lemma {:induction false} LongestFittingMeaning(pushed: seq<Event>) returns (k: nat)
    ensures k <= |pushed| && LongestFitting(pushed) == pushed[k..]
    ensures Fits(pushed[k..]) || |pushed[k..]| == 1
    ensures forall j :: 0 <= j < k ==> !Fits(pushed[j..])
    ensures pushed != [] ==> k < |pushed|
  {
    k := 0;
    assert pushed[0..] == pushed;
    if |pushed| > 1 && !Fits(pushed) {
      var rest := LongestFittingMeaning(pushed[1..]);
      k := rest + 1;
      assert pushed[1..][rest..] == pushed[k..];
      forall j | 0 <= j < k
        ensures !Fits(pushed[j..])
      {
        if j > 0 {
          assert pushed[1..][j - 1..] == pushed[j..];
        }
      }
    }
  }

  /** What no longer fits does not fit again when more is pushed. */
  lemma {:induction false} KeepThenPush(pushed: seq<Event>, e: Event)
    ensures LongestFitting(pushed + [e]) == LongestFitting(LongestFitting(pushed) + [e])
  {
    if |pushed| > 1 && !Fits(pushed) {
      SizeAppend(pushed, e);
      assert (pushed + [e])[1..] == pushed[1..] + [e];
      KeepThenPush(pushed[1..], e);
    }
  }

  class ITPBuffer {
    var events: seq<Event>
    var totalBytes: nat
    ghost var pushed: seq<Event>  // since the last drain

    ghost predicate Valid()
      reads this
    {
      events == LongestFitting(pushed) && totalBytes == Size(events)
    }

    constructor ()
      ensures Valid() && pushed == []
    {
      events, totalBytes, pushed := [], 0, [];
    }

    method Push(json: bytes)
      requires Valid()
      modifies this
      ensures Valid() && pushed == old(pushed) + [Event(json, |json|)]
      ensures |events| <= 10_000 && (totalBytes <= 10_485_760 || |events| == 1)
      ensures events != [] && events[|events| - 1].json == json
    {
      var size := |json|;
      var event := Event(json, size);
      KeepThenPush(pushed, event);
      pushed := pushed + [event];
      Evict(event);
      SizeAppend(events, event);
      totalBytes := totalBytes + size;
      events := events + [event];
      ghost var k := LongestFittingMeaning(pushed);
    }

    /** Drops the oldest events until the new one fits or nothing is left. */
    method Evict(event: Event)
      requires totalBytes == Size(events)
      modifies this`events, this`totalBytes
      ensures totalBytes == Size(events)
      ensures events + [event] == LongestFitting(old(events) + [event])
    {
      while (totalBytes + event.sizeBytes > MAX_BUFFER_BYTES || |events| >= MAX_BUFFER_EVENTS) && events != []
        invariant totalBytes == Size(events)
        invariant LongestFitting(events + [event]) == LongestFitting(old(events) + [event])
        decreases |events|
      {
        SizeAppend(events, event);
        assert (events + [event])[1..] == events[1..] + [event];
        totalBytes := totalBytes - events[0].sizeBytes;
        events := events[1..];
      }
      SizeAppend(events, event);
    }

    method DrainAll() returns (drained: seq<Event>)
      requires Valid()
      modifies this
      ensures drained == LongestFitting(old(pushed))
      ensures Size(old(pushed)) <= 10_485_760 && |old(pushed)| <= 10_000 ==> drained == old(pushed)
      ensures Valid() && pushed == []
    {
      totalBytes := 0;
      drained := events;
      events := [];
      pushed := [];
    }
  }
}
