/** The buffer that puts arriving packets in order and releases them by time. */
module JitterBuffer {
  /** A buffered packet: its sequence number and the time it was put in, in milliseconds. */
  datatype Entry = Entry(number: int, time: real)

  // ----- One operation

  /** Index of the first entry whose number is not below the given one, or the length. */
  function Place(buffer: seq<Entry>, number: int): (r: nat)
    ensures r <= |buffer|
    ensures r < |buffer| ==> buffer[r].number >= number
    ensures forall i :: 0 <= i < r ==> buffer[i].number < number
  {
    if buffer == [] || buffer[0].number >= number then 0 else 1 + Place(buffer[1..], number)
  }

  /** The insertion as the code does it: the place 0 also stands for "no place found". */
  function Added(buffer: seq<Entry>, e: Entry): seq<Entry> {
    var p := Place(buffer, e.number);
    if 0 < p < |buffer| then buffer[..p] + [e] + buffer[p..]
    else if buffer != [] && (if p == 0 then buffer[0] else buffer[|buffer| - 1]).number > e.number then [e] + buffer
    else buffer + [e]
  }

  /** How many entries at the front have a time that has passed. */
  function Due(buffer: seq<Entry>, time: real): (r: nat)
    ensures r <= |buffer|
    ensures forall i :: 0 <= i < r ==> buffer[i].time <= time
    ensures r < |buffer| ==> buffer[r].time > time
  {
    if buffer == [] || buffer[0].time > time then 0 else 1 + Due(buffer[1..], time)
  }

  predicate Ordered(entries: seq<Entry>) {
    forall i, j :: 0 <= i < j < |entries| ==> entries[i].number < entries[j].number
  }

  predicate WeaklyOrdered(entries: seq<Entry>) {
    forall i, j :: 0 <= i < j < |entries| ==> entries[i].number <= entries[j].number
  }

  predicate Holds(entries: seq<Entry>, number: int) {
    exists i :: 0 <= i < |entries| && entries[i].number == number
  }

  lemma {:induction false} AddKeeps(buffer: seq<Entry>, e: Entry)
    ensures multiset(Added(buffer, e)) == multiset(buffer) + multiset([e])
  {
    var p := Place(buffer, e.number);
    assert buffer == buffer[..p] + buffer[p..];
  }

  lemma {:induction false} AddOrders(buffer: seq<Entry>, e: Entry)
    requires Ordered(buffer) && !Holds(buffer, e.number)
    ensures Ordered(Added(buffer, e))
  {
  }

  /** The number of the new entry is that of the head, and the last entry has a greater one. */
  predicate DuplicateOfHead(buffer: seq<Entry>, e: Entry) {
    buffer != [] && e.number == buffer[0].number < buffer[|buffer| - 1].number
  }

  /** With repeated numbers the order is lost exactly when the head of a buffer is repeated before a later number. */
  lemma {:induction false} AddOrdersExactly(buffer: seq<Entry>, e: Entry)
    requires WeaklyOrdered(buffer)
    ensures WeaklyOrdered(Added(buffer, e)) <==> !DuplicateOfHead(buffer, e)
  {
    var p, added := Place(buffer, e.number), Added(buffer, e);
    if DuplicateOfHead(buffer, e) {
      assert p == 0 && added == buffer + [e];
      assert added[|buffer| - 1].number > added[|buffer|].number;
    } else if p == 0 && buffer != [] && buffer[0].number == e.number {
      assert forall i :: 0 <= i < |buffer| ==> buffer[i].number <= buffer[|buffer| - 1].number;
    }
  }

  /**
   * A repeated number goes right before the entry that has it, but behind all the others when that is the head; a fresh
   * one goes between the smaller and the greater ones.
   */
  lemma {:induction false} AddedAt(buffer: seq<Entry>, e: Entry, k: nat)
    requires Ordered(buffer) && k <= |buffer|
    requires forall i :: 0 <= i < |buffer| ==> (buffer[i].number < e.number <==> i < k)
    ensures Added(buffer, e)
         == if k == 0 && buffer != [] && buffer[0].number == e.number then buffer + [e]
            else buffer[..k] + [e] + buffer[k..]
  {
    assert Place(buffer, e.number) == k;
    assert buffer[..|buffer|] == buffer && buffer[|buffer|..] == [] && buffer[..0] == [] && buffer[0..] == buffer;
  }

  // ----- Runs

  datatype Event = Add(e: Entry) | Get(time: real)

  /** What is buffered, and everything returned so far. */
  datatype State = State(buffer: seq<Entry>, out: seq<Entry>)

  function Step(s: State, event: Event): State {
    match event
    case Add(e) => s.(buffer := Added(s.buffer, e))
    case Get(time) =>
      var n := Due(s.buffer, time);
      State(s.buffer[n..], s.out + s.buffer[..n])
  }

  function Run(events: seq<Event>): State {
    if events == [] then State([], []) else Step(Run(events[..|events| - 1]), events[|events| - 1])
  }

  function Arrivals(events: seq<Event>): seq<Entry> {
    if events == [] then []
    else
      var before := Arrivals(events[..|events| - 1]);
      match events[|events| - 1]
      case Add(e) => before + [e]
      case Get(_) => before
  }

  /** No sequence number arrives twice. */
  predicate Fresh(events: seq<Event>) {
    var arrivals := Arrivals(events);
    forall i, j :: 0 <= i < j < |arrivals| ==> arrivals[i].number != arrivals[j].number
  }

  predicate NewerThan(out: seq<Entry>, number: int) {
    forall i :: 0 <= i < |out| ==> out[i].number < number
  }

  /** No packet arrives after a packet with a greater number was returned. */
  predicate NoLateArrival(events: seq<Event>) {
    events == [] ||
    var before := events[..|events| - 1];
    && NoLateArrival(before)
    && match events[|events| - 1]
       case Add(e) => NewerThan(Run(before).out, e.number)
       case Get(_) => true
  }

  lemma {:induction false} StepConserves(s: State, event: Event)
    ensures var added := if event.Add? then multiset{event.e} else multiset{};
            multiset(Step(s, event).out) + multiset(Step(s, event).buffer)
            == multiset(s.out) + multiset(s.buffer) + added
  {
    match event
    case Add(e) => AddKeeps(s.buffer, e);
    case Get(time) =>
      var n := Due(s.buffer, time);
      assert s.buffer == s.buffer[..n] + s.buffer[n..];
  }

  /** Every packet that arrived is either buffered or was returned, as many times as it arrived. */
  lemma {:induction false} Conserved(events: seq<Event>)
    ensures multiset(Run(events).out) + multiset(Run(events).buffer) == multiset(Arrivals(events))
  {
    if events == [] {
    } else {
      Conserved(events[..|events| - 1]);
      StepConserves(Run(events[..|events| - 1]), events[|events| - 1]);
    }
  }

  lemma {:induction false} FreshNotHeld(events: seq<Event>, e: Entry)
    requires Fresh(events + [Add(e)])
    ensures Fresh(events) && !Holds(Run(events).buffer, e.number)
  {
    var all, arrivals := Arrivals(events + [Add(e)]), Arrivals(events);
    assert (events + [Add(e)])[..|events|] == events;
    assert all == arrivals + [e];
    assert forall i :: 0 <= i < |arrivals| ==> all[i] == arrivals[i];
    var buffer := Run(events).buffer;
    Conserved(events);
    forall i | 0 <= i < |buffer|
      ensures buffer[i].number != e.number
    {
      assert buffer[i] in multiset(buffer);
      assert buffer[i] in multiset(arrivals);
      var j :| 0 <= j < |arrivals| && arrivals[j] == buffer[i];
      assert all[j].number != all[|arrivals|].number;
    }
  }

  /** With fresh numbers the buffer is in order after every run. */
  lemma {:induction false} BufferOrdered(events: seq<Event>)
    requires Fresh(events)
    ensures Ordered(Run(events).buffer)
  {
    if events == [] {
    } else {
      var before, last := events[..|events| - 1], events[|events| - 1];
      match last {
        case Add(e) =>
          assert events == before + [Add(e)];
          FreshNotHeld(before, e);
          BufferOrdered(before);
          AddOrders(Run(before).buffer, e);
        case Get(_) =>
          BufferOrdered(before);
      }
    }
  }

  lemma {:induction false} OrderedConcat(a: seq<Entry>, b: seq<Entry>)
    ensures Ordered(a + b) <==> Ordered(a) && Ordered(b) && forall j :: 0 <= j < |b| ==> NewerThan(a, b[j].number)
  {
    if Ordered(a + b) {
      forall j | 0 <= j < |b|
        ensures NewerThan(a, b[j].number)
      {
        forall i | 0 <= i < |a|
          ensures a[i].number < b[j].number
        {
          assert (a + b)[i].number < (a + b)[|a| + j].number;
        }
      }
      forall i, j | 0 <= i < j < |b|
        ensures b[i].number < b[j].number
      {
        assert (a + b)[|a| + i].number < (a + b)[|a| + j].number;
      }
      forall i, j | 0 <= i < j < |a|
        ensures a[i].number < a[j].number
      {
        assert (a + b)[i].number < (a + b)[j].number;
      }
    }
  }

  lemma {:induction false} NewerThanAdded(out: seq<Entry>, buffer: seq<Entry>, e: Entry)
    ensures (forall j :: 0 <= j < |Added(buffer, e)| ==> NewerThan(out, Added(buffer, e)[j].number))
       <==> (forall j :: 0 <= j < |buffer| ==> NewerThan(out, buffer[j].number)) && NewerThan(out, e.number)
  {
    var added := Added(buffer, e);
    AddKeeps(buffer, e);
    if forall j :: 0 <= j < |added| ==> NewerThan(out, added[j].number) {
      forall j | 0 <= j < |buffer|
        ensures NewerThan(out, buffer[j].number)
      {
        assert buffer[j] in multiset(added);
      }
      assert e in multiset(added);
    }
    if (forall j :: 0 <= j < |buffer| ==> NewerThan(out, buffer[j].number)) && NewerThan(out, e.number) {
      forall j | 0 <= j < |added|
        ensures NewerThan(out, added[j].number)
      {
        assert added[j] in multiset(added);
        assert added[j] in multiset(buffer) || added[j] in multiset([e]);
      }
    }
  }

  lemma {:induction false} AddInOrder(out: seq<Entry>, buffer: seq<Entry>, e: Entry)
    requires Ordered(buffer) && !Holds(buffer, e.number)
    ensures Ordered(out + Added(buffer, e)) <==> Ordered(out + buffer) && NewerThan(out, e.number)
  {
    AddOrders(buffer, e);
    OrderedConcat(out, buffer);
    OrderedConcat(out, Added(buffer, e));
    NewerThanAdded(out, buffer, e);
  }

  /**
   * With fresh numbers, everything returned followed by what is buffered is in order
   * exactly when no packet arrived after a greater number was returned.
   */
  lemma {:induction false} InOrderExactly(events: seq<Event>)
    requires Fresh(events)
    ensures Ordered(Run(events).out + Run(events).buffer) <==> NoLateArrival(events)
  {
    if events == [] {
    } else {
      var before, last := events[..|events| - 1], events[|events| - 1];
      var s := Run(before);
      match last {
        case Add(e) =>
          assert events == before + [Add(e)];
          FreshNotHeld(before, e);
          InOrderExactly(before);
          BufferOrdered(before);
          AddInOrder(s.out, s.buffer, e);
        case Get(time) =>
          InOrderExactly(before);
          var n := Due(s.buffer, time);
          assert s.out + s.buffer == s.out + s.buffer[..n] + s.buffer[n..];
      }
    }
  }

  // ----- Sending order, when the numbers wrap

  const SEQUENCE_NUMBERS := 0x1_0000

  predicate Numbered(e: Entry) {
    0 <= e.number < SEQUENCE_NUMBERS
  }

  /** How many packets were sent between the one numbered base and e, within one cycle of the numbers. */
  function SentAt(e: Entry, base: int): int {
    (e.number - base) % SEQUENCE_NUMBERS
  }

  predicate InSendingOrder(entries: seq<Entry>, base: int) {
    forall i, j :: 0 <= i < j < |entries| ==> SentAt(entries[i], base) < SentAt(entries[j], base)
  }

  predicate SentBefore(entries: seq<Entry>, e: Entry, base: int) {
    forall x :: x in entries ==> SentAt(x, base) < SentAt(e, base)
  }

  /** No number of the entries is on the other side of the wrap: the numbers from base on come before those below it. */
  predicate SameSide(entries: seq<Entry>, e: Entry, base: int) {
    forall x :: x in entries ==> (x.number >= base <==> e.number >= base)
  }

  /**
   * Every packet, as it arrives, finds nothing returned that was sent after it, and nothing buffered across the wrap.
   */
  predicate ArrivesInTime(events: seq<Event>, base: int) {
    events == [] ||
    var before := events[..|events| - 1];
    && ArrivesInTime(before, base)
    && match events[|events| - 1]
       case Add(e) => SentBefore(Run(before).out, e, base) && SameSide(Run(before).buffer, e, base)
       case Get(_) => true
  }

  lemma {:induction false} SentAtIs(e: Entry, base: int)
    requires Numbered(e) && 0 <= base < SEQUENCE_NUMBERS
    ensures SentAt(e, base) == if e.number >= base then e.number - base else e.number - base + SEQUENCE_NUMBERS
  {
  }

  lemma {:induction false} SendingOrderConcat(a: seq<Entry>, b: seq<Entry>, base: int)
    ensures InSendingOrder(a + b, base)
       <==> InSendingOrder(a, base) && InSendingOrder(b, base) && forall y :: y in b ==> SentBefore(a, y, base)
  {
    if InSendingOrder(a + b, base) {
      forall x, y | x in a && y in b
        ensures SentAt(x, base) < SentAt(y, base)
      {
        var i, j :| 0 <= i < |a| && a[i] == x && 0 <= j < |b| && b[j] == y;
        assert (a + b)[i] == x && (a + b)[|a| + j] == y;
      }
      forall i, j | 0 <= i < j < |a|
        ensures SentAt(a[i], base) < SentAt(a[j], base)
      {
        assert (a + b)[i] == a[i] && (a + b)[j] == a[j];
      }
      forall i, j | 0 <= i < j < |b|
        ensures SentAt(b[i], base) < SentAt(b[j], base)
      {
        assert (a + b)[|a| + i] == b[i] && (a + b)[|a| + j] == b[j];
      }
    } else {
      var i, j :| 0 <= i < j < |a + b| && SentAt((a + b)[i], base) >= SentAt((a + b)[j], base);
      if i < |a| <= j {
        assert (a + b)[i] in a && (a + b)[j] in b;
      }
    }
  }

  /** In the order of their numbers, entries are in sending order exactly when they are on one side of the wrap. */
  lemma {:induction false} OneSide(entries: seq<Entry>, base: int)
    requires Ordered(entries) && 0 <= base < SEQUENCE_NUMBERS && forall x :: x in entries ==> Numbered(x)
    ensures InSendingOrder(entries, base) <==> forall y :: y in entries ==> SameSide(entries, y, base)
  {
    forall x | x in entries
      ensures SentAt(x, base) == if x.number >= base then x.number - base else x.number - base + SEQUENCE_NUMBERS
    {
      SentAtIs(x, base);
    }
    if InSendingOrder(entries, base) {
      forall x, y | x in entries && y in entries
        ensures x.number >= base <==> y.number >= base
      {
        var i, j :| 0 <= i < |entries| && entries[i] == x && 0 <= j < |entries| && entries[j] == y;
      }
    }
  }

  lemma {:induction false} AddedMembers(buffer: seq<Entry>, e: Entry)
    ensures forall x :: x in Added(buffer, e) <==> x in buffer || x == e
  {
    AddKeeps(buffer, e);
    forall x
      ensures x in Added(buffer, e) <==> x in buffer || x == e
    {
      assert x in Added(buffer, e) <==> x in multiset(Added(buffer, e));
      assert x in buffer <==> x in multiset(buffer);
    }
  }

  lemma {:induction false} AddedOneSide(buffer: seq<Entry>, e: Entry, base: int)
    ensures (forall y :: y in Added(buffer, e) ==> SameSide(Added(buffer, e), y, base))
       <==> (forall y :: y in buffer ==> SameSide(buffer, y, base)) && SameSide(buffer, e, base)
  {
    AddedMembers(buffer, e);
    assert e in Added(buffer, e);
    if forall y :: y in Added(buffer, e) ==> SameSide(Added(buffer, e), y, base) {
      assert forall y :: y in buffer ==> y in Added(buffer, e);
      assert SameSide(Added(buffer, e), e, base);
    }
    if (forall y :: y in buffer ==> SameSide(buffer, y, base)) && SameSide(buffer, e, base) {
      forall x, y | x in Added(buffer, e) && y in Added(buffer, e)
        ensures x.number >= base <==> y.number >= base
      {
      }
    }
  }

  lemma {:induction false} AddedSentBefore(out: seq<Entry>, buffer: seq<Entry>, e: Entry, base: int)
    ensures (forall y :: y in Added(buffer, e) ==> SentBefore(out, y, base))
       <==> (forall y :: y in buffer ==> SentBefore(out, y, base)) && SentBefore(out, e, base)
  {
    AddedMembers(buffer, e);
    assert e in Added(buffer, e);
  }

  lemma {:induction false} AddInSendingOrder(out: seq<Entry>, buffer: seq<Entry>, e: Entry, base: int)
    requires Ordered(buffer) && !Holds(buffer, e.number) && 0 <= base < SEQUENCE_NUMBERS
    requires Numbered(e) && forall x :: x in buffer ==> Numbered(x)
    ensures InSendingOrder(out + Added(buffer, e), base)
       <==> InSendingOrder(out + buffer, base) && SentBefore(out, e, base) && SameSide(buffer, e, base)
  {
    AddOrders(buffer, e);
    AddedMembers(buffer, e);
    SendingOrderConcat(out, buffer, base);
    SendingOrderConcat(out, Added(buffer, e), base);
    OneSide(buffer, base);
    OneSide(Added(buffer, e), base);
    AddedOneSide(buffer, e, base);
    AddedSentBefore(out, buffer, e, base);
  }

  /** Only what arrived is buffered. */
  lemma {:induction false} BufferArrived(events: seq<Event>)
    ensures forall x :: x in Run(events).buffer ==> x in Arrivals(events)
  {
    Conserved(events);
    forall x | x in Run(events).buffer
      ensures x in Arrivals(events)
    {
      assert x in multiset(Run(events).buffer);
      assert x in multiset(Arrivals(events));
    }
  }

  lemma {:induction false} ArrivalsGrow(before: seq<Event>, e: Entry)
    ensures Arrivals(before + [Add(e)]) == Arrivals(before) + [e]
  {
    assert (before + [Add(e)])[..|before|] == before;
  }

  /** All numbers that arrived are of one cycle. */
  predicate OneCycle(events: seq<Event>, base: int) {
    0 <= base < SEQUENCE_NUMBERS && forall x :: x in Arrivals(events) ==> Numbered(x)
  }

  predicate OrderIsTimeliness(events: seq<Event>, base: int) {
    InSendingOrder(Run(events).out + Run(events).buffer, base) <==> ArrivesInTime(events, base)
  }

  lemma {:induction false} OneCycleBefore(before: seq<Event>, e: Entry, base: int)
    requires OneCycle(before + [Add(e)], base)
    ensures OneCycle(before, base) && Numbered(e)
  {
    ArrivalsGrow(before, e);
    assert e in Arrivals(before) + [e];
  }

  lemma {:induction false} GetKeepsArrivals(before: seq<Event>, time: real)
    ensures Arrivals(before + [Get(time)]) == Arrivals(before)
  {
    assert (before + [Get(time)])[..|before|] == before;
  }

  lemma {:induction false} TimelinessAfterAdd(before: seq<Event>, e: Entry, base: int)
    requires Fresh(before + [Add(e)]) && OneCycle(before + [Add(e)], base) && OrderIsTimeliness(before, base)
    ensures OrderIsTimeliness(before + [Add(e)], base)
  {
    FreshNotHeld(before, e);
    OneCycleBefore(before, e, base);
    BufferOrdered(before);
    BufferArrived(before);
    AddInSendingOrder(Run(before).out, Run(before).buffer, e, base);
    RunSnoc(before, Add(e));
    assert (before + [Add(e)])[..|before|] == before;
  }

  lemma {:induction false} TimelinessAfterGet(before: seq<Event>, time: real, base: int)
    requires OrderIsTimeliness(before, base)
    ensures OrderIsTimeliness(before + [Get(time)], base)
  {
    RunSnoc(before, Get(time));
    assert (before + [Get(time)])[..|before|] == before;
    var s, n := Run(before), Due(Run(before).buffer, time);
    assert s.out + s.buffer == s.out + s.buffer[..n] + s.buffer[n..];
  }

  /**
   * Over one cycle of the 16-bit numbers, begun at base, what was returned followed by what is buffered is in sending
   * order exactly when every packet arrived in time and none waited in the buffer with one across the wrap.
   */
  lemma {:induction false} SendingOrderExactly(events: seq<Event>, base: int)
    requires Fresh(events) && OneCycle(events, base)
    ensures InSendingOrder(Run(events).out + Run(events).buffer, base) <==> ArrivesInTime(events, base)
  {
    if events == [] {
    } else {
      var before, last := events[..|events| - 1], events[|events| - 1];
      assert events == before + [last];
      match last {
        case Add(e) =>
          FreshNotHeld(before, e);
          OneCycleBefore(before, e, base);
          SendingOrderExactly(before, base);
          TimelinessAfterAdd(before, e, base);
        case Get(time) =>
          GetKeepsArrivals(before, time);
          SendingOrderExactly(before, base);
          TimelinessAfterGet(before, time, base);
      }
    }
  }

  /** 65535 and then 0, both waiting when their times have passed, come back in the opposite order. */
  lemma {:induction false} WrapExample(first: Entry, second: Entry, time: real)
    requires first.number == 65535 && second.number == 0 && first.time <= time && second.time <= time
    ensures Run([Add(first), Add(second), Get(time)]).out == [second, first]
  {
    RunSnoc([], Add(first));
    RunSnoc([Add(first)], Add(second));
    RunSnoc([Add(first), Add(second)], Get(time));
    assert [Add(first), Add(second)] + [Get(time)] == [Add(first), Add(second), Get(time)];
    var s := Run([Add(first), Add(second)]);
    assert s.buffer == [second, first];
    assert Due(s.buffer, time) == 2;
  }

  /** A number that repeats the head of the buffer goes behind a greater one, and leaves the buffer after it. */
  lemma {:induction false} RepeatedHeadExample(a: Entry, b: Entry, again: Entry)
    requires a.number == again.number < b.number
    ensures Run([Add(a), Add(b), Add(again)]).buffer == [a, b, again]
    ensures !WeaklyOrdered([a, b, again])
  {
    RunSnoc([], Add(a));
    RunSnoc([Add(a)], Add(b));
    RunSnoc([Add(a), Add(b)], Add(again));
    assert [Add(a), Add(b)] + [Add(again)] == [Add(a), Add(b), Add(again)];
    assert Run([Add(a), Add(b)]).buffer == [a, b];
    assert [a, b, again][1].number > [a, b, again][2].number;
  }

  lemma {:induction false} RunSnoc(events: seq<Event>, event: Event)
    ensures Run(events + [event]) == Step(Run(events), event)
  {
    assert (events + [event])[..|events|] == events;
  }

  // ----- The code

  class JitterBuffer {
    var buffer: seq<Entry>

    constructor ()
      ensures buffer == []
    {
      buffer := [];
    }

    method Add(toAdd: Entry)
      modifies this
      ensures buffer == Added(old(buffer), toAdd)
    {
      var place, i := 0, 0;
      var n := |buffer|;
      while i < n
        invariant 0 <= i <= n && place == 0
        invariant Place(buffer, toAdd.number) == i + Place(buffer[i..], toAdd.number)
      {
        assert buffer[i..][1..] == buffer[i + 1..];
        if buffer[i].number >= toAdd.number {
          place := i;
          break;
        }
        i := i + 1;
      }
      // Python's loop variable keeps the last index it took
      i := if i == n && n > 0 then n - 1 else i;
      if place != 0 {
        buffer := buffer[..place] + [toAdd] + buffer[place..];
      } else if |buffer| >= 1 {
        if buffer[i].number > toAdd.number {
          buffer := [toAdd] + buffer;
        } else {
          buffer := buffer + [toAdd];
        }
      } else {
        buffer := buffer + [toAdd];
      }
    }

    method HasSeq(number: int) returns (res: bool)
      ensures res <==> Holds(buffer, number)
    {
      res := false;
      for i := 0 to |buffer|
        invariant !res && forall j :: 0 <= j < i ==> buffer[j].number != number
      {
        if buffer[i].number == number {
          res := true;
          break;
        }
      }
    }

    method GetPackets(time: real) returns (toSend: seq<Entry>)
      modifies this
      ensures var n := Due(old(buffer), time);
              toSend == old(buffer)[..n] && buffer == old(buffer)[n..]
    {
      toSend := [];
      var i := 0;
      while i < |buffer|
        invariant i == 0 && |toSend| <= |old(buffer)|
        invariant toSend == old(buffer)[..|toSend|] && buffer == old(buffer)[|toSend|..]
        invariant Due(old(buffer), time) == |toSend| + Due(buffer, time)
        decreases |buffer|
      {
        if buffer[i].time <= time {
          assert buffer[..i] + buffer[i + 1..] == buffer[1..];
          toSend := toSend + [buffer[i]];
          buffer := buffer[..i] + buffer[i + 1..];
        } else {
          break;
        }
      }
      assert Due(old(buffer), time) == |toSend|;
    }
  }
}
