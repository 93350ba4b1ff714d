/** The list of commands as it travels over the network: sorted, shifted to its first time, seven bytes a command. */
module MidiCommand {
  import opened Midi
  import opened Wrappers

  const TWO_TO_THE_32 := 0x1_0000_0000
  const TWO_TO_THE_33 := 0x2_0000_0000  // the value the source calls TWO_TO_THE_32ND
  const COMMAND_BYTES := 7

  datatype Error = StructError

  // ----- Order

  /** The tuple that the commands are sorted by; it holds the whole command, so the order is total. */
  function SortKey(c: Command): seq<int> {
    [Channel(c), Nibble(c), c.note, c.event, c.note, c.velocity, c.time]
  }

  /** Python's order on lists of numbers of the same length. */
  predicate LexLeq(a: seq<int>, b: seq<int>)
    requires |a| == |b|
  {
    a == [] || a[0] < b[0] || (a[0] == b[0] && LexLeq(a[1..], b[1..]))
  }

  predicate Leq(a: Command, b: Command) {
    LexLeq(SortKey(a), SortKey(b))
  }

  lemma {:induction false} LexTotal(a: seq<int>, b: seq<int>)
    requires |a| == |b|
    ensures LexLeq(a, b) || LexLeq(b, a)
    ensures LexLeq(a, b) && LexLeq(b, a) ==> a == b
  {
    if a == [] {
    } else {
      LexTotal(a[1..], b[1..]);
      assert a == [a[0]] + a[1..] && b == [b[0]] + b[1..];
    }
  }

  lemma {:induction false} LexTransitive(a: seq<int>, b: seq<int>, c: seq<int>)
    requires |a| == |b| == |c| && LexLeq(a, b) && LexLeq(b, c)
    ensures LexLeq(a, c)
  {
    if a == [] || a[0] != b[0] || b[0] != c[0] {
    } else {
      LexTransitive(a[1..], b[1..], c[1..]);
    }
  }

  predicate Sorted(commands: seq<Command>) {
    forall i, j :: 0 <= i < j < |commands| ==> Leq(commands[i], commands[j])
  }

  function Insert(c: Command, sorted: seq<Command>): seq<Command> {
    if sorted == [] || Leq(c, sorted[0]) then [c] + sorted else [sorted[0]] + Insert(c, sorted[1..])
  }

  /** Stands for the library sort: by SortUnique there is only one sorted arrangement. */
  function Sort(commands: seq<Command>): seq<Command> {
    if commands == [] then [] else Insert(commands[0], Sort(commands[1..]))
  }

  lemma {:induction false} InsertAdds(c: Command, sorted: seq<Command>)
    ensures multiset(Insert(c, sorted)) == multiset([c]) + multiset(sorted)
  {
    if sorted == [] || Leq(c, sorted[0]) {
    } else {
      InsertAdds(c, sorted[1..]);
      assert sorted == [sorted[0]] + sorted[1..];
    }
  }

  lemma {:induction false} InsertSorted(c: Command, sorted: seq<Command>)
    requires Sorted(sorted)
    ensures Sorted(Insert(c, sorted))
  {
    if sorted == [] {
    } else if Leq(c, sorted[0]) {
      forall j | 0 <= j < |sorted|
        ensures Leq(c, sorted[j])
      {
        if j > 0 { LexTransitive(SortKey(c), SortKey(sorted[0]), SortKey(sorted[j])); }
      }
    } else {
      var rest := Insert(c, sorted[1..]);
      InsertSorted(c, sorted[1..]);
      InsertAdds(c, sorted[1..]);
      LexTotal(SortKey(c), SortKey(sorted[0]));
      forall j | 0 <= j < |rest|
        ensures Leq(sorted[0], rest[j])
      {
        assert rest[j] in multiset(rest);
      }
    }
  }

  lemma {:induction false} SortSorts(commands: seq<Command>)
    ensures Sorted(Sort(commands)) && multiset(Sort(commands)) == multiset(commands)
    ensures |Sort(commands)| == |commands|
  {
    if commands == [] {
    } else {
      SortSorts(commands[1..]);
      InsertSorted(commands[0], Sort(commands[1..]));
      InsertAdds(commands[0], Sort(commands[1..]));
      assert commands == [commands[0]] + commands[1..];
    }
    assert |multiset(Sort(commands))| == |multiset(commands)|;
  }

  lemma {:induction false} SameKeySameCommand(a: Command, b: Command)
    requires Leq(a, b) && Leq(b, a)
    ensures a == b
  {
    LexTotal(SortKey(a), SortKey(b));
    assert SortKey(a)[3] == a.event && SortKey(b)[3] == b.event;
    assert SortKey(a)[4] == a.note && SortKey(b)[4] == b.note;
    assert SortKey(a)[5] == a.velocity && SortKey(b)[5] == b.velocity;
    assert SortKey(a)[6] == a.time && SortKey(b)[6] == b.time;
  }

  lemma {:induction false} HeadIsLeast(a: seq<Command>, c: Command)
    requires Sorted(a) && c in a
    ensures Leq(a[0], c)
  {
    LexTotal(SortKey(c), SortKey(c));
  }

  lemma {:induction false} SameTails(a: seq<Command>, b: seq<Command>)
    requires a != [] && b != [] && a[0] == b[0] && multiset(a) == multiset(b)
    ensures multiset(a[1..]) == multiset(b[1..])
  {
    assert a == [a[0]] + a[1..] && b == [b[0]] + b[1..];
    assert multiset(a[1..]) == multiset(a) - multiset{a[0]} == multiset(b[1..]);
  }

  /** Commands that come out of any correct sort come out of this one: equal keys are equal commands. */
  lemma {:induction false} SortUnique(a: seq<Command>, b: seq<Command>)
    requires Sorted(a) && Sorted(b) && multiset(a) == multiset(b)
    ensures a == b
  {
    if a == [] {
      assert |multiset(b)| == 0;
    } else {
      assert |multiset(a)| == |multiset(b)|;
      assert a[0] in multiset(b) && b[0] in multiset(a);
      HeadIsLeast(b, a[0]);
      HeadIsLeast(a, b[0]);
      SameKeySameCommand(a[0], b[0]);
      SameTails(a, b);
      SortUnique(a[1..], b[1..]);
    }
  }

  /** By channel, then kind of command, then pitch, then velocity, then time. */
  predicate OrderLeq(a: Command, b: Command) {
    var (ca, cb, ka, kb) := (a.event % 16, b.event % 16, a.event / 16, b.event / 16);
    || ca < cb
    || (ca == cb && ka < kb)
    || (ca == cb && ka == kb && a.note < b.note)
    || (ca == cb && ka == kb && a.note == b.note && a.velocity < b.velocity)
    || (ca == cb && ka == kb && a.note == b.note && a.velocity == b.velocity && a.time <= b.time)
  }

  lemma {:induction false} LexStep(x: int, s: seq<int>, y: int, t: seq<int>)
    requires |s| == |t|
    ensures LexLeq([x] + s, [y] + t) <==> x < y || (x == y && LexLeq(s, t))
  {
    assert ([x] + s)[1..] == s && ([y] + t)[1..] == t;
  }

  /** Python compares the two tuples in this order. */
  lemma {:induction false} LeqMeans(a: Command, b: Command)
    ensures Leq(a, b) <==> OrderLeq(a, b)
  {
    var s6, t6 := [a.time], [b.time];
    var s5, t5 := [a.velocity as int] + s6, [b.velocity as int] + t6;
    var s4, t4 := [a.note as int] + s5, [b.note as int] + t5;
    var s3, t3 := [a.event as int] + s4, [b.event as int] + t4;
    var s2, t2 := [a.note as int] + s3, [b.note as int] + t3;
    var s1, t1 := [Nibble(a)] + s2, [Nibble(b)] + t2;
    assert SortKey(a) == [Channel(a)] + s1 && SortKey(b) == [Channel(b)] + t1;
    LexStep(Channel(a), s1, Channel(b), t1);
    LexStep(Nibble(a), s2, Nibble(b), t2);
    LexStep(a.note, s3, b.note, t3);
    LexStep(a.event, s4, b.event, t4);
    LexStep(a.note, s5, b.note, t5);
    LexStep(a.velocity, s6, b.velocity, t6);
    assert LexLeq(s6, t6) <==> a.time <= b.time;
    StatusByte(a);
    StatusByte(b);
  }

  // ----- Bytes

  /** Big-endian, as the format `!I` lays it out. */
  function PackTime(t: int): (r: seq<byte>)
    requires 0 <= t < TWO_TO_THE_32
    ensures |r| == 4
  {
    var high, middle := t / 256 / 256, t / 256;
    [high / 256, high % 256, middle % 256, t % 256]
  }

  function UnpackTime(b: seq<byte>): int
    requires |b| == 4
  {
    (((b[0] as int) * 256 + b[1] as int) * 256 + b[2] as int) * 256 + b[3] as int
  }

  lemma {:induction false} TimeRoundTrip(t: int)
    requires 0 <= t < TWO_TO_THE_32
    ensures UnpackTime(PackTime(t)) == t
  {
  }

  // ----- Encoding and decoding

  function MinTime(commands: seq<Command>): (r: int)
    requires commands != []
    ensures forall c :: c in commands ==> r <= c.time
    ensures exists c :: c in commands && r == c.time
  {
    if |commands| == 1 then commands[0].time
    else
      var m := MinTime(commands[1..]);
      assert forall c :: c in commands ==> c == commands[0] || c in commands[1..];
      if commands[0].time < m then commands[0].time else m
  }

  /** The time written for a command: its distance to the first time, less 2^33 when it reaches 2^33. */
  function Delta(c: Command, ref: int): int {
    var d := c.time - ref;
    if d >= TWO_TO_THE_33 then d - TWO_TO_THE_33 else d
  }

  function EncodeAll(commands: seq<Command>, ref: int): Result<seq<byte>, Error>
    requires forall i :: 0 <= i < |commands| ==> ref <= commands[i].time
  {
    if commands == [] then Success([])
    else
      var c := commands[0];
      if Delta(c, ref) >= TWO_TO_THE_32 then Failure(StructError)
      else match EncodeAll(commands[1..], ref)
        case Failure(e) => Failure(e)
        case Success(bytes) => Success(PackTime(Delta(c, ref)) + [c.event, c.note, c.velocity] + bytes)
  }

  /** The encoded list and the number of commands in it. */
  function Encode(commands: seq<Command>): Result<(seq<byte>, nat), Error> {
    if commands == [] then Success(([], 0))
    else
      SortSorts(commands);
      var sorted := Sort(commands);
      match EncodeAll(sorted, MinTime(sorted))
      case Failure(e) => Failure(e)
      case Success(bytes) => Success((bytes, |sorted|))
  }

  function DecodeOne(cmd: seq<byte>): Command
    requires |cmd| == COMMAND_BYTES
  {
    Command(cmd[4], cmd[5], cmd[6], UnpackTime(cmd[..4]))
  }

  function Decode(bytes: seq<byte>, nbNotes: nat): Result<seq<Command>, Error>
    decreases nbNotes
  {
    if nbNotes == 0 then Success([])
    else if |bytes| < COMMAND_BYTES then Failure(StructError)
    else match Decode(bytes[COMMAND_BYTES..], nbNotes - 1)
      case Failure(e) => Failure(e)
      case Success(commands) => Success([DecodeOne(bytes[..COMMAND_BYTES])] + commands)
  }

  lemma {:induction false} DecodeFails(bytes: seq<byte>, nbNotes: nat)
    ensures Decode(bytes, nbNotes).Failure? <==> |bytes| < COMMAND_BYTES * nbNotes
    decreases nbNotes
  {
    if nbNotes == 0 || |bytes| < COMMAND_BYTES {
    } else {
      DecodeFails(bytes[COMMAND_BYTES..], nbNotes - 1);
    }
  }

  // ----- Round trip

  function Shift(commands: seq<Command>, ref: int): (r: seq<Command>)
    ensures |r| == |commands|
  {
    seq(|commands|, i requires 0 <= i < |commands| => commands[i].(time := commands[i].time - ref))
  }

  /** What arrives when nothing fails: the shifted commands, each time reduced as Delta reduces it. */
  function Arrived(commands: seq<Command>, ref: int): (r: seq<Command>)
    ensures |r| == |commands|
  {
    seq(|commands|, i requires 0 <= i < |commands| => commands[i].(time := Delta(commands[i], ref)))
  }

  lemma {:induction false} EncodedDecodes(commands: seq<Command>, ref: int)
    requires forall i :: 0 <= i < |commands| ==> ref <= commands[i].time
    ensures EncodeAll(commands, ref).Success?
       <==> forall i :: 0 <= i < |commands| ==> Delta(commands[i], ref) < TWO_TO_THE_32
    ensures EncodeAll(commands, ref).Success? ==>
              var bytes := EncodeAll(commands, ref).value;
              && |bytes| == COMMAND_BYTES * |commands|
              && Decode(bytes, |commands|) == Success(Arrived(commands, ref))
  {
    if commands == [] {
    } else {
      var c, tail := commands[0], commands[1..];
      EncodedDecodes(tail, ref);
      if EncodeAll(commands, ref).Success? {
        var bytes := EncodeAll(commands, ref).value;
        var d := Delta(c, ref);
        TimeRoundTrip(d);
        assert bytes[..COMMAND_BYTES] == PackTime(d) + [c.event, c.note, c.velocity];
        assert bytes[..COMMAND_BYTES][..4] == PackTime(d);
        assert bytes[COMMAND_BYTES..] == EncodeAll(tail, ref).value;
        assert Arrived(commands, ref) == [DecodeOne(bytes[..COMMAND_BYTES])] + Arrived(tail, ref);
      } else {
        assert forall i :: 0 <= i < |tail| ==> tail[i] == commands[i + 1];
      }
    }
  }

  predicate SpreadBelow(commands: seq<Command>, limit: int) {
    forall a, b :: a in commands && b in commands ==> a.time - b.time < limit
  }

  /** The times are less than 2^32 apart. */
  predicate Fits(commands: seq<Command>) {
    SpreadBelow(commands, TWO_TO_THE_32)
  }

  /** Decoding what was encoded gives the sorted commands shifted to start at time 0. */
  predicate RoundTrips(commands: seq<Command>)
    requires commands != []
  {
    SortSorts(commands);
    var sorted := Sort(commands);
    && Encode(commands).Success?
    && var (bytes, n) := Encode(commands).value;
    && n == |commands| && |bytes| == COMMAND_BYTES * n
    && Decode(bytes, n) == Success(Shift(sorted, MinTime(sorted)))
  }

  lemma {:induction false} SameMembers(commands: seq<Command>)
    ensures forall c :: c in Sort(commands) <==> c in commands
  {
    SortSorts(commands);
    forall c
      ensures c in Sort(commands) <==> c in commands
    {
      assert c in Sort(commands) <==> c in multiset(Sort(commands));
      assert c in commands <==> c in multiset(commands);
    }
  }

  lemma {:induction false} FitsArrives(sorted: seq<Command>, ref: int)
    requires forall i :: 0 <= i < |sorted| ==> ref <= sorted[i].time
    requires forall i :: 0 <= i < |sorted| ==> sorted[i].time - ref < TWO_TO_THE_32
    ensures Arrived(sorted, ref) == Shift(sorted, ref)
    ensures forall i :: 0 <= i < |sorted| ==> Delta(sorted[i], ref) < TWO_TO_THE_32
  {
  }

  lemma {:induction false} ArrivesFits(sorted: seq<Command>, ref: int)
    requires forall i :: 0 <= i < |sorted| ==> ref <= sorted[i].time
    requires forall i :: 0 <= i < |sorted| ==> Delta(sorted[i], ref) < TWO_TO_THE_32
    requires Arrived(sorted, ref) == Shift(sorted, ref)
    ensures forall i :: 0 <= i < |sorted| ==> sorted[i].time - ref < TWO_TO_THE_32
  {
    forall i | 0 <= i < |sorted|
      ensures sorted[i].time - ref < TWO_TO_THE_32
    {
      assert Arrived(sorted, ref)[i] == Shift(sorted, ref)[i];
    }
  }

  /** Being less than 2^32 apart is being less than 2^32 after the first. */
  lemma {:induction false} FitsFromFirst(commands: seq<Command>)
    requires commands != []
    ensures |Sort(commands)| == |commands|
    ensures var sorted := Sort(commands);
            Fits(commands) <==> forall i :: 0 <= i < |sorted| ==> sorted[i].time - MinTime(sorted) < TWO_TO_THE_32
  {
    SortSorts(commands);
    SameMembers(commands);
    var sorted := Sort(commands);
    var ref := MinTime(sorted);
    var first :| first in sorted && ref == first.time;
    if Fits(commands) {
      forall i | 0 <= i < |sorted|
        ensures sorted[i].time - first.time < TWO_TO_THE_32
      {
        assert sorted[i] in commands && first in commands;
      }
    }
    if forall i :: 0 <= i < |sorted| ==> sorted[i].time - MinTime(sorted) < TWO_TO_THE_32 {
      forall a, b | a in commands && b in commands
        ensures a.time - b.time < TWO_TO_THE_32
      {
        assert a in sorted && b in sorted;
      }
    }
  }

  /** The round trip holds exactly for the lists whose times are less than 2^32 apart. */
  lemma {:induction false} RoundTripsExactly(commands: seq<Command>)
    requires commands != []
    ensures RoundTrips(commands) <==> Fits(commands)
  {
    SortSorts(commands);
    FitsFromFirst(commands);
    var sorted := Sort(commands);
    var ref := MinTime(sorted);
    EncodedDecodes(sorted, ref);
    if Fits(commands) {
      FitsArrives(sorted, ref);
    }
    if RoundTrips(commands) {
      ArrivesFits(sorted, ref);
    }
  }

  /** A note and its end 2^32 later already fail to round-trip. */
  lemma {:induction false} RoundTripExample()
    ensures !RoundTrips([Command(NOTE_ON, 60, 100, 0), Command(NOTE_OFF, 60, 0, TWO_TO_THE_32)])
  {
    var commands := [Command(NOTE_ON, 60, 100, 0), Command(NOTE_OFF, 60, 0, TWO_TO_THE_32)];
    assert commands[1].time - commands[0].time == TWO_TO_THE_32;
    RoundTripsExactly(commands);
  }

  lemma {:induction false} InsertShift(c: Command, sorted: seq<Command>, ref: int)
    ensures multiset(Shift(Insert(c, sorted), ref)) == multiset(Shift([c], ref)) + multiset(Shift(sorted, ref))
  {
    ShiftConcat([c], sorted, ref);
    if sorted == [] || Leq(c, sorted[0]) {
    } else {
      InsertShift(c, sorted[1..], ref);
      ShiftConcat([sorted[0]], Insert(c, sorted[1..]), ref);
      ShiftConcat([sorted[0]], sorted[1..], ref);
      assert sorted == [sorted[0]] + sorted[1..];
    }
  }

  lemma {:induction false} SortShift(commands: seq<Command>, ref: int)
    ensures multiset(Shift(Sort(commands), ref)) == multiset(Shift(commands, ref))
  {
    if commands == [] {
    } else {
      SortShift(commands[1..], ref);
      InsertShift(commands[0], Sort(commands[1..]), ref);
      ShiftConcat([commands[0]], commands[1..], ref);
      assert commands == [commands[0]] + commands[1..];
    }
  }

  lemma {:induction false} ShiftConcat(a: seq<Command>, b: seq<Command>, ref: int)
    ensures Shift(a + b, ref) == Shift(a, ref) + Shift(b, ref)
  {
  }

  /** What decoding an encoded list promises: a permutation, shifted, in order. */
  lemma {:induction false} DecodedIsSortedPermutation(commands: seq<Command>)
    requires commands != [] && Fits(commands)
    ensures RoundTrips(commands)
    ensures var (bytes, n) := Encode(commands).value;
            var decoded := Decode(bytes, n).value;
            && multiset(decoded) == multiset(Shift(commands, MinTime(commands)))
            && InOrder(decoded)
  {
    RoundTripsExactly(commands);
    SortSorts(commands);
    SameMembers(commands);
    var sorted := Sort(commands);
    assert MinTime(sorted) == MinTime(commands);
    SortShift(commands, MinTime(commands));
    ShiftInOrder(sorted, MinTime(commands));
  }

  predicate InOrder(commands: seq<Command>) {
    forall i, j :: 0 <= i < j < |commands| ==> OrderLeq(commands[i], commands[j])
  }

  lemma {:induction false} ShiftInOrder(sorted: seq<Command>, ref: int)
    requires Sorted(sorted)
    ensures InOrder(sorted) && InOrder(Shift(sorted, ref))
  {
    var shifted := Shift(sorted, ref);
    forall i, j | 0 <= i < j < |sorted|
      ensures OrderLeq(sorted[i], sorted[j]) && OrderLeq(shifted[i], shifted[j])
    {
      LeqMeans(sorted[i], sorted[j]);
    }
  }

  // ----- What is on the wire

  /** The number that four bytes stand for, the first being the highest. */
  function BigEndian(b0: byte, b1: byte, b2: byte, b3: byte): int {
    b0 as int * 0x100_0000 + b1 as int * 0x1_0000 + b2 as int * 0x100 + b3 as int
  }

  lemma {:induction false} DecodedOne(bytes: seq<byte>, p: nat)
    requires p + 7 <= |bytes|
    ensures DecodeOne(bytes[p..p + 7])
         == Command(bytes[p + 4], bytes[p + 5], bytes[p + 6],
                    BigEndian(bytes[p], bytes[p + 1], bytes[p + 2], bytes[p + 3]))
  {
    var cmd := bytes[p..p + 7];
    assert cmd[0] == bytes[p] && cmd[1] == bytes[p + 1] && cmd[2] == bytes[p + 2] && cmd[3] == bytes[p + 3];
    assert cmd[4] == bytes[p + 4] && cmd[5] == bytes[p + 5] && cmd[6] == bytes[p + 6];
  }

  /** A decoded command is seven bytes: a big-endian time, then the status byte, the pitch and the velocity. */
  lemma {:induction false} DecodedLayout(bytes: seq<byte>, nbNotes: nat, i: nat)
    requires Decode(bytes, nbNotes).Success? && i < nbNotes
    ensures |Decode(bytes, nbNotes).value| == nbNotes && 7 * i + 7 <= |bytes|
    ensures var p := 7 * i;
            Decode(bytes, nbNotes).value[i]
            == Command(bytes[p + 4], bytes[p + 5], bytes[p + 6],
                       BigEndian(bytes[p], bytes[p + 1], bytes[p + 2], bytes[p + 3]))
    decreases nbNotes
  {
    var rest := bytes[COMMAND_BYTES..];
    if nbNotes > 1 {
      DecodedLayout(rest, nbNotes - 1, if i == 0 then 0 else i - 1);
    }
    if i == 0 {
      DecodedOne(bytes, 0);
    } else {
      var p := 7 * i;
      assert rest[p - 7] == bytes[p] && rest[p - 6] == bytes[p + 1] && rest[p - 5] == bytes[p + 2];
      assert rest[p - 4] == bytes[p + 3] && rest[p - 3] == bytes[p + 4];
      assert rest[p - 2] == bytes[p + 5] && rest[p - 1] == bytes[p + 6];
    }
  }

  /** The time on the wire, for a command that comes d after the first; none when it cannot be packed. */
  function WireTime(d: int): Option<int> {
    if 0 <= d < 0x1_0000_0000 then Some(d)
    else if 0x2_0000_0000 <= d < 0x3_0000_0000 then Some(d - 0x2_0000_0000)
    else None
  }

  lemma {:induction false} DeltaOnWire(c: Command, ref: int)
    requires ref <= c.time
    ensures WireTime(c.time - ref) == if Delta(c, ref) < TWO_TO_THE_32 then Some(Delta(c, ref)) else None
  {
  }

  lemma {:induction false} EncodeAllFails(sorted: seq<Command>, ref: int)
    requires forall i :: 0 <= i < |sorted| ==> ref <= sorted[i].time
    ensures EncodeAll(sorted, ref).Failure?
       <==> exists i :: 0 <= i < |sorted| && WireTime(sorted[i].time - ref) == None
  {
    EncodedDecodes(sorted, ref);
    forall i | 0 <= i < |sorted|
      ensures WireTime(sorted[i].time - ref) == None <==> Delta(sorted[i], ref) >= TWO_TO_THE_32
    {
      DeltaOnWire(sorted[i], ref);
    }
  }

  /** Some command comes too late after ref for its time to be packed. */
  predicate TooLate(commands: seq<Command>, ref: int) {
    exists c :: c in commands && WireTime(c.time - ref) == None
  }

  lemma {:induction false} TooLateFails(commands: seq<Command>, sorted: seq<Command>, ref: int)
    requires forall c :: c in sorted <==> c in commands
    requires forall i :: 0 <= i < |sorted| ==> ref <= sorted[i].time
    ensures EncodeAll(sorted, ref).Failure? <==> TooLate(commands, ref)
  {
    EncodeAllFails(sorted, ref);
    if i :| 0 <= i < |sorted| && WireTime(sorted[i].time - ref) == None {
      assert sorted[i] in commands;
    }
    if c :| c in commands && WireTime(c.time - ref) == None {
      assert c in sorted;
    }
  }

  lemma {:induction false} FirstOfSorted(commands: seq<Command>, sorted: seq<Command>)
    requires commands != [] && |sorted| == |commands| && forall c :: c in sorted <==> c in commands
    ensures MinTime(sorted) == MinTime(commands)
    ensures forall i :: 0 <= i < |sorted| ==> MinTime(commands) <= sorted[i].time
  {
    var first, least := MinTime(commands), MinTime(sorted);
    var c :| c in commands && first == c.time;
    var d :| d in sorted && least == d.time;
    assert c in sorted && d in commands;
  }

  lemma {:induction false} EncodeSortedFails(commands: seq<Command>, sorted: seq<Command>)
    requires commands != [] && sorted == Sort(commands) && |sorted| == |commands|
    requires forall i :: 0 <= i < |sorted| ==> MinTime(sorted) <= sorted[i].time
    ensures Encode(commands).Failure? <==> EncodeAll(sorted, MinTime(sorted)).Failure?
  {
  }

  /** Encoding fails exactly when some command comes too late after the first for its time to be packed. */
  lemma {:induction false} EncodeFailsExactly(commands: seq<Command>)
    requires commands != []
    ensures Encode(commands).Failure? <==> TooLate(commands, MinTime(commands))
  {
    SortSorts(commands);
    SameMembers(commands);
    FirstOfSorted(commands, Sort(commands));
    EncodeSortedFails(commands, Sort(commands));
    TooLateFails(commands, Sort(commands), MinTime(commands));
  }

  /** A command that is encoded arrives as it was, with its wire time. */
  lemma {:induction false} EncodedArrives(sorted: seq<Command>, ref: int, i: nat)
    requires forall j :: 0 <= j < |sorted| ==> ref <= sorted[j].time
    requires EncodeAll(sorted, ref).Success? && i < |sorted|
    ensures Decode(EncodeAll(sorted, ref).value, |sorted|).Success?
    ensures |Decode(EncodeAll(sorted, ref).value, |sorted|).value| == |sorted|
    ensures var d := Decode(EncodeAll(sorted, ref).value, |sorted|).value[i];
            && d == sorted[i].(time := d.time) && Some(d.time) == WireTime(sorted[i].time - ref)
  {
    EncodedDecodes(sorted, ref);
    DeltaOnWire(sorted[i], ref);
    assert Arrived(sorted, ref)[i] == sorted[i].(time := Delta(sorted[i], ref));
  }

  // ----- The code

  lemma {:induction false} EncodeOneMore(commands: seq<Command>, i: nat, ref: int)
    requires i < |commands| && forall j :: 0 <= j < |commands| ==> ref <= commands[j].time
    ensures var (now, next) := (EncodeAll(commands[i..], ref), EncodeAll(commands[i + 1..], ref));
            var d := Delta(commands[i], ref);
            && (now.Success? <==> d < TWO_TO_THE_32 && next.Success?)
            && (now.Success? ==>
                  now.value == PackTime(d) + [commands[i].event, commands[i].note, commands[i].velocity] + next.value)
  {
    assert commands[i..][1..] == commands[i + 1..];
  }

  /** Encodes in a loop over the sorted commands; failed stands for the error of the packing library. */
  method EncodeMidiCommands(commands: seq<Command>) returns (notes: seq<byte>, nbNotes: nat, failed: bool)
    ensures failed <==> Encode(commands).Failure?
    ensures !failed ==> Encode(commands) == Success((notes, nbNotes))
  {
    notes, nbNotes, failed := [], 0, false;
    if |commands| > 0 {
      SortSorts(commands);
      var sorted := Sort(commands);
      notes, nbNotes, failed := EncodeSorted(sorted, MinTime(sorted));
    }
  }

  method EncodeSorted(sorted: seq<Command>, timeRef: int) returns (notes: seq<byte>, nbNotes: nat, failed: bool)
    requires forall j :: 0 <= j < |sorted| ==> timeRef <= sorted[j].time
    ensures failed <==> EncodeAll(sorted, timeRef).Failure?
    ensures !failed ==> EncodeAll(sorted, timeRef) == Success(notes) && nbNotes == |sorted|
  {
    notes, nbNotes, failed := [], 0, false;
    ghost var goal := EncodeAll(sorted, timeRef);
    assert sorted[0..] == sorted;
    for i := 0 to |sorted|
      invariant nbNotes == i
      invariant goal.Success? <==> EncodeAll(sorted[i..], timeRef).Success?
      invariant goal.Success? ==> goal.value == notes + EncodeAll(sorted[i..], timeRef).value
    {
      EncodeOneMore(sorted, i, timeRef);
      var c := sorted[i];
      var timestamp := c.time - timeRef;
      if timestamp >= TWO_TO_THE_33 {
        timestamp := timestamp - TWO_TO_THE_33;
      }
      if timestamp >= TWO_TO_THE_32 {
        failed := true;
        return;
      }
      if goal.Success? {
        var rest := EncodeAll(sorted[i + 1..], timeRef).value;
        Reassociate(notes, PackTime(timestamp), [c.event, c.note, c.velocity], rest);
      }
      notes := notes + (PackTime(timestamp) + [c.event, c.note, c.velocity]);
      nbNotes := nbNotes + 1;
    }
    assert notes + [] == notes;
  }

  lemma {:induction false} Reassociate(a: seq<byte>, b: seq<byte>, c: seq<byte>, d: seq<byte>)
    ensures a + (b + c + d) == a + (b + c) + d
  {
  }

  /** Decodes nbNotes commands in a loop; failed stands for the error of the unpacking library. */
  method DecodeMidiCommands(bytes: seq<byte>, nbNotes: nat) returns (midiList: seq<Command>, failed: bool)
    ensures failed <==> Decode(bytes, nbNotes).Failure?
    ensures failed <==> |bytes| < COMMAND_BYTES * nbNotes
    ensures !failed ==> Decode(bytes, nbNotes) == Success(midiList)
  {
    midiList, failed := [], false;
    var j := 0;
    DecodeFails(bytes, nbNotes);
    ghost var goal := Decode(bytes, nbNotes);
    assert bytes[0..] == bytes;
    for i := 0 to nbNotes
      invariant j == COMMAND_BYTES * i <= |bytes|
      invariant goal.Success? <==> Decode(bytes[j..], nbNotes - i).Success?
      invariant goal.Success? ==> goal.value == midiList + Decode(bytes[j..], nbNotes - i).value
    {
      if |bytes| - j < COMMAND_BYTES {
        failed := true;
        return;
      }
      assert bytes[j..][..COMMAND_BYTES] == bytes[j..j + COMMAND_BYTES];
      assert bytes[j..][COMMAND_BYTES..] == bytes[j + COMMAND_BYTES..];
      midiList := midiList + [DecodeOne(bytes[j..j + COMMAND_BYTES])];
      j := j + COMMAND_BYTES;
    }
    assert midiList + [] == midiList;
  }
}
