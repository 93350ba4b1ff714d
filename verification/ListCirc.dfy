/** The ring of the last items, and the window of packets that recovery reads from it. */
module CircularList {
  import opened Midi

  // ----- The ring

  /** The fields of a ring; round is 1 once the list has reached its size. */
  datatype Ring<T> = Ring(list: seq<T>, index: int, round: int, listeSize: int)

  function Empty<T>(listeSize: int): Ring<T> {
    Ring([], 0, 0, listeSize)
  }

  predicate WellFormed<T>(r: Ring<T>) {
    if r.round == 1 then 1 <= r.listeSize == |r.list| && 0 <= r.index <= r.listeSize
    else r.round == 0 && r.index == |r.list| && (r.listeSize < 1 || r.index < r.listeSize)
  }

  function Added<T>(r: Ring<T>, note: T): Ring<T> {
    if r.index == r.listeSize - 1 then Ring(r.list + [note], 0, 1, r.listeSize)
    else Ring(r.list + [note], r.index + 1, r.round, r.listeSize)
  }

  function Replaced<T>(r: Ring<T>, note: T): Ring<T>
    requires WellFormed(r) && r.round == 1
  {
    var at := if r.index == r.listeSize then 0 else r.index;
    r.(list := r.list[at := note], index := at + 1)
  }

  function Inserted<T>(r: Ring<T>, note: T): (r': Ring<T>)
    requires WellFormed(r)
    ensures WellFormed(r') && r'.listeSize == r.listeSize
  {
    if r.round == 1 then Replaced(r, note) else Added(r, note)
  }

  /** The ring read from its index. */
  function Unrolled<T>(r: Ring<T>): seq<T>
    requires WellFormed(r)
  {
    r.list[r.index..] + r.list[..r.index]
  }

  // ----- What the ring holds

  datatype Event<T> = Insert(note: T) | Flush

  function After<T>(listeSize: int, history: seq<Event<T>>): (r: Ring<T>)
    ensures WellFormed(r) && r.listeSize == listeSize
  {
    if history == [] then Empty(listeSize)
    else
      var r := After(listeSize, history[..|history| - 1]);
      match history[|history| - 1]
      case Insert(note) => Inserted(r, note)
      case Flush => Empty(listeSize)
  }

  /** The items inserted since the latest flush, oldest first. */
  function SinceFlush<T>(history: seq<Event<T>>): seq<T> {
    if history == [] then []
    else match history[|history| - 1]
      case Insert(note) => SinceFlush(history[..|history| - 1]) + [note]
      case Flush => []
  }

  /** The last n items; a size below 1 never wraps, so it keeps them all. */
  function Last<T>(items: seq<T>, n: int): seq<T> {
    if n < 1 || |items| <= n then items else items[|items| - n..]
  }

  /** One insertion drops the oldest item of a full ring and nothing else. */
  lemma {:induction false} InsertShifts<T>(r: Ring<T>, note: T)
    requires WellFormed(r)
    ensures Unrolled(Inserted(r, note)) == if r.round == 1 then Unrolled(r)[1..] + [note] else Unrolled(r) + [note]
  {
    var r' := Inserted(r, note);
    if r.round == 1 {
      var at := if r.index == r.listeSize then 0 else r.index;
      assert Unrolled(r) == r.list[at..] + r.list[..at];
      assert r'.list[at + 1..] == r.list[at + 1..] && r'.list[..at + 1] == r.list[..at] + [note];
    } else {
      assert Unrolled(r) == r.list;
    }
  }

  lemma {:induction false} LastShifts<T>(items: seq<T>, note: T, n: int)
    ensures Last(items + [note], n)
         == if 1 <= n <= |items| then Last(items, n)[1..] + [note] else Last(items, n) + [note]
  {
  }

  /** After any history the ring, read from its index, is exactly the last items since the latest flush. */
  lemma {:induction false} RingHoldsLast<T>(listeSize: int, history: seq<Event<T>>)
    ensures Unrolled(After(listeSize, history)) == Last(SinceFlush(history), listeSize)
    ensures After(listeSize, history).round == 1 <==> 1 <= listeSize <= |SinceFlush(history)|
  {
    if history == [] {
    } else {
      var before := history[..|history| - 1];
      RingHoldsLast(listeSize, before);
      match history[|history| - 1] {
        case Insert(note) =>
          InsertShifts(After(listeSize, before), note);
          LastShifts(SinceFlush(before), note, listeSize);
        case Flush =>
      }
    }
  }

  // ----- The recovery window

  const SEQUENCE_NUMBERS := 0x1_0000

  /** A sent packet: its number and the commands in it. */
  datatype OldPacket = OldPacket(seqNo: int, packet: seq<Command>)

  /** Index of the first packet with the number, or the length. */
  function Position(list: seq<OldPacket>, seqNo: int): (r: nat)
    ensures r <= |list|
    ensures r < |list| ==> list[r].seqNo == seqNo
    ensures forall i :: 0 <= i < r ==> list[i].seqNo != seqNo
  {
    if list == [] || list[0].seqNo == seqNo then 0 else 1 + Position(list[1..], seqNo)
  }

  function Find(list: seq<OldPacket>, seqNo: int): (r: int)
    ensures -1 <= r < |list|
  {
    var p := Position(list, seqNo);
    if p < |list| then p else -1
  }

  function Between(list: seq<OldPacket>, checkpoint: int, actSeq: int): seq<OldPacket> {
    if list == [] then []
    else if checkpoint < list[0].seqNo <= actSeq then [list[0]] + Between(list[1..], checkpoint, actSeq)
    else Between(list[1..], checkpoint, actSeq)
  }

  /** The items after index c up to index a, going round the end of the list. */
  function Span(list: seq<OldPacket>, c: int, a: int): seq<OldPacket>
    requires -1 <= c < |list| && -1 <= a < |list|
  {
    if c < a then list[c + 1..a + 1] else list[c + 1..] + list[..a + 1]
  }

  /** What `get_packets` returns, for any list and any two numbers. */
  function Packets(list: seq<OldPacket>, checkpoint: int, actSeq: int): seq<OldPacket> {
    if checkpoint >= actSeq then Span(list, Find(list, checkpoint), Find(list, actSeq))
    else Between(list, checkpoint, actSeq)
  }

  /** How far a number is from base, going up and round from 2^16 - 1 to 0. */
  function Offset(seqNo: int, base: int): int {
    (seqNo - base) % SEQUENCE_NUMBERS
  }

  /** The numbers go up from base within one cycle; some may be missing. */
  predicate Chronological(packets: seq<OldPacket>, base: int) {
    && 0 <= base < SEQUENCE_NUMBERS
    && (forall i :: 0 <= i < |packets| ==> 0 <= packets[i].seqNo < SEQUENCE_NUMBERS)
    && (forall i, j :: 0 <= i < j < |packets| ==> Offset(packets[i].seqNo, base) < Offset(packets[j].seqNo, base))
  }

  /** Consecutive numbers modulo 2^16, each at most once. */
  predicate Consecutive(packets: seq<OldPacket>, base: int) {
    |packets| <= SEQUENCE_NUMBERS
    && forall i :: 0 <= i < |packets| ==> packets[i].seqNo == (base + i) % SEQUENCE_NUMBERS
  }

  lemma {:induction false} OffsetIs(seqNo: int, base: int)
    requires 0 <= seqNo < SEQUENCE_NUMBERS && 0 <= base < SEQUENCE_NUMBERS
    ensures Offset(seqNo, base) == if seqNo >= base then seqNo - base else seqNo - base + SEQUENCE_NUMBERS
  {
  }

  lemma {:induction false} ConsecutiveIsChronological(packets: seq<OldPacket>, base: int)
    requires Consecutive(packets, base)
    ensures Chronological(packets, base % SEQUENCE_NUMBERS)
  {
    forall i | 0 <= i < |packets|
      ensures Offset(packets[i].seqNo, base % SEQUENCE_NUMBERS) == i
    {
      OffsetOf(base, i);
    }
  }

  lemma {:induction false} OffsetOf(base: int, i: nat)
    requires i < SEQUENCE_NUMBERS
    ensures Offset((base + i) % SEQUENCE_NUMBERS, base % SEQUENCE_NUMBERS) == i
  {
    var q, q' := base / SEQUENCE_NUMBERS, (base + i) / SEQUENCE_NUMBERS;
    assert base == q * SEQUENCE_NUMBERS + base % SEQUENCE_NUMBERS;
    assert base + i == q' * SEQUENCE_NUMBERS + (base + i) % SEQUENCE_NUMBERS;
    assert q' == q || q' == q + 1;
    OffsetIs((base + i) % SEQUENCE_NUMBERS, base % SEQUENCE_NUMBERS);
  }

  lemma {:induction false} DifferentNumbers(packets: seq<OldPacket>, base: int, i: nat, j: nat)
    requires Chronological(packets, base) && i < |packets| && j < |packets| && i != j
    ensures packets[i].seqNo != packets[j].seqNo
  {
    assert Offset(packets[i].seqNo, base) != Offset(packets[j].seqNo, base);
  }

  /** Between two held numbers that do not wrap, exactly the later packets up to the end have numbers between. */
  lemma {:induction false} NumbersBetween(packets: seq<OldPacket>, base: int, a: nat, b: nat, i: nat)
    requires Chronological(packets, base) && a < b < |packets| && i < |packets|
    requires packets[a].seqNo < packets[b].seqNo
    ensures packets[a].seqNo < packets[i].seqNo <= packets[b].seqNo <==> a < i <= b
  {
    OffsetIs(packets[a].seqNo, base);
    OffsetIs(packets[b].seqNo, base);
    OffsetIs(packets[i].seqNo, base);
  }

  lemma {:induction false} BetweenConcat(x: seq<OldPacket>, y: seq<OldPacket>, checkpoint: int, actSeq: int)
    ensures Between(x + y, checkpoint, actSeq) == Between(x, checkpoint, actSeq) + Between(y, checkpoint, actSeq)
  {
    if x == [] {
      assert x + y == y;
    } else {
      assert (x + y)[1..] == x[1..] + y;
      BetweenConcat(x[1..], y, checkpoint, actSeq);
    }
  }

  lemma {:induction false} BetweenAllOrNone(list: seq<OldPacket>, checkpoint: int, actSeq: int, all: bool)
    requires forall i :: 0 <= i < |list| ==> (checkpoint < list[i].seqNo <= actSeq) == all
    ensures Between(list, checkpoint, actSeq) == if all then list else []
  {
    if list == [] {
    } else {
      BetweenAllOrNone(list[1..], checkpoint, actSeq, all);
      assert (checkpoint < list[0].seqNo <= actSeq) == all;
    }
  }

  lemma {:induction false} BetweenOfPart(list: seq<OldPacket>, c: int, d: int, lo: nat, hi: nat, all: bool)
    requires lo <= hi <= |list|
    requires forall i :: lo <= i < hi ==> (c < list[i].seqNo <= d) == all
    ensures Between(list[lo..hi], c, d) == if all then list[lo..hi] else []
  {
    forall i | 0 <= i < hi - lo
      ensures (c < list[lo..hi][i].seqNo <= d) == all
    {
      assert list[lo..hi][i] == list[lo + i];
    }
    BetweenAllOrNone(list[lo..hi], c, d, all);
  }

  lemma {:induction false} BetweenIsSlice(list: seq<OldPacket>, checkpoint: int, actSeq: int, lo: nat, hi: nat)
    requires lo <= hi <= |list|
    requires forall i :: 0 <= i < |list| ==> (checkpoint < list[i].seqNo <= actSeq <==> lo <= i < hi)
    ensures Between(list, checkpoint, actSeq) == list[lo..hi]
  {
    BetweenOfPart(list, checkpoint, actSeq, 0, lo, false);
    BetweenOfPart(list, checkpoint, actSeq, lo, hi, true);
    BetweenOfPart(list, checkpoint, actSeq, hi, |list|, false);
    BetweenConcat(list[0..lo], list[lo..hi] + list[hi..|list|], checkpoint, actSeq);
    BetweenConcat(list[lo..hi], list[hi..|list|], checkpoint, actSeq);
    InThree(list, lo, hi);
  }

  lemma {:induction false} InThree(list: seq<OldPacket>, lo: nat, hi: nat)
    requires lo <= hi <= |list|
    ensures list == list[0..lo] + (list[lo..hi] + list[hi..|list|])
  {
  }

  /** Where the seam of the ring, r packets after the oldest, falls inside the window after a up to b. */
  function Seam(r: nat, a: int, b: nat): nat
    requires -1 <= a <= b
  {
    Clamp(r - (a + 1), b - a)
  }

  function Rotate<T>(s: seq<T>, k: nat): seq<T>
    requires k <= |s|
  {
    s[k..] + s[..k]
  }

  function Clamp(x: int, hi: nat): nat {
    if x < 0 then 0 else if x > hi then hi else x
  }

  /** The numbers after c up to d belong to the packets after a up to b; a is -1 when c is older than all of them. */
  predicate Spans(packets: seq<OldPacket>, c: int, d: int, a: int, b: nat) {
    && -1 <= a <= b < |packets|
    && forall i :: 0 <= i < |packets| ==> (c < packets[i].seqNo <= d <==> a < i <= b)
  }

  /** The packets with numbers between, among those at indices from lo up to hi. */
  lemma {:induction false} BetweenInPart(packets: seq<OldPacket>, c: int, d: int, a: int, b: nat, lo: nat, hi: nat)
    requires Spans(packets, c, d, a, b) && lo <= hi <= |packets|
    ensures var (first, end) := (Clamp(a + 1 - lo, hi - lo), Clamp(b + 1 - lo, hi - lo));
            Between(packets[lo..hi], c, d) == packets[lo..hi][first..end]
  {
    var first, end := Clamp(a + 1 - lo, hi - lo), Clamp(b + 1 - lo, hi - lo);
    var part := packets[lo..hi];
    forall i | 0 <= i < |part|
      ensures c < part[i].seqNo <= d <==> first <= i < end
    {
      assert part[i] == packets[i + lo];
    }
    BetweenIsSlice(part, c, d, first, end);
  }

  lemma {:induction false} WindowWithoutWrap(packets: seq<OldPacket>, r: nat, c: int, d: int, a: int, b: nat)
    requires Spans(packets, c, d, a, b) && r <= |packets| && c < d
    ensures Packets(Rotate(packets, r), c, d) == Rotate(packets[a + 1..b + 1], Seam(r, a, b))
  {
    BetweenConcat(packets[r..], packets[..r], c, d);
    BetweenInPart(packets, c, d, a, b, r, |packets|);
    BetweenInPart(packets, c, d, a, b, 0, r);
    assert packets[r..|packets|] == packets[r..] && packets[0..r] == packets[..r];
    RotateWindow(packets, r, a, b);
  }

  lemma {:induction false} RotateWindow(packets: seq<OldPacket>, r: nat, a: int, b: nat)
    requires -1 <= a <= b < |packets| && r <= |packets|
    ensures var n := |packets|;
            Rotate(packets[a + 1..b + 1], Seam(r, a, b))
            == packets[r..n][Clamp(a + 1 - r, n - r)..Clamp(b + 1 - r, n - r)]
               + packets[0..r][Clamp(a + 1, r)..Clamp(b + 1, r)]
  {
    var n, m := |packets|, a + 1 + Seam(r, a, b);
    if r <= a { assert m == a + 1; } else if r <= b { assert m == r; } else { assert m == b + 1; }
    SliceOfSlice(packets, r, n, Clamp(a + 1 - r, n - r), Clamp(b + 1 - r, n - r));
    SliceOfSlice(packets, 0, r, Clamp(a + 1, r), Clamp(b + 1, r));
    SliceOfSlice(packets, a + 1, b + 1, m - a - 1, b - a);
    SliceOfSlice(packets, a + 1, b + 1, 0, m - a - 1);
    assert packets[a + 1..b + 1][m - a - 1..] == packets[a + 1..b + 1][m - a - 1..b - a];
    assert packets[a + 1..b + 1][..m - a - 1] == packets[a + 1..b + 1][0..m - a - 1];
    assert packets[r..r] == packets[a + 1..a + 1] == packets[b + 1..b + 1] == [];
  }

  lemma {:induction false} SliceOfSlice(s: seq<OldPacket>, lo: nat, hi: nat, i: nat, j: nat)
    requires lo <= hi <= |s| && i <= j <= hi - lo
    ensures s[lo..hi][i..j] == s[lo + i..lo + j]
  {
    var x, y := s[lo..hi][i..j], s[lo + i..lo + j];
    assert |x| == |y|;
    forall k | 0 <= k < |x|
      ensures x[k] == y[k]
    {
      assert x[k] == s[lo..hi][i + k];
    }
  }

  lemma {:induction false} PositionIs(list: seq<OldPacket>, seqNo: int, p: nat)
    requires p < |list| && list[p].seqNo == seqNo && forall i :: 0 <= i < |list| && i != p ==> list[i].seqNo != seqNo
    ensures Find(list, seqNo) == p
  {
    assert Position(list, seqNo) == p;
  }

  /** Index, in the list of the ring, of the packet that is i-th from the oldest. */
  function InList(n: nat, r: nat, i: nat): int {
    if i >= r then i - r else n - r + i
  }

  lemma {:induction false} FoundAt(packets: seq<OldPacket>, base: int, r: nat, i: nat)
    requires Chronological(packets, base) && r <= |packets| && i < |packets|
    ensures Find(Rotate(packets, r), packets[i].seqNo) == InList(|packets|, r, i)
  {
    var list, n := Rotate(packets, r), |packets|;
    forall j | 0 <= j < n && j != InList(n, r, i)
      ensures list[j].seqNo != packets[i].seqNo
    {
      var at := if j < n - r then j + r else j - (n - r);
      assert list[j] == packets[at];
      DifferentNumbers(packets, base, at, i);
    }
    PositionIs(list, packets[i].seqNo, InList(n, r, i));
  }

  lemma {:induction false} WindowWithWrap(packets: seq<OldPacket>, base: int, r: nat, a: nat, b: nat)
    requires Chronological(packets, base) && a < b < |packets| && r <= |packets|
    requires packets[a].seqNo > packets[b].seqNo
    ensures Packets(Rotate(packets, r), packets[a].seqNo, packets[b].seqNo) == packets[a + 1..b + 1]
  {
    FoundAt(packets, base, r, a);
    FoundAt(packets, base, r, b);
    SliceOfRotation(packets, r, a, b);
  }

  lemma {:induction false} SliceOfRotation(packets: seq<OldPacket>, r: nat, a: nat, b: nat)
    requires a < b < |packets| && r <= |packets|
    ensures var (c, s) := (InList(|packets|, r, a), InList(|packets|, r, b));
            && 0 <= c < |packets| && 0 <= s < |packets|
            && Span(Rotate(packets, r), c, s) == packets[a + 1..b + 1]
  {
    var list := Rotate(packets, r);
    var c, s := InList(|packets|, r, a), InList(|packets|, r, b);
    if a < r <= b {
      assert list[c + 1..] == packets[a + 1..r];
      assert list[..s + 1] == packets[r..b + 1];
    } else {
      assert list[c + 1..s + 1] == packets[a + 1..b + 1];
    }
  }

  lemma {:induction false} ListIsRotated(ring: Ring<OldPacket>)
    requires WellFormed(ring)
    ensures 0 <= ring.index <= |Unrolled(ring)|
    ensures ring.list == Rotate(Unrolled(ring), |Unrolled(ring)| - ring.index)
  {
  }

  /**
   * The packets after the a-th up to the b-th, in order when the numbers wrap, else rotated at the seam of the ring.
   */
  function WindowOf(packets: seq<OldPacket>, r: nat, a: nat, b: nat): seq<OldPacket>
    requires a <= b < |packets|
  {
    var window := packets[a + 1..b + 1];
    if packets[a].seqNo > packets[b].seqNo then window else Rotate(window, Seam(r, a, b))
  }

  /** What `get_packets` gives for the numbers of the a-th and the b-th packet from the oldest: their window. */
  ghost predicate ReturnsWindow(ring: Ring<OldPacket>, a: nat, b: nat)
    requires WellFormed(ring) && a <= b < |Unrolled(ring)|
  {
    var packets := Unrolled(ring);
    ListIsRotated(ring);
    Packets(ring.list, packets[a].seqNo, packets[b].seqNo) == WindowOf(packets, |packets| - ring.index, a, b)
  }

  lemma {:induction false} HeldSpans(packets: seq<OldPacket>, base: int, a: nat, b: nat)
    requires Chronological(packets, base) && a < b < |packets| && packets[a].seqNo < packets[b].seqNo
    ensures Spans(packets, packets[a].seqNo, packets[b].seqNo, a, b)
  {
    forall i | 0 <= i < |packets|
      ensures packets[a].seqNo < packets[i].seqNo <= packets[b].seqNo <==> a < i <= b
    {
      NumbersBetween(packets, base, a, b, i);
    }
  }

  /** The window of two held numbers, in any rotation of the packets. */
  lemma {:induction false} HeldWindow(packets: seq<OldPacket>, base: int, r: nat, a: nat, b: nat)
    requires Chronological(packets, base) && a < b < |packets| && r <= |packets|
    ensures Packets(Rotate(packets, r), packets[a].seqNo, packets[b].seqNo) == WindowOf(packets, r, a, b)
  {
    DifferentNumbers(packets, base, a, b);
    if packets[a].seqNo < packets[b].seqNo {
      HeldSpans(packets, base, a, b);
      WindowWithoutWrap(packets, r, packets[a].seqNo, packets[b].seqNo, a, b);
    } else {
      WindowWithWrap(packets, base, r, a, b);
    }
  }

  /** A ring whose numbers go up within one cycle and that holds both ends, checkpoint older, returns their window. */
  lemma {:induction false} Window(ring: Ring<OldPacket>, base: int, a: nat, b: nat)
    requires WellFormed(ring) && Chronological(Unrolled(ring), base) && a < b < |Unrolled(ring)|
    ensures ReturnsWindow(ring, a, b)
  {
    var packets := Unrolled(ring);
    ListIsRotated(ring);
    var r := |packets| - ring.index;
    HeldWindow(packets, base, r, a, b);
    SamePackets(ring.list, Rotate(packets, r), packets[a].seqNo, packets[b].seqNo);
  }

  lemma {:induction false} SamePackets(x: seq<OldPacket>, y: seq<OldPacket>, c: int, d: int)
    requires x == y
    ensures Packets(x, c, d) == Packets(y, c, d)
  {
  }

  lemma {:induction false} SpanAll(list: seq<OldPacket>, p: int)
    requires -1 <= p < |list|
    ensures multiset(Span(list, p, p)) == multiset(list)
  {
    assert list == list[..p + 1] + list[p + 1..];
  }

  /** With equal ends nothing lies after checkpoint up to actSeq, yet the whole ring comes back. */
  lemma {:induction false} EqualEndsReturnAll(ring: Ring<OldPacket>, seqNo: int)
    requires WellFormed(ring)
    ensures multiset(Packets(ring.list, seqNo, seqNo)) == multiset(Unrolled(ring))
  {
    ListIsRotated(ring);
    RotateKeeps(Unrolled(ring), |Unrolled(ring)| - ring.index);
    SpanAll(ring.list, Find(ring.list, seqNo));
  }

  /** The checkpoint has left the ring: all packets that it holds have later numbers, up to one cycle. */
  predicate Gone(packets: seq<OldPacket>, checkpoint: int) {
    Chronological(packets, checkpoint) && forall i :: 0 <= i < |packets| ==> packets[i].seqNo != checkpoint
  }

  lemma {:induction false} GoneSpans(packets: seq<OldPacket>, checkpoint: int, b: nat)
    requires Gone(packets, checkpoint) && b < |packets| && checkpoint < packets[b].seqNo
    ensures Spans(packets, checkpoint, packets[b].seqNo, -1, b)
  {
    forall i | 0 <= i < |packets|
      ensures checkpoint < packets[i].seqNo <= packets[b].seqNo <==> i <= b
    {
      OffsetIs(packets[i].seqNo, checkpoint);
      OffsetIs(packets[b].seqNo, checkpoint);
      assert i != b ==> Offset(packets[i].seqNo, checkpoint) != Offset(packets[b].seqNo, checkpoint);
    }
  }

  /**
   * What comes back then: all that is due, if the numbers do not wrap; else what the list holds up to the last packet.
   */
  function GoneWindow(packets: seq<OldPacket>, r: nat, checkpoint: int, b: nat): seq<OldPacket>
    requires b < |packets| && r <= |packets|
  {
    if checkpoint < packets[b].seqNo then Rotate(packets[..b + 1], Seam(r, -1, b))
    else if r <= b then packets[r..b + 1]
    else packets[r..] + packets[..b + 1]
  }

  lemma {:induction false} GoneCheckpoint(packets: seq<OldPacket>, r: nat, checkpoint: int, b: nat)
    requires Gone(packets, checkpoint) && b < |packets| && r <= |packets|
    ensures Packets(Rotate(packets, r), checkpoint, packets[b].seqNo) == GoneWindow(packets, r, checkpoint, b)
  {
    if checkpoint < packets[b].seqNo {
      GoneSpans(packets, checkpoint, b);
      WindowWithoutWrap(packets, r, checkpoint, packets[b].seqNo, -1, b);
      assert packets[0..b + 1] == packets[..b + 1];
    } else {
      FoundAt(packets, checkpoint, r, b);
      NotFound(packets, r, checkpoint);
      SliceToLast(packets, r, b);
    }
  }

  lemma {:induction false} NotFound(packets: seq<OldPacket>, r: nat, checkpoint: int)
    requires r <= |packets| && forall i :: 0 <= i < |packets| ==> packets[i].seqNo != checkpoint
    ensures Find(Rotate(packets, r), checkpoint) == -1
  {
    var list := Rotate(packets, r);
    forall j | 0 <= j < |list|
      ensures list[j].seqNo != checkpoint
    {
      assert list[j] == packets[if j < |packets| - r then j + r else j - (|packets| - r)];
    }
  }

  lemma {:induction false} SliceToLast(packets: seq<OldPacket>, r: nat, b: nat)
    requires b < |packets| && r <= |packets|
    ensures var s := InList(|packets|, r, b);
            && 0 <= s < |packets|
            && Rotate(packets, r)[..s + 1] == if r <= b then packets[r..b + 1] else packets[r..] + packets[..b + 1]
  {
  }

  /**
   * With the checkpoint gone, what is due comes back exactly when the numbers do not wrap between the checkpoint and
   * the last packet, or the seam of the ring is at an end of its list. Otherwise the oldest packets are missing, or
   * packets after the last one come too.
   */
  lemma {:induction false} GoneCheckpointExactly(ring: Ring<OldPacket>, checkpoint: int, b: nat)
    requires WellFormed(ring) && Gone(Unrolled(ring), checkpoint) && b < |Unrolled(ring)|
    ensures var packets := Unrolled(ring);
            (multiset(Packets(ring.list, checkpoint, packets[b].seqNo)) == multiset(packets[..b + 1])
             <==> checkpoint < packets[b].seqNo || ring.index == 0 || ring.index == |packets|)
  {
    var packets := Unrolled(ring);
    ListIsRotated(ring);
    var r := |packets| - ring.index;
    GoneCheckpoint(packets, r, checkpoint, b);
    SamePackets(ring.list, Rotate(packets, r), checkpoint, packets[b].seqNo);
    GoneKeeps(packets, r, checkpoint, b);
  }

  lemma {:induction false} GoneKeeps(packets: seq<OldPacket>, r: nat, checkpoint: int, b: nat)
    requires b < |packets| && r <= |packets|
    ensures multiset(GoneWindow(packets, r, checkpoint, b)) == multiset(packets[..b + 1])
       <==> checkpoint < packets[b].seqNo || r == 0 || r == |packets|
  {
    var result, due := GoneWindow(packets, r, checkpoint, b), packets[..b + 1];
    assert |multiset(result)| == |result| && |multiset(due)| == |due|;
    if checkpoint < packets[b].seqNo {
      RotateKeeps(due, Seam(r, -1, b));
    } else {
      assert r == 0 || r == |packets| ==> result == due;
      assert 0 < r < |packets| ==> |result| != |due|;
    }
  }

  lemma {:induction false} RotateKeeps<T>(s: seq<T>, k: nat)
    requires k <= |s|
    ensures multiset(Rotate(s, k)) == multiset(s)
  {
    assert s == s[..k] + s[k..];
  }

  /** The multiset of packets returned is the window exactly when the two ends differ. */
  lemma {:induction false} WindowExactly(ring: Ring<OldPacket>, base: int, a: nat, b: nat)
    requires WellFormed(ring) && Chronological(Unrolled(ring), base) && a <= b < |Unrolled(ring)|
    ensures var packets := Unrolled(ring);
            (multiset(Packets(ring.list, packets[a].seqNo, packets[b].seqNo)) == multiset(packets[a + 1..b + 1])
             <==> a != b)
  {
    var packets := Unrolled(ring);
    var window, result := packets[a + 1..b + 1], Packets(ring.list, packets[a].seqNo, packets[b].seqNo);
    if a == b {
      EqualEndsReturnAll(ring, packets[a].seqNo);
      assert |multiset(result)| == |multiset(packets)| == |packets| && |multiset(window)| == |window|;
    } else {
      Window(ring, base, a, b);
      RotateKeeps(window, Seam(|packets| - ring.index, a, b));
      assert result == window || result == Rotate(window, Seam(|packets| - ring.index, a, b));
    }
  }

  /** The number is not in the ring; the packets before the e-th, from the oldest, are those sent before it. */
  predicate MissingEnd(packets: seq<OldPacket>, base: int, e: nat, actSeq: int) {
    && Chronological(packets, base) && 0 <= actSeq < SEQUENCE_NUMBERS && e <= |packets|
    && (forall i :: 0 <= i < |packets| ==> packets[i].seqNo != actSeq)
    && (forall i :: 0 <= i < |packets| ==> (Offset(packets[i].seqNo, base) < Offset(actSeq, base) <==> i < e))
  }

  lemma {:induction false} MissingEndSpans(packets: seq<OldPacket>, base: int, a: nat, e: nat, actSeq: int)
    requires MissingEnd(packets, base, e, actSeq) && a < e && packets[a].seqNo < actSeq
    ensures Spans(packets, packets[a].seqNo, actSeq, a, e - 1)
  {
    OffsetIs(packets[a].seqNo, base);
    OffsetIs(actSeq, base);
    forall i | 0 <= i < |packets|
      ensures packets[a].seqNo < packets[i].seqNo <= actSeq <==> a < i <= e - 1
    {
      OffsetIs(packets[i].seqNo, base);
      assert i < e <==> Offset(packets[i].seqNo, base) < Offset(actSeq, base);
      if i != a { DifferentNumbers(packets, base, i, a); }
    }
  }

  /** What comes back then: the window, if the numbers do not wrap; else all the list holds after the a-th packet. */
  function OpenWindow(packets: seq<OldPacket>, r: nat, a: nat, e: nat, actSeq: int): seq<OldPacket>
    requires a < e <= |packets| && r <= |packets|
  {
    if packets[a].seqNo < actSeq then Rotate(packets[a + 1..e], Seam(r, a, e - 1))
    else if r <= a then packets[a + 1..] + packets[..r]
    else packets[a + 1..r]
  }

  lemma {:induction false} SliceAfter(packets: seq<OldPacket>, r: nat, a: nat)
    requires a < |packets| && r <= |packets|
    ensures var c := InList(|packets|, r, a);
            && 0 <= c < |packets|
            && Span(Rotate(packets, r), c, -1)
               == if r <= a then packets[a + 1..] + packets[..r] else packets[a + 1..r]
  {
  }

  lemma {:induction false} EndMissingAcrossWrap(packets: seq<OldPacket>, base: int, r: nat, a: nat, actSeq: int)
    requires Chronological(packets, base) && a < |packets| && r <= |packets|
    requires packets[a].seqNo > actSeq && forall i :: 0 <= i < |packets| ==> packets[i].seqNo != actSeq
    ensures Packets(Rotate(packets, r), packets[a].seqNo, actSeq)
         == if r <= a then packets[a + 1..] + packets[..r] else packets[a + 1..r]
  {
    FoundAt(packets, base, r, a);
    NotFound(packets, r, actSeq);
    SliceAfter(packets, r, a);
  }

  lemma {:induction false} EndIsMissing(packets: seq<OldPacket>, base: int, r: nat, a: nat, e: nat, actSeq: int)
    requires MissingEnd(packets, base, e, actSeq) && a < e && r <= |packets|
    ensures Packets(Rotate(packets, r), packets[a].seqNo, actSeq) == OpenWindow(packets, r, a, e, actSeq)
  {
    if packets[a].seqNo < actSeq {
      MissingEndSpans(packets, base, a, e, actSeq);
      WindowWithoutWrap(packets, r, packets[a].seqNo, actSeq, a, e - 1);
    } else {
      EndMissingAcrossWrap(packets, base, r, a, actSeq);
    }
  }

  lemma {:induction false} OpenWindowKeeps(packets: seq<OldPacket>, r: nat, a: nat, e: nat, actSeq: int)
    requires a < e <= |packets| && r <= |packets|
    ensures multiset(OpenWindow(packets, r, a, e, actSeq)) == multiset(packets[a + 1..e])
       <==> packets[a].seqNo < actSeq || e == (if r == 0 then |packets| else r)
  {
    var result, due := OpenWindow(packets, r, a, e, actSeq), packets[a + 1..e];
    assert |multiset(result)| == |result| && |multiset(due)| == |due|;
    if packets[a].seqNo < actSeq {
      RotateKeeps(due, Seam(r, a, e - 1));
    } else {
      assert e == (if r == 0 then |packets| else r) ==> result == due;
    }
  }

  /** The packets after the a-th that were sent before actSeq come back, in any order, for the numbers of these two. */
  predicate ReturnsOpen(packets: seq<OldPacket>, list: seq<OldPacket>, a: nat, e: nat, actSeq: int)
    requires a < e <= |packets|
  {
    multiset(Packets(list, packets[a].seqNo, actSeq)) == multiset(packets[a + 1..e])
  }

  lemma {:induction false} MissingInList(packets: seq<OldPacket>, base: int, r: nat, a: nat, e: nat, actSeq: int)
    requires MissingEnd(packets, base, e, actSeq) && a < e && r <= |packets|
    ensures ReturnsOpen(packets, Rotate(packets, r), a, e, actSeq)
       <==> packets[a].seqNo < actSeq || packets[e - 1] == Rotate(packets, r)[|packets| - 1]
  {
    EndIsMissing(packets, base, r, a, e, actSeq);
    OpenWindowKeeps(packets, r, a, e, actSeq);
    LastOfList(packets, base, r, e);
  }

  /** The ring, read from its index, gives these packets. */
  predicate Reads(ring: Ring<OldPacket>, packets: seq<OldPacket>) {
    WellFormed(ring) && ring.index <= |packets| && ring.list == Rotate(packets, |packets| - ring.index)
  }

  lemma {:induction false} ReadsUnrolled(ring: Ring<OldPacket>, packets: seq<OldPacket>)
    requires WellFormed(ring)
    ensures Reads(ring, packets) <==> packets == Unrolled(ring)
  {
    if Reads(ring, packets) {
      assert packets == Unrolled(ring);
    }
  }

  /**
   * With a last number that is not in the ring, the packets after the a-th that were sent before it come back exactly
   * when the numbers do not wrap in between, or the last of these packets is the last one of the list.
   */
  lemma {:induction false} MissingEndExactly(
    ring: Ring<OldPacket>, packets: seq<OldPacket>, base: int, a: nat, e: nat, actSeq: int)
    requires Reads(ring, packets) && MissingEnd(packets, base, e, actSeq) && a < e
    ensures ReturnsOpen(packets, ring.list, a, e, actSeq)
       <==> packets[a].seqNo < actSeq || packets[e - 1] == ring.list[|packets| - 1]
  {
    MissingInList(packets, base, |packets| - ring.index, a, e, actSeq);
  }

  lemma {:induction false} LastOfList(packets: seq<OldPacket>, base: int, r: nat, e: nat)
    requires Chronological(packets, base) && 0 < e <= |packets| && r <= |packets|
    ensures packets[e - 1] == Rotate(packets, r)[|packets| - 1] <==> e == (if r == 0 then |packets| else r)
  {
    var last := if r == 0 then |packets| else r;
    assert Rotate(packets, r)[|packets| - 1] == packets[last - 1];
    if e != last { DifferentNumbers(packets, base, e - 1, last - 1); }
  }

  /** With both numbers missing the whole ring comes back on a wrap, and else the packets with numbers between. */
  lemma {:induction false} BothMissing(list: seq<OldPacket>, checkpoint: int, actSeq: int)
    requires Find(list, checkpoint) == -1 && Find(list, actSeq) == -1
    ensures Packets(list, checkpoint, actSeq)
         == if checkpoint >= actSeq then list else Between(list, checkpoint, actSeq)
  {
  }

  /** The numbers that a sender gives its packets since the latest flush. */
  predicate NumberedFrom(items: seq<OldPacket>, base: int) {
    forall i :: 0 <= i < |items| ==> items[i].seqNo == (base + i) % SEQUENCE_NUMBERS
  }

  lemma {:induction false} LastConsecutive(items: seq<OldPacket>, base: int, n: int)
    requires NumberedFrom(items, base) && 1 <= n <= SEQUENCE_NUMBERS
    ensures Consecutive(Last(items, n), base + |items| - |Last(items, n)|)
  {
    var skipped := |items| - |Last(items, n)|;
    forall i | 0 <= i < |Last(items, n)|
      ensures Last(items, n)[i].seqNo == (base + skipped + i) % SEQUENCE_NUMBERS
    {
      assert Last(items, n)[i] == items[skipped + i];
    }
  }

  /** The window theorem, for a ring that any history of consecutive packets has filled. */
  lemma {:induction false} RecoveryWindow(listeSize: int, history: seq<Event<OldPacket>>, base: int, a: nat, b: nat)
    requires 1 <= listeSize <= SEQUENCE_NUMBERS
    requires NumberedFrom(SinceFlush(history), base)
    requires a < b < |Last(SinceFlush(history), listeSize)|
    ensures Unrolled(After(listeSize, history)) == Last(SinceFlush(history), listeSize)
    ensures ReturnsWindow(After(listeSize, history), a, b)
  {
    RingHoldsLast(listeSize, history);
    LastConsecutive(SinceFlush(history), base, listeSize);
    var ring := After(listeSize, history);
    var oldest := base + |SinceFlush(history)| - |Unrolled(ring)|;
    ConsecutiveIsChronological(Unrolled(ring), oldest);
    Window(ring, oldest % SEQUENCE_NUMBERS, a, b);
  }

  // ----- The code

  class ListCirc<T> {
    var index: int
    var list: seq<T>
    var round: int
    const listeSize: int

    ghost function State(): Ring<T>
      reads this
    {
      Ring(list, index, round, listeSize)
    }

    constructor (listeSize: int)
      ensures State() == Empty(listeSize)
    {
      this.index, this.list, this.round, this.listeSize := 0, [], 0, listeSize;
    }

    method ToList(note: T)
      requires WellFormed(State())
      modifies this
      ensures State() == Inserted(old(State()), note)
    {
      if round == 1 {
        ReplaceNote(note);
      } else {
        AddNote(note);
      }
    }

    method AddNote(note: T)
      modifies this
      ensures State() == Added(old(State()), note)
    {
      list := list + [note];
      if index == listeSize - 1 {
        round := 1;
        index := 0;
      } else {
        index := index + 1;
      }
    }

    method ReplaceNote(note: T)
      requires WellFormed(State()) && round == 1
      modifies this
      ensures State() == Replaced(old(State()), note)
    {
      if index == listeSize {
        index := 0;
        list := list[index := note];
      } else {
        list := list[index := note];
      }
      index := index + 1;
    }

    method Flush()
      modifies this
      ensures State() == Empty(listeSize)
    {
      list, round, index := [], 0, 0;
    }
  }

  method FindPacket(list: seq<OldPacket>, seqNo: int) returns (res: int)
    ensures res == Find(list, seqNo)
  {
    res := -1;
    for i := 0 to |list|
      invariant res == -1
      invariant Position(list, seqNo) == i + Position(list[i..], seqNo)
    {
      if list[i].seqNo == seqNo {
        res := i;
        break;
      }
      assert list[i..][1..] == list[i + 1..];
    }
  }

  method GetPackets(list: seq<OldPacket>, checkpoint: int, actSeq: int) returns (midiCmd: seq<OldPacket>)
    ensures midiCmd == Packets(list, checkpoint, actSeq)
  {
    midiCmd := [];
    var checkpointPos := FindPacket(list, checkpoint);
    var actSeqPos := FindPacket(list, actSeq);
    if checkpoint >= actSeq {
      if checkpointPos < actSeqPos {
        midiCmd := list[checkpointPos + 1..actSeqPos + 1];
      } else {
        midiCmd := list[checkpointPos + 1..];
        midiCmd := midiCmd + list[..actSeqPos + 1];
      }
    } else {
      for i := 0 to |list|
        invariant Between(list, checkpoint, actSeq) == midiCmd + Between(list[i..], checkpoint, actSeq)
      {
        assert list[i..][1..] == list[i + 1..];
        if list[i].seqNo > checkpoint && list[i].seqNo <= actSeq {
          midiCmd := midiCmd + [list[i]];
        }
      }
      assert midiCmd + [] == midiCmd;
    }
  }
}
