/** The repair of note batches before they reach the MIDI output. */
module SafeKeyboard {
  import opened Midi

  const CHANNELS := 16
  const PITCHES := 127

  /** One key of the keyboard: the note-ons and note-offs of a key must alternate. */
  datatype Key = Key(chan: int, pitch: int)

  function KeyOf(c: Command): Key {
    Key(Channel(c), c.note)
  }

  predicate Matches(c: Command, k: Key, on: bool) {
    KeyOf(c) == k && if on then IsOn(c) else IsOff(c)
  }

  /** A batch that the repair scans to its end: note-ons and note-offs that the table has a column for. */
  predicate NoteOnly(notes: seq<Command>) {
    forall i :: 0 <= i < |notes| ==> IsNote(notes[i]) && notes[i].note < PITCHES
  }

  predicate Close(a: Command, b: Command) {
    b.time - 1 <= a.time <= b.time + 1
  }

  function Toggle(playing: set<Key>, k: Key): (r: set<Key>)
    ensures forall x :: x in r <==> (x in playing) != (x == k)
  {
    if k in playing then playing - {k} else playing + {k}
  }

  /** Index of the first command for key k that is a note-on (or a note-off), or the length. */
  function First(notes: seq<Command>, k: Key, on: bool): (r: nat)
    ensures r <= |notes|
    ensures r < |notes| ==> Matches(notes[r], k, on)
    ensures forall i :: 0 <= i < r ==> !Matches(notes[i], k, on)
  {
    if notes == [] || Matches(notes[0], k, on) then 0 else 1 + First(notes[1..], k, on)
  }

  /**
   * Which command of the rest is played in place of its head: the head itself when it alternates,
   * else the first opposite command of the same key when their times allow a swap, else none (the length).
   */
  function Pick(playing: set<Key>, rest: seq<Command>): (s: nat)
    requires rest != [] && IsNote(rest[0])
    ensures s < |rest| ==> KeyOf(rest[s]) == KeyOf(rest[0]) && IsNote(rest[s]) && Close(rest[0], rest[s])
    ensures s < |rest| ==> IsOn(rest[s]) != (KeyOf(rest[0]) in playing)
    ensures s > 0 ==> IsOn(rest[0]) == (KeyOf(rest[0]) in playing)
    ensures s <= |rest|
  {
    var k, on := KeyOf(rest[0]), IsOn(rest[0]);
    if on != (k in playing) then 0
    else
      var s := First(rest, k, !on);
      if s < |rest| && Close(rest[0], rest[s]) then s else |rest|
  }

  /** The rest of the batch once its command s has been swapped to the head and played. */
  function Without(rest: seq<Command>, s: nat): seq<Command>
    requires s < |rest|
  {
    rest[s := rest[0]][1..]
  }

  /** What one call of `check` leaves: the list and the keys that sound, either way it ends. */
  datatype Outcome =
    | Returned(notes: seq<Command>, playing: set<Key>)
    | IndexError(notes: seq<Command>, playing: set<Key>)

  function Prepend(kept: seq<Command>, o: Outcome): Outcome {
    o.(notes := kept + o.notes)
  }

  /**
   * The repair as a function of the keys that sound and of the part of the batch not scanned yet.
   * A command that is neither a note-on nor a note-off ends the repair there.
   */
  function Repair(playing: set<Key>, rest: seq<Command>): Outcome
    decreases |rest|
  {
    if rest == [] || !IsNote(rest[0]) then Returned(rest, playing)
    else if rest[0].note >= PITCHES then IndexError(rest, playing)
    else
      var s := Pick(playing, rest);
      if s < |rest| then Prepend([rest[s]], Repair(Toggle(playing, KeyOf(rest[0])), Without(rest, s)))
      else Repair(playing, rest[1..])
  }

  /** The keys that sound after playing the notes, when every key alternates; an independent reading of a batch. */
  datatype Played = Played(playing: set<Key>) | Broken

  function Replay(playing: set<Key>, notes: seq<Command>): Played
    decreases |notes|
  {
    if notes == [] then Played(playing)
    else if IsNote(notes[0]) && IsOn(notes[0]) != (KeyOf(notes[0]) in playing)
    then Replay(Toggle(playing, KeyOf(notes[0])), notes[1..])
    else Broken
  }

  // ----- What every repair gives

  lemma {:induction false} RepairAlternates(playing: set<Key>, rest: seq<Command>)
    requires NoteOnly(rest)
    ensures Repair(playing, rest).Returned?
    ensures Replay(playing, Repair(playing, rest).notes) == Played(Repair(playing, rest).playing)
    ensures NoteOnly(Repair(playing, rest).notes)
    decreases |rest|
  {
    if rest == [] {
    } else {
      var s := Pick(playing, rest);
      if s < |rest| {
        RepairAlternates(Toggle(playing, KeyOf(rest[0])), Without(rest, s));
      } else {
        RepairAlternates(playing, rest[1..]);
      }
    }
  }

  lemma {:induction false} SwapKeepsNotes(rest: seq<Command>, s: nat)
    requires s < |rest|
    ensures multiset([rest[s]]) + multiset(Without(rest, s)) == multiset(rest)
  {
    if s == 0 {
      assert rest == [rest[0]] + Without(rest, 0);
    } else {
      assert rest == [rest[0]] + rest[1..s] + [rest[s]] + rest[s + 1..];
      assert Without(rest, s) == rest[1..s] + [rest[0]] + rest[s + 1..];
    }
  }

  lemma {:induction false} RepairInventsNothing(playing: set<Key>, rest: seq<Command>)
    ensures multiset(Repair(playing, rest).notes) <= multiset(rest)
    decreases |rest|
  {
    if rest == [] || !IsNote(rest[0]) || rest[0].note >= PITCHES {
    } else {
      var s := Pick(playing, rest);
      if s < |rest| {
        SwapKeepsNotes(rest, s);
        RepairInventsNothing(Toggle(playing, KeyOf(rest[0])), Without(rest, s));
      } else {
        assert rest == [rest[0]] + rest[1..];
        RepairInventsNothing(playing, rest[1..]);
      }
    }
  }

  lemma {:induction false} RepairKeepsGoodBatch(playing: set<Key>, rest: seq<Command>)
    requires NoteOnly(rest) && Replay(playing, rest).Played?
    ensures Repair(playing, rest) == Returned(rest, Replay(playing, rest).playing)
    decreases |rest|
  {
    if rest == [] {
    } else {
      RepairKeepsGoodBatch(Toggle(playing, KeyOf(rest[0])), rest[1..]);
      assert Without(rest, 0) == rest[1..];
    }
  }

  /** Repairing a repaired batch again from the same keyboard changes nothing. */
  lemma {:induction false} RepairIdempotent(playing: set<Key>, rest: seq<Command>)
    requires NoteOnly(rest)
    ensures Repair(playing, Repair(playing, rest).notes) == Repair(playing, rest)
  {
    RepairAlternates(playing, rest);
    RepairKeepsGoodBatch(playing, Repair(playing, rest).notes);
  }

  /** Position p holds a note that the table has no column for, and only notes come before it. */
  ghost predicate Blocked(rest: seq<Command>, p: int) {
    0 <= p < |rest| && rest[p].note > 126 && forall i :: 0 <= i <= p ==> IsNote(rest[i])
  }

  /** `check` raises exactly when a note without a column comes before every command that is not a note. */
  lemma {:induction false} RaisesExactly(playing: set<Key>, rest: seq<Command>)
    ensures Repair(playing, rest).IndexError? <==> exists p :: Blocked(rest, p)
    decreases |rest|
  {
    if rest == [] || !IsNote(rest[0]) {
    } else if rest[0].note >= PITCHES {
      assert Blocked(rest, 0);
    } else {
      var s := Pick(playing, rest);
      var next := if s < |rest| then Without(rest, s) else rest[1..];
      RaisesExactly(if s < |rest| then Toggle(playing, KeyOf(rest[0])) else playing, next);
      forall p | 0 < p < |rest|
        ensures next[p - 1].note == rest[p].note && IsNote(next[p - 1]) == IsNote(rest[p])
      {
      }
      BlockedAfterHead(rest, next);
    }
  }

  /** The highest MIDI pitch raises, whatever sounds. */
  lemma {:induction false} RaisesExample(playing: set<Key>)
    ensures Repair(playing, [Command(NOTE_ON, 127, 100, 0)]).IndexError?
  {
    assert Blocked([Command(NOTE_ON, 127, 100, 0)], 0);
    RaisesExactly(playing, [Command(NOTE_ON, 127, 100, 0)]);
  }

  lemma {:induction false} BlockedAfterHead(rest: seq<Command>, next: seq<Command>)
    requires rest != [] && |next| == |rest| - 1 && IsNote(rest[0]) && rest[0].note < PITCHES
    requires forall p {:trigger rest[p]} :: 0 < p < |rest| ==>
               next[p - 1].note == rest[p].note && IsNote(next[p - 1]) == IsNote(rest[p])
    ensures (exists p :: Blocked(rest, p)) <==> (exists p :: Blocked(next, p))
  {
    if p :| Blocked(rest, p) {
      forall i | 0 <= i <= p - 1
        ensures IsNote(next[i])
      {
        assert IsNote(rest[i + 1]);
      }
      assert Blocked(next, p - 1);
    }
    if p :| Blocked(next, p) {
      assert rest[p + 1].note >= PITCHES;
      forall i | 0 <= i <= p + 1
        ensures IsNote(rest[i])
      {
        if i > 0 { assert IsNote(next[i - 1]); }
      }
      assert Blocked(rest, p + 1);
    }
  }

  // ----- Each key on its own

  // ----- Where the scan stops, and what it plays

  /** Index of the first command that is not a note with a column in the table, or the length. */
  function Stop(rest: seq<Command>): (p: nat)
    ensures p <= |rest|
    ensures p < |rest| ==> !IsNote(rest[p]) || rest[p].note >= PITCHES
    ensures forall i :: 0 <= i < p ==> IsNote(rest[i]) && rest[i].note < PITCHES
  {
    if rest == [] || !IsNote(rest[0]) || rest[0].note >= PITCHES then 0 else 1 + Stop(rest[1..])
  }

  lemma {:induction false} StopIs(rest: seq<Command>, p: nat)
    requires p <= |rest| && (p < |rest| ==> !IsNote(rest[p]) || rest[p].note >= PITCHES)
    requires forall i :: 0 <= i < p ==> IsNote(rest[i]) && rest[i].note < PITCHES
    ensures Stop(rest) == p
  {
  }

  /** The same command, or a note of the same key that a swap has put there. */
  predicate SameOrSwapped(c: Command, d: Command) {
    c == d || (IsNote(c) && IsNote(d) && c.event % 16 == d.event % 16 && c.note == d.note)
  }

  /** The same commands, but for notes that swaps have put there; the first is the same. */
  predicate Alike(x: seq<Command>, y: seq<Command>) {
    && |x| == |y| && (x != [] ==> x[0] == y[0])
    && forall j :: 0 <= j < |x| ==> SameOrSwapped(x[j], y[j])
  }

  lemma {:induction false} AlikeTransitive(x: seq<Command>, y: seq<Command>, z: seq<Command>)
    requires Alike(x, y) && Alike(y, z)
    ensures Alike(x, z)
  {
    forall j | 0 <= j < |x|
      ensures SameOrSwapped(x[j], z[j])
    {
      assert SameOrSwapped(x[j], y[j]) && SameOrSwapped(y[j], z[j]);
    }
  }

  /** The part of the list that the scan has played, and the part from the command that stops it on. */
  datatype Parts = Parts(played: seq<Command>, left: seq<Command>)

  /** What is left are the last commands, as many as there are from the stop on. */
  function Split(notes: seq<Command>, left: nat): Parts {
    if left <= |notes| then Parts(notes[..|notes| - left], notes[|notes| - left..]) else Parts([], notes)
  }

  lemma {:induction false} SplitPlayed(c: Command, notes: seq<Command>, left: nat)
    requires left <= |notes|
    ensures Split([c] + notes, left) == Parts([c] + Split(notes, left).played, Split(notes, left).left)
  {
  }

  lemma {:induction false} StopAfterDrop(rest: seq<Command>)
    requires Stop(rest) > 0
    ensures Stop(rest[1..]) == Stop(rest) - 1 && rest[1..][Stop(rest) - 1..] == rest[Stop(rest)..]
  {
  }

  lemma {:induction false} StopAfterSwap(rest: seq<Command>, s: nat)
    requires Stop(rest) > 0 && s < |rest| && s != Stop(rest)
    requires IsNote(rest[s]) && KeyOf(rest[s]) == KeyOf(rest[0])
    ensures Stop(Without(rest, s)) == Stop(rest) - 1
    ensures Alike(Without(rest, s)[Stop(rest) - 1..], rest[Stop(rest)..])
  {
    var next, p := Without(rest, s), Stop(rest);
    forall i | 0 <= i < p - 1
      ensures IsNote(next[i]) && next[i].note < PITCHES
    {
      assert next[i] == rest[if i + 1 == s then 0 else i + 1];
    }
    if p < |rest| { assert next[p - 1] == rest[p]; }
    StopIs(next, p - 1);
    SwapAlike(rest, s, p);
  }

  lemma {:induction false} SwapAlike(rest: seq<Command>, s: nat, p: nat)
    requires 0 < p <= |rest| && s < |rest| && s != p
    requires IsNote(rest[0]) && IsNote(rest[s]) && KeyOf(rest[s]) == KeyOf(rest[0])
    ensures Alike(Without(rest, s)[p - 1..], rest[p..])
  {
    var x, y := Without(rest, s)[p - 1..], rest[p..];
    forall j | 0 <= j < |y|
      ensures SameOrSwapped(x[j], y[j])
    {
      assert x[j] == Without(rest, s)[p - 1 + j] && y[j] == rest[p + j];
    }
  }

  /** An outcome that keeps what the scan does not reach, and that played what it keeps of the rest. */
  predicate Stops(o: Outcome, playing: set<Key>, rest: seq<Command>) {
    var p := Stop(rest);
    && |rest| - p <= |o.notes|
    && Alike(Split(o.notes, |rest| - p).left, rest[p..])
    && Replay(playing, Split(o.notes, |rest| - p).played) == Played(o.playing)
    && (o.IndexError? <==> p < |rest| && IsNote(rest[p]))
  }

  /**
   * For any batch: the command that stops the scan stays, with all that comes after it, but for notes that may have
   * been swapped for others of their keys; what comes before alternates from the keyboard found to the keyboard left;
   * and the error is raised exactly when it is a note that stops the scan.
   */
  lemma {:induction false} RepairStops(playing: set<Key>, rest: seq<Command>)
    ensures Stops(Repair(playing, rest), playing, rest)
    decreases |rest|
  {
    if Stop(rest) == 0 {
      AtOnceStops(playing, rest);
    } else {
      var s := Pick(playing, rest);
      if s < |rest| {
        var after, next := Toggle(playing, KeyOf(rest[0])), Without(rest, s);
        RepairStops(after, next);
        StopAfterSwap(rest, s);
        PlayedStops(Repair(after, next), playing, rest[s], next, rest);
      } else {
        RepairStops(playing, rest[1..]);
        DroppedStops(Repair(playing, rest[1..]), playing, rest);
      }
    }
  }

  lemma {:induction false} AtOnceStops(playing: set<Key>, rest: seq<Command>)
    requires Stop(rest) == 0
    ensures Stops(Repair(playing, rest), playing, rest)
  {
    assert Repair(playing, rest).notes == rest && rest[0..] == rest;
  }

  lemma {:induction false} DroppedStops(o: Outcome, playing: set<Key>, rest: seq<Command>)
    requires Stop(rest) > 0 && Stops(o, playing, rest[1..])
    ensures Stops(o, playing, rest)
  {
    StopAfterDrop(rest);
    assert Stop(rest) < |rest| ==> rest[1..][Stop(rest) - 1] == rest[Stop(rest)];
  }

  lemma {:induction false} PlayedStops(
    o: Outcome, playing: set<Key>, c: Command, next: seq<Command>, rest: seq<Command>)
    requires IsNote(c) && IsOn(c) != (KeyOf(c) in playing) && Stops(o, Toggle(playing, KeyOf(c)), next)
    requires Stop(rest) > 0 && |next| == |rest| - 1 && Stop(next) == Stop(rest) - 1
    requires Alike(next[Stop(next)..], rest[Stop(rest)..])
    ensures Stops(Prepend([c], o), playing, rest)
  {
    var p := Stop(rest);
    SplitPlayed(c, o.notes, |rest| - p);
    AlikeTransitive(Split(o.notes, |rest| - p).left, next[p - 1..], rest[p..]);
    ReplayPlayed(playing, c, Split(o.notes, |rest| - p).played);
    assert p < |rest| ==> next[p - 1..][0] == next[p - 1] && rest[p..][0] == rest[p];
  }

  lemma {:induction false} ReplayPlayed(playing: set<Key>, c: Command, notes: seq<Command>)
    requires IsNote(c) && IsOn(c) != (KeyOf(c) in playing)
    ensures Replay(playing, [c] + notes) == Replay(Toggle(playing, KeyOf(c)), notes)
  {
    assert ([c] + notes)[1..] == notes;
  }

  /** Position s holds the first command of the key of the head that is of the opposite kind. */
  predicate NearestOpposite(rest: seq<Command>, s: int)
    requires rest != []
  {
    && 0 <= s < |rest| && IsNote(rest[s]) && KeyOf(rest[s]) == KeyOf(rest[0]) && IsOn(rest[s]) != IsOn(rest[0])
    && forall i :: 0 < i < s && IsNote(rest[i]) && KeyOf(rest[i]) == KeyOf(rest[0]) ==> IsOn(rest[i]) == IsOn(rest[0])
  }

  /**
   * A note out of turn gives its place to the nearest opposite one of its key, if that is within 1 in time, and is
   * dropped otherwise.
   */
  lemma {:induction false} OutOfTurn(playing: set<Key>, rest: seq<Command>)
    requires rest != [] && IsNote(rest[0]) && rest[0].note < PITCHES && IsOn(rest[0]) == (KeyOf(rest[0]) in playing)
    ensures forall s :: NearestOpposite(rest, s) && rest[s].time - 1 <= rest[0].time <= rest[s].time + 1 ==>
              Repair(playing, rest)
              == Prepend([rest[s]],
                         Repair(if IsOn(rest[0]) then playing - {KeyOf(rest[0])} else playing + {KeyOf(rest[0])},
                                rest[s := rest[0]][1..]))
    ensures (forall s :: NearestOpposite(rest, s) ==> !(rest[s].time - 1 <= rest[0].time <= rest[s].time + 1)) ==>
              Repair(playing, rest) == Repair(playing, rest[1..])
  {
    var f := First(rest, KeyOf(rest[0]), !IsOn(rest[0]));
    assert Toggle(playing, KeyOf(rest[0]))
        == if IsOn(rest[0]) then playing - {KeyOf(rest[0])} else playing + {KeyOf(rest[0])};
    assert f < |rest| ==> NearestOpposite(rest, f);
    forall s | NearestOpposite(rest, s)
      ensures s == f
    {
      assert Matches(rest[s], KeyOf(rest[0]), !IsOn(rest[0]));
    }
  }

  /** A note in turn is played. */
  lemma {:induction false} InTurn(playing: set<Key>, rest: seq<Command>)
    requires rest != [] && IsNote(rest[0]) && rest[0].note < PITCHES && IsOn(rest[0]) != (KeyOf(rest[0]) in playing)
    ensures Repair(playing, rest)
         == Prepend([rest[0]], Repair(if IsOn(rest[0]) then playing + {KeyOf(rest[0])} else playing - {KeyOf(rest[0])},
                                      rest[1..]))
  {
    assert Without(rest, 0) == rest[1..];
    assert Toggle(playing, KeyOf(rest[0]))
        == if IsOn(rest[0]) then playing + {KeyOf(rest[0])} else playing - {KeyOf(rest[0])};
  }

  /** The commands of one key, in order. */
  function OfKey(notes: seq<Command>, k: Key): (r: seq<Command>)
    ensures |r| <= |notes|
  {
    if notes == [] then []
    else if KeyOf(notes[0]) == k then [notes[0]] + OfKey(notes[1..], k)
    else OfKey(notes[1..], k)
  }

  lemma {:induction false} OfKeyMembers(notes: seq<Command>, k: Key)
    ensures forall i :: 0 <= i < |OfKey(notes, k)| ==> OfKey(notes, k)[i] in notes && KeyOf(OfKey(notes, k)[i]) == k
  {
    if notes == [] {
    } else {
      OfKeyMembers(notes[1..], k);
    }
  }

  lemma {:induction false} UpdateOutsideKey(notes: seq<Command>, s: nat, h: Command, k: Key)
    requires s < |notes| && KeyOf(notes[s]) != k && KeyOf(h) != k
    ensures OfKey(notes[s := h], k) == OfKey(notes, k)
  {
    if s == 0 {
      assert notes[s := h][1..] == notes[1..];
    } else {
      UpdateOutsideKey(notes[1..], s - 1, h, k);
      assert notes[s := h][1..] == notes[1..][s - 1 := h];
    }
  }

  lemma {:induction false} OfKeyConcat(a: seq<Command>, b: seq<Command>, k: Key)
    ensures OfKey(a + b, k) == OfKey(a, k) + OfKey(b, k)
  {
    if a == [] {
      assert a + b == b;
    } else {
      assert (a + b)[1..] == a[1..] + b;
      OfKeyConcat(a[1..], b, k);
    }
  }

  /** A command of key k sits, among the commands of k, after those that come before it. */
  lemma {:induction false} UpdateInsideKey(notes: seq<Command>, s: nat, h: Command, k: Key)
    requires s < |notes| && KeyOf(notes[s]) == k && KeyOf(h) == k
    ensures var j, own := |OfKey(notes[..s], k)|, OfKey(notes, k);
            && j < |own| && own[j] == notes[s] && own[..j] == OfKey(notes[..s], k)
            && OfKey(notes[s := h], k) == own[j := h]
  {
    var before, after := notes[..s], notes[s + 1..];
    assert notes == before + ([notes[s]] + after) && notes[s := h] == before + ([h] + after);
    OfKeyConcat(before, [notes[s]] + after, k);
    OfKeyConcat(before, [h] + after, k);
    assert ([notes[s]] + after)[1..] == after == ([h] + after)[1..];
  }

  lemma {:induction false} FirstIs(notes: seq<Command>, k: Key, on: bool, j: nat)
    requires j <= |notes| && (j < |notes| ==> Matches(notes[j], k, on))
    requires forall i :: 0 <= i < j ==> !Matches(notes[i], k, on)
    ensures First(notes, k, on) == j
  {
  }

  /** Searching a whole batch is searching the commands of that key. */
  lemma {:induction false} FindInsideKey(notes: seq<Command>, k: Key, on: bool)
    ensures var s, own := First(notes, k, on), OfKey(notes, k);
            First(own, k, on) == |OfKey(notes[..s], k)| && (s == |notes| ==> First(own, k, on) == |own|)
  {
    var s, own := First(notes, k, on), OfKey(notes, k);
    OfKeyMembers(notes[..s], k);
    if s < |notes| {
      UpdateInsideKey(notes, s, notes[s], k);
      assert forall i :: 0 <= i < |own[..|OfKey(notes[..s], k)|]| ==> own[i] == OfKey(notes[..s], k)[i];
    } else {
      assert notes[..s] == notes;
    }
    FirstIs(own, k, on, |OfKey(notes[..s], k)|);
  }

  lemma {:induction false} PickOutsideKey(playing: set<Key>, rest: seq<Command>, k: Key)
    requires rest != [] && IsNote(rest[0]) && KeyOf(rest[0]) != k
    ensures OfKey(rest[1..], k) == OfKey(rest, k)
    ensures var s := Pick(playing, rest); s < |rest| ==> OfKey(Without(rest, s), k) == OfKey(rest, k)
  {
    var s := Pick(playing, rest);
    if s < |rest| {
      UpdateOutsideKey(rest, s, rest[0], k);
    }
  }

  lemma {:induction false} PickInsideKey(playing: set<Key>, alone: set<Key>, rest: seq<Command>, k: Key)
    requires rest != [] && IsNote(rest[0]) && KeyOf(rest[0]) == k && (k in playing <==> k in alone)
    ensures OfKey(rest, k) == [rest[0]] + OfKey(rest[1..], k)
    ensures var s, own := Pick(playing, rest), OfKey(rest, k);
            var j := Pick(alone, own);
            && (s < |rest| <==> j < |own|)
            && (s < |rest| ==> own[j] == rest[s] && OfKey(Without(rest, s), k) == Without(own, j))
  {
    var own, on := OfKey(rest, k), IsOn(rest[0]);
    assert own == [rest[0]] + OfKey(rest[1..], k);
    FindInsideKey(rest, k, !on);
    var f := First(rest, k, !on);
    if f < |rest| { UpdateInsideKey(rest, f, rest[0], k); }
    var s := Pick(playing, rest);
    assert s < |rest| <==> Pick(alone, own) < |own|;
    if s < |rest| {
      assert rest[..0] == [];
      UpdateInsideKey(rest, s, rest[0], k);
      assert Pick(alone, own) == |OfKey(rest[..s], k)|;
      assert rest[s := rest[0]] == [rest[0]] + Without(rest, s);
    }
  }

  predicate RepairedAlone(playing: set<Key>, alone: set<Key>, rest: seq<Command>, k: Key) {
    && OfKey(Repair(playing, rest).notes, k) == Repair(alone, OfKey(rest, k)).notes
    && (k in Repair(playing, rest).playing <==> k in Repair(alone, OfKey(rest, k)).playing)
  }

  lemma {:induction false} OtherKeyFirst(playing: set<Key>, alone: set<Key>, rest: seq<Command>, k: Key)
    requires NoteOnly(rest) && rest != [] && KeyOf(rest[0]) != k
    requires var s := Pick(playing, rest);
             if s < |rest| then RepairedAlone(Toggle(playing, KeyOf(rest[0])), alone, Without(rest, s), k)
             else RepairedAlone(playing, alone, rest[1..], k)
    ensures RepairedAlone(playing, alone, rest, k)
  {
    PickOutsideKey(playing, rest, k);
  }

  lemma {:induction false} SameKeyFirst(playing: set<Key>, alone: set<Key>, rest: seq<Command>, k: Key)
    requires NoteOnly(rest) && rest != [] && KeyOf(rest[0]) == k && (k in playing <==> k in alone)
    requires var s := Pick(playing, rest);
             if s < |rest| then RepairedAlone(Toggle(playing, k), Toggle(alone, k), Without(rest, s), k)
             else RepairedAlone(playing, alone, rest[1..], k)
    ensures RepairedAlone(playing, alone, rest, k)
  {
    PickInsideKey(playing, alone, rest, k);
    assert OfKey(rest, k)[1..] == OfKey(rest[1..], k);
  }

  /** Repairing a batch does to one key exactly what repairing that key's commands alone would do. */
  lemma {:induction false} KeysIndependent(playing: set<Key>, alone: set<Key>, rest: seq<Command>, k: Key)
    requires NoteOnly(rest) && (k in playing <==> k in alone)
    ensures OfKey(Repair(playing, rest).notes, k) == Repair(alone, OfKey(rest, k)).notes
    ensures k in Repair(playing, rest).playing <==> k in Repair(alone, OfKey(rest, k)).playing
    decreases |rest|
  {
    if rest == [] {
    } else {
      var c, s := KeyOf(rest[0]), Pick(playing, rest);
      var next := if s < |rest| then Without(rest, s) else rest[1..];
      var after := if s < |rest| then Toggle(playing, c) else playing;
      if c == k {
        KeysIndependent(after, if s < |rest| then Toggle(alone, k) else alone, next, k);
        SameKeyFirst(playing, alone, rest, k);
      } else {
        KeysIndependent(after, alone, next, k);
        OtherKeyFirst(playing, alone, rest, k);
      }
    }
  }

  // ----- How many notes are kept

  function CountOn(notes: seq<Command>): (r: nat)
    ensures r <= |notes|
  {
    if notes == [] then 0 else (if IsOn(notes[0]) then 1 else 0) + CountOn(notes[1..])
  }

  lemma {:induction false} CountOnConcat(a: seq<Command>, b: seq<Command>)
    ensures CountOn(a + b) == CountOn(a) + CountOn(b)
  {
    if a == [] {
      assert a + b == b;
    } else {
      assert (a + b)[1..] == a[1..] + b;
      CountOnConcat(a[1..], b);
    }
  }

  /** Taking one element out of a sequence. */
  lemma {:induction false} CountOnRemove(b: seq<Command>, p: nat)
    requires p < |b|
    ensures var less := b[..p] + b[p + 1..];
            && multiset(b) == multiset(less) + multiset([b[p]])
            && CountOn(b) == CountOn(less) + CountOn([b[p]])
  {
    assert b == b[..p] + ([b[p]] + b[p + 1..]);
    CountOnConcat(b[..p], [b[p]] + b[p + 1..]);
    CountOnConcat([b[p]], b[p + 1..]);
    CountOnConcat(b[..p], b[p + 1..]);
  }

  lemma {:induction false} Cancel(a: multiset<Command>, b: multiset<Command>, x: multiset<Command>)
    requires a + x <= b + x
    ensures a <= b
  {
    forall c
      ensures a[c] <= b[c]
    {
      assert (a + x)[c] <= (b + x)[c];
    }
  }

  lemma {:induction false} CountOnSubset(a: seq<Command>, b: seq<Command>)
    requires multiset(a) <= multiset(b)
    ensures CountOn(a) <= CountOn(b) && |a| - CountOn(a) <= |b| - CountOn(b)
  {
    if a == [] {
    } else {
      assert a == [a[0]] + a[1..];
      assert a[0] in multiset(a);
      var p :| 0 <= p < |b| && b[p] == a[0];
      CountOnRemove(b, p);
      var less := b[..p] + b[p + 1..];
      assert multiset(a) == multiset(a[1..]) + multiset([a[0]]);
      Cancel(multiset(a[1..]), multiset(less), multiset([a[0]]));
      CountOnSubset(a[1..], less);
    }
  }

  /** The length of the longest alternation that ons note-ons and offs note-offs of a key can make. */
  function Longest(sounding: bool, ons: nat, offs: nat): nat {
    var first, second := if sounding then offs else ons, if sounding then ons else offs;
    if first <= second then 2 * first else 2 * second + 1
  }

  lemma {:induction false} LongestStep(sounding: bool, ons: nat, offs: nat)
    requires if sounding then offs > 0 else ons > 0
    ensures Longest(sounding, ons, offs)
         == 1 + Longest(!sounding, ons - (if sounding then 0 else 1), offs - (if sounding then 1 else 0))
  {
  }

  lemma {:induction false} LongestMonotone(sounding: bool, ons: nat, offs: nat, moreOns: nat, moreOffs: nat)
    requires ons <= moreOns && offs <= moreOffs
    ensures Longest(sounding, ons, offs) <= Longest(sounding, moreOns, moreOffs)
  {
  }

  predicate OneKey(notes: seq<Command>, k: Key) {
    forall i :: 0 <= i < |notes| ==> KeyOf(notes[i]) == k
  }

  /** The times are within 1 of each other. */
  predicate AllClose(notes: seq<Command>) {
    forall i, j :: 0 <= i < |notes| && 0 <= j < |notes| ==> notes[i].time <= notes[j].time + 1
  }

  /** All times are t or t + 1. */
  predicate Near(notes: seq<Command>, t: int) {
    forall i :: 0 <= i < |notes| ==> t <= notes[i].time <= t + 1
  }

  lemma {:induction false} CloseMeansNear(notes: seq<Command>) returns (t: int)
    requires AllClose(notes)
    ensures Near(notes, t)
  {
    if i :| 0 <= i < |notes| && notes[i].time < notes[0].time {
      t := notes[i].time;
      forall j | 0 <= j < |notes|
        ensures t <= notes[j].time <= t + 1
      {
        assert notes[j].time <= notes[i].time + 1 && notes[0].time <= notes[i].time + 1;
      }
    } else if notes != [] {
      t := notes[0].time;
      forall j | 0 <= j < |notes|
        ensures t <= notes[j].time <= t + 1
      {
        assert notes[j].time <= notes[0].time + 1;
      }
    } else {
      t := 0;
    }
  }

  lemma {:induction false} AlternationBound(playing: set<Key>, notes: seq<Command>, k: Key)
    requires OneKey(notes, k) && Replay(playing, notes).Played?
    ensures |notes| <= Longest(k in playing, CountOn(notes), |notes| - CountOn(notes))
    decreases |notes|
  {
    if notes == [] {
    } else {
      assert KeyOf(notes[0]) == k;
      AlternationBound(Toggle(playing, k), notes[1..], k);
    }
  }

  lemma {:induction false} CountOnUpdate(notes: seq<Command>, s: nat, h: Command)
    requires s < |notes|
    ensures CountOn(notes[s := h]) + (if IsOn(notes[s]) then 1 else 0) == CountOn(notes) + (if IsOn(h) then 1 else 0)
  {
    if s == 0 {
      assert notes[s := h][1..] == notes[1..];
    } else {
      CountOnUpdate(notes[1..], s - 1, h);
      assert notes[s := h][1..] == notes[1..][s - 1 := h];
    }
  }

  lemma {:induction false} NoneLeft(rest: seq<Command>, k: Key, on: bool)
    requires NoteOnly(rest) && OneKey(rest, k) && First(rest, k, on) == |rest|
    ensures CountOn(rest) == if on then 0 else |rest|
  {
    if rest == [] {
    } else {
      assert KeyOf(rest[0]) == k && IsNote(rest[0]);
      NoneLeft(rest[1..], k, on);
    }
  }

  lemma {:induction false} NextKeeps(rest: seq<Command>, k: Key, t: int, s: nat)
    requires NoteOnly(rest) && OneKey(rest, k) && Near(rest, t) && s < |rest|
    ensures NoteOnly(Without(rest, s)) && OneKey(Without(rest, s), k) && Near(Without(rest, s), t)
  {
    var next := Without(rest, s);
    forall i | 0 <= i < |next|
      ensures next[i] == rest[if i + 1 == s then 0 else i + 1]
    {
    }
  }

  /** When the times allow every swap, a command is dropped only for want of a command to swap it with. */
  lemma {:induction false} DroppedForWant(playing: set<Key>, rest: seq<Command>, k: Key, t: int)
    requires NoteOnly(rest) && OneKey(rest, k) && Near(rest, t) && rest != []
    requires Pick(playing, rest) == |rest|
    ensures CountOn(rest) == if k in playing then |rest| else 0
    ensures IsOn(rest[0]) == (k in playing)
  {
    assert KeyOf(rest[0]) == k && IsNote(rest[0]);
    assert forall i :: 0 <= i < |rest| ==> Close(rest[0], rest[i]);
    NoneLeft(rest, k, k !in playing);
  }

  /** What one command takes from the counts of the batch. */
  lemma {:induction false} NextCounts(playing: set<Key>, rest: seq<Command>, k: Key, t: int)
    requires NoteOnly(rest) && OneKey(rest, k) && Near(rest, t) && rest != []
    ensures KeyOf(rest[0]) == k && IsNote(rest[0]) && rest[0].note < PITCHES
    ensures var s := Pick(playing, rest);
            if s < |rest|
            then CountOn(Without(rest, s)) == CountOn(rest) - (if k in playing then 0 else 1)
            else CountOn(rest) == (if k in playing then |rest| else 0)
                 && CountOn(rest[1..]) == (if k in playing then |rest| - 1 else 0)
  {
    var s := Pick(playing, rest);
    if s < |rest| {
      CountOnUpdate(rest, s, rest[0]);
    } else {
      DroppedForWant(playing, rest, k, t);
    }
  }

  /** One command of a key, played or dropped. */
  lemma {:induction false} RepairStep(playing: set<Key>, rest: seq<Command>, k: Key)
    requires rest != [] && KeyOf(rest[0]) == k && IsNote(rest[0]) && rest[0].note < PITCHES
    ensures var s := Pick(playing, rest);
            |Repair(playing, rest).notes|
            == if s < |rest| then 1 + |Repair(Toggle(playing, k), Without(rest, s)).notes|
               else |Repair(playing, rest[1..]).notes|
  {
  }

  predicate KeepsLongest(playing: set<Key>, rest: seq<Command>, k: Key) {
    |Repair(playing, rest).notes| == Longest(k in playing, CountOn(rest), |rest| - CountOn(rest))
  }

  lemma {:induction false} KeepsLongestAfter(playing: set<Key>, rest: seq<Command>, k: Key, t: int)
    requires NoteOnly(rest) && OneKey(rest, k) && Near(rest, t) && rest != []
    requires var s := Pick(playing, rest);
             if s < |rest| then KeepsLongest(Toggle(playing, k), Without(rest, s), k)
             else KeepsLongest(playing, rest[1..], k)
    ensures KeepsLongest(playing, rest, k)
  {
    NextCounts(playing, rest, k, t);
    RepairStep(playing, rest, k);
    if Pick(playing, rest) < |rest| {
      LongestStep(k in playing, CountOn(rest), |rest| - CountOn(rest));
    }
  }

  lemma {:induction false} RepairLength(playing: set<Key>, rest: seq<Command>, k: Key, t: int)
    requires NoteOnly(rest) && OneKey(rest, k) && Near(rest, t)
    ensures KeepsLongest(playing, rest, k)
    decreases |rest|
  {
    if rest == [] {
    } else {
      var s := Pick(playing, rest);
      if s < |rest| {
        NextKeeps(rest, k, t, s);
        RepairLength(Toggle(playing, k), Without(rest, s), k, t);
      } else {
        RepairLength(playing, rest[1..], k, t);
      }
      KeepsLongestAfter(playing, rest, k, t);
    }
  }

  lemma {:induction false} OfKeyKeeps(rest: seq<Command>, k: Key)
    requires NoteOnly(rest) && AllClose(rest)
    ensures NoteOnly(OfKey(rest, k)) && OneKey(OfKey(rest, k), k) && AllClose(OfKey(rest, k))
  {
    OfKeyMembers(rest, k);
  }

  /** The repair keeps of a key exactly the longest alternation its commands allow. */
  lemma {:induction false} RepairKeepsLongest(playing: set<Key>, rest: seq<Command>, k: Key)
    requires NoteOnly(rest) && AllClose(rest)
    ensures var ons := CountOn(OfKey(rest, k));
            |OfKey(Repair(playing, rest).notes, k)| == Longest(k in playing, ons, |OfKey(rest, k)| - ons)
  {
    OfKeyKeeps(rest, k);
    var t := CloseMeansNear(OfKey(rest, k));
    KeysIndependent(playing, playing, rest, k);
    RepairLength(playing, OfKey(rest, k), k, t);
  }

  lemma {:induction false} ChoiceBound(playing: set<Key>, choice: seq<Command>, own: seq<Command>, k: Key)
    requires OneKey(choice, k) && multiset(choice) <= multiset(own)
    requires Replay(playing, choice).Played?
    ensures |choice| <= Longest(k in playing, CountOn(own), |own| - CountOn(own))
  {
    AlternationBound(playing, choice, k);
    CountOnSubset(choice, own);
    LongestMonotone(k in playing, CountOn(choice), |choice| - CountOn(choice), CountOn(own), |own| - CountOn(own));
  }

  /**
   * When the times of a batch are within one millisecond of each other, no alternating choice among the
   * notes of a key is longer than what the repair keeps of that key.
   */
  lemma {:induction false} RepairKeepsMost(playing: set<Key>, rest: seq<Command>, k: Key, choice: seq<Command>)
    requires NoteOnly(rest) && AllClose(rest)
    requires OneKey(choice, k) && multiset(choice) <= multiset(OfKey(rest, k))
    requires Replay(playing, choice).Played?
    ensures |choice| <= |OfKey(Repair(playing, rest).notes, k)|
  {
    RepairKeepsLongest(playing, rest, k);
    ChoiceBound(playing, choice, OfKey(rest, k), k);
  }

  // ----- Runs of several batches

  /** Everything `check` returned over a run of batches, and the keys that sound after it. */
  function Run(playing: set<Key>, batches: seq<seq<Command>>): Outcome
    decreases |batches|
  {
    if batches == [] then Returned([], playing)
    else
      var o := Repair(playing, batches[0]);
      Prepend(o.notes, Run(o.playing, batches[1..]))
  }

  lemma {:induction false} ReplayConcat(playing: set<Key>, a: seq<Command>, b: seq<Command>)
    requires Replay(playing, a).Played?
    ensures Replay(playing, a + b) == Replay(Replay(playing, a).playing, b)
    decreases |a|
  {
    if a == [] {
      assert a + b == b;
    } else {
      assert (a + b)[1..] == a[1..] + b;
      ReplayConcat(Toggle(playing, KeyOf(a[0])), a[1..], b);
    }
  }

  /** Over any run of note batches, all that was returned alternates and the keyboard is its replay. */
  lemma {:induction false} RunAlternates(playing: set<Key>, batches: seq<seq<Command>>)
    requires forall i :: 0 <= i < |batches| ==> NoteOnly(batches[i])
    ensures Replay(playing, Run(playing, batches).notes) == Played(Run(playing, batches).playing)
    decreases |batches|
  {
    if batches == [] {
    } else {
      var o := Repair(playing, batches[0]);
      RepairAlternates(playing, batches[0]);
      RunAlternates(o.playing, batches[1..]);
      ReplayConcat(playing, o.notes, Run(o.playing, batches[1..]).notes);
    }
  }

  // ----- The code

  lemma {:induction false} PlayOne(kept: seq<Command>, playing: set<Key>, rest: seq<Command>)
    requires rest != [] && IsNote(rest[0]) && rest[0].note < PITCHES
    ensures var s := Pick(playing, rest);
            s < |rest| ==>
              Prepend(kept, Repair(playing, rest))
              == Prepend(kept + [rest[s]], Repair(Toggle(playing, KeyOf(rest[0])), Without(rest, s)))
    ensures Pick(playing, rest) == |rest| ==>
              Prepend(kept, Repair(playing, rest)) == Prepend(kept, Repair(playing, rest[1..]))
  {
    var s := Pick(playing, rest);
    if s < |rest| {
      var o := Repair(Toggle(playing, KeyOf(rest[0])), Without(rest, s));
      assert kept + ([rest[s]] + o.notes) == kept + [rest[s]] + o.notes;
    }
  }

  /** How swapping, deleting and keeping at index i read on the two parts of the list. */
  lemma {:induction false} SwapAt(notes: seq<Command>, i: nat, s: nat)
    requires i <= s < |notes|
    ensures var swapped := notes[i := notes[s]][s := notes[i]];
            && swapped[..i + 1] == notes[..i] + [notes[i..][s - i]]
            && swapped[i + 1..] == Without(notes[i..], s - i)
  {
  }

  lemma {:induction false} DeleteAt(notes: seq<Command>, i: nat)
    requires i < |notes|
    ensures var less := notes[..i] + notes[i + 1..];
            less[..i] == notes[..i] && less[i..] == notes[i..][1..]
  {
  }

  class Keyboard {
    var keyboard: array2<bool>
    ghost var playing: set<Key>  // the keys whose entry in the table is true

    ghost predicate Valid()
      reads this, keyboard
    {
      && keyboard.Length0 == CHANNELS && keyboard.Length1 == PITCHES
      && forall c, p :: 0 <= c < CHANNELS && 0 <= p < PITCHES ==> (keyboard[c, p] <==> Key(c, p) in playing)
    }

    constructor ()
      ensures Valid() && fresh(keyboard) && playing == {}
    {
      keyboard := new bool[CHANNELS, PITCHES]((_, _) => false);
      playing := {};
    }

    /** The nearest command at or after ind that is a note-on (or a note-off) for the pitch, or -1. */
    method NoteIndex(chan: int, pitch: int, on: bool, ind: nat, midiList: seq<Command>) returns (res: int)
      requires ind <= |midiList|
      ensures res == -1 || ind <= res < |midiList|
      ensures res == -1 ==> First(midiList[ind..], Key(chan, pitch), on) == |midiList| - ind
      ensures res != -1 ==> res == ind + First(midiList[ind..], Key(chan, pitch), on)
    {
      var k := Key(chan, pitch);
      res := -1;
      for i := ind to |midiList|
        invariant res == -1
        invariant First(midiList[ind..], k, on) == i - ind + First(midiList[i..], k, on)
      {
        if Matches(midiList[i], k, on) {
          res := i;
          break;
        }
        assert midiList[i..][1..] == midiList[i + 1..];
      }
    }

    method Set(c: Command, value: bool)
      requires Valid() && c.note < PITCHES
      requires (KeyOf(c) in playing) != value
      modifies this`playing, keyboard
      ensures Valid() && playing == Toggle(old(playing), KeyOf(c))
    {
      keyboard[Channel(c), c.note] := value;
      playing := Toggle(playing, KeyOf(c));
    }

    /** Plays, swaps or deletes the note at index i. */
    method CheckOne(midiNotes: seq<Command>, ind: nat) returns (notes: seq<Command>, i: nat)
      requires Valid() && ind < |midiNotes| && IsNote(midiNotes[ind]) && midiNotes[ind].note < PITCHES
      modifies this`playing, keyboard
      ensures Valid()
      ensures var rest := midiNotes[ind..];
              var s := Pick(old(playing), rest);
              if s < |rest|
              then && i == ind + 1 <= |notes|
                   && notes[..i] == midiNotes[..ind] + [rest[s]] && notes[i..] == Without(rest, s)
                   && playing == Toggle(old(playing), KeyOf(rest[0]))
              else i == ind <= |notes| && notes[..i] == midiNotes[..ind] && notes[i..] == rest[1..]
                   && playing == old(playing)
    {
      notes, i := midiNotes, ind;
      var h, on := notes[i], IsOn(notes[i]);
      if keyboard[Channel(h), h.note] == on {
        var indToSwap := NoteIndex(Channel(h), h.note, !on, i, notes);
        if indToSwap != -1 && Close(h, notes[indToSwap]) {
          SwapAt(notes, i, indToSwap);
          notes := notes[i := notes[indToSwap]][indToSwap := h];
          Set(notes[i], !on);
          i := i + 1;
        } else {
          DeleteAt(notes, i);
          notes := notes[..i] + notes[i + 1..];
        }
      } else {
        SwapAt(notes, i, i);
        Set(h, on);
        i := i + 1;
      }
    }

    /** One pass over a batch, swapping and deleting as it goes; raised stands for Python's IndexError. */
    method Check(midiNotes: seq<Command>) returns (notes: seq<Command>, raised: bool)
      requires Valid()
      modifies this`playing, keyboard
      ensures Valid()
      ensures Repair(old(playing), midiNotes)
           == if raised then IndexError(notes, playing) else Returned(notes, playing)
    {
      notes, raised := midiNotes, false;
      var i, j, long := 0, 0, |midiNotes|;
      while j < long
        invariant 0 <= i <= |notes| && 0 <= j <= long
        invariant Prepend(notes[..i], Repair(playing, notes[i..])) == Repair(old(playing), midiNotes)
        invariant |notes| - i == long - j || (i < |notes| && !IsNote(notes[i]))
        invariant Valid()
      {
        if IsNote(notes[i]) {
          if notes[i].note >= PITCHES {
            raised := true;
            assert notes == notes[..i] + notes[i..];
            return;
          }
          PlayOne(notes[..i], playing, notes[i..]);
          notes, i := CheckOne(notes, i);
        }
        j := j + 1;
      }
      assert notes == notes[..i] + notes[i..];
    }
  }
}
