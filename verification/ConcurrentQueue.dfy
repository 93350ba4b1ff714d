/**
 * A queue shared by any number of threads: one mutex, one condition variable, threads as program counters.
 * Each step is what one thread does between two points where another thread may run.
 */
module ConcurrentQueue {
  type Tid = nat

  /** The items: the program has one such queue, of log messages. */
  type Data = string

  /** Where a thread stands. Holding the mutex is part of the program counter. */
  datatype Pc =
    | Outside
    | PushLock(data: Data)                   // waits for the mutex
    | PushWrite(data: Data)                  // holds it, has not pushed
    | PushUnlock                             // holds it, has pushed
    | PushNotify                             // has released it, has not notified
    | PopLock                                // waits for the mutex
    | PopTest(woken: bool)                   // holds it, about to test the queue
    | Blocked                                // waits on the condition, without the mutex
    | Woken                                  // notified or woken spuriously, waits for the mutex
    | PopTake(woken: bool)                   // holds it, has seen a non-empty queue
    | TryLock
    | TryTest
    | TryTake
    | Leave(value: seq<Data>)                // holds it, about to return at most one value

  /** pushed and popped record every item in the order in which it entered and left the queue. */
  datatype State = State(
    queue: seq<Data>, owner: set<Tid>, pc: map<Tid, Pc>, pushed: seq<Data>, popped: seq<Data>)

  predicate InMutex(p: Pc) {
    p.PushWrite? || p.PushUnlock? || p.PopTest? || p.PopTake? || p.TryTest? || p.TryTake? || p.Leave?
  }

  /** A thread that owes the blocked threads a notify, or that a wake-up has sent for an item. */
  predicate Credit(p: Pc) {
    p.PushUnlock? || p.PushNotify? || p.Woken? || (p.PopTest? && p.woken) || (p.PopTake? && p.woken)
  }

  /** A call that a thread outside the queue starts. */
  datatype Call = CallPush(data: Data) | CallWaitAndPop | CallTryPop

  function Entry(call: Call): Pc {
    match call
    case CallPush(d) => PushLock(d)
    case CallWaitAndPop => PopLock
    case CallTryPop => TryLock
  }

  ghost predicate Starts(s: State, s': State, t: Tid, call: Call) {
    t in s.pc && s.pc[t] == Outside && s' == s.(pc := s.pc[t := Entry(call)])
  }

  /** The mutex goes to a thread that waits for it when nobody owns it. */
  ghost predicate Locks(s: State, s': State, t: Tid) {
    && t in s.pc && s.owner == {}
    && (s.pc[t].PushLock? || s.pc[t].PopLock? || s.pc[t].Woken? || s.pc[t].TryLock?)
    && s' == s.(owner := {t}, pc := s.pc[t := match s.pc[t]
                                              case PushLock(d) => PushWrite(d)
                                              case PopLock => PopTest(false)
                                              case Woken => PopTest(true)
                                              case _ => TryTest])
  }

  /** One step of a thread inside `push` after it got the mutex, up to the notify. */
  ghost predicate Pushes(s: State, s': State, t: Tid) {
    && t in s.pc
    && match s.pc[t]
       case PushWrite(d) => s' == s.(queue := s.queue + [d], pushed := s.pushed + [d], pc := s.pc[t := PushUnlock])
       case PushUnlock => s' == s.(owner := {}, pc := s.pc[t := PushNotify])
       case _ => false
  }

  /** `notify_one`: wakes a blocked thread if there is one, else has no effect. */
  ghost predicate Notifies(s: State, s': State, t: Tid) {
    && t in s.pc && s.pc[t].PushNotify?
    && if exists w :: w in s.pc && s.pc[w].Blocked?
       then exists w :: w in s.pc && s.pc[w].Blocked? && s' == s.(pc := s.pc[t := Outside][w := Woken])
       else s' == s.(pc := s.pc[t := Outside])
  }

  ghost predicate WakesSpuriously(s: State, s': State, t: Tid) {
    t in s.pc && s.pc[t].Blocked? && s' == s.(pc := s.pc[t := Woken])
  }

  /** The test of the queue: `wait` gives the mutex back while it is empty, `try_pop` returns nothing. */
  ghost predicate Tests(s: State, s': State, t: Tid) {
    && t in s.pc
    && match s.pc[t]
       case PopTest(woken) =>
         if s.queue == [] then s' == s.(owner := {}, pc := s.pc[t := Blocked])
         else s' == s.(pc := s.pc[t := PopTake(woken)])
       case TryTest =>
         s' == s.(pc := s.pc[t := if s.queue == [] then Leave([]) else TryTake])
       case _ => false
  }

  ghost predicate Takes(s: State, s': State, t: Tid) {
    && t in s.pc && (s.pc[t].PopTake? || s.pc[t].TryTake?) && s.queue != []
    && s' == s.(queue := s.queue[1..], popped := s.popped + [s.queue[0]], pc := s.pc[t := Leave([s.queue[0]])])
  }

  /** The lock object goes out of scope and the call returns. */
  ghost predicate Returns(s: State, s': State, t: Tid) {
    t in s.pc && s.pc[t].Leave? && s' == s.(owner := {}, pc := s.pc[t := Outside])
  }

  /** A step that thread t takes by itself inside a call, other than the return. */
  ghost predicate Goes(s: State, s': State, t: Tid) {
    Locks(s, s', t) || Pushes(s, s', t) || Notifies(s, s', t) || Tests(s, s', t) || Takes(s, s', t)
  }

  /** A step inside a call, other than the return. */
  ghost predicate Works(s: State, s': State, t: Tid) {
    Goes(s, s', t) || WakesSpuriously(s, s', t)
  }

  ghost predicate Next(s: State, s': State) {
    exists t :: Moves(s, s', t)
  }

  /** Any step of thread t. */
  ghost predicate Moves(s: State, s': State, t: Tid) {
    Works(s, s', t) || Returns(s, s', t) || exists call :: Starts(s, s', t, call)
  }

  ghost predicate Init(s: State) {
    && s.queue == [] && s.owner == {} && s.pushed == [] && s.popped == []
    && forall t :: t in s.pc ==> s.pc[t] == Outside
  }

  ghost predicate IsRun(states: seq<State>) {
    && states != [] && Init(states[0])
    && forall i :: 0 < i < |states| ==> Next(states[i - 1], states[i])
  }

  // ----- The invariant

  function Credits(pc: map<Tid, Pc>): set<Tid> {
    set t | t in pc && Credit(pc[t])
  }

  ghost predicate SomeBlocked(pc: map<Tid, Pc>) {
    exists t :: t in pc && pc[t].Blocked?
  }

  /** First in, first out. */
  ghost predicate Fifo(s: State) {
    s.popped + s.queue == s.pushed
  }

  /** At most one thread holds the mutex, and it is the owner. */
  ghost predicate MutualExclusion(s: State) {
    forall t :: t in s.pc ==> (InMutex(s.pc[t]) <==> s.owner == {t})
  }

  /** A thread about to take an item finds one. */
  ghost predicate NoEmptyPop(s: State) {
    forall t :: t in s.pc && (s.pc[t].PopTake? || s.pc[t].TryTake?) ==> s.queue != []
  }

  /** While a thread is blocked, every item in the queue has its own pending notify or woken thread. */
  ghost predicate NoLostWakeup(s: State) {
    SomeBlocked(s.pc) ==> |s.queue| <= |Credits(s.pc)|
  }

  ghost predicate Inv(s: State) {
    Fifo(s) && MutualExclusion(s) && NoEmptyPop(s) && NoLostWakeup(s) && |s.owner| <= 1 && s.owner <= s.pc.Keys
  }

  lemma {:induction false} CreditsAfter(pc: map<Tid, Pc>, t: Tid, p: Pc)
    requires t in pc
    ensures |Credits(pc[t := p])| == |Credits(pc)| - (if Credit(pc[t]) then 1 else 0) + (if Credit(p) then 1 else 0)
  {
    var others := Credits(pc) - {t};
    assert Credits(pc[t := p]) == if Credit(p) then others + {t} else others;
    assert Credits(pc) == if Credit(pc[t]) then others + {t} else others;
  }

  lemma {:induction false} StartKeepsInv(s: State, s': State, t: Tid, call: Call)
    requires Inv(s) && Starts(s, s', t, call)
    ensures Inv(s')
  {
    CreditsAfter(s.pc, t, Entry(call));
    assert forall w :: w in s'.pc && s'.pc[w].Blocked? ==> s.pc[w].Blocked?;
  }

  lemma {:induction false} LockKeepsInv(s: State, s': State, t: Tid)
    requires Inv(s) && Locks(s, s', t)
    ensures Inv(s')
  {
    CreditsAfter(s.pc, t, s'.pc[t]);
    assert forall w :: w in s'.pc && s'.pc[w].Blocked? ==> s.pc[w].Blocked?;
  }

  lemma {:induction false} PushKeepsInv(s: State, s': State, t: Tid)
    requires Inv(s) && Pushes(s, s', t)
    ensures Inv(s')
  {
    CreditsAfter(s.pc, t, s'.pc[t]);
    var d := if s.pc[t].PushWrite? then s.pc[t].data else "";
    assert s.popped + (s.queue + [d]) == s.popped + s.queue + [d];
    assert forall w :: w in s'.pc && s'.pc[w].Blocked? ==> s.pc[w].Blocked?;
  }

  lemma {:induction false} NotifyOneKeepsInv(s: State, t: Tid, w: Tid)
    requires Inv(s) && t in s.pc && s.pc[t].PushNotify? && w in s.pc && s.pc[w].Blocked?
    ensures Inv(s.(pc := s.pc[t := Outside][w := Woken]))
  {
    CreditsAfter(s.pc, t, Outside);
    CreditsAfter(s.pc[t := Outside], w, Woken);
  }

  lemma {:induction false} NotifyKeepsInv(s: State, s': State, t: Tid)
    requires Inv(s) && Notifies(s, s', t)
    ensures Inv(s')
  {
    if exists w :: w in s.pc && s.pc[w].Blocked? {
      var w :| w in s.pc && s.pc[w].Blocked? && s' == s.(pc := s.pc[t := Outside][w := Woken]);
      NotifyOneKeepsInv(s, t, w);
    } else {
      CreditsAfter(s.pc, t, Outside);
    }
  }

  lemma {:induction false} WakeKeepsInv(s: State, s': State, t: Tid)
    requires Inv(s) && WakesSpuriously(s, s', t)
    ensures Inv(s')
  {
    CreditsAfter(s.pc, t, Woken);
  }

  lemma {:induction false} TestKeepsInv(s: State, s': State, t: Tid)
    requires Inv(s) && Tests(s, s', t)
    ensures Inv(s')
  {
    CreditsAfter(s.pc, t, s'.pc[t]);
    if s.queue != [] {
      assert forall w :: w in s'.pc && s'.pc[w].Blocked? ==> s.pc[w].Blocked?;
    }
  }

  lemma {:induction false} TakeKeepsInv(s: State, s': State, t: Tid)
    requires Inv(s) && Takes(s, s', t)
    ensures Inv(s')
  {
    CreditsAfter(s.pc, t, s'.pc[t]);
    assert s.popped + [s.queue[0]] + s.queue[1..] == s.popped + s.queue;
    assert forall w :: w in s'.pc && s'.pc[w].Blocked? ==> s.pc[w].Blocked?;
  }

  lemma {:induction false} ReturnKeepsInv(s: State, s': State, t: Tid)
    requires Inv(s) && Returns(s, s', t)
    ensures Inv(s')
  {
    CreditsAfter(s.pc, t, Outside);
    assert forall w :: w in s'.pc && s'.pc[w].Blocked? ==> s.pc[w].Blocked?;
  }

  lemma {:induction false} WorkKeepsInv(s: State, s': State, t: Tid)
    requires Inv(s) && Works(s, s', t)
    ensures Inv(s')
  {
    if Locks(s, s', t) { LockKeepsInv(s, s', t); }
    else if Pushes(s, s', t) { PushKeepsInv(s, s', t); }
    else if Notifies(s, s', t) { NotifyKeepsInv(s, s', t); }
    else if WakesSpuriously(s, s', t) { WakeKeepsInv(s, s', t); }
    else if Tests(s, s', t) { TestKeepsInv(s, s', t); }
    else { TakeKeepsInv(s, s', t); }
  }

  lemma {:induction false} MoveKeepsInv(s: State, s': State, t: Tid)
    requires Inv(s) && Moves(s, s', t)
    ensures Inv(s')
  {
    if Works(s, s', t) { WorkKeepsInv(s, s', t); }
    else if Returns(s, s', t) { ReturnKeepsInv(s, s', t); }
    else {
      var call :| Starts(s, s', t, call);
      StartKeepsInv(s, s', t, call);
    }
  }

  /** Every state of every interleaving satisfies the invariant. */
  lemma {:induction false} RunKeepsInv(states: seq<State>)
    requires IsRun(states)
    ensures Inv(states[|states| - 1])
    decreases |states|
  {
    if |states| == 1 {
    } else {
      var before := states[..|states| - 1];
      forall i | 0 < i < |before|
        ensures Next(before[i - 1], before[i])
      {
        assert Next(states[i - 1], states[i]);
      }
      RunKeepsInv(before);
      var t :| Moves(states[|states| - 2], states[|states| - 1], t);
      MoveKeepsInv(states[|states| - 2], states[|states| - 1], t);
    }
  }

  /**
   * In every state: first in first out, no pop of an empty queue, no thread left blocked on an item it was not sent.
   */
  lemma {:induction false} QueueIsSafe(states: seq<State>)
    requires IsRun(states)
    ensures var s := states[|states| - 1];
            && s.popped + s.queue == s.pushed
            && (forall t :: t in s.pc && (s.pc[t].PopTake? || s.pc[t].TryTake?) ==> s.queue != [])
            && (SomeBlocked(s.pc) && s.queue != [] ==> exists t :: t in s.pc && Credit(s.pc[t]))
  {
    RunKeepsInv(states);
    var s := states[|states| - 1];
    if SomeBlocked(s.pc) && s.queue != [] {
      assert Credits(s.pc) != {};
      var t :| t in Credits(s.pc);
    }
  }

  // ----- What the calls return

  /**
   * A pop that returns nothing is a try_pop that saw an empty queue; one that sees an item goes on to take the first.
   */
  lemma {:induction false} PopsGiveUpExactly(states: seq<State>, s': State, t: Tid)
    requires IsRun(states) && Moves(states[|states| - 1], s', t)
    requires var p := states[|states| - 1].pc[t]; p.TryTest? || p.PopTest?
    ensures var s := states[|states| - 1];
            && s'.queue == s.queue && s'.popped == s.popped
            && (s'.pc[t] == Leave([]) <==> s.pc[t].TryTest? && |s.queue| == 0)
            && (s'.pc[t] == Blocked <==> s.pc[t].PopTest? && |s.queue| == 0)
            && (s'.pc[t].TryTake? || s'.pc[t].PopTake? <==> |s.queue| > 0)
  {
  }

  /** A thread that is about to return a value returns the item that it took, which was the oldest one. */
  lemma {:induction false} TakesTheOldest(states: seq<State>, s': State, t: Tid)
    requires IsRun(states) && Moves(states[|states| - 1], s', t)
    requires var p := states[|states| - 1].pc[t]; p.TryTake? || p.PopTake?
    ensures var s := states[|states| - 1];
            && |s.popped| < |s.pushed|
            && s'.pc[t] == Leave([s.pushed[|s.popped|]]) && s'.popped == s.popped + [s.pushed[|s.popped|]]
  {
    RunKeepsInv(states);
    var s := states[|states| - 1];
    assert (s.popped + s.queue)[|s.popped|] == s.queue[0];
  }

  // ----- Nobody waits for nothing

  /** Thread t can go on by itself: no start of a call, no spurious wake-up. */
  ghost predicate CanGo(s: State, t: Tid) {
    exists s' :: Goes(s, s', t) || Returns(s, s', t)
  }

  /** Inside a call, and not for want of an item. */
  predicate HasWork(s: State, t: Tid) {
    t in s.pc && s.pc[t] != Outside && !(s.pc[t] == Blocked && s.queue == [])
  }

  predicate WaitsForMutex(p: Pc) {
    p.PushLock? || p.PopLock? || p.Woken? || p.TryLock?
  }

  lemma {:induction false} HolderCanGo(s: State, t: Tid)
    requires Inv(s) && t in s.pc && InMutex(s.pc[t])
    ensures CanGo(s, t)
  {
    match s.pc[t]
    case PushWrite(d) =>
      assert Goes(s, s.(queue := s.queue + [d], pushed := s.pushed + [d], pc := s.pc[t := PushUnlock]), t);
    case PushUnlock => assert Goes(s, s.(owner := {}, pc := s.pc[t := PushNotify]), t);
    case PopTest(woken) =>
      assert Goes(s, if s.queue == [] then s.(owner := {}, pc := s.pc[t := Blocked])
                      else s.(pc := s.pc[t := PopTake(woken)]), t);
    case TryTest => assert Goes(s, s.(pc := s.pc[t := if s.queue == [] then Leave([]) else TryTake]), t);
    case Leave(_) => assert Returns(s, s.(owner := {}, pc := s.pc[t := Outside]), t);
    case PopTake(_) => TakerCanGo(s, t);
    case TryTake => TakerCanGo(s, t);
    case _ =>
  }

  lemma {:induction false} TakerCanGo(s: State, t: Tid)
    requires Inv(s) && t in s.pc && (s.pc[t].PopTake? || s.pc[t].TryTake?)
    ensures CanGo(s, t)
  {
    var rest, popped := s.queue[1..], s.popped + [s.queue[0]];
    assert Goes(s, s.(queue := rest, popped := popped, pc := s.pc[t := Leave([s.queue[0]])]), t);
  }

  lemma {:induction false} WaiterCanGo(s: State, t: Tid)
    requires t in s.pc && WaitsForMutex(s.pc[t]) && s.owner == {}
    ensures CanGo(s, t)
  {
    var p := match s.pc[t]
             case PushLock(d) => PushWrite(d)
             case PopLock => PopTest(false)
             case Woken => PopTest(true)
             case _ => TryTest;
    assert Goes(s, s.(owner := {t}, pc := s.pc[t := p]), t);
  }

  lemma {:induction false} NotifierCanGo(s: State, t: Tid)
    requires t in s.pc && s.pc[t].PushNotify?
    ensures CanGo(s, t)
  {
    if w :| w in s.pc && s.pc[w].Blocked? {
      assert Goes(s, s.(pc := s.pc[t := Outside][w := Woken]), t);
    } else {
      assert Goes(s, s.(pc := s.pc[t := Outside]), t);
    }
  }

  /** A thread that is neither outside nor blocked can go on, or else the owner of the mutex can. */
  lemma {:induction false} SomeoneGoesFor(s: State, t: Tid) returns (u: Tid)
    requires Inv(s) && t in s.pc && s.pc[t] != Outside && s.pc[t] != Blocked
    ensures CanGo(s, u)
  {
    u := t;
    if s.pc[t].PushNotify? {
      NotifierCanGo(s, t);
    } else if InMutex(s.pc[t]) {
      HolderCanGo(s, t);
    } else if s.owner == {} {
      WaiterCanGo(s, t);
    } else {
      u :| u in s.owner;
      assert s.owner == {u} by { OnlyOwner(s.owner, u); }
      HolderCanGo(s, u);
    }
  }

  lemma {:induction false} OnlyOwner(owner: set<Tid>, u: Tid)
    requires u in owner && |owner| <= 1
    ensures owner == {u}
  {
    assert |owner - {u}| == |owner| - 1;
    assert owner == (owner - {u}) + {u};
  }

  /** While a thread is inside a call, and not blocked for want of an item, some thread can go on by itself. */
  lemma {:induction false} NoDeadlock(states: seq<State>, t: Tid) returns (u: Tid)
    requires IsRun(states) && HasWork(states[|states| - 1], t)
    ensures CanGo(states[|states| - 1], u)
  {
    RunKeepsInv(states);
    u := InvCanGo(states[|states| - 1], t);
  }

  lemma {:induction false} InvCanGo(s: State, t: Tid) returns (u: Tid)
    requires Inv(s) && HasWork(s, t)
    ensures CanGo(s, u)
  {
    var w := t;
    if s.pc[t] == Blocked {
      assert Credits(s.pc) != {};
      w :| w in Credits(s.pc);
    }
    u := SomeoneGoesFor(s, w);
  }

  /** The queue as an object; each method is what thread t does to it in one step. */
  class SharedQueue {
    var queue: seq<Data>
    var mutex: set<Tid>      // its owner, if any
    var pc: map<Tid, Pc>
    ghost var pushed: seq<Data>
    ghost var popped: seq<Data>

    constructor (threads: set<Tid>)
      ensures Init(Snapshot()) && Inv(Snapshot()) && pc.Keys == threads
    {
      queue, mutex, pc := [], {}, map t | t in threads :: Outside;
      pushed, popped := [], [];
    }

    ghost function Snapshot(): State
      reads this
    {
      State(queue, mutex, pc, pushed, popped)
    }

    method Start(t: Tid, call: Call)
      requires Inv(Snapshot()) && t in pc && pc[t] == Outside
      modifies this
      ensures Starts(old(Snapshot()), Snapshot(), t, call) && Inv(Snapshot())
    {
      ghost var before := Snapshot();
      pc := pc[t := Entry(call)];
      StartKeepsInv(before, Snapshot(), t, call);
    }

    /** Acquires the mutex, on entry or when `wait` resumes. */
    method Lock(t: Tid)
      requires Inv(Snapshot()) && t in pc && mutex == {}
      requires pc[t].PushLock? || pc[t].PopLock? || pc[t].Woken? || pc[t].TryLock?
      modifies this
      ensures Locks(old(Snapshot()), Snapshot(), t) && Inv(Snapshot())
    {
      ghost var before := Snapshot();
      mutex := {t};
      if pc[t].PushLock? {
        pc := pc[t := PushWrite(pc[t].data)];
      } else if pc[t].TryLock? {
        pc := pc[t := TryTest];
      } else {
        pc := pc[t := PopTest(pc[t].Woken?)];
      }
      LockKeepsInv(before, Snapshot(), t);
    }

    method PushItem(t: Tid)
      requires Inv(Snapshot()) && t in pc && pc[t].PushWrite?
      modifies this
      ensures Pushes(old(Snapshot()), Snapshot(), t) && Inv(Snapshot())
    {
      ghost var before := Snapshot();
      queue, pushed := queue + [pc[t].data], pushed + [pc[t].data];
      pc := pc[t := PushUnlock];
      PushKeepsInv(before, Snapshot(), t);
    }

    method Unlock(t: Tid)
      requires Inv(Snapshot()) && t in pc && pc[t].PushUnlock?
      modifies this
      ensures Pushes(old(Snapshot()), Snapshot(), t) && Inv(Snapshot())
    {
      ghost var before := Snapshot();
      mutex := {};
      pc := pc[t := PushNotify];
      PushKeepsInv(before, Snapshot(), t);
    }

    method NotifyOne(t: Tid)
      requires Inv(Snapshot()) && t in pc && pc[t].PushNotify?
      modifies this
      ensures Notifies(old(Snapshot()), Snapshot(), t) && Inv(Snapshot())
    {
      ghost var before := Snapshot();
      if w :| w in pc && pc[w].Blocked? {
        pc := pc[t := Outside][w := Woken];
      } else {
        pc := pc[t := Outside];
      }
      NotifyKeepsInv(before, Snapshot(), t);
    }

    method WakeSpuriously(t: Tid)
      requires Inv(Snapshot()) && t in pc && pc[t].Blocked?
      modifies this
      ensures WakesSpuriously(old(Snapshot()), Snapshot(), t) && Inv(Snapshot())
    {
      ghost var before := Snapshot();
      pc := pc[t := Woken];
      WakeKeepsInv(before, Snapshot(), t);
    }

    /** One test of the loop of `wait_and_pop`, or the test of `try_pop`. */
    method Test(t: Tid)
      requires Inv(Snapshot()) && t in pc && (pc[t].PopTest? || pc[t].TryTest?)
      modifies this
      ensures Tests(old(Snapshot()), Snapshot(), t) && Inv(Snapshot())
    {
      ghost var before := Snapshot();
      if pc[t].PopTest? {
        if queue == [] {
          mutex := {};
          pc := pc[t := Blocked];
        } else {
          pc := pc[t := PopTake(pc[t].woken)];
        }
      } else {
        pc := pc[t := if queue == [] then Leave([]) else TryTake];
      }
      TestKeepsInv(before, Snapshot(), t);
    }

    /** Copies the front and pops it: the invariant is what makes sure that there is one. */
    method Take(t: Tid)
      requires Inv(Snapshot()) && t in pc && (pc[t].PopTake? || pc[t].TryTake?)
      modifies this
      ensures Takes(old(Snapshot()), Snapshot(), t) && Inv(Snapshot())
    {
      ghost var before := Snapshot();
      var front := queue[0];
      queue, popped := queue[1..], popped + [front];
      pc := pc[t := Leave([front])];
      TakeKeepsInv(before, Snapshot(), t);
    }

    method Return(t: Tid) returns (value: seq<Data>)
      requires Inv(Snapshot()) && t in pc && pc[t].Leave?
      modifies this
      ensures Returns(old(Snapshot()), Snapshot(), t) && value == old(pc[t].value) && Inv(Snapshot())
    {
      ghost var before := Snapshot();
      value := pc[t].value;
      mutex := {};
      pc := pc[t := Outside];
      ReturnKeepsInv(before, Snapshot(), t);
    }
  }
}
