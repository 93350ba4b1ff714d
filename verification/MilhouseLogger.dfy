/** The logger: any number of threads push accepted messages, one thread prints them until the sentinel. */
module MilhouseLogger {
  import opened Q = ConcurrentQueue

  const QUIT_SENTINEL := "QUIT_SENTINEL:"
  const PRINTER: Tid := 0

  /** The queue, what the print thread has written, its `done` flag, and the calls made to the logger, in order. */
  datatype Logger = Logger(q: State, written: seq<Data>, done: bool, calls: seq<Request>)

  /** A message is pushed when its level reaches the level of the logger. */
  predicate Accepted(loggerLevel: int, level: int) {
    loggerLevel <= level
  }

  /** What the threads other than the print thread start: they only push accepted messages, or the sentinel. */
  datatype Request = Log(level: int, msg: Data) | Destroy

  predicate Pushed(loggerLevel: int, r: Request) {
    r.Destroy? || Accepted(loggerLevel, r.level)
  }

  function Item(r: Request): Data {
    match r
    case Log(_, msg) => msg
    case Destroy => QUIT_SENTINEL
  }

  /** A step of a thread that logs: a call pushes only an accepted message. */
  ghost predicate LogStep(l: Logger, l': Logger, t: Tid, loggerLevel: int) {
    && t != PRINTER && l'.written == l.written && l'.done == l.done
    && (|| (Works(l.q, l'.q, t) && l'.calls == l.calls)
        || (Returns(l.q, l'.q, t) && l'.calls == l.calls)
        || exists r :: Calls(l, l', t, r, loggerLevel))
  }

  /** Thread t calls the logger; a message below its level goes nowhere. */
  ghost predicate Calls(l: Logger, l': Logger, t: Tid, r: Request, loggerLevel: int) {
    && l'.calls == l.calls + [r]
    && if Pushed(loggerLevel, r) then Starts(l.q, l'.q, t, CallPush(Item(r))) else l'.q == l.q
  }

  /** A step of the print thread: while not done it pops, and it writes what it popped unless it is the sentinel. */
  ghost predicate PrintStep(l: Logger, l': Logger) {
    && l'.calls == l.calls
    && (|| (!l.done && Starts(l.q, l'.q, PRINTER, CallWaitAndPop) && l'.written == l.written && !l'.done)
        || (Works(l.q, l'.q, PRINTER) && l'.written == l.written && l'.done == l.done)
        || (&& Returns(l.q, l'.q, PRINTER) && |l.q.pc[PRINTER].value| == 1
            && var msg := l.q.pc[PRINTER].value[0];
               if msg != QUIT_SENTINEL then l'.written == l.written + [msg] && l'.done == l.done
               else l'.written == l.written && l'.done))
  }

  ghost predicate LogNext(l: Logger, l': Logger, loggerLevel: int) {
    PrintStep(l, l') || exists t :: LogStep(l, l', t, loggerLevel)
  }

  ghost predicate LogInit(l: Logger) {
    Init(l.q) && PRINTER in l.q.pc && l.written == [] && !l.done && l.calls == []
  }

  ghost predicate IsLogRun(run: seq<Logger>, loggerLevel: int) {
    && run != [] && LogInit(run[0])
    && forall i :: 0 < i < |run| ==> LogNext(run[i - 1], run[i], loggerLevel)
  }

  /** What the print thread has popped and not yet returned. */
  function InHand(l: Logger): seq<Data> {
    if PRINTER in l.q.pc && l.q.pc[PRINTER].Leave? then l.q.pc[PRINTER].value else []
  }

  /** The program counters of a thread that only ever pushes. */
  predicate Pushing(p: Pc) {
    p.Outside? || p.PushLock? || p.PushWrite? || p.PushUnlock? || p.PushNotify?
  }

  /** The program counters of a thread that only ever waits and pops. */
  predicate Printing(p: Pc) {
    p.Outside? || p.PopLock? || p.PopTest? || p.Blocked? || p.Woken? || p.PopTake? || (p.Leave? && |p.value| == 1)
  }

  ghost predicate LogInv(l: Logger) {
    && Inv(l.q) && PRINTER in l.q.pc
    && (forall t :: t in l.q.pc && t != PRINTER ==> Pushing(l.q.pc[t]))
    && Printing(l.q.pc[PRINTER])
    && (l.done ==> l.q.pc[PRINTER].Outside?)
    && l.q.popped == l.written + (if l.done then [QUIT_SENTINEL] else []) + InHand(l)
    && QUIT_SENTINEL !in l.written
  }

  lemma {:induction false} LogCallKeepsInv(l: Logger, l': Logger, t: Tid, r: Request)
    requires LogInv(l) && t != PRINTER && l'.written == l.written && l'.done == l.done
    requires Starts(l.q, l'.q, t, CallPush(Item(r)))
    ensures LogInv(l')
  {
    StartKeepsInv(l.q, l'.q, t, CallPush(Item(r)));
  }

  /** A thread that logs only ever pushes: what was popped, and what the print thread does, stay as they are. */
  lemma {:induction false} PushingSteps(q: State, q': State, t: Tid)
    requires t in q.pc && Pushing(q.pc[t]) && Works(q, q', t)
    ensures q'.popped == q.popped && q'.pc.Keys == q.pc.Keys && Pushing(q'.pc[t])
    ensures forall u :: u in q.pc && u != t ==> q'.pc[u] == q.pc[u] || (q.pc[u].Blocked? && q'.pc[u].Woken?)
  {
  }

  lemma {:induction false} LogWorkKeepsInv(l: Logger, l': Logger, t: Tid)
    requires LogInv(l) && t != PRINTER && l'.written == l.written && l'.done == l.done
    requires t in l.q.pc && Works(l.q, l'.q, t)
    ensures LogInv(l')
  {
    WorkKeepsInv(l.q, l'.q, t);
    assert Pushing(l.q.pc[t]);
    PushingSteps(l.q, l'.q, t);
  }

  lemma {:induction false} LogStepKeepsInv(l: Logger, l': Logger, t: Tid, loggerLevel: int)
    requires LogInv(l) && LogStep(l, l', t, loggerLevel)
    ensures LogInv(l')
  {
    assert t in l.q.pc ==> Pushing(l.q.pc[t]);
    if Works(l.q, l'.q, t) {
      LogWorkKeepsInv(l, l', t);
    } else {
      var r :| Calls(l, l', t, r, loggerLevel);
      if Pushed(loggerLevel, r) { LogCallKeepsInv(l, l', t, r); }
    }
  }

  lemma {:induction false} PrintStepKeepsInv(l: Logger, l': Logger)
    requires LogInv(l) && PrintStep(l, l')
    ensures LogInv(l')
  {
    assert Moves(l.q, l'.q, PRINTER);
    MoveKeepsInv(l.q, l'.q, PRINTER);
  }

  lemma {:induction false} LogRunKeepsInv(run: seq<Logger>, loggerLevel: int)
    requires IsLogRun(run, loggerLevel)
    ensures LogInv(run[|run| - 1])
    decreases |run|
  {
    if |run| == 1 {
    } else {
      var before := run[..|run| - 1];
      forall i | 0 < i < |before|
        ensures LogNext(before[i - 1], before[i], loggerLevel)
      {
        assert LogNext(run[i - 1], run[i], loggerLevel);
      }
      LogRunKeepsInv(before, loggerLevel);
      var l, l' := run[|run| - 2], run[|run| - 1];
      assert LogNext(l, l', loggerLevel);
      if PrintStep(l, l') {
        PrintStepKeepsInv(l, l');
      } else {
        var t :| LogStep(l, l', t, loggerLevel);
        LogStepKeepsInv(l, l', t, loggerLevel);
      }
    }
  }

  /** Position k holds the first sentinel that was pushed. */
  predicate FirstSentinel(pushed: seq<Data>, k: nat) {
    k < |pushed| && pushed[k] == QUIT_SENTINEL && QUIT_SENTINEL !in pushed[..k]
  }

  /** At any time what was written is, in order, the beginning of what was pushed, and holds no sentinel. */
  lemma {:induction false} WrittenIsPrefix(run: seq<Logger>, loggerLevel: int)
    requires IsLogRun(run, loggerLevel)
    ensures var l := run[|run| - 1]; l.written <= l.q.pushed && QUIT_SENTINEL !in l.written
  {
    LogRunKeepsInv(run, loggerLevel);
    var l := run[|run| - 1];
    assert l.q.pushed == l.written + ((if l.done then [QUIT_SENTINEL] else []) + InHand(l) + l.q.queue);
  }

  /** Once done, what was written is exactly what was pushed before the first sentinel. */
  lemma {:induction false} WrittenAtTheEnd(run: seq<Logger>, loggerLevel: int)
    requires IsLogRun(run, loggerLevel) && run[|run| - 1].done
    ensures var l := run[|run| - 1];
            FirstSentinel(l.q.pushed, |l.written|) && l.written == l.q.pushed[..|l.written|]
  {
    LogRunKeepsInv(run, loggerLevel);
    var l := run[|run| - 1];
    assert l.q.pushed == l.written + ([QUIT_SENTINEL] + InHand(l) + l.q.queue);
  }

  /**
   * When the print thread has ended, the messages pushed before the sentinel of the destructor, at position k,
   * have all been written, in order, exactly when none of them equals the sentinel.
   */
  lemma {:induction false} AllWrittenExactly(run: seq<Logger>, loggerLevel: int, k: nat)
    requires IsLogRun(run, loggerLevel) && run[|run| - 1].done
    requires k < |run[|run| - 1].q.pushed| && run[|run| - 1].q.pushed[k] == QUIT_SENTINEL
    ensures var l := run[|run| - 1];
            l.written == l.q.pushed[..k] <==> QUIT_SENTINEL !in l.q.pushed[..k]
  {
    WrittenAtTheEnd(run, loggerLevel);
    var l := run[|run| - 1];
    FirstIsFirst(l.q.pushed, |l.written|, k);
  }

  lemma {:induction false} InPrefix(s: seq<Data>, i: nat, k: nat)
    ensures i < k <= |s| ==> s[i] in s[..k]
  {
    if i < k <= |s| {
      assert s[..k][i] == s[i];
    }
  }

  lemma {:induction false} FirstIsFirst(pushed: seq<Data>, n: nat, k: nat)
    requires FirstSentinel(pushed, n) && k < |pushed| && pushed[k] == QUIT_SENTINEL
    ensures n <= k && (n == k <==> QUIT_SENTINEL !in pushed[..k])
  {
    InPrefix(pushed, k, n);
    InPrefix(pushed, n, k);
  }

  /** Some thread can go on by itself; of the starts of calls, only that of the print thread counts. */
  ghost predicate LoggerCanGo(l: Logger, loggerLevel: int) {
    exists l' :: LogNext(l, l', loggerLevel) && Advances(l.q, l'.q)
  }

  ghost predicate Advances(s: State, s': State) {
    (exists t :: Goes(s, s', t) || Returns(s, s', t)) || Starts(s, s', PRINTER, CallWaitAndPop)
  }

  lemma {:induction false} ThreadGoes(l: Logger, loggerLevel: int, u: Tid)
    requires LogInv(l) && CanGo(l.q, u)
    ensures LoggerCanGo(l, loggerLevel)
  {
    var q :| Goes(l.q, q, u) || Returns(l.q, q, u);
    if u != PRINTER {
      assert LogStep(l, l.(q := q), u, loggerLevel);
      assert LogNext(l, l.(q := q), loggerLevel) && Advances(l.q, l.(q := q).q);
    } else if Goes(l.q, q, u) {
      assert PrintStep(l, l.(q := q)) && Advances(l.q, l.(q := q).q);
    } else {
      var msg := l.q.pc[PRINTER].value[0];
      var l' := if msg != QUIT_SENTINEL then l.(q := q, written := l.written + [msg]) else l.(q := q, done := true);
      assert PrintStep(l, l') && Advances(l.q, l'.q);
    }
  }

  /**
   * Once the destructor has pushed its sentinel, and until the print thread ends, some thread can always go on: the
   * join is never left waiting for a notify that does not come.
   */
  lemma {:induction false} JoinIsNeverStuck(run: seq<Logger>, loggerLevel: int)
    requires IsLogRun(run, loggerLevel)
    requires !run[|run| - 1].done && QUIT_SENTINEL in run[|run| - 1].q.pushed
    ensures LoggerCanGo(run[|run| - 1], loggerLevel)
  {
    LogRunKeepsInv(run, loggerLevel);
    var l := run[|run| - 1];
    WrittenIsPrefix(run, loggerLevel);
    if l.q.pc[PRINTER] == Outside {
      var l' := l.(q := l.q.(pc := l.q.pc[PRINTER := PopLock]));
      assert Starts(l.q, l'.q, PRINTER, CallWaitAndPop);
      assert PrintStep(l, l') && Advances(l.q, l'.q);
    } else {
      assert l.q.pc[PRINTER] == Blocked ==> l.q.popped == l.written;
      assert l.q.queue == [] ==> l.q.popped == l.q.pushed;
      var u := InvCanGo(l.q, PRINTER);
      ThreadGoes(l, loggerLevel, u);
    }
  }

  // ----- Which messages are pushed

  /** The threads that are about to push d. */
  function Holding(pc: map<Tid, Pc>, d: Data): set<Tid> {
    set t | t in pc && (pc[t] == PushLock(d) || pc[t] == PushWrite(d))
  }

  /** How often d was pushed, or is about to be. */
  function Submitted(q: State, d: Data): nat {
    multiset(q.pushed)[d] + |Holding(q.pc, d)|
  }

  /** How many calls carry d at a level that reaches that of the logger, or are the destructor's with its sentinel. */
  function CountCalls(calls: seq<Request>, loggerLevel: int, d: Data): nat {
    if calls == [] then 0
    else
      var last := calls[|calls| - 1];
      CountCalls(calls[..|calls| - 1], loggerLevel, d)
      + match last
        case Log(level, msg) => if level >= loggerLevel && msg == d then 1 else 0
        case Destroy => if d == "QUIT_SENTINEL:" then 1 else 0
  }

  lemma {:induction false} HoldingAfter(pc: map<Tid, Pc>, t: Tid, p: Pc, d: Data)
    requires t in pc
    ensures |Holding(pc[t := p], d)|
         == |Holding(pc, d)| - (if pc[t] == PushLock(d) || pc[t] == PushWrite(d) then 1 else 0)
            + (if p == PushLock(d) || p == PushWrite(d) then 1 else 0)
  {
    var others := Holding(pc, d) - {t};
    assert Holding(pc[t := p], d) == if p == PushLock(d) || p == PushWrite(d) then others + {t} else others;
    assert Holding(pc, d) == if pc[t] == PushLock(d) || pc[t] == PushWrite(d) then others + {t} else others;
  }

  lemma {:induction false} NotifySubmits(q: State, q': State, t: Tid, d: Data)
    requires Notifies(q, q', t)
    ensures Submitted(q', d) == Submitted(q, d)
  {
    HoldingAfter(q.pc, t, Outside, d);
    if exists w :: w in q.pc && q.pc[w].Blocked? {
      var w :| w in q.pc && q.pc[w].Blocked? && q' == q.(pc := q.pc[t := Outside][w := Woken]);
      HoldingAfter(q.pc[t := Outside], w, Woken, d);
    }
  }

  lemma {:induction false} WorkSubmits(q: State, q': State, t: Tid, d: Data)
    requires t in q.pc && (Works(q, q', t) || Returns(q, q', t))
    ensures Submitted(q', d) == Submitted(q, d)
  {
    if Notifies(q, q', t) {
      NotifySubmits(q, q', t, d);
    } else {
      HoldingAfter(q.pc, t, q'.pc[t], d);
      assert q'.pc == q.pc[t := q'.pc[t]];
    }
  }

  lemma {:induction false} StartSubmits(q: State, q': State, t: Tid, call: Call, d: Data)
    requires Starts(q, q', t, call)
    ensures Submitted(q', d) == Submitted(q, d) + (if call == CallPush(d) then 1 else 0)
  {
    HoldingAfter(q.pc, t, Entry(call), d);
  }

  lemma {:induction false} CallsSubmit(l: Logger, l': Logger, t: Tid, r: Request, loggerLevel: int, d: Data)
    requires Calls(l, l', t, r, loggerLevel) && Submitted(l.q, d) == CountCalls(l.calls, loggerLevel, d)
    ensures Submitted(l'.q, d) == CountCalls(l'.calls, loggerLevel, d)
  {
    assert l'.calls[..|l'.calls| - 1] == l.calls;
    if Pushed(loggerLevel, r) { StartSubmits(l.q, l'.q, t, CallPush(Item(r)), d); }
  }

  lemma {:induction false} NextSubmits(l: Logger, l': Logger, loggerLevel: int, d: Data)
    requires LogNext(l, l', loggerLevel) && Submitted(l.q, d) == CountCalls(l.calls, loggerLevel, d)
    ensures Submitted(l'.q, d) == CountCalls(l'.calls, loggerLevel, d)
  {
    if PrintStep(l, l') {
      if Starts(l.q, l'.q, PRINTER, CallWaitAndPop) {
        StartSubmits(l.q, l'.q, PRINTER, CallWaitAndPop, d);
      } else {
        WorkSubmits(l.q, l'.q, PRINTER, d);
      }
    } else {
      var t :| LogStep(l, l', t, loggerLevel);
      if r :| Calls(l, l', t, r, loggerLevel) {
        CallsSubmit(l, l', t, r, loggerLevel, d);
      } else {
        WorkSubmits(l.q, l'.q, t, d);
      }
    }
  }

  /**
   * At any time every message has been pushed, or is about to be, exactly as often as it was logged at a level that
   * reaches that of the logger.
   */
  lemma {:induction false} PushedExactly(run: seq<Logger>, loggerLevel: int, d: Data)
    requires IsLogRun(run, loggerLevel)
    ensures Submitted(run[|run| - 1].q, d) == CountCalls(run[|run| - 1].calls, loggerLevel, d)
    decreases |run|
  {
    if |run| == 1 {
    } else {
      var before := run[..|run| - 1];
      forall i | 0 < i < |before|
        ensures LogNext(before[i - 1], before[i], loggerLevel)
      {
        assert LogNext(run[i - 1], run[i], loggerLevel);
      }
      PushedExactly(before, loggerLevel, d);
      NextSubmits(run[|run| - 2], run[|run| - 1], loggerLevel, d);
    }
  }
}
