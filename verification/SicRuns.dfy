/**
 * Two peers over two reliable first-in-first-out channels. A negotiation begins when both are idle and nothing is in
 * flight; either peer may be the one that invites, each time.
 */
module SicRuns {
  import opened Wrappers
  import opened SessionDetails
  import opened Supervision
  import opened Sic

  /** Where the negotiation stands, by what the inviting peer did. */
  datatype Stage = Calling | Cancelled | InSession | Over

  /** What a peer did since the last INVITE: streamers started and stopped, BYEs sent, and a stop of its own accord. */
  datatype Log = Log(starts: nat, stops: nat, byes: nat, ownStop: bool)

  const NOTHING := Log(0, 0, 0, false)

  /** off made the offer and ans answers it; toAns and toOff hold what is in flight to each. */
  datatype Net = Net(
    off: App, ans: App, toAns: seq<Message>, toOff: seq<Message>, stage: Stage, offLog: Log, ansLog: Log)

  datatype Step =
    | Invite(swap: bool, offMe: Peer, ansMe: Peer)
    | ToAns(local: Local)
    | ToOff(local: Local)
    | AtOff(e: LocalEvent)
    | AtAns(e: LocalEvent)
    | Stranger(atOff: bool, items: Items, told: bool)  // a third peer invites one that is busy; told of its refusal

  predicate Idle(a: App) {
    && !a.negotiating && a.manager == STOPPED && !a.calling && !a.dialog
    && a.checking == [] && a.connects == [] && a.disconnecting == 0
  }

  predicate CanStep(n: Net, s: Step) {
    match s
    case Invite(_, _, _) => Idle(n.off) && Idle(n.ans) && n.toAns == [] && n.toOff == []
    case ToAns(local) => n.toAns != []
    case ToOff(_) => n.toOff != []
    case AtOff(e) => CanAct(n.off, e)
    case AtAns(e) => CanAct(n.ans, e)
    case Stranger(atOff, _, _) =>
      var a := if atOff then n.off else n.ans;
      a.manager != STOPPED || a.negotiating
  }

  function Count(ms: seq<Message>, m: Message): nat {
    if ms == [] then 0 else (if ms[0] == m then 1 else 0) + Count(ms[1..], m)
  }

  /** own: the call was not made by a message, so that a stop in it is the peer's own. */
  function Logged(log: Log, before: App, d: Done, own: bool): Log {
    Log(log.starts + (if before.manager == STOPPED && d.app.manager != STOPPED then 1 else 0),
        log.stops + (if before.manager != STOPPED && d.app.manager == STOPPED then 1 else 0),
        log.byes + Count(d.sent, BYE),
        log.ownStop || (own && Streaming(before) && !Streaming(d.app)))
  }

  function StageAfter(stage: Stage, m: Message, d: Done): Stage {
    if stage != Calling then stage
    else if m.ACCEPT? && Streaming(d.app) then InSession
    else if m.ACCEPT? || m == REFUSE then Over
    else stage
  }

  /** The caller gives up over a connection, so that CANCEL leaves, or cannot connect. */
  function StageAt(n: Net, e: LocalEvent): Stage {
    if e == CloseCalling && n.off.connected then Cancelled
    else if n.stage == Calling && e.Connection? && !e.made then Over
    else n.stage
  }

  function Next(n: Net, s: Step): Net
    requires CanStep(n, s)
  {
    match s
    case Invite(swap, offMe, ansMe) =>
      var d := SendInvite((if swap then n.ans else n.off).(me := offMe));
      Net(d.app, (if swap then n.off else n.ans).(me := ansMe), d.sent, [], Calling, NOTHING, NOTHING)
    case ToAns(local) =>
      var d := Receive(n.ans, n.toAns[0], local);
      n.(ans := d.app, toAns := n.toAns[1..], toOff := n.toOff + d.sent, ansLog := Logged(n.ansLog, n.ans, d, false))
    case ToOff(local) =>
      var d := Receive(n.off, n.toOff[0], local);
      n.(off := d.app, toOff := n.toOff[1..], toAns := n.toAns + d.sent, offLog := Logged(n.offLog, n.off, d, false),
         stage := StageAfter(n.stage, n.toOff[0], d))
    case AtOff(e) =>
      var d := Act(n.off, e);
      n.(off := d.app, toAns := n.toAns + d.sent, offLog := Logged(n.offLog, n.off, d, true),
         stage := StageAt(n, e))
    case AtAns(e) =>
      var d := Act(n.ans, e);
      n.(ans := d.app, toOff := n.toOff + d.sent, ansLog := Logged(n.ansLog, n.ans, d, true))
    case Stranger(atOff, items, told) =>
      if atOff then n.(off := HandleInvite(n.off, items, told).app) else n.(ans := HandleInvite(n.ans, items, told).app)
  }

  predicate Initial(n: Net) {
    && Idle(n.off) && Idle(n.ans) && n.toAns == [] && n.toOff == []
    && n.stage == Over && n.offLog == NOTHING && n.ansLog == NOTHING
  }

  // ----- The invariant

  /** The answering peer may still accept. */
  predicate Deciding(a: App) {
    a.checking != [] || a.dialog || (a.connects != [] && a.connects[0] == ToAccept)
  }

  predicate AtMostOneAnswer(a: App) {
    && |a.checking| + |a.connects| <= 1
    && !(a.dialog && a.checking != [])
    && (a.connects != [] ==> a.connects[0] == ToAsk || (a.connects[0] == ToAccept && !a.dialog))
    && (a.connects != [] ==> !a.connected)
  }

  predicate Shape(n: Net) {
    && n.off.checking == [] && !n.off.dialog && !n.ans.calling
    && (n.off.negotiating <==> n.off.calling)
    && (n.off.calling ==> n.stage == Calling)
    && (n.stage != Calling ==> n.off.connects == [])
    && AtMostOneAnswer(n.ans)
    && (n.stage != InSession ==> n.off.manager == STOPPED && n.ans.manager == STOPPED)
    && (n.stage != InSession ==> n.offLog.starts == n.ansLog.starts == n.offLog.stops == n.ansLog.stops == 0)
  }

  /** The answering peer has what the other side sent it. */
  predicate Informed(n: Net) {
    n.ans.remote == Some(MessageItems(n.off.me))
  }

  /** The window of the caller may have been closed while it was still connecting: then no CANCEL has left. */
  predicate CallingInv(n: Net) {
    && n.off.disconnecting == 0 && n.ans.disconnecting == 0
    && (Deciding(n.ans) ==> n.ans.negotiating)
    && n.offLog == n.ansLog == NOTHING
    && (Dialing(n)
        || (&& n.off.connects == [] && n.off.connected && !SentCancel(n.off)
            && (Invited(n) || Checking(n) || Asked(n) || Ignored(n) || Refused(n) || Accepted(n))))
  }

  /** The connection for the INVITE is being made. */
  predicate Dialing(n: Net) {
    && n.off.connects == [ToInvite(MessageItems(n.off.me))] && !n.off.connected
    && n.toAns == [] && n.toOff == [] && Idle(n.ans)
  }

  predicate Invited(n: Net) {
    n.toAns == [INVITE(MessageItems(n.off.me))] && n.toOff == [] && Idle(n.ans)
  }

  predicate Checking(n: Net) {
    n.toAns == [] && n.toOff == [] && n.ans.checking == [MessageItems(n.off.me)] && !n.ans.gotBye
  }

  /** The user is asked, or a connection is being made, or the answer was given before there was a connection. */
  predicate Asked(n: Net) {
    n.toAns == [] && n.toOff == [] && n.ans.checking == [] && Informed(n) && !n.ans.gotBye
  }

  /** The refusal did not reach the caller. */
  predicate Ignored(n: Net) {
    n.toAns == [] && n.toOff == [] && n.ans.checking == [] && !Deciding(n.ans) && !n.ans.negotiating
  }

  predicate Refused(n: Net) {
    n.toAns == [] && n.toOff == [REFUSE] && !Deciding(n.ans) && !n.ans.negotiating
  }

  predicate Accepted(n: Net) {
    && n.toAns == [] && n.toOff == [ACCEPT(MessageItems(n.ans.me))] && !Deciding(n.ans) && !n.ans.negotiating
    && n.ans.connected && n.ans.connects == [] && !n.ans.gotBye && Informed(n)
  }

  /** A late ACCEPT finds CANCEL as the last message sent: there is at most one, for at most one answer is due. */
  predicate CancelledInv(n: Net) {
    && !n.off.connected && n.offLog.byes == 0
    && ((Idle(n.ans) && SentCancel(n.off)
         && n.toOff == [] && n.toAns == [INVITE(MessageItems(n.off.me)), CANCEL(CANCELLED)])
        || ((n.toAns == [CANCEL(CANCELLED)] || (n.toAns == [] && !n.ans.negotiating))
            && (n.toOff == [] || (|n.toOff| == 1 && !Deciding(n.ans) && (n.toOff[0] == REFUSE || n.toOff[0].ACCEPT?)))
            && ((Deciding(n.ans) || (n.toOff != [] && n.toOff[0].ACCEPT?)) ==> SentCancel(n.off))))
  }

  predicate Parting(ms: seq<Message>) {
    forall i :: 0 <= i < |ms| ==> ms[i] == BYE || ms[i] == OK
  }

  /** Nothing was started: what is left is a goodbye, and perhaps an ACK that will find everything disabled. */
  predicate OverInv(n: Net) {
    && !Deciding(n.ans) && !n.ans.negotiating
    && (forall i :: 0 <= i < |n.toAns| ==> n.toAns[i] == BYE || n.toAns[i] == OK || n.toAns[i] == ACK)
    && (ACK in n.toAns ==> StartOutcome(n.ans.me, n.ans.remote) == Disabled)
    && Parting(n.toOff)
    && (n.offLog.byes >= 1 ==> OverFarewell(n))
  }

  /** The BYE of the caller is about to find the other peer connected, or has made it leave and answer. */
  predicate OverFarewell(n: Net) {
    && n.ans.connects == []
    && (|| (n.toAns != [] && n.toAns[0] == BYE && !Leaving(n.ans))
        || (Leaving(n.ans) && (OK in n.toOff || Leaving(n.off))))
  }

  /** A peer that started its streamers; the other one has received otherGotBye ? 1 : 0 of its BYEs. */
  predicate SideInv(a: App, log: Log, incoming: seq<Message>) {
    && log.starts == 1
    && log.stops == (if a.manager == STOPPED then 1 else 0)
    && log.byes <= log.stops
    && (a.manager == STOPPED ==> log.byes == 1 || a.gotBye)
    && (a.gotBye ==> !Streaming(a))
    && (a.manager != STOPPED && !a.gotBye ==> a.connected && a.disconnecting == 0)
    && (log.byes == 1 ==> log.ownStop)
    && (a.manager == STOPPING ==> a.gotBye || log.ownStop)
    && (OK in incoming ==> log.byes == 1)
  }

  /** The ACK has not been handled yet. */
  predicate NotStarted(n: Net) {
    && n.ansLog == NOTHING && n.ans.manager == STOPPED && !n.ans.gotBye && n.ans.connected && n.ans.disconnecting == 0
    && n.toAns != [] && n.toAns[0] == ACK && Parting(n.toAns[1..]) && OK !in n.toAns && n.toOff == []
  }

  /** Every BYE is either in flight or has been taken note of. */
  predicate ByesAccounted(log: Log, outgoing: seq<Message>, other: App) {
    log.byes == Count(outgoing, BYE) + (if other.gotBye then 1 else 0)
  }

  /** Each peer has the other's configuration, and it is one that starts. */
  predicate Exchanged(n: Net) {
    && Informed(n) && n.off.remote == Some(MessageItems(n.ans.me))
    && StartOutcome(n.ans.me, n.ans.remote) == Starts
  }

  /** The connection is gone, or about to go. */
  predicate Leaving(a: App) {
    !a.connected || a.disconnecting > 0
  }

  predicate NoByeAfterOk(ms: seq<Message>) {
    forall i, j :: 0 <= i < j < |ms| && ms[i] == OK ==> ms[j] != BYE
  }

  /** How p says goodbye to q: a BYE finds q connected, and whoever has got one leaves, and makes the other leave. */
  predicate Farewell(p: App, q: App, toQ: seq<Message>, toP: seq<Message>) {
    && (OK in toQ ==> p.gotBye)
    && NoByeAfterOk(toQ)
    && (Leaving(q) ==> q.gotBye || p.gotBye)
    && (BYE in toQ ==> !Leaving(q))
    && (q.gotBye ==> Leaving(q) && (OK in toP || Leaving(p)))
  }

  predicate Farewells(n: Net) {
    Farewell(n.off, n.ans, n.toAns, n.toOff) && Farewell(n.ans, n.off, n.toOff, n.toAns)
  }

  predicate SessionInv(n: Net) {
    Exchanged(n) && Conduct(n) && Farewells(n)
  }

  predicate Conduct(n: Net) {
    && !Deciding(n.ans) && n.ans.connects == [] && !n.ans.negotiating
    && SideInv(n.off, n.offLog, n.toOff)
    && ByesAccounted(n.offLog, n.toAns, n.ans) && ByesAccounted(n.ansLog, n.toOff, n.off)
    && Parting(n.toOff)
    && (NotStarted(n) || (SideInv(n.ans, n.ansLog, n.toAns) && Parting(n.toAns)))
  }

  predicate Inv(n: Net) {
    && Shape(n)
    && match n.stage
       case Calling => CallingInv(n)
       case Cancelled => CancelledInv(n)
       case InSession => SessionInv(n)
       case Over => OverInv(n)
  }

  // ----- Every step keeps it

  /** A third peer is refused over its own connection; at most it makes the peer forget an old BYE. */
  lemma {:induction false} StrangerKeepsInv(n: Net, atOff: bool, items: Items, told: bool)
    requires Inv(n) && CanStep(n, Stranger(atOff, items, told))
    ensures Inv(Next(n, Stranger(atOff, items, told)))
  {
    var a := if atOff then n.off else n.ans;
    StrangersAreRefused(a, items, told);
    assert a.manager == STOPPED ==> n.stage == Calling || n.stage == Cancelled;
  }

  lemma {:induction false} InviteKeepsInv(n: Net, swap: bool, offMe: Peer, ansMe: Peer)
    requires Inv(n) && CanStep(n, Invite(swap, offMe, ansMe))
    ensures Inv(Next(n, Invite(swap, offMe, ansMe)))
  {
  }

  lemma {:induction false} CountSnoc(ms: seq<Message>, x: Message, m: Message)
    ensures Count(ms + [x], m) == Count(ms, m) + (if x == m then 1 else 0)
  {
    if ms == [] {
      assert ms + [x] == [x] && [x][1..] == [];
    } else {
      assert (ms + [x])[1..] == ms[1..] + [x];
      CountSnoc(ms[1..], x, m);
    }
  }

  /** The number of messages m in a channel after at most one more was sent. */
  lemma {:induction false} CountSent(ms: seq<Message>, sent: seq<Message>, m: Message)
    requires |sent| <= 1
    ensures Count(ms + sent, m) == Count(ms, m) + Count(sent, m)
    ensures Count(sent, m) == (if sent == [m] then 1 else 0)
  {
    if sent == [] {
      assert ms + sent == ms;
    } else {
      assert sent == [sent[0]] && [] + sent == sent;
      CountSnoc(ms, sent[0], m);
      CountSnoc([], sent[0], m);
    }
  }

  // A call that finds its peer: inviting.

  lemma {:induction false} CallingToAns(n: Net, local: Local)
    requires Inv(n) && n.stage == Calling && n.toAns != []
    ensures Inv(Next(n, ToAns(local)))
  {
    assert n.ans.checking + [MessageItems(n.off.me)] == [MessageItems(n.off.me)];
  }

  lemma {:induction false} CallingRefused(n: Net, local: Local)
    requires Inv(n) && n.stage == Calling && Refused(n)
    ensures Inv(Next(n, ToOff(local)))
  {
  }

  /**
   * Where an ACCEPT in time leads: to a session and ACK, to a BYE, to BYE and ACK when all is disabled, or to an
   * error.
   */
  lemma {:induction false} AcceptLeadsTo(n: Net, local: Local)
    requires Inv(n) && n.stage == Calling && Accepted(n)
    ensures var next, outcome := Next(n, ToOff(local)), StartOutcome(n.ans.me, Some(MessageItems(n.off.me)));
            && next.toOff == [] && next.ans == n.ans
            && (next.stage == InSession <==> Streaming(next.off))
            && (next.stage == InSession <==> local.supported && outcome == Starts)
            && next.toAns == if !local.supported then [BYE]
                             else match outcome
                                  case Starts => [ACK]
                                  case Disabled => [BYE, ACK]
                                  case Raises => []
  {
    SameOutcome(n.off.me, n.ans.me);
    var d := Receive(n.off, n.toOff[0], local);
    assert n.toAns + d.sent == d.sent;
  }

  lemma {:induction false} AcceptedStarts(n: Net, local: Local)
    requires Inv(n) && n.stage == Calling && Accepted(n) && Next(n, ToOff(local)).stage == InSession
    ensures Inv(Next(n, ToOff(local)))
  {
    AcceptLeadsTo(n, local);
    SameOutcome(n.off.me, n.ans.me);
    CountSent([], [ACK], BYE);
  }

  lemma {:induction false} AcceptedInVain(n: Net, local: Local)
    requires Inv(n) && n.stage == Calling && Accepted(n) && Next(n, ToOff(local)).stage != InSession
    ensures Inv(Next(n, ToOff(local)))
  {
    AcceptLeadsTo(n, local);
    SameOutcome(n.off.me, n.ans.me);
  }

  lemma {:induction false} CallingAccepted(n: Net, local: Local)
    requires Inv(n) && n.stage == Calling && Accepted(n)
    ensures Inv(Next(n, ToOff(local)))
  {
    if Next(n, ToOff(local)).stage == InSession { AcceptedStarts(n, local); } else { AcceptedInVain(n, local); }
  }

  lemma {:induction false} CallerConnects(n: Net, e: LocalEvent)
    requires Inv(n) && n.stage == Calling && CanAct(n.off, e) && e.Connection?
    ensures Inv(Next(n, AtOff(e)))
  {
    var d := Act(n.off, e);
    assert Dialing(n) && n.toAns + d.sent == d.sent;
    CountSent([], d.sent, BYE);
  }

  lemma {:induction false} CallerCloses(n: Net, e: LocalEvent)
    requires Inv(n) && n.stage == Calling && CanAct(n.off, e) && !e.Connection?
    ensures e == CloseCalling && Inv(Next(n, AtOff(e)))
  {
    CountSent([], Act(n.off, e).sent, BYE);
  }

  lemma {:induction false} CallingPreflightFails(n: Net, e: LocalEvent)
    requires Inv(n) && n.stage == Calling && CanAct(n.ans, e) && e.Preflight? && e.check != Ready
    ensures Inv(Next(n, AtAns(e)))
  {
    var d := Act(n.ans, e);
    assert n.toOff + d.sent == d.sent;
    CountSent([], d.sent, BYE);
  }

  lemma {:induction false} CallingPreflightReady(n: Net, e: LocalEvent)
    requires Inv(n) && n.stage == Calling && CanAct(n.ans, e) && e.Preflight? && e.check == Ready
    ensures Inv(Next(n, AtAns(e)))
  {
    var d := Act(n.ans, e);
    assert n.toOff + d.sent == d.sent;
    CountSent([], d.sent, BYE);
  }

  lemma {:induction false} CallingConnection(n: Net, e: LocalEvent)
    requires Inv(n) && n.stage == Calling && CanAct(n.ans, e) && e.Connection?
    ensures Inv(Next(n, AtAns(e)))
  {
    var d := Act(n.ans, e);
    assert n.toOff == [] ==> n.toOff + d.sent == d.sent;
    CountSent([], d.sent, BYE);
  }

  lemma {:induction false} CallingAnswers(n: Net, e: LocalEvent)
    requires Inv(n) && n.stage == Calling && CanAct(n.ans, e) && !e.Preflight? && !e.Connection?
    ensures Inv(Next(n, AtAns(e)))
  {
    var d := Act(n.ans, e);
    assert n.toOff == [] ==> n.toOff + d.sent == d.sent;
    CountSent([], d.sent, BYE);
  }

  lemma {:induction false} CallingKeepsInv(n: Net, s: Step)
    requires Inv(n) && n.stage == Calling && CanStep(n, s)
    ensures Inv(Next(n, s))
  {
    match s
    case ToAns(local) => CallingToAns(n, local);
    case ToOff(local) => if Refused(n) { CallingRefused(n, local); } else { CallingAccepted(n, local); }
    case Stranger(atOff, items, told) => StrangerKeepsInv(n, atOff, items, told);
    case AtOff(e) => if e.Connection? { CallerConnects(n, e); } else { CallerCloses(n, e); }
    case AtAns(e) =>
      if e.Preflight? && e.check == Ready { CallingPreflightReady(n, e); }
      else if e.Preflight? { CallingPreflightFails(n, e); }
      else if e.Connection? { CallingConnection(n, e); }
      else { CallingAnswers(n, e); }
    case Invite(_, _, _) =>
  }

  // A call that was cancelled.

  lemma {:induction false} CancelledInvite(n: Net, local: Local)
    requires Inv(n) && n.stage == Cancelled && n.toAns != [] && n.toAns[0].INVITE?
    ensures Inv(Next(n, ToAns(local)))
  {
  }

  lemma {:induction false} CancelledCancel(n: Net, local: Local)
    requires Inv(n) && n.stage == Cancelled && n.toAns != [] && n.toAns[0].CANCEL?
    ensures Inv(Next(n, ToAns(local)))
  {
  }

  lemma {:induction false} CancelledToOff(n: Net, local: Local)
    requires Inv(n) && n.stage == Cancelled && n.toOff != []
    ensures Inv(Next(n, ToOff(local)))
  {
  }

  lemma {:induction false} CancelledPreflightFails(n: Net, e: LocalEvent)
    requires Inv(n) && n.stage == Cancelled && CanAct(n.ans, e) && e.Preflight? && e.check != Ready
    ensures Inv(Next(n, AtAns(e)))
  {
    assert n.toOff == [] && [] + Act(n.ans, e).sent == Act(n.ans, e).sent;
  }

  lemma {:induction false} CancelledPreflightReady(n: Net, e: LocalEvent)
    requires Inv(n) && n.stage == Cancelled && CanAct(n.ans, e) && e.Preflight? && e.check == Ready
    ensures Inv(Next(n, AtAns(e)))
  {
    assert n.toOff == [] && [] + Act(n.ans, e).sent == Act(n.ans, e).sent;
  }

  lemma {:induction false} CancelledConnection(n: Net, e: LocalEvent)
    requires Inv(n) && n.stage == Cancelled && CanAct(n.ans, e) && e.Connection?
    ensures Inv(Next(n, AtAns(e)))
  {
  }

  lemma {:induction false} CancelledAnswers(n: Net, e: LocalEvent)
    requires Inv(n) && n.stage == Cancelled && CanAct(n.ans, e) && !e.Preflight? && !e.Connection?
    ensures Inv(Next(n, AtAns(e)))
  {
  }

  lemma {:induction false} CancelledAtOff(n: Net, e: LocalEvent)
    requires Inv(n) && n.stage == Cancelled && CanAct(n.off, e)
    ensures Inv(Next(n, AtOff(e)))
  {
  }

  lemma {:induction false} CancelledKeepsInv(n: Net, s: Step)
    requires Inv(n) && n.stage == Cancelled && CanStep(n, s) && !s.Invite?
    ensures Inv(Next(n, s))
  {
    match s
    case Stranger(atOff, items, told) => StrangerKeepsInv(n, atOff, items, told);
    case AtOff(e) => CancelledAtOff(n, e);
    case AtAns(e) =>
      if e.Preflight? && e.check == Ready { CancelledPreflightReady(n, e); }
      else if e.Preflight? { CancelledPreflightFails(n, e); }
      else if e.Connection? { CancelledConnection(n, e); }
      else { CancelledAnswers(n, e); }
    case ToAns(local) => if n.toAns[0].INVITE? { CancelledInvite(n, local); } else { CancelledCancel(n, local); }
    case ToOff(local) => CancelledToOff(n, local);
  }

  // A call that led nowhere.

  lemma {:induction false} OverToAns(n: Net, local: Local)
    requires Inv(n) && n.stage == Over && n.toAns != [] && n.toAns[0] != ACK
    ensures Inv(Next(n, ToAns(local)))
  {
    var d := Receive(n.ans, n.toAns[0], local);
    assert n.toOff + [] == n.toOff && OK in n.toOff + [OK];
    assert OK in n.toOff ==> OK in n.toOff + d.sent;
  }

  lemma {:induction false} AckInVain(a: App)
    requires StartOutcome(a.me, a.remote) == Disabled && a.manager == STOPPED
    ensures HandleAck(a) == Send(a, BYE).(app := Send(a, BYE).app.(negotiating := false))
  {
  }

  lemma {:induction false} OverAck(n: Net, local: Local)
    requires Inv(n) && n.stage == Over && n.toAns != [] && n.toAns[0] == ACK
    ensures Inv(Next(n, ToAns(local)))
  {
    AckInVain(n.ans);
    var d := Receive(n.ans, ACK, local);
    assert OK in n.toOff ==> OK in n.toOff + d.sent;
  }

  lemma {:induction false} OverBye(n: Net, local: Local)
    requires Inv(n) && n.stage == Over && n.toOff != [] && n.toOff[0] == BYE
    ensures Inv(Next(n, ToOff(local)))
  {
    TailIn(n.toOff, OK);
    CountSent([], Receive(n.off, BYE, local).sent, BYE);
  }

  lemma {:induction false} OverOk(n: Net, local: Local)
    requires Inv(n) && n.stage == Over && n.toOff != [] && n.toOff[0] == OK
    ensures Inv(Next(n, ToOff(local)))
  {
    TailIn(n.toOff, OK);
    assert n.toAns + [] == n.toAns;
  }

  lemma {:induction false} OverAtOff(n: Net, e: LocalEvent)
    requires Inv(n) && n.stage == Over && CanAct(n.off, e)
    ensures Inv(Next(n, AtOff(e)))
  {
  }

  lemma {:induction false} OverAtAns(n: Net, e: LocalEvent)
    requires Inv(n) && n.stage == Over && CanAct(n.ans, e)
    ensures Inv(Next(n, AtAns(e)))
  {
  }

  lemma {:induction false} OverKeepsInv(n: Net, s: Step)
    requires Inv(n) && n.stage == Over && CanStep(n, s) && !s.Invite?
    ensures Inv(Next(n, s))
  {
    match s
    case ToAns(local) => if n.toAns[0] == ACK { OverAck(n, local); } else { OverToAns(n, local); }
    case ToOff(local) => if n.toOff[0] == BYE { OverBye(n, local); } else { OverOk(n, local); }
    case Stranger(atOff, items, told) => StrangerKeepsInv(n, atOff, items, told);
    case AtOff(e) => OverAtOff(n, e);
    case AtAns(e) => OverAtAns(n, e);
  }

  // A session.

  /** What does not change once the negotiation has led to a session. */
  predicate SameCall(a: App, b: App) {
    && a.me == b.me && a.remote == b.remote && a.checking == b.checking && a.connects == b.connects
    && a.calling == b.calling && a.dialog == b.dialog && (b.negotiating ==> a.negotiating)
  }

  lemma {:induction false} SideReceives(a: App, log: Log, incoming: seq<Message>, local: Local)
    requires SideInv(a, log, incoming) && incoming != [] && (incoming[0] == BYE || incoming[0] == OK)
    ensures var d := Receive(a, incoming[0], local);
            && SideInv(d.app, Logged(log, a, d, false), incoming[1..])
            && SameCall(a, d.app)
            && d.app.gotBye == (a.gotBye || incoming[0] == BYE)
            && (d.sent == [] || (incoming[0] == BYE && d.sent == [OK]))
            && Logged(log, a, d, false).byes == log.byes
  {
    var d := Receive(a, incoming[0], local);
    CountSent([], d.sent, BYE);
  }

  lemma {:induction false} SideActs(a: App, log: Log, incoming: seq<Message>, e: LocalEvent)
    requires SideInv(a, log, incoming) && CanAct(a, e)
    requires a.checking == [] && a.connects == [] && !a.dialog && !a.calling
    ensures var d := Act(a, e);
            && SideInv(d.app, Logged(log, a, d, true), incoming)
            && SameCall(a, d.app)
            && d.app.gotBye == a.gotBye
            && (d.sent == [] || d.sent == [BYE])
            && Logged(log, a, d, true).byes == log.byes + Count(d.sent, BYE)
  {
    var d := Act(a, e);
    CountSent([], d.sent, BYE);
  }

  /** What a step of a session keeps: neither side's half of the exchange changes. */
  predicate SessionKept(n: Net, n': Net) {
    && Shape(n') && n'.stage == InSession && Conduct(n')
    && n'.off.me == n.off.me && n'.off.remote == n.off.remote && n'.ans.me == n.ans.me && n'.ans.remote == n.ans.remote
  }

  lemma {:induction false} SessionAck(n: Net, local: Local)
    requires Shape(n) && n.stage == InSession && Conduct(n) && NotStarted(n)
    requires StartOutcome(n.ans.me, n.ans.remote) == Starts
    ensures SessionKept(n, Next(n, ToAns(local)))
  {
  }

  lemma {:induction false} SessionToAns(n: Net, local: Local)
    requires Shape(n) && n.stage == InSession && Conduct(n) && n.toAns != [] && !NotStarted(n)
    ensures SessionKept(n, Next(n, ToAns(local)))
  {
    SideReceives(n.ans, n.ansLog, n.toAns, local);
    CountSent(n.toOff, Receive(n.ans, n.toAns[0], local).sent, BYE);
  }

  lemma {:induction false} SessionToOff(n: Net, local: Local)
    requires Shape(n) && n.stage == InSession && Conduct(n) && n.toOff != []
    ensures SessionKept(n, Next(n, ToOff(local)))
  {
    SideReceives(n.off, n.offLog, n.toOff, local);
    CountSent(n.toAns, Receive(n.off, n.toOff[0], local).sent, BYE);
  }

  lemma {:induction false} SessionAtOff(n: Net, e: LocalEvent)
    requires Shape(n) && n.stage == InSession && Conduct(n) && CanAct(n.off, e)
    ensures SessionKept(n, Next(n, AtOff(e)))
  {
    SideActs(n.off, n.offLog, n.toOff, e);
    CountSent(n.toAns, Act(n.off, e).sent, BYE);
  }

  lemma {:induction false} SessionAtAns(n: Net, e: LocalEvent)
    requires Shape(n) && n.stage == InSession && Conduct(n) && CanAct(n.ans, e)
    ensures SessionKept(n, Next(n, AtAns(e)))
  {
    if !NotStarted(n) {
      SideActs(n.ans, n.ansLog, n.toAns, e);
      CountSent(n.toOff, Act(n.ans, e).sent, BYE);
    }
  }

  // How a session says goodbye.

  lemma {:induction false} CountIn(ms: seq<Message>, m: Message)
    ensures m in ms <==> Count(ms, m) > 0
  {
    if ms == [] {
    } else {
      CountIn(ms[1..], m);
      assert m in ms <==> ms[0] == m || m in ms[1..];
    }
  }

  lemma {:induction false} TailIn(ms: seq<Message>, m: Message)
    requires ms != []
    ensures m in ms[1..] ==> m in ms
    ensures m in ms ==> ms[0] == m || m in ms[1..]
  {
  }

  lemma {:induction false} NoByeAfterOkTail(ms: seq<Message>)
    requires ms != [] && NoByeAfterOk(ms)
    ensures NoByeAfterOk(ms[1..])
    ensures ms[0] == OK ==> BYE !in ms[1..]
  {
    if ms[0] == OK {
      forall j | 0 <= j < |ms[1..]|
        ensures ms[1..][j] != BYE
      {
        assert ms[1..][j] == ms[j + 1];
      }
    }
    forall i, j | 0 <= i < j < |ms[1..]| && ms[1..][i] == OK
      ensures ms[1..][j] != BYE
    {
      assert ms[1..][i] == ms[i + 1] && ms[1..][j] == ms[j + 1];
    }
  }

  lemma {:induction false} NoByeAfterOkSent(ms: seq<Message>, m: Message)
    requires NoByeAfterOk(ms) && (m == BYE ==> OK !in ms)
    ensures NoByeAfterOk(ms + [m])
  {
    forall i, j | 0 <= i < j < |ms + [m]| && (ms + [m])[i] == OK
      ensures (ms + [m])[j] != BYE
    {
      assert (ms + [m])[i] == ms[i];
    }
  }

  /** BYE reaches a: it finds a connected, is answered, and makes a leave. */
  lemma {:induction false} FarewellBye(a: App, b: App, toA: seq<Message>, toB: seq<Message>, local: Local)
    requires Farewell(a, b, toB, toA) && Farewell(b, a, toA, toB)
    requires toA != [] && toA[0] == BYE && Count(toA, BYE) <= 1
    ensures var d := Receive(a, BYE, local);
            && d.sent == [OK]
            && Farewell(d.app, b, toB + d.sent, toA[1..]) && Farewell(b, d.app, toA[1..], toB + d.sent)
  {
    var d := Receive(a, BYE, local);
    assert BYE in toA && a.connected;
    CountIn(toA[1..], BYE);
    TailIn(toA, OK);
    NoByeAfterOkTail(toA);
    NoByeAfterOkSent(toB, OK);
    assert OK in toB + [OK] && (BYE in toB + [OK] <==> BYE in toB);
    assert Leaving(d.app) && d.app.gotBye;
  }

  /** OK reaches a, which leaves. */
  lemma {:induction false} FarewellOk(a: App, b: App, toA: seq<Message>, toB: seq<Message>, local: Local)
    requires Farewell(a, b, toB, toA) && Farewell(b, a, toA, toB)
    requires toA != [] && toA[0] == OK
    ensures var d := Receive(a, OK, local);
            && d.sent == [] && Leaving(d.app)
            && Farewell(d.app, b, toB, toA[1..]) && Farewell(b, d.app, toA[1..], toB)
  {
    assert OK in toA;
    TailIn(toA, OK);
    NoByeAfterOkTail(toA);
  }

  /** ACK reaches the answering peer, which stays connected. */
  lemma {:induction false} FarewellAck(n: Net, local: Local)
    requires NotStarted(n) && Farewells(n) && StartOutcome(n.ans.me, n.ans.remote) == Starts
    ensures Farewells(Next(n, ToAns(local)))
  {
    TailIn(n.toAns, OK);
    TailIn(n.toAns, BYE);
    NoByeAfterOkTail(n.toAns);
    var d := Receive(n.ans, ACK, local);
    assert d.sent == [] && d.app.connected == n.ans.connected && d.app.gotBye == n.ans.gotBye;
    assert n.toOff + [] == n.toOff;
  }

  /** An event at a: at most a BYE leaves, which finds b connected, or a disconnection that was put off takes place. */
  lemma {:induction false} FarewellActs(
    a: App, b: App, aLog: Log, toA: seq<Message>, toB: seq<Message>, e: LocalEvent)
    requires Farewell(a, b, toB, toA) && Farewell(b, a, toA, toB) && SideInv(a, aLog, toA) && CanAct(a, e)
    requires a.checking == [] && a.connects == [] && !a.dialog && !a.calling && ByesAccounted(aLog, toB, b)
    ensures var d := Act(a, e); Farewell(d.app, b, toB + d.sent, toA) && Farewell(b, d.app, toA, toB + d.sent)
  {
    var d := Act(a, e);
    if d.sent == [] {
      assert toB + d.sent == toB;
    } else {
      assert d.sent == [BYE] && !a.gotBye && !b.gotBye;
      NoByeAfterOkSent(toB, BYE);
      assert OK in toB + [BYE] <==> OK in toB;
    }
  }

  lemma {:induction false} FarewellsKept(n: Net, s: Step)
    requires Shape(n) && n.stage == InSession && SessionInv(n) && CanStep(n, s) && !s.Invite? && !s.Stranger?
    ensures Farewells(Next(n, s))
  {
    match s
    case ToAns(local) =>
      if NotStarted(n) { FarewellAck(n, local); }
      else if n.toAns[0] == BYE { FarewellBye(n.ans, n.off, n.toAns, n.toOff, local); }
      else {
        FarewellOk(n.ans, n.off, n.toAns, n.toOff, local);
        assert n.toOff + [] == n.toOff;
      }
    case ToOff(local) =>
      if n.toOff[0] == BYE { FarewellBye(n.off, n.ans, n.toOff, n.toAns, local); }
      else {
        FarewellOk(n.off, n.ans, n.toOff, n.toAns, local);
        assert n.toAns + [] == n.toAns;
      }
    case AtOff(e) => FarewellActs(n.off, n.ans, n.offLog, n.toOff, n.toAns, e);
    case AtAns(e) => if !NotStarted(n) { FarewellActs(n.ans, n.off, n.ansLog, n.toAns, n.toOff, e); }
  }

  lemma {:induction false} ConductKept(n: Net, s: Step)
    requires Shape(n) && n.stage == InSession && Conduct(n) && CanStep(n, s) && !s.Invite? && !s.Stranger?
    requires StartOutcome(n.ans.me, n.ans.remote) == Starts
    ensures SessionKept(n, Next(n, s))
  {
    match s
    case ToAns(local) => if NotStarted(n) { SessionAck(n, local); } else { SessionToAns(n, local); }
    case ToOff(local) => SessionToOff(n, local);
    case AtOff(e) => SessionAtOff(n, e);
    case AtAns(e) => SessionAtAns(n, e);
  }

  lemma {:induction false} SessionKeepsInv(n: Net, s: Step)
    requires Inv(n) && n.stage == InSession && CanStep(n, s) && !s.Invite?
    ensures Inv(Next(n, s))
  {
    if s.Stranger? {
      StrangerKeepsInv(n, s.atOff, s.items, s.told);
    } else {
      ConductKept(n, s);
      FarewellsKept(n, s);
    }
  }

  lemma {:induction false} NextKeepsInv(n: Net, s: Step)
    requires Inv(n) && CanStep(n, s)
    ensures Inv(Next(n, s))
  {
    if s.Invite? {
      InviteKeepsInv(n, s.swap, s.offMe, s.ansMe);
    } else {
      match n.stage
      case Calling => CallingKeepsInv(n, s);
      case Cancelled => CancelledKeepsInv(n, s);
      case InSession => SessionKeepsInv(n, s);
      case Over => OverKeepsInv(n, s);
    }
  }

  // ----- Runs

  ghost predicate Steps(n: Net, n': Net) {
    exists s :: CanStep(n, s) && n' == Next(n, s)
  }

  ghost predicate IsRun(run: seq<Net>) {
    && run != [] && Initial(run[0])
    && forall i :: 0 < i < |run| ==> Steps(run[i - 1], run[i])
  }

  lemma {:induction false} StepKeepsInv(n: Net, n': Net)
    requires Inv(n) && Steps(n, n')
    ensures Inv(n')
  {
    var s :| CanStep(n, s) && n' == Next(n, s);
    NextKeepsInv(n, s);
  }

  function Last(run: seq<Net>): Net
    requires run != []
  {
    run[|run| - 1]
  }

  /** Every state of every run satisfies the invariant. */
  lemma {:induction false} RunKeepsInv(run: seq<Net>)
    requires IsRun(run)
    ensures Inv(Last(run))
    decreases |run|
  {
    if |run| == 1 {
    } else {
      var before := run[..|run| - 1];
      forall i | 0 < i < |before|
        ensures Steps(before[i - 1], before[i])
      {
        assert Steps(run[i - 1], run[i]);
      }
      RunKeepsInv(before);
      StepKeepsInv(run[|run| - 2], run[|run| - 1]);
    }
  }

  predicate Quiet(n: Net) {
    n.toAns == [] && n.toOff == []
  }

  /** With no message in flight and neither manager stopping, both peers stream or neither does. */
  lemma {:induction false} BothOrNeither(run: seq<Net>)
    requires IsRun(run)
    requires var n := Last(run); Quiet(n) && n.off.manager != STOPPING && n.ans.manager != STOPPING
    ensures Streaming(Last(run).off) <==> Streaming(Last(run).ans)
  {
    RunKeepsInv(run);
  }

  /** The answering peer starts only after the one that made the offer, and each starts at most once per INVITE. */
  lemma {:induction false} OffererStartsFirst(run: seq<Net>)
    requires IsRun(run)
    ensures Last(run).ansLog.starts <= Last(run).offLog.starts <= 1
  {
    RunKeepsInv(run);
  }

  /** Once the offer has been cancelled, neither peer ever starts in that negotiation, whatever was crossing it. */
  lemma {:induction false} CancelledNeverStarts(run: seq<Net>)
    requires IsRun(run) && Last(run).stage == Cancelled
    ensures var n := Last(run); n.offLog.starts == 0 && n.ansLog.starts == 0 && !Streaming(n.off) && !Streaming(n.ans)
  {
    RunKeepsInv(run);
  }

  /**
   * An ACCEPT that comes after the CANCEL finds it as the last message sent: it is the only one, and is not answered.
   */
  lemma {:induction false} LateAccept(run: seq<Net>, local: Local)
    requires IsRun(run) && Last(run).stage == Cancelled && Last(run).toOff != [] && Last(run).toOff[0].ACCEPT?
    ensures SentCancel(Last(run).off)
    ensures Last(run).toOff[1..] == [] && !Deciding(Last(run).ans)
    ensures var next := Next(Last(run), ToOff(local));
            next.toAns == Last(run).toAns && next.off.manager == STOPPED && next.off.lastSent == Some(BYE)
  {
    RunKeepsInv(run);
    assert Last(run).toAns + [] == Last(run).toAns;
  }

  /** steps[i] leads from run[i] to run[i + 1]. */
  predicate Leads(run: seq<Net>, steps: seq<Step>) {
    && |run| == |steps| + 1
    && forall i :: 0 <= i < |steps| ==> CanStep(run[i], steps[i]) && run[i + 1] == Next(run[i], steps[i])
  }

  /** Nobody streams, and nobody has started since the INVITE. */
  predicate NothingStarted(n: Net) {
    n.offLog.starts == 0 && n.ansLog.starts == 0 && !Streaming(n.off) && !Streaming(n.ans)
  }

  /** The caller closes its window when it is connected: CANCEL leaves. */
  predicate Cancels(n: Net, s: Step) {
    s == AtOff(CloseCalling) && n.off.connected
  }

  lemma {:induction false} StepStaysCancelled(n: Net, s: Step)
    requires Inv(n) && CanStep(n, s) && !s.Invite? && (n.stage == Cancelled || Cancels(n, s))
    ensures Inv(Next(n, s)) && Next(n, s).stage == Cancelled && NothingStarted(Next(n, s))
  {
    NextKeepsInv(n, s);
  }

  /** From a CANCEL on, and until the next INVITE, nothing starts and nobody streams. */
  lemma {:induction false} CancelIsFinal(run: seq<Net>, steps: seq<Step>, i: nat, j: nat)
    requires run != [] && Initial(run[0]) && Leads(run, steps)
    requires i < j < |run| && Cancels(run[i], steps[i])
    requires forall k :: i < k < j ==> !steps[k].Invite?
    ensures Inv(run[j]) && run[j].stage == Cancelled && NothingStarted(run[j])
    decreases j
  {
    if j == i + 1 {
      LeadsKeepInv(run, steps, i);
    } else {
      CancelIsFinal(run, steps, i, j - 1);
    }
    StepStaysCancelled(run[j - 1], steps[j - 1]);
  }

  lemma {:induction false} LeadsKeepInv(run: seq<Net>, steps: seq<Step>, i: nat)
    requires run != [] && Initial(run[0]) && Leads(run, steps) && i < |run|
    ensures Inv(run[i])
  {
    if i == 0 {
    } else {
      LeadsKeepInv(run, steps, i - 1);
      NextKeepsInv(run[i - 1], steps[i - 1]);
    }
  }

  /** What a peer that started its streamers has said, given whether the other's BYE has reached it. */
  predicate SaidGoodbye(a: App, log: Log) {
    && log.stops == (if a.manager == STOPPED then 1 else 0)
    && log.byes <= log.stops
    && (log.byes == 1 ==> log.ownStop)
    && (log.stops == 1 && log.byes == 0 ==> a.gotBye)
  }

  /**
   * A peer that started passes through STOPPED exactly once; it says BYE at most once, never when the other's BYE made
   * it stop, and it stays silent only when it has the other's BYE.
   */
  lemma {:induction false} ByesOfASession(run: seq<Net>)
    requires IsRun(run)
    ensures var n := Last(run);
            && (n.offLog.starts == 1 ==> SaidGoodbye(n.off, n.offLog))
            && (n.ansLog.starts == 1 ==> SaidGoodbye(n.ans, n.ansLog))
  {
    RunKeepsInv(run);
  }

  /** A session that is over on both sides has seen one BYE or two, and two only when both stopped by themselves. */
  lemma {:induction false} SomeoneSaidBye(run: seq<Net>)
    requires IsRun(run)
    requires var n := Last(run); n.offLog.stops == 1 && n.ansLog.stops == 1
    ensures var n := Last(run); 1 <= n.offLog.byes + n.ansLog.byes <= 2
    ensures var n := Last(run); n.offLog.byes + n.ansLog.byes == 2 ==> n.offLog.ownStop && n.ansLog.ownStop
  {
    RunKeepsInv(run);
  }


  // ----- Closing the window

  /** The run goes on from n without a new INVITE from idle peers. */
  predicate GoesOn(n: Net, run: seq<Net>, steps: seq<Step>) {
    && run != [] && run[0] == n && Leads(run, steps)
    && forall k :: 0 <= k < |steps| ==> !steps[k].Invite?
  }

  /** Some course of the negotiation, as it stands in n, leads to a start. */
  ghost predicate MayStart(n: Net) {
    exists run, steps :: GoesOn(n, run, steps) && !NothingStarted(Last(run))
  }

  /** Both configurations together have something to stream, and details that can be gathered. */
  predicate WouldStart(n: Net) {
    StartOutcome(n.off.me, Some(MessageItems(n.ans.me))) == Starts
  }

  lemma {:induction false} StartKeepsMe(a: App)
    ensures StartStreamers(a).app.me == a.me
  {
  }

  lemma {:induction false} AcceptKeepsMe(a: App, items: Items, supported: bool)
    ensures HandleAccept(a, items, supported).app.me == a.me
  {
    StartKeepsMe(a.(negotiating := false, gotBye := false, calling := false, remote := Some(items)));
  }

  lemma {:induction false} ReceiveKeepsMe(a: App, m: Message, local: Local)
    ensures Receive(a, m, local).app.me == a.me
  {
    match m
    case ACCEPT(items) => AcceptKeepsMe(a, items, local.supported);
    case ACK => StartKeepsMe(a.(negotiating := false));
    case _ =>
  }

  lemma {:induction false} PreflightKeepsMe(a: App, items: Items, check: Check, auto: bool, told: bool)
    ensures PreflightDone(a, items, check, auto, told).app.me == a.me
  {
  }

  lemma {:induction false} ConnectionKeepsMe(a: App, purpose: Purpose, made: bool)
    ensures ConnectionDone(a, purpose, made).app.me == a.me
  {
  }

  lemma {:induction false} ActKeepsMe(a: App, e: LocalEvent)
    requires CanAct(a, e)
    ensures Act(a, e).app.me == a.me
  {
    match e
    case Preflight(k, check, auto, told) =>
      PreflightKeepsMe(a.(checking := Without(a.checking, k)), a.checking[k], check, auto, told);
    case Connection(k, made) =>
      ConnectionKeepsMe(a.(connects := Without(a.connects, k)), a.connects[k], made);
    case _ =>
  }

  lemma {:induction false} StepKeepsConfigurations(n: Net, s: Step)
    requires CanStep(n, s) && !s.Invite?
    ensures Next(n, s).off.me == n.off.me && Next(n, s).ans.me == n.ans.me
  {
    match s
    case ToAns(local) => ReceiveKeepsMe(n.ans, n.toAns[0], local);
    case ToOff(local) => ReceiveKeepsMe(n.off, n.toOff[0], local);
    case Stranger(_, _, _) =>
    case AtOff(e) => ActKeepsMe(n.off, e);
    case AtAns(e) => ActKeepsMe(n.ans, e);
    case Invite(_, _, _) =>
  }

  lemma {:induction false} GoesOnKeeps(n: Net, run: seq<Net>, steps: seq<Step>, j: nat)
    requires Inv(n) && GoesOn(n, run, steps) && j < |run|
    ensures Inv(run[j]) && run[j].off.me == n.off.me && run[j].ans.me == n.ans.me
    ensures n.stage == Cancelled ==> run[j].stage == Cancelled
  {
    if j == 0 {
    } else {
      GoesOnKeeps(n, run, steps, j - 1);
      NextKeepsInv(run[j - 1], steps[j - 1]);
      StepKeepsConfigurations(run[j - 1], steps[j - 1]);
      if n.stage == Cancelled { StepStaysCancelled(run[j - 1], steps[j - 1]); }
    }
  }

  lemma {:induction false} StartedWould(n: Net)
    requires Inv(n) && !NothingStarted(n)
    ensures n.stage == InSession && WouldStart(n)
  {
    SameOutcome(n.off.me, n.ans.me);
  }

  /** A start is possible only if no CANCEL has left, and only for configurations that would start. */
  lemma {:induction false} MayStartOnly(n: Net)
    requires Inv(n) && MayStart(n)
    ensures n.stage != Cancelled && WouldStart(n)
  {
    var run, steps :| GoesOn(n, run, steps) && !NothingStarted(Last(run));
    GoesOnKeeps(n, run, steps, |run| - 1);
    StartedWould(Last(run));
  }

  // How a call that is still being made can lead to a session.

  lemma {:induction false} MayStartAfter(n: Net, s: Step)
    requires CanStep(n, s) && !s.Invite? && (MayStart(Next(n, s)) || !NothingStarted(Next(n, s)))
    ensures MayStart(n)
  {
    var next := Next(n, s);
    if !NothingStarted(next) {
      assert GoesOn(n, [n, next], [s]) && !NothingStarted(Last([n, next]));
    } else {
      var run, steps :| GoesOn(next, run, steps) && !NothingStarted(Last(run));
      var run', steps' := [n] + run, [s] + steps;
      forall i | 0 <= i < |steps'|
        ensures CanStep(run'[i], steps'[i]) && run'[i + 1] == Next(run'[i], steps'[i]) && !steps'[i].Invite?
      {
        if i > 0 { assert CanStep(run[i - 1], steps[i - 1]) && run[i] == Next(run[i - 1], steps[i - 1]); }
      }
      assert GoesOn(n, run', steps') && Last(run') == Last(run);
    }
  }

  lemma {:induction false} AcceptedMayStart(n: Net)
    requires Inv(n) && n.stage == Calling && Accepted(n) && WouldStart(n)
    ensures MayStart(n)
  {
    var s := ToOff(Local(true, true, true));
    SameOutcome(n.off.me, n.ans.me);
    AcceptLeadsTo(n, Local(true, true, true));
    MayStartAfter(n, s);
  }

  lemma {:induction false} ConnectingMayStart(n: Net)
    requires Inv(n) && n.stage == Calling && Quiet(n) && n.ans.connects == [ToAccept] && Asked(n) && WouldStart(n)
    ensures MayStart(n)
  {
    var s := AtAns(Connection(0, true));
    CallingKeepsInv(n, s);
    assert Next(n, s).toOff == [] + [ACCEPT(MessageItems(n.ans.me))];
    AcceptedMayStart(Next(n, s));
    MayStartAfter(n, s);
  }

  lemma {:induction false} CheckingMayStart(n: Net)
    requires Inv(n) && n.stage == Calling && Checking(n) && n.off.connects == [] && WouldStart(n)
    ensures MayStart(n)
  {
    var s := AtAns(Preflight(0, Ready, true, true));
    CallingKeepsInv(n, s);
    if n.ans.connected {
      assert Next(n, s).toOff == [] + [ACCEPT(MessageItems(n.ans.me))];
      AcceptedMayStart(Next(n, s));
    } else {
      assert Next(n, s).ans.connects == [] + [ToAccept];
      ConnectingMayStart(Next(n, s));
    }
    MayStartAfter(n, s);
  }

  lemma {:induction false} InvitedMayStart(n: Net)
    requires Inv(n) && n.stage == Calling && Invited(n) && n.off.connects == [] && WouldStart(n)
    ensures MayStart(n)
  {
    var s := ToAns(Local(true, true, true));
    CallingKeepsInv(n, s);
    assert Next(n, s).ans.checking == [] + [MessageItems(n.off.me)];
    CheckingMayStart(Next(n, s));
    MayStartAfter(n, s);
  }

  lemma {:induction false} DialingMayStart(n: Net)
    requires Inv(n) && n.stage == Calling && Dialing(n) && WouldStart(n)
    ensures MayStart(n)
  {
    var s := AtOff(Connection(0, true));
    CallingKeepsInv(n, s);
    assert Next(n, s).toAns == [] + [INVITE(MessageItems(n.off.me))];
    InvitedMayStart(Next(n, s));
    MayStartAfter(n, s);
  }

  // How a call whose answer is still due can lead to a session, and no other.

  /** A yes can still leave: by itself, or once the user gives it over a connection that exists or is being made. */
  predicate YesCanLeave(a: App) {
    (a.connects != [] && a.connects[0] == ToAccept) || (a.dialog && (a.connected || a.connects != []))
  }

  /** The INVITE has yet to leave, to arrive or to be checked, or a yes can leave or has left. */
  predicate Hopeful(n: Net) {
    || n.off.connects != [] || n.toAns != [] || n.ans.checking != [] || YesCanLeave(n.ans)
    || (n.toOff != [] && n.toOff[0].ACCEPT?)
  }

  lemma {:induction false} YesMayStart(n: Net)
    requires Inv(n) && n.stage == Calling && Quiet(n) && n.off.connects == [] && n.ans.checking == []
    requires n.ans.dialog && n.ans.connected && WouldStart(n)
    ensures MayStart(n)
  {
    var s := AtAns(Answer(true));
    CallingKeepsInv(n, s);
    AnswerLeadsTo(n, true);
    AcceptedMayStart(Next(n, s));
    MayStartAfter(n, s);
  }

  lemma {:induction false} AskingMayStart(n: Net)
    requires Inv(n) && n.stage == Calling && Quiet(n) && n.off.connects == [] && n.ans.checking == []
    requires YesCanLeave(n.ans) && WouldStart(n)
    ensures MayStart(n)
  {
    if n.ans.connects == [] {
      YesMayStart(n);
    } else if n.ans.connects[0] == ToAccept {
      assert n.ans.connects == [ToAccept];
      ConnectingMayStart(n);
    } else {
      var s := AtAns(Connection(0, true));
      CallingKeepsInv(n, s);
      ConnectionLeadsTo(n, true);
      YesMayStart(Next(n, s));
      MayStartAfter(n, s);
    }
  }

  lemma {:induction false} HopefulMayStart(n: Net)
    requires Inv(n) && n.stage == Calling && Hopeful(n) && WouldStart(n)
    ensures MayStart(n)
  {
    if Dialing(n) {
      DialingMayStart(n);
    } else if Invited(n) {
      InvitedMayStart(n);
    } else if Checking(n) {
      CheckingMayStart(n);
    } else if Accepted(n) {
      AcceptedMayStart(n);
    } else {
      AskingMayStart(n);
    }
  }

  /** Nothing can be started any more. */
  predicate Hopeless(n: Net) {
    n.stage == Over || n.stage == Cancelled || (n.stage == Calling && !Hopeful(n))
  }

  lemma {:induction false} HopelessAnswerer(n: Net, e: LocalEvent)
    requires Inv(n) && n.stage == Calling && !Hopeful(n) && CanAct(n.ans, e)
    ensures Hopeless(Next(n, AtAns(e)))
  {
    var d := Act(n.ans, e);
    assert n.toOff == [] ==> n.toOff + d.sent == d.sent;
  }

  lemma {:induction false} StaysHopeless(n: Net, s: Step)
    requires Inv(n) && Hopeless(n) && CanStep(n, s) && !s.Invite?
    ensures Hopeless(Next(n, s))
  {
    if n.stage == Calling && s.AtAns? {
      HopelessAnswerer(n, s.e);
    }
  }

  lemma {:induction false} GoesOnHopeless(n: Net, run: seq<Net>, steps: seq<Step>, j: nat)
    requires Inv(n) && Hopeless(n) && GoesOn(n, run, steps) && j < |run|
    ensures Hopeless(run[j])
  {
    if j == 0 {
    } else {
      GoesOnHopeless(n, run, steps, j - 1);
      GoesOnKeeps(n, run, steps, j - 1);
      StaysHopeless(run[j - 1], steps[j - 1]);
    }
  }

  lemma {:induction false} HopelessNeverStarts(n: Net)
    requires Inv(n) && Hopeless(n)
    ensures !MayStart(n)
  {
    if MayStart(n) {
      var run, steps :| GoesOn(n, run, steps) && !NothingStarted(Last(run));
      GoesOnKeeps(n, run, steps, |run| - 1);
      GoesOnHopeless(n, run, steps, |run| - 1);
      StartedWould(Last(run));
    }
  }

  /**
   * The negotiation can lead to a session exactly when it has, or when both configurations together would start and
   * either the INVITE is on its way or being checked, or a yes can leave or is on its way.
   */
  lemma {:induction false} MayStartExactly(run: seq<Net>)
    requires IsRun(run)
    ensures var n := Last(run);
            MayStart(n) <==> n.stage == InSession || (n.stage == Calling && WouldStart(n) && Hopeful(n))
  {
    RunKeepsInv(run);
    var n := Last(run);
    if n.stage == InSession {
      assert GoesOn(n, [n], []) && !NothingStarted(Last([n]));
    } else if Hopeless(n) {
      HopelessNeverStarts(n);
    } else if WouldStart(n) {
      HopefulMayStart(n);
    } else if MayStart(n) {
      MayStartOnly(n);
    }
  }

  /**
   * Closing the calling window prevents the session exactly when the connection exists at that moment, or when the
   * configurations would start nothing anyway: before that no CANCEL leaves, the INVITE still does, and it may be
   * accepted.
   */
  lemma {:induction false} ClosingPreventsExactly(n: Net)
    requires Inv(n) && CanStep(n, AtOff(CloseCalling))
    ensures !MayStart(Next(n, AtOff(CloseCalling))) <==> n.off.connected || !WouldStart(n)
  {
    var next := Next(n, AtOff(CloseCalling));
    NextKeepsInv(n, AtOff(CloseCalling));
    StepKeepsConfigurations(n, AtOff(CloseCalling));
    if MayStart(next) {
      MayStartOnly(next);
    }
    if !n.off.connected && WouldStart(n) {
      DialingMayStart(next);
    }
  }

  /**
   * After a session, or after a call that the caller ended with a BYE, once nothing is in flight, nobody streams and
   * nothing is put off, neither peer is connected: the next call makes a new connection.
   */
  lemma {:induction false} GoodbyesDisconnect(run: seq<Net>)
    requires IsRun(run) && Quiet(Last(run)) && (Last(run).stage == InSession || Last(run).offLog.byes >= 1)
    requires Last(run).off.manager == STOPPED && Last(run).ans.manager == STOPPED
    requires Last(run).off.disconnecting == 0 && Last(run).ans.disconnecting == 0
    ensures !Last(run).off.connected && !Last(run).ans.connected
  {
    RunKeepsInv(run);
    ByeAtRest(Last(run));
  }

  lemma {:induction false} ByeAtRest(n: Net)
    requires Inv(n) && Quiet(n) && (n.stage == InSession || n.offLog.byes >= 1)
    requires n.off.manager == STOPPED && n.ans.manager == STOPPED
    ensures Leaving(n.off) && Leaving(n.ans)
  {
    if n.stage == InSession {
      CountIn(n.toAns, BYE);
      CountIn(n.toOff, BYE);
    }
  }

  /** An OK is an answer: the one that sent it has got the BYE that it answers, and says no BYE of its own after it. */
  lemma {:induction false} OkAnswersBye(run: seq<Net>)
    requires IsRun(run) && Last(run).stage == InSession
    ensures var n := Last(run); (OK in n.toAns ==> n.off.gotBye) && (OK in n.toOff ==> n.ans.gotBye)
    ensures var n := Last(run); NoByeAfterOk(n.toAns) && NoByeAfterOk(n.toOff)
  {
    RunKeepsInv(run);
  }

  // ----- Where each step of a call leads

  /** A connection for the INVITE: made, the INVITE leaves; not made, the call is over and the caller free. */
  lemma {:induction false} DialLeadsTo(n: Net, made: bool)
    requires Inv(n) && n.stage == Calling && Dialing(n)
    ensures var next := Next(n, AtOff(Connection(0, made)));
            && next.off.connected == made && next.off.connects == [] && next.ans == n.ans && next.toOff == []
            && (made ==> && next.stage == Calling && next.toAns == [INVITE(MessageItems(n.off.me))]
                         && next.off.negotiating == n.off.negotiating && next.off.calling == n.off.calling)
            && (!made ==> next.stage == Over && next.toAns == [] && !next.off.negotiating && !next.off.calling)
  {
    assert n.toAns + [INVITE(MessageItems(n.off.me))] == [INVITE(MessageItems(n.off.me))];
  }

  /** The end of a pre-flight check. */
  lemma {:induction false} CheckLeadsTo(n: Net, check: Check, auto: bool, told: bool)
    requires Inv(n) && n.stage == Calling && Checking(n)
    ensures var next := Next(n, AtAns(Preflight(0, check, auto, told)));
            && next.off == n.off && next.toAns == [] && next.ans.checking == []
            && next.ans.connected == n.ans.connected
            && next.ans.remote == (if check == NotReady then n.ans.remote else Some(MessageItems(n.off.me)))
            && (next.ans.dialog <==> check == Ready && !auto)
            && next.ans.connects == (if check != Ready || n.ans.connected then []
                                     else if auto then [ToAccept] else [ToAsk])
            && next.toOff == (if check != Ready && told then [REFUSE]
                              else if check == Ready && auto && n.ans.connected then [ACCEPT(MessageItems(n.ans.me))]
                              else [])
  {
    var d := Act(n.ans, Preflight(0, check, auto, told));
    assert n.toOff + d.sent == d.sent;
    assert n.ans.connects == [];
  }

  /** The connection back to the caller: made or not, only one for accepting at once says something. */
  lemma {:induction false} ConnectionLeadsTo(n: Net, made: bool)
    requires Inv(n) && n.stage == Calling && Asked(n) && n.ans.connects != [] && n.off.connects == []
    ensures var next := Next(n, AtAns(Connection(0, made)));
            && next.off == n.off && next.toAns == [] && next.ans.connects == []
            && next.ans.connected == made && next.ans.dialog == n.ans.dialog
            && next.toOff == (if made && n.ans.connects[0] == ToAccept then [ACCEPT(MessageItems(n.ans.me))] else [])
  {
    var d := Act(n.ans, Connection(0, made));
    assert n.toOff + d.sent == d.sent;
  }

  /** The answer of the user: it leaves over a connection, which a yes keeps and a no gives up. */
  lemma {:induction false} AnswerLeadsTo(n: Net, yes: bool)
    requires Inv(n) && n.stage == Calling && n.ans.dialog
    ensures var next := Next(n, AtAns(Answer(yes)));
            && next.off == n.off && next.toAns == [] && !next.ans.dialog && !next.ans.negotiating
            && next.ans.connects == n.ans.connects
            && next.ans.connected == (n.ans.connected && yes)
            && next.toOff == (if !n.ans.connected then []
                              else if yes then [ACCEPT(MessageItems(n.ans.me))] else [REFUSE])
  {
    var d := Act(n.ans, Answer(yes));
    assert n.toOff + d.sent == d.sent;
  }

  /** A refusal ends the call and frees the caller, which keeps its connection: the next INVITE goes over it. */
  lemma {:induction false} RefusalLeadsTo(n: Net, local: Local)
    requires Inv(n) && n.stage == Calling && Refused(n)
    ensures var next := Next(n, ToOff(local));
            && next.stage == Over && Quiet(next) && next.ans == n.ans
            && next.off == n.off.(negotiating := false, calling := false) && next.off.connected
  {
    assert n.toAns + [] == n.toAns;
  }

  /** A CANCEL closes the dialog and the connection without a word; without a name for the caller it does neither. */
  lemma {:induction false} CancelLeadsTo(n: Net, local: Local)
    requires Inv(n) && n.stage == Cancelled && n.toAns != [] && n.toAns[0].CANCEL?
    ensures var next := Next(n, ToAns(local));
            && next.off == n.off && next.toAns == n.toAns[1..] && next.toOff == n.toOff && !next.ans.negotiating
            && next.ans.checking == n.ans.checking && next.ans.connects == n.ans.connects
            && (local.named ==> !next.ans.connected && !next.ans.dialog)
            && (!local.named ==> next.ans == n.ans.(negotiating := false))
  {
    assert n.toOff + [] == n.toOff;
  }

  /** A third peer that invites a busy one changes nothing but, out of a session, the memory of an old BYE. */
  lemma {:induction false} StrangersChangeNothing(n: Net, atOff: bool, items: Items, told: bool)
    requires CanStep(n, Stranger(atOff, items, told))
    ensures var next := Next(n, Stranger(atOff, items, told));
            && next == n.(off := next.off, ans := next.ans)
            && (next.off == n.off || (n.off.manager == STOPPED && next.off == n.off.(gotBye := false)))
            && (next.ans == n.ans || (n.ans.manager == STOPPED && next.ans == n.ans.(gotBye := false)))
  {
    StrangersAreRefused(if atOff then n.off else n.ans, items, told);
  }

  // ----- Calls that nobody will answer

  /** The INVITE has left, but nothing is in flight and no answer is due. */
  predicate Unanswered(n: Net) {
    n.stage == Calling && n.off.connects == [] && Quiet(n) && !Deciding(n.ans)
  }

  /**
   * With nothing in flight, nobody connecting for an INVITE and no answer due, the caller counts as negotiating exactly
   * when the call is unanswered and its window is open, and the other peer only when the call is unanswered.
   */
  lemma {:induction false} StuckExactly(run: seq<Net>)
    requires IsRun(run) && Quiet(Last(run)) && Last(run).off.connects == [] && !Deciding(Last(run).ans)
    ensures Last(run).off.negotiating <==> Unanswered(Last(run)) && Last(run).off.calling
    ensures Last(run).ans.negotiating ==> Unanswered(Last(run))
  {
    RunKeepsInv(run);
  }

  /**
   * The user answers, yes or no, over no connection; or the connection of an invitation to accept at once fails; or
   * that of the refusal after a failed check does.
   */
  predicate Loses(a: App, e: LocalEvent)
    requires CanAct(a, e)
  {
    || (e.Answer? && !a.connected)
    || (e.Connection? && a.connects[e.k] == ToAccept && !e.made)
    || (e.Preflight? && e.check != Ready && !e.told)
  }

  predicate LosesAnswer(n: Net, s: Step) {
    s.AtAns? && CanAct(n.ans, s.e) && Loses(n.ans, s.e)
  }

  lemma {:induction false} RefusalLost(a: App, e: LocalEvent)
    requires AtMostOneAnswer(a) && a.negotiating && CanAct(a, e) && e.Preflight?
    ensures Act(a, e).sent == [] && !Deciding(Act(a, e).app) <==> Loses(a, e)
    ensures Loses(a, e) ==> !Act(a, e).app.negotiating
  {
  }

  /** Of a peer that has yet to answer: it still has to, or something leaves, unless the answer is lost. */
  lemma {:induction false} DecisionLost(a: App, e: LocalEvent)
    requires AtMostOneAnswer(a) && Deciding(a) && a.negotiating && CanAct(a, e)
    requires !a.calling && a.disconnecting == 0 && a.manager == STOPPED
    ensures Act(a, e).sent == [] && !Deciding(Act(a, e).app) <==> Loses(a, e)
    ensures Loses(a, e) ==> (Act(a, e).app.negotiating <==> e.Connection?)
  {
    if e.Preflight? { RefusalLost(a, e); }
  }

  lemma {:induction false} UnansweredHere(n: Net, e: LocalEvent)
    requires Inv(n) && n.stage == Calling && !Unanswered(n) && CanAct(n.ans, e)
    ensures Unanswered(Next(n, AtAns(e))) <==> LosesAnswer(n, AtAns(e))
    ensures LosesAnswer(n, AtAns(e)) ==> (Next(n, AtAns(e)).ans.negotiating <==> e.Connection?)
  {
    var d := Act(n.ans, e);
    assert Next(n, AtAns(e)).ans == d.app && Next(n, AtAns(e)).toAns == n.toAns;
    if Deciding(n.ans) {
      DecisionLost(n.ans, e);
      assert n.toOff == [] && n.toOff + d.sent == d.sent;
    } else {
      assert n.toOff != [] && Next(n, AtAns(e)).toOff != [];
    }
  }

  /**
   * A call becomes unanswered exactly when its answer is lost; only the failed connection of an automatic acceptance
   * leaves the answering peer negotiating.
   */
  lemma {:induction false} UnansweredExactly(n: Net, s: Step)
    requires Inv(n) && n.stage == Calling && !Unanswered(n) && CanStep(n, s)
    ensures Unanswered(Next(n, s)) <==> LosesAnswer(n, s)
    ensures LosesAnswer(n, s) ==> (Next(n, s).off.negotiating <==> n.off.calling)
    ensures LosesAnswer(n, s) ==> (Next(n, s).ans.negotiating <==> s.e.Connection?)
  {
    if s.AtAns? {
      UnansweredHere(n, s.e);
    }
  }

  /** Once unanswered, a call stays so, with the same peers negotiating, until the caller gives it up or calls anew. */
  lemma {:induction false} UnansweredStays(n: Net, s: Step)
    requires Inv(n) && Unanswered(n) && CanStep(n, s)
    ensures Unanswered(Next(n, s)) <==> s != AtOff(CloseCalling) && !s.Invite?
    ensures Unanswered(Next(n, s)) ==> Next(n, s).off.negotiating == n.off.negotiating
    ensures Unanswered(Next(n, s)) ==> Next(n, s).ans.negotiating == n.ans.negotiating
  {
  }

  /**
   * When the window was closed before the connection existed, and the answering peer is left negotiating, nothing ever
   * frees it.
   */
  lemma {:induction false} AbandonedForever(n: Net, run: seq<Net>, steps: seq<Step>, j: nat)
    requires Inv(n) && Unanswered(n) && !n.off.negotiating && n.ans.negotiating
    requires run != [] && run[0] == n && Leads(run, steps) && j < |run|
    ensures Inv(run[j]) && Unanswered(run[j]) && !run[j].off.negotiating && run[j].ans.negotiating
  {
    if j == 0 {
    } else {
      AbandonedForever(n, run, steps, j - 1);
      NextKeepsInv(run[j - 1], steps[j - 1]);
      UnansweredStays(run[j - 1], steps[j - 1]);
    }
  }

  lemma {:induction false} StepIsRun(run: seq<Net>, s: Step) returns (run': seq<Net>)
    requires IsRun(run) && CanStep(Last(run), s)
    ensures IsRun(run') && run'[0] == run[0] && Last(run') == Next(Last(run), s)
  {
    run' := run + [Next(Last(run), s)];
    forall i | 0 < i < |run'|
      ensures Steps(run'[i - 1], run'[i])
    {
      if i < |run| { assert Steps(run[i - 1], run[i]); }
    }
  }

  /** The caller is connecting, its window closed early or not. */
  lemma {:induction false} CallIsMade(n: Net, offMe: Peer, ansMe: Peer, early: bool) returns (run: seq<Net>)
    requires Initial(n) && !n.off.connected && !n.ans.connected
    ensures IsRun(run) && run[0] == n
    ensures Last(run).stage == Calling && Dialing(Last(run)) && !Last(run).ans.connected
    ensures Last(run).off.negotiating <==> !early
  {
    run := StepIsRun([n], Invite(false, offMe, ansMe));
    assert Last(run).off.connects == [] + [ToInvite(MessageItems(offMe))];
    if early {
      run := StepIsRun(run, AtOff(CloseCalling));
    }
  }

  /** The INVITE has come and is being checked, with the window of the caller closed early or not. */
  lemma {:induction false} CallIsChecked(n: Net, offMe: Peer, ansMe: Peer, early: bool) returns (run: seq<Net>)
    requires Initial(n) && !n.off.connected && !n.ans.connected
    ensures IsRun(run) && run[0] == n && Inv(Last(run))
    ensures var m := Last(run);
            && m.stage == Calling && Checking(m) && m.off.connects == [] && !m.ans.connected
            && (m.off.negotiating <==> !early)
  {
    run := CallIsMade(n, offMe, ansMe, early);
    run := StepIsRun(run, AtOff(Connection(0, true)));
    RunKeepsInv(run);
    assert Invited(Last(run));
    run := StepIsRun(run, ToAns(Local(true, true, true)));
    RunKeepsInv(run);
  }

  /**
   * From any initial state an answer can be lost in four ways: a yes, a no, a connection that fails, and a refusal that
   * does not reach the caller.
   */
  lemma {:induction false} AnswersGetLost(n: Net, offMe: Peer, ansMe: Peer, early: bool, lost: LocalEvent)
    returns (run: seq<Net>)
    requires Initial(n) && !n.off.connected && !n.ans.connected
    requires lost.Answer? || lost == Connection(0, false) || lost == Preflight(0, NotReady, false, false)
    ensures IsRun(run) && run[0] == n && Unanswered(Last(run))
    ensures Last(run).off.negotiating <==> !early
    ensures Last(run).ans.negotiating <==> lost.Connection?
  {
    run := CallIsChecked(n, offMe, ansMe, early);
    if !lost.Preflight? {
      run := StepIsRun(run, AtAns(Preflight(0, Ready, lost.Connection?, true)));
      assert Last(run).ans.connects == [] + [if lost.Connection? then ToAccept else ToAsk];
      RunKeepsInv(run);
    }
    UnansweredExactly(Last(run), AtAns(lost));
    run := StepIsRun(run, AtAns(lost));
  }

  /**
   * A handler fails exactly in two cases: a CANCEL from a contact without a name, and an ACCEPT in time for details
   * that cannot be gathered. In particular no message makes a busy manager start.
   */
  lemma {:induction false} RaisesExactly(run: seq<Net>, local: Local)
    requires IsRun(run)
    ensures var n := Last(run);
            n.toAns != [] ==> (Receive(n.ans, n.toAns[0], local).raised <==> n.toAns[0].CANCEL? && !local.named)
    ensures var n := Last(run);
            n.toOff != [] ==>
              (Receive(n.off, n.toOff[0], local).raised <==>
               && n.toOff[0].ACCEPT? && n.stage == Calling && local.supported
               && StartOutcome(n.off.me, Some(n.toOff[0].items)) == Raises)
  {
    RunKeepsInv(run);
  }

  /** In a session, what each peer sends is what the other expects, and their processes pair. */
  lemma {:induction false} SessionsMirror(run: seq<Net>, r: Role)
    requires IsRun(run) && Last(run).stage == InSession
    ensures var n := Last(run);
            && n.off.remote.Some? && n.ans.remote.Some?
            && var (a, b) := (Gathered(n.off.me, n.off.remote.value), Gathered(n.ans.me, n.ans.remote.value));
            && a.Success? && b.Success? && Mirrors(a.value, b.value) && Mirrors(b.value, a.value)
            && (r in Roles(a.value) <==> Counterpart(r) in Roles(b.value))
  {
    RunKeepsInv(run);
    var n := Last(run);
    SidesMirror(n.ans.me, n.off.me);
    ProcessesPair(n.off.me, n.ans.me, r);
  }
}
