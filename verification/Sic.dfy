/**
 * One peer of the session initiation: what every message, user action, deferred call and streamer event does to it,
 * as functions of values. Module Application has the classes that carry this out.
 */
module Sic {
  import opened Wrappers
  import opened SessionDetails
  import opened Supervision

  /** Why an offer is cancelled: the one reason that the program gives, or any other text. */
  datatype CancelReason = CANCELLED | UNKNOWN

  datatype Message =
    INVITE(items: Items) | ACCEPT(items: Items) | REFUSE | CANCEL(reason: CancelReason) | ACK | BYE | OK

  /**
   * What depends on the receiving host about a message: whether the codecs that the other side asks for are installed,
   * whether the sender has a name to show, which an address book entry may leave empty, and whether a refusal over a
   * connection of its own reaches the sender.
   */
  datatype Local = Local(supported: bool, named: bool, told: bool)

  /** What a connection is being made for: to send an INVITE, to ask the user, or to accept at once. */
  datatype Purpose = ToInvite(items: Items) | ToAsk | ToAccept

  /**
   * The state of one application. me is its configuration and receiving ports; manager is the state of its streamer
   * manager; calling and dialog are its two windows; checking holds the invitations whose pre-flight check is not
   * over; connects holds the connections being made, each with its purpose; disconnecting counts the disconnections
   * put off to a later turn of the reactor.
   */
  datatype App = App(
    me: Peer, remote: Option<Items>, negotiating: bool, gotBye: bool, connected: bool, lastSent: Option<Message>,
    manager: ChildState, calling: bool, dialog: bool, checking: seq<Items>, connects: seq<Purpose>, disconnecting: nat)

  /** What a call does: the new state, the messages that leave, and whether it ends in an exception. */
  datatype Done = Done(app: App, sent: seq<Message>, raised: bool)

  predicate Streaming(a: App) {
    a.manager == STARTING || a.manager == RUNNING
  }

  // ----- Sending

  /** The client remembers the message even when it is not connected, and then the message is lost. */
  function Send(a: App, m: Message): Done {
    Done(a.(lastSent := Some(m)), if a.connected then [m] else [], false)
  }

  function SendBye(a: App): Done {
    Send(a, BYE).(app := Send(a, BYE).app.(negotiating := false))
  }

  function SendAccept(a: App): Done {
    var m := ACCEPT(MessageItems(a.me));
    Send(a, m).(app := Send(a, m).app.(negotiating := false))
  }

  function SendRefuseAndDisconnect(a: App): Done {
    Send(a, REFUSE).(app := Send(a, REFUSE).app.(connected := false, negotiating := false))
  }

  /** Sends CANCEL when connected; nobody is told otherwise. */
  function SendCancelAndDisconnect(a: App, reason: CancelReason): Done {
    var d := Send(a, CANCEL(reason));
    if a.connected then d.(app := d.app.(connected := false, negotiating := false))
    else Done(a.(negotiating := false), [], false)
  }

  /** CANCEL was the last message given to the client. */
  predicate SentCancel(a: App) {
    a.lastSent.Some? && a.lastSent.value.CANCEL?
  }

  /** INVITE leaves over an existing connection, else a connection is begun for it; the calling window opens at once. */
  function SendInvite(a: App): Done {
    var b := a.(negotiating := true, calling := true);
    if b.connected then Send(b, INVITE(MessageItems(b.me)))
    else Done(b.(connects := b.connects + [ToInvite(MessageItems(b.me))]), [], false)
  }

  /** A refusal over a connection of its own, which may fail; then nobody is told. */
  function SimplyRefuse(told: bool): seq<Message> {
    if told then [REFUSE] else []
  }

  // ----- The streamers

  datatype Outcome = Starts | Disabled | Raises

  /** What starting the streamers with this remote configuration leads to. */
  function StartOutcome(me: Peer, remote: Option<Items>): Outcome {
    if remote == None then Raises
    else if AllDisabled(me.config, remote.value) then Disabled
    else if Gathered(me, remote.value).Success? then Starts
    else Raises
  }

  function StopManager(a: App): App {
    if Streaming(a) then a.(manager := STOPPING) else a
  }

  function StopStreamers(a: App): App {
    StopManager(a).(negotiating := false)
  }

  function StartStreamers(a: App): Done {
    match StartOutcome(a.me, a.remote)
    case Disabled => SendBye(a).(app := StopStreamers(SendBye(a).app))
    case Starts =>
      if a.manager == STOPPED then Done(a.(manager := STARTING, negotiating := false), [], false) else Done(a, [], true)
    case Raises => Done(a, [], true)
  }

  /** The streamer manager becomes STOPPED: the peer is told, unless it was the one to say BYE. */
  function Stopped(a: App): Done {
    if a.gotBye then Done(a.(manager := STOPPED), [], false)
    else SendBye(a).(app := SendBye(a).app.(manager := STOPPED))
  }

  // ----- Receiving

  function HandleInvite(a: App, items: Items, told: bool): Done {
    if a.manager != STOPPED then Done(a, SimplyRefuse(told), false)
    else if a.negotiating then Done(a.(gotBye := false), SimplyRefuse(told), false)
    else Done(a.(gotBye := false, negotiating := true, checking := a.checking + [items]), [], false)
  }

  /** Fails, with the connection and the dialog left as they are, when there is no name or reason to show. */
  function HandleCancel(a: App, reason: CancelReason, named: bool): Done {
    var b := a.(negotiating := false);
    if !named || reason != CANCELLED then Done(b, [], true)
    else if b.dialog then SendRefuseAndDisconnect(b.(connected := false, dialog := false))
    else Done(b.(connected := false), [], false)
  }

  /** supported tells whether the codecs that the other side asks for are installed here. */
  function HandleAccept(a: App, items: Items, supported: bool): Done {
    if SentCancel(a) then SendBye(a.(negotiating := false))
    else
      var b := a.(negotiating := false, gotBye := false, calling := false, remote := Some(items));
      if !supported then SendBye(b)
      else if b.manager != STOPPED then Done(b, [], false)
      else
        var started := StartStreamers(b);
        if started.raised then started
        else Done(Send(started.app, ACK).app, started.sent + Send(started.app, ACK).sent, false)
  }

  function HandleRefuse(a: App): Done {
    Done(a.(negotiating := false, calling := false), [], false)
  }

  function HandleAck(a: App): Done {
    StartStreamers(a.(negotiating := false))
  }

  function DisconnectLater(a: App): App {
    if a.connected then a.(disconnecting := a.disconnecting + 1) else a
  }

  function HandleBye(a: App): Done {
    var b := StopStreamers(a.(negotiating := false, gotBye := true));
    if b.connected then Send(b, OK).(app := DisconnectLater(Send(b, OK).app)) else Done(b, [], false)
  }

  function HandleOk(a: App): Done {
    Done(DisconnectLater(a.(negotiating := false)), [], false)
  }

  function Receive(a: App, m: Message, local: Local): Done {
    match m
    case INVITE(items) => HandleInvite(a, items, local.told)
    case CANCEL(reason) => HandleCancel(a, reason, local.named)
    case ACCEPT(items) => HandleAccept(a, items, local.supported)
    case REFUSE => HandleRefuse(a)
    case ACK => HandleAck(a)
    case BYE => HandleBye(a)
    case OK => HandleOk(a)
  }

  // ----- What else can happen

  /** The end of a pre-flight check: refused before or after the remote configuration is stored, or fine. */
  datatype Check = NotReady | Mismatch | Ready

  /**
   * Of a pre-flight check, auto tells that the contact is accepted without asking, and told whether a refusal reaches
   * the sender of the invitation.
   */
  datatype LocalEvent =
    | Preflight(k: nat, check: Check, auto: bool, told: bool)
    | Connection(k: nat, made: bool)
    | Answer(yes: bool)
    | CloseCalling
    | Disconnect
    | StopClicked
    | OneRuns                                      // a first process reports that it runs
    | Dies(last: bool)                             // a process ends; last: no other one lives

  predicate CanAct(a: App, e: LocalEvent) {
    match e
    case Preflight(k, _, _, _) => k < |a.checking|
    case Connection(k, _) => k < |a.connects|
    case Answer(_) => a.dialog
    case CloseCalling => a.calling
    case Disconnect => a.disconnecting > 0
    case StopClicked => a.manager != STOPPED
    case OneRuns => a.manager == STARTING
    case Dies(_) => a.manager != STOPPED
  }

  function PreflightDone(a: App, items: Items, check: Check, auto: bool, told: bool): Done {
    match check
    case NotReady => Done(a.(negotiating := false), SimplyRefuse(told), false)
    case Mismatch => Done(a.(remote := Some(items), negotiating := false), SimplyRefuse(told), false)
    case Ready =>
      var b := a.(remote := Some(items));
      if !b.connected then
        Done(b.(connects := b.connects + [if auto then ToAccept else ToAsk], dialog := b.dialog || !auto), [], false)
      else if auto then SendAccept(b)
      else Done(b.(dialog := true), [], false)
  }

  /** Only a failure to connect for an INVITE is handled: the calling window goes, and the peer is free. */
  function ConnectionDone(a: App, purpose: Purpose, made: bool): Done {
    var b := a.(connected := made);
    match purpose
    case ToInvite(items) =>
      if made then Send(b, INVITE(items)) else Done(b.(calling := false, negotiating := false), [], false)
    case ToAccept => if made then SendAccept(b) else Done(b, [], false)
    case ToAsk => Done(b, [], false)
  }

  function Without<T>(s: seq<T>, k: nat): (r: seq<T>)
    requires k < |s|
    ensures |r| == |s| - 1
  {
    s[..k] + s[k + 1..]
  }

  function Act(a: App, e: LocalEvent): Done
    requires CanAct(a, e)
  {
    match e
    case Preflight(k, check, auto, told) =>
      PreflightDone(a.(checking := Without(a.checking, k)), a.checking[k], check, auto, told)
    case Connection(k, made) =>
      ConnectionDone(a.(connects := Without(a.connects, k)), a.connects[k], made)
    case Answer(yes) => if yes then SendAccept(a.(dialog := false)) else SendRefuseAndDisconnect(a.(dialog := false))
    case CloseCalling => SendCancelAndDisconnect(a.(calling := false), CANCELLED)
    case Disconnect => Done(a.(disconnecting := a.disconnecting - 1, connected := false), [], false)
    case StopClicked => Done(StopStreamers(a), [], false)
    case OneRuns => Done(a.(manager := RUNNING), [], false)
    case Dies(last) => if last then Stopped(StopManager(a)) else Done(StopManager(a), [], false)
  }

  // ----- How this fits the streamers and the session details

  /** Starting meets no error exactly when some process has something to stream and the details can be gathered. */
  lemma {:induction false} StartsExactly(me: Peer, remote: Items)
    ensures StartOutcome(me, Some(remote)) == Starts
       <==> Gathered(me, remote).Success? && Roles(Gathered(me, remote).value) != {}
  {
    if Gathered(me, remote).Success? {
      var d := Gathered(me, remote).value;
      assert Sender in Roles(d) || ExtraSender in Roles(d) <==> d.sendVideo.enabled || d.sendAudio.enabled;
      assert Receiver in Roles(d) || ExtraReceiver in Roles(d) <==> d.receiveVideo.enabled || d.receiveAudio.enabled;
      assert MidiSender in Roles(d) <==> d.sendMidi.enabled;
      assert MidiReceiver in Roles(d) <==> d.receiveMidi.enabled;
    }
  }

  /** Once each peer has the other's configuration, both starts have the same outcome. */
  lemma {:induction false} SameOutcome(a: Peer, b: Peer)
    ensures StartOutcome(a, Some(MessageItems(b))) == StartOutcome(b, Some(MessageItems(a)))
  {
    DisabledTogether(a, b);
    SidesMirror(a, b);
  }

  /** The start of these processes is what this application asks its streamer manager for. */
  predicate StartsAs(a: App, roles: set<Role>) {
    && StartOutcome(a.me, a.remote) == Starts
    && roles == Roles(Gathered(a.me, a.remote.value).value)
  }

  /**
   * What one event of the streamer manager does to an application. A start is followed by OneRuns, within the same
   * call, exactly when a process that it spawns reports its connection at once.
   */
  function Seen(a: App, s: Session, e: Supervision.Event): App
    requires Supervision.Inv(s) && Supervision.Enabled(s, e) && a.manager == s.state
    requires e.Start? ==> StartsAs(a, e.roles)
  {
    match e
    case Start(roles, sync) =>
      var started := StartStreamers(a).app;
      if roles * sync != {} then Act(started, OneRuns).app else started
    case UserStop => if s.state == STOPPED then a else Act(a, StopClicked).app
    case Connect(r) => if s.state == STARTING then Act(a, OneRuns).app else a
    case End(r) => Act(a, Dies(NoOtherLives(s, r))).app
    case KillTimer(r) => a
  }

  lemma {:induction false} SeenStart(a: App, s: Session, roles: set<Role>, sync: set<Role>)
    requires Supervision.Inv(s) && s.state == STOPPED && roles != {} && a.manager == s.state && StartsAs(a, roles)
    ensures Seen(a, s, Supervision.Event.Start(roles, sync)).manager
         == Supervision.Apply(s, Supervision.Event.Start(roles, sync)).state
    ensures !StartStreamers(a).raised
  {
  }

  lemma {:induction false} DiesGives(a: App, last: bool)
    requires a.manager != STOPPED
    ensures Act(a, Dies(last)).app.manager == if last then STOPPED else STOPPING
  {
  }

  lemma {:induction false} SeenEnd(a: App, s: Session, r: Role)
    requires Supervision.Inv(s) && Supervision.Enabled(s, End(r)) && a.manager == s.state
    ensures Seen(a, s, End(r)).manager == Supervision.Apply(s, End(r)).state
  {
    EndState(s, r);
    DiesGives(a, NoOtherLives(s, r));
  }

  /** The manager of the negotiation model and the supervision of the processes agree, event by event, on its state. */
  lemma {:induction false} SeenMoves(a: App, s: Session, e: Supervision.Event)
    requires Supervision.Inv(s) && Supervision.Enabled(s, e) && a.manager == s.state
    requires e.Start? ==> StartsAs(a, e.roles)
    ensures Seen(a, s, e).manager == Supervision.Apply(s, e).state
    ensures e.Start? ==> !StartStreamers(a).raised
  {
    match e
    case Start(roles, sync) => SeenStart(a, s, roles, sync);
    case End(r) => SeenEnd(a, s, r);
    case Connect(r) => ConnectKeepsInv(s, r);
    case _ =>
  }

  // ----- What every call keeps

  /** Apart from an INVITE, every message leaves the peer free of the negotiation, even when its handler fails. */
  lemma {:induction false} MessagesFree(a: App, m: Message, local: Local)
    requires !m.INVITE?
    ensures !Receive(a, m, local).app.negotiating
  {
  }

  /** So does every answer, every closed window, every stop, and every check that fails. */
  lemma {:induction false} AnswersFree(a: App, e: LocalEvent)
    requires CanAct(a, e)
    requires e.Answer? || e.CloseCalling? || e.StopClicked? || (e.Preflight? && e.check != Ready)
    ensures !Act(a, e).app.negotiating
  {
  }

  /**
   * The last message sent is the last one given to the client; only a refusal over a connection of its own leaves it as
   * it was.
   */
  lemma {:induction false} LastSentByMessage(a: App, m: Message, local: Local)
    ensures var d := Receive(a, m, local);
            if m.INVITE? then d.app.lastSent == a.lastSent
            else d.sent != [] ==> d.app.lastSent == Some(d.sent[|d.sent| - 1])
  {
  }

  lemma {:induction false} LastSentByEvent(a: App, e: LocalEvent)
    requires CanAct(a, e)
    ensures var d := Act(a, e);
            if e.Preflight? && e.check != Ready then d.app.lastSent == a.lastSent
            else d.sent != [] ==> d.app.lastSent == Some(d.sent[|d.sent| - 1])
  {
  }

  /** An INVITE that finds the peer in a session, or negotiating, is refused, and disturbs neither. */
  lemma {:induction false} StrangersAreRefused(a: App, items: Items, told: bool)
    requires a.manager != STOPPED || a.negotiating
    ensures var d := HandleInvite(a, items, told);
            && !d.raised && d.sent == (if told then [REFUSE] else [])
            && (d.app == a || (a.manager == STOPPED && d.app == a.(gotBye := false)))
  {
  }

  /** A stray ACCEPT never touches streamers that run: it starts nothing, and is not acknowledged. */
  lemma {:induction false} BusyAccept(a: App, items: Items, supported: bool)
    requires a.manager != STOPPED
    ensures var d := HandleAccept(a, items, supported);
            && d.app.manager == a.manager && !d.raised && d.app.connected == a.connected && ACK !in d.sent
            && (supported && !SentCancel(a) ==> d.sent == [])
  {
  }

  /** When there is something to stream, starting fails exactly when the streamer manager refuses to start. */
  lemma {:induction false} StartRaisesExactly(a: App)
    requires StartOutcome(a.me, a.remote) != Disabled
    ensures StartStreamers(a).raised
       <==> !(&& a.manager == STOPPED && a.remote.Some? && Gathered(a.me, a.remote.value).Success?
              && Roles(Gathered(a.me, a.remote.value).value) != {})
    ensures StartStreamers(a).raised ==> StartStreamers(a).app == a && StartStreamers(a).sent == []
  {
    if a.remote.Some? { StartsExactly(a.me, a.remote.value); }
  }
}
