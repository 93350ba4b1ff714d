/** The application and its message client, whose methods carry out the functions of module Sic. */
module Application {
  import opened Wrappers
  import opened SessionDetails
  import opened Supervision
  import opened Sic

  /** What leaves this host for the other peer, in order. */
  class Wire {
    var sent: seq<Message>

    constructor ()
      ensures sent == []
    {
      sent := [];
    }

    method Put(m: Message)
      modifies this
      ensures sent == old(sent) + [m]
    {
      sent := sent + [m];
    }
  }

  /** The TCP sender. */
  class Client {
    const wire: Wire
    var host: Option<string>
    var port: Option<int>
    var sicSender: bool  // a connection exists
    var lastMessageSent: Option<Message>

    constructor (wire: Wire)
      ensures this.wire == wire && !sicSender && host == None && port == None && lastMessageSent == None
    {
      this.wire := wire;
      host, port, sicSender, lastMessageSent := None, None, false, None;
    }

    /** Begins to connect. True stands for the result that is there at once, the client being connected already. */
    method Connect(host: string, port: int) returns (already: bool)
      modifies this`host, this`port
      ensures already == sicSender
      ensures if already then this.host == old(this.host) && this.port == old(this.port)
              else this.host == Some(host) && this.port == Some(port)
    {
      already := IsConnected();
      if !already {
        this.host, this.port := Some(host), Some(port);
      }
    }

    /** The connection is there, or could not be made. */
    method OnConnected(made: bool)
      modifies this`sicSender
      ensures sicSender == made
    {
      sicSender := made;
    }

    method Send(m: Message)
      modifies this`lastMessageSent, wire
      ensures lastMessageSent == Some(m)
      ensures wire.sent == if sicSender then old(wire.sent) + [m] else old(wire.sent)
    {
      lastMessageSent := Some(m);
      if IsConnected() {
        wire.Put(m);
      }
    }

    predicate IsConnected()
      reads this
    {
      sicSender
    }

    method Disconnect()
      modifies this`port, this`sicSender
      ensures !sicSender && port == if old(sicSender) then None else old(port)
    {
      if IsConnected() {
        port := None;
        sicSender := false;
      }
    }
  }

  /** What inviting does: without a contact the peer stays marked as negotiating, and a failed check undoes the mark. */
  function Invited(a: App, contact: bool, ready: bool): Done {
    if !contact then Done(a.(negotiating := true), [], false)
    else if !ready then Done(a.(negotiating := false), [], false)
    else Sic.SendInvite(a)
  }

  class Application {
    const wire: Wire
    const client: Client
    var me: Peer
    var remoteConfig: Option<Items>
    var isNegotiating: bool
    var gotBye: bool
    var streamerManager: ChildState
    var callingDialog: bool
    var invitedDialog: bool
    var preflights: seq<Items>
    var connecting: seq<Purpose>
    var callLater: nat

    constructor (me: Peer)
      ensures Valid() && fresh(wire) && fresh(client) && wire.sent == []
      ensures View() == App(me, None, false, false, false, None, STOPPED, false, false, [], [], 0)
    {
      var w := new Wire();
      var c := new Client(w);
      wire, client := w, c;
      this.me, remoteConfig, isNegotiating, gotBye, streamerManager := me, None, false, false, STOPPED;
      callingDialog, invitedDialog, preflights, connecting, callLater := false, false, [], [], 0;
    }

    ghost predicate Valid() {
      client.wire == wire
    }

    ghost function View(): App
      reads this, client
    {
      App(me, remoteConfig, isNegotiating, gotBye, client.sicSender, client.lastMessageSent, streamerManager,
          callingDialog, invitedDialog, preflights, connecting, callLater)
    }

    /** What a call has done since the state and the wire were these. */
    ghost predicate Did(d: Done, wireBefore: seq<Message>)
      reads this, client, wire
    {
      View() == d.app && wire.sent == wireBefore + d.sent
    }

    // ----- Sending

    method SendBye()
      requires Valid()
      modifies this, client, wire
      ensures Did(Sic.SendBye(old(View())), old(wire.sent))
    {
      client.Send(BYE);
      isNegotiating := false;
    }

    method SendAck()
      requires Valid()
      modifies client, wire
      ensures Did(Sic.Send(old(View()), ACK), old(wire.sent))
    {
      client.Send(ACK);
    }

    method SendAccept()
      requires Valid()
      modifies this, client, wire
      ensures Did(Sic.SendAccept(old(View())), old(wire.sent))
    {
      client.Send(ACCEPT(MessageItems(me)));
      isNegotiating := false;
    }

    method SendRefuseAndDisconnect()
      requires Valid()
      modifies this, client, wire
      ensures Did(Sic.SendRefuseAndDisconnect(old(View())), old(wire.sent))
    {
      client.Send(REFUSE);
      client.Disconnect();
      isNegotiating := false;
    }

    method SendCancelAndDisconnect(reason: CancelReason := UNKNOWN)
      requires Valid()
      modifies this, client, wire
      ensures Did(Sic.SendCancelAndDisconnect(old(View()), reason), old(wire.sent))
    {
      if client.IsConnected() {
        client.Send(CANCEL(reason));
        client.Disconnect();
      }
      isNegotiating := false;
    }

    /** The calling window is closed. */
    method OnInviteContactCancelled()
      requires Valid() && CanAct(View(), CloseCalling)
      modifies this, client, wire
      ensures Did(Act(old(View()), CloseCalling), old(wire.sent))
    {
      callingDialog := false;
      SendCancelAndDisconnect(CANCELLED);
    }

    /** Invites the selected contact; ready tells how the pre-flight check ends. OnConnection follows, if it must. */
    method SendInvite(contact: Option<(string, int)>, ready: bool)
      requires Valid()
      modifies this, client, wire
      ensures Did(Invited(old(View()), contact.Some?, ready), old(wire.sent))
    {
      isNegotiating := true;
      if contact == None {
        return;
      }
      if !ready {
        isNegotiating := false;
        return;
      }
      var msg := MessageItems(me);
      var connected := client.Connect(contact.value.0, contact.value.1);
      if connected {
        client.Send(INVITE(msg));
      } else {
        connecting := connecting + [ToInvite(msg)];
      }
      callingDialog := true;
    }

    /** The button that invites: during a session it stops the session, and during a negotiation it does nothing. */
    method OnInviteContactClicked(contact: Option<(string, int)>, ready: bool)
      requires Valid()
      modifies this, client, wire
      ensures var a := old(View());
              Did(if a.manager != STOPPED then Act(a, StopClicked)
                  else if a.negotiating then Done(a, [], false)
                  else Invited(a, contact.Some?, ready),
                  old(wire.sent))
    {
      if streamerManager != STOPPED {
        StopStreamers();
      } else if !isNegotiating {
        SendInvite(contact, ready);
      }
    }

    // ----- The streamers

    method StartStreamers() returns (raised: bool)
      requires Valid()
      modifies this, client, wire
      ensures Did(Sic.StartStreamers(old(View())), old(wire.sent))
      ensures raised == Sic.StartStreamers(old(View())).raised
    {
      if remoteConfig == None {
        return true;
      }
      if AllDisabled(me.config, remoteConfig.value) {
        SendBye();
        StopStreamers();
      } else {
        if streamerManager != STOPPED || Gathered(me, remoteConfig.value).Failure? {
          return true;
        }
        streamerManager := STARTING;
      }
      isNegotiating := false;
      return false;
    }

    method StopStreamers()
      modifies this`streamerManager, this`isNegotiating
      ensures View() == Sic.StopStreamers(old(View()))
    {
      StopManager();
      isNegotiating := false;
    }

    method StopManager()
      modifies this`streamerManager
      ensures View() == Sic.StopManager(old(View()))
    {
      if streamerManager == RUNNING || streamerManager == STARTING {
        streamerManager := STOPPING;
      }
    }

    /** The slot called before the manager takes the state it announces. */
    method OnStreamerStateChanged(newState: ChildState)
      requires Valid()
      modifies this, client, wire
      ensures var a := old(View());
              Did(if newState == STOPPED && !a.gotBye then Sic.SendBye(a) else Done(a, [], false), old(wire.sent))
    {
      if newState == STOPPED {
        if !gotBye {
          SendBye();
        }
      }
    }

    /** A streamer process ends; last when no other one lives. */
    method OnStreamerDies(last: bool)
      requires Valid() && CanAct(View(), Dies(last))
      modifies this, client, wire
      ensures Did(Act(old(View()), Dies(last)), old(wire.sent))
    {
      StopManager();
      if last {
        OnStreamerStateChanged(STOPPED);
        streamerManager := STOPPED;
      }
    }

    // ----- Receiving

    /** An answer over a connection of its own, which may fail: the error is logged and nothing else. */
    method SimplyRefuse(becomeAvailable: bool, told: bool)
      requires Valid()
      modifies this`isNegotiating, wire
      ensures wire.sent == old(wire.sent) + Sic.SimplyRefuse(told)
      ensures View() == if becomeAvailable then old(View()).(negotiating := false) else old(View())
    {
      if told {
        wire.Put(REFUSE);
      }
      if becomeAvailable {
        isNegotiating := false;
      }
    }

    method HandleInvite(items: Items, told: bool)
      requires Valid()
      modifies this, client, wire
      ensures Did(Sic.HandleInvite(old(View()), items, told), old(wire.sent))
    {
      if streamerManager != STOPPED {
        SimplyRefuse(false, told);
        return;
      }
      gotBye := false;
      if isNegotiating {
        SimplyRefuse(false, told);
        return;
      }
      isNegotiating := true;
      preflights := preflights + [items];
    }

    method OnPreflight(k: nat, check: Check, autoAccept: bool, told: bool, addr: string, port: int)
      requires Valid() && CanAct(View(), Preflight(k, check, autoAccept, told))
      modifies this, client, wire
      ensures Did(Act(old(View()), Preflight(k, check, autoAccept, told)), old(wire.sent))
    {
      var items := preflights[k];
      preflights := Without(preflights, k);
      if check == NotReady {
        SimplyRefuse(true, told);
        return;
      }
      remoteConfig := Some(items);
      if check == Mismatch {
        SimplyRefuse(true, told);
        return;
      }
      ConnectAndAnswer(items, autoAccept, addr, port);
    }

    /** Nothing speaks against the invitation: connects back, and accepts once connected or asks the user. */
    method ConnectAndAnswer(items: Items, autoAccept: bool, addr: string, port: int)
      requires Valid() && remoteConfig == Some(items)
      modifies this, client, wire
      ensures Did(PreflightDone(old(View()), items, Ready, autoAccept, true), old(wire.sent))
    {
      var connected := client.Connect(addr, port);
      if !connected {
        connecting := connecting + [if autoAccept then ToAccept else ToAsk];
      }
      if autoAccept {
        if connected {
          SendAccept();
        }
      } else {
        invitedDialog := true;
      }
    }

    method OnConnection(k: nat, made: bool)
      requires Valid() && CanAct(View(), Connection(k, made))
      modifies this, client, wire
      ensures Did(Act(old(View()), Connection(k, made)), old(wire.sent))
    {
      var purpose := connecting[k];
      connecting := Without(connecting, k);
      client.OnConnected(made);
      match purpose
      case ToInvite(msg) =>
        if made {
          client.Send(INVITE(msg));
        } else {
          callingDialog := false;
          isNegotiating := false;
        }
      case ToAccept =>
        if made {
          SendAccept();
        }
      case ToAsk =>
    }

    method OnContactRequestDialogResponse(response: bool)
      requires Valid() && CanAct(View(), Answer(response))
      modifies this, client, wire
      ensures Did(Act(old(View()), Answer(response)), old(wire.sent))
    {
      invitedDialog := false;
      if response {
        SendAccept();
      } else {
        SendRefuseAndDisconnect();
      }
    }

    /** named: the contact has a name, or no entry in the address book and so goes by its address. */
    method HandleCancel(reason: CancelReason, named: bool) returns (raised: bool)
      requires Valid()
      modifies this, client, wire
      ensures Did(Sic.HandleCancel(old(View()), reason, named), old(wire.sent))
      ensures raised == Sic.HandleCancel(old(View()), reason, named).raised
    {
      isNegotiating := false;
      if !named {
        return true;
      }
      if reason != CANCELLED {
        return true;
      }
      client.Disconnect();
      if invitedDialog {
        OnContactRequestDialogResponse(false);
      }
      return false;
    }

    method HandleAccept(items: Items, supported: bool) returns (raised: bool)
      requires Valid()
      modifies this, client, wire
      ensures Did(Sic.HandleAccept(old(View()), items, supported), old(wire.sent))
      ensures raised == Sic.HandleAccept(old(View()), items, supported).raised
    {
      isNegotiating := false;
      raised := false;
      if client.lastMessageSent.Some? && client.lastMessageSent.value.CANCEL? {
        SendBye();
      } else {
        gotBye := false;
        callingDialog := false;
        remoteConfig := Some(items);
        if !supported {
          SendBye();
          return;
        }
        if streamerManager == STOPPED {
          raised := StartStreamers();
          if !raised {
            SendAck();
          }
        }
      }
    }

    method HandleRefuse()
      requires Valid()
      modifies this
      ensures Did(Sic.HandleRefuse(old(View())), old(wire.sent))
    {
      isNegotiating := false;
      callingDialog := false;
    }

    method HandleAck() returns (raised: bool)
      requires Valid()
      modifies this, client, wire
      ensures Did(Sic.HandleAck(old(View())), old(wire.sent))
      ensures raised == Sic.HandleAck(old(View())).raised
    {
      isNegotiating := false;
      raised := StartStreamers();
    }

    method HandleBye()
      requires Valid()
      modifies this, client, wire
      ensures Did(Sic.HandleBye(old(View())), old(wire.sent))
    {
      isNegotiating := false;
      gotBye := true;
      StopStreamers();
      if client.IsConnected() {
        client.Send(OK);
        DisconnectClient();
      }
    }

    method HandleOk()
      requires Valid()
      modifies this
      ensures Did(Sic.HandleOk(old(View())), old(wire.sent))
    {
      isNegotiating := false;
      DisconnectClient();
    }

    method OnServerReceiveCommand(m: Message, local: Local) returns (raised: bool)
      requires Valid()
      modifies this, client, wire
      ensures Did(Receive(old(View()), m, local), old(wire.sent))
      ensures raised == Receive(old(View()), m, local).raised
    {
      raised := false;
      match m
      case INVITE(items) => HandleInvite(items, local.told);
      case CANCEL(reason) => raised := HandleCancel(reason, local.named);
      case ACCEPT(items) => raised := HandleAccept(items, local.supported);
      case REFUSE => HandleRefuse();
      case ACK => raised := HandleAck();
      case BYE => HandleBye();
      case OK => HandleOk();
    }

    // ----- Disconnecting

    /** Puts the disconnection off to a later turn of the reactor. */
    method DisconnectClient()
      modifies this`callLater
      ensures View() == DisconnectLater(old(View()))
    {
      if client.IsConnected() {
        callLater := callLater + 1;
      }
    }

    method OnCallLater()
      requires Valid() && CanAct(View(), Disconnect)
      modifies this`callLater, client
      ensures Did(Act(old(View()), Disconnect), old(wire.sent))
    {
      callLater := callLater - 1;
      if client.IsConnected() {
        client.Disconnect();
      }
    }
  }
}
