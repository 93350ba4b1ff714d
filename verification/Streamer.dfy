/**
 * The streamer manager and its process managers. A state change is announced before the field is assigned, so the
 * methods call each other back: a process that ends is told to stop from inside its own announcement.
 */
module Streamer {
  import opened Wrappers
  import opened SessionDetails
  import opened Supervision

  class ProcessManager {
    const manager: StreamerManager  // the slot connected to the signal of this object
    const role: Role
    var state: ChildState
    var pid: nat            // the children of this object are numbered from 1
    var alive: bool         // spawned, and its end not yet reported
    var connected: bool
    var delayedKill: bool
    var terms: nat          // SIGTERMs and SIGKILLs sent
    var kills: nat

    constructor (manager: StreamerManager, role: Role)
      ensures this.manager == manager && this.role == role && View() == NOT_STARTED
    {
      this.manager, this.role := manager, role;
      state, pid, alive, connected, delayedKill, terms, kills := STOPPED, 0, false, false, false, 0, 0;
    }

    ghost function View(): Proc
      reads this
    {
      Proc(state, alive, connected, delayedKill, terms, kills)
    }

    ghost predicate Connected()
      reads manager, manager.procs.Values
    {
      manager.Wired() && role in manager.procs && manager.procs[role] == this
    }

    lemma {:induction false} ViewHere()
      requires Connected()
      ensures role in manager.View().procs && manager.View().procs[role] == View()
    {
    }

    /** When only this object has changed, the session differs by this process alone. */
    twostate lemma OnlyThisChanged()
      requires manager.Wired() && unchanged(manager)
      requires forall r :: r in manager.procs && manager.procs[r] != this ==> unchanged(manager.procs[r])
      ensures manager.View()
           == if Connected() then WithProc(old(manager.View()), role, View()) else old(manager.View())
    {
      assert manager.View().procs
          == if Connected() then old(manager.View()).procs[role := View()] else old(manager.View()).procs;
    }

    /** Announces a new state, then takes it. False stands for the error of an illegal transition. */
    method SetChildState(newState: ChildState) returns (ok: bool)
      requires Connected()
      modifies manager, manager.procs.Values
      decreases if state == newState then 0 else if newState == STOPPED then 5 else 1
      ensures manager.Wired()
      ensures ok <==> !IllegalChildState(old(View()), newState)
      ensures manager.View() == if ok then Changed(old(manager.View()), role, newState) else old(manager.View())
      ensures manager.sessionDetails == old(manager.sessionDetails)
      ensures manager.procs == old(manager.procs) || (newState == STOPPED && manager.procs == map[])
      ensures ok ==> state == newState
    {
      ok := true;
      if state != newState {
        if state == STOPPED && newState != STARTING {
          return false;
        }
        manager.OnProcessStateChanged(this, newState);
      }
      label announced:
      state := newState;
      OnlyThisChanged@announced();
    }

    /** Spawns the child. False stands for the error raised when the process is not stopped. */
    method Start(sync: bool) returns (ok: bool)
      requires Connected()
      modifies manager, manager.procs.Values
      ensures manager.Wired()
      ensures manager.procs == old(manager.procs) && manager.sessionDetails == old(manager.sessionDetails)
      ensures ok <==> old(state) == STOPPED
      ensures !ok ==> manager.View() == old(manager.View())
      ensures ok ==> manager.View() == StartedIn(old(manager.View()), role, sync)
    {
      if state != STOPPED {
        return false;
      }
      ok := SetChildState(STARTING);
      SpawnProcess();
      assert manager.View() == StartedIn(old(manager.View()), role, false);
      if sync {
        ConnectedIn(old(manager.View()), role);
        ok := OnConnectionMade();
      }
    }

    /** The operating system runs the child. */
    method SpawnProcess()
      requires Connected()
      modifies this
      ensures Connected() && alive && !connected && state == old(state) && pid == old(pid) + 1
      ensures manager.View() == WithProc(old(manager.View()), role, old(View()).(alive := true, connected := false))
    {
      pid, alive, connected := pid + 1, true, false;
      OnlyThisChanged();
    }

    method OnConnectionMade() returns (ok: bool)
      requires Connected() && alive && !connected
      modifies manager, manager.procs.Values
      ensures ok <==> !IllegalChildState(old(View()), RUNNING)
      ensures manager.Wired()
      ensures manager.procs == old(manager.procs) && manager.sessionDetails == old(manager.sessionDetails)
      ensures ok ==> manager.View() == Apply(old(manager.View()), Connect(role))
    {
      connected := true;
      OnlyThisChanged();
      ok := SetChildState(RUNNING);
    }

    /**
     * Sends SIGTERM and arms the kill timer, or sends SIGKILL to a process that is already stopping.
     * No change of state that this asks for is refused.
     */
    method Stop() returns (ok: bool)
      requires Connected()
      modifies manager, manager.procs.Values
      decreases 2
      ensures ok
      ensures manager.Wired()
      ensures manager.procs == old(manager.procs) && manager.sessionDetails == old(manager.sessionDetails)
      ensures manager.View() == WithProc(old(manager.View()), role, StopProc(old(View())))
    {
      ok := true;
      if state == RUNNING || state == STARTING {
        ok := Terminate();
      } else if state == STOPPING {
        SignalProcess(true);
      } else {
        ok := SetChildState(STOPPED);
      }
    }

    method Terminate() returns (ok: bool)
      requires Connected() && Stoppable(View())
      modifies manager, manager.procs.Values
      decreases 2, 0
      ensures ok
      ensures manager.Wired()
      ensures manager.procs == old(manager.procs) && manager.sessionDetails == old(manager.sessionDetails)
      ensures manager.View() == WithProc(old(manager.View()), role, StopProc(old(View())))
    {
      ok := SetChildState(STOPPING);
      ViewHere();
      SignalProcess(false);
    }

    /** A signal reaches a live process only; after SIGTERM the kill timer is armed. */
    method SignalProcess(kill: bool)
      requires Connected()
      modifies this
      ensures Connected()
      ensures manager.View() == WithProc(old(manager.View()), role, Signalled(old(View()), kill))
    {
      if alive {
        if kill {
          kills := kills + 1;
        } else {
          terms := terms + 1;
          delayedKill := true;
        }
      }
      OnlyThisChanged();
    }

    /**
     * A kill timer fires, armed for the child with this number. That of an earlier child kills nothing, although the
     * object forgets the timer that it may have armed since.
     */
    method LaterCheck(armedFor: nat)
      requires Connected()
      modifies this
      ensures Connected() && pid == old(pid)
      ensures var p := old(View());
              manager.View() == WithProc(old(manager.View()), role,
                                         if armedFor == pid then TimerFired(p) else p.(killPending := false))
      ensures armedFor == pid && old(delayedKill) ==>
                manager.View() == Apply(old(manager.View()), KillTimer(role))
    {
      if pid == armedFor {
        if state == STOPPING && alive {
          kills := kills + 1;
        }
      }
      delayedKill := false;
      OnlyThisChanged();
    }

    /** The operating system reports that the child has ended. */
    method OnProcessEnded() returns (ok: bool)
      requires Connected() && alive
      modifies manager, manager.procs.Values
      ensures ok
      ensures manager.Wired()
      ensures manager.View() == Apply(old(manager.View()), End(role))
      ensures state == STOPPED
    {
      alive := false;
      if state == STOPPING {
        delayedKill := false;
      }
      OnlyThisChanged();
      ok := SetChildState(STOPPED);
    }
  }

  function Signalled(p: Proc, kill: bool): Proc {
    if !p.alive then p else if kill then p.(kills := p.kills + 1) else p.(terms := p.terms + 1, killPending := true)
  }

  /** A spawned process: its timer and its counts are what they were. */
  function Spawned(p: Proc, sync: bool): Proc {
    p.(state := if sync then RUNNING else STARTING, alive := true, connected := sync)
  }

  /** What starting process r does to a session. */
  function StartedIn(s: Session, r: Role, sync: bool): Session
    requires r in s.procs
  {
    var s' := WithProc(s, r, Spawned(s.procs[r], sync));
    if sync && s.state == STARTING then Announce(s', RUNNING) else s'
  }

  /** A connection that is reported from within the start of a process. */
  lemma {:induction false} ConnectedIn(s: Session, r: Role)
    requires r in s.procs
    ensures Apply(StartedIn(s, r, false), Connect(r)) == StartedIn(s, r, true)
  {
    assert Apply(StartedIn(s, r, false), Connect(r)).procs == StartedIn(s, r, true).procs;
  }

  const ALL_ROLES := [Receiver, ExtraReceiver, Sender, ExtraSender, MidiReceiver, MidiSender]
  const START_ORDER := [Sender, ExtraSender, Receiver, ExtraReceiver, MidiReceiver, MidiSender]

  class StreamerManager {
    var state: ChildState
    var procs: map<Role, ProcessManager>  // the process fields that are not None
    var heard: seq<ChildState>            // what the application was told
    var sessionDetails: Option<Details>

    constructor ()
      ensures Wired() && View() == IDLE && sessionDetails == None
    {
      state, procs, heard, sessionDetails := STOPPED, map[], [], None;
    }

    ghost predicate Wired()
      reads this
    {
      forall r :: r in procs ==> procs[r].manager == this && procs[r].role == r
    }

    ghost function View(): Session
      reads this, procs.Values
    {
      Session(state, map r | r in procs :: procs[r].View(), heard)
    }

    /** Tells the application of a new state, then takes it. False stands for the error on an unchanged state. */
    method SetState(newState: ChildState) returns (ok: bool)
      modifies this
      ensures ok <==> old(state) != newState
      ensures sessionDetails == old(sessionDetails)
      ensures if ok then state == newState && heard == old(heard) + [newState]
              else state == old(state) && heard == old(heard)
      ensures procs == if ok && newState == STOPPED then map[] else old(procs)
    {
      if state == newState {
        return false;
      }
      heard := heard + [newState];
      state := newState;
      if newState == STOPPED {
        OnStopped();
      }
      return true;
    }

    method OnStopped()
      modifies this
      ensures procs == map[] && state == old(state) && heard == old(heard) && sessionDetails == old(sessionDetails)
    {
      procs := map[];
    }

    /** Fills in the details of the session. False stands for the TypeError of a limit that is not known. */
    method GatherConfigToStream(p: Peer, remote: Items) returns (ok: bool)
      modifies this`sessionDetails
      ensures ok <==> Gathered(p, remote).Success?
      ensures ok ==> sessionDetails == Some(Gathered(p, remote).value)
    {
      var receiveVideo, receiveAudio, receiveMidi;
      ok, receiveVideo, receiveAudio, receiveMidi := GatherReceive(p, remote);
      if !ok {
        return;
      }
      var sendVideo, sendAudio, sendMidi;
      ok, sendVideo, sendAudio, sendMidi := GatherSend(p, remote);
      if !ok {
        return;
      }
      sessionDetails := Some(Details(sendVideo, sendAudio, sendMidi, receiveVideo, receiveAudio, receiveMidi));
    }

    static method GatherReceive(p: Peer, remote: Items)
      returns (ok: bool, video: ReceiveVideo, audio: ReceiveAudio, midi: ReceiveMidi)
      ensures ok <==> !(p.config.audioCodec == "raw" && remote.audio.maxChannelsInRaw == None)
      ensures ok ==> (video, audio, midi) == Receiving(p, remote)
    {
      var c := p.config;
      var audioJitterbuffer := c.audioJitterbuffer;
      if c.synchronized && c.videoRecv {
        audioJitterbuffer := c.videoJitterbuffer;
      }
      video := ReceiveVideo(c.videoRecv && remote.video.sendEnabled, p.videoPort, c.videoCodec, c.videoJitterbuffer,
                            c.videoBitrate, remote.video.aspectRatio,
                            remote.video.captureSize.0, remote.video.captureSize.1);
      midi := ReceiveMidi(c.midiRecv && remote.midi.sendEnabled, c.midiJitterbuffer, c.midiOutputDevice, p.midiPort);
      var numchannels;
      ok, numchannels := LimitChannels(c.audioCodec, c.audioChannels, remote.audio.maxChannelsInRaw);
      audio := ReceiveAudio(c.audioRecv && remote.audio.sendEnabled, numchannels, c.audioCodec, p.audioPort,
                            c.synchronized, audioJitterbuffer);
    }

    static method GatherSend(p: Peer, remote: Items)
      returns (ok: bool, video: SendVideo, audio: SendAudio, midi: SendMidi)
      ensures ok <==> !(remote.audio.codec == "raw" && p.maxChannelsInRaw == None)
      ensures ok ==> (video, audio, midi) == Sending(p, remote)
    {
      var c := p.config;
      var device, bitrate := Some(c.videoDevice), Some(remote.video.bitrate);
      if c.videoSource != "v4l2src" {
        device := None;
      }
      if remote.video.codec == "theora" {
        bitrate := None;
      }
      video := SendVideo(c.videoSend && remote.video.recvEnabled, c.videoSource, device,
                         c.videoCaptureSize.0, c.videoCaptureSize.1, c.videoAspectRatio,
                         remote.video.port, bitrate, remote.video.codec);
      midi := SendMidi(c.midiSend && remote.midi.recvEnabled, c.midiInputDevice, remote.midi.port);
      var numchannels;
      ok, numchannels := LimitChannels(remote.audio.codec, remote.audio.numchannels, p.maxChannelsInRaw);
      audio := SendAudio(c.audioSend && remote.audio.recvEnabled, numchannels, remote.audio.codec,
                         remote.audio.port, remote.audio.synchronized);
    }

    /** Applies the limit of the raw codec and words the message about it, which fails when the limit is None. */
    static method LimitChannels(codec: string, numchannels: int, limit: Option<int>)
      returns (ok: bool, limited: Option<int>)
      ensures ok <==> !(codec == "raw" && limit == None)
      ensures ok ==> limited == Limited(codec, numchannels, limit)
    {
      ok, limited := true, Some(numchannels);
      if codec == "raw" {
        if Exceeds(numchannels, limit) {
          ok, limited := limit.Some?, limit;
        }
      }
    }

    /** Starts a session. False stands for the errors: not stopped, details that fail, or nothing to stream. */
    method Start(p: Peer, remote: Items, sync: set<Role>) returns (ok: bool)
      requires Wired() && (state == STOPPED ==> procs == map[])
      modifies this
      ensures Wired()
      ensures ok <==> old(state) == STOPPED && Gathered(p, remote).Success? && Roles(Gathered(p, remote).value) != {}
      ensures !ok ==> View() == old(View())
      ensures ok ==> sessionDetails == Some(Gathered(p, remote).value)
      ensures ok ==> View() == Apply(old(View()), Event.Start(Roles(Gathered(p, remote).value), sync))
    {
      if state != STOPPED {
        return false;
      }
      ok := GatherConfigToStream(p, remote);
      if !ok || Roles(sessionDetails.value) == {} {
        return false;
      }
      var roles := Roles(sessionDetails.value);
      CreateProcesses(roles);
      ok := SetState(STARTING);
      StartProcesses(roles, sync);
    }

    /** Starts the processes that were created. */
    method StartProcesses(roles: set<Role>, sync: set<Role>)
      requires Wired() && procs.Keys == roles && state == STARTING
      requires forall r :: r in procs ==> procs[r].View() == NOT_STARTED
      modifies this, procs.Values
      ensures Wired() && sessionDetails == old(sessionDetails)
      ensures var started := old(View()).(procs := map r | r in roles :: Started(r in sync));
              View() == if roles * sync != {} then Announce(started, RUNNING) else started
    {
      ghost var before := View();
      StartNone(before, roles, sync);
      for i := 0 to |START_ORDER|
        invariant Wired() && procs == old(procs) && sessionDetails == old(sessionDetails)
        invariant View() == StartedUpTo(before, roles, sync, i)
      {
        var r := START_ORDER[i];
        StartStep(before, roles, sync, i);
        if r in procs {
          assert procs[r].View() == View().procs[r];
          var ok := procs[r].Start(r in sync);
        }
      }
      StartedAll(before, roles, sync);
    }

    method CreateProcesses(roles: set<Role>)
      requires procs == map[]
      modifies this`procs
      ensures Wired() && procs.Keys == roles
      ensures forall r :: r in procs ==> fresh(procs[r]) && procs[r].View() == NOT_STARTED
    {
      for i := 0 to |ALL_ROLES|
        invariant Wired() && procs.Keys == set r | r in roles && r in ALL_ROLES[..i]
        invariant forall r :: r in procs ==> fresh(procs[r]) && procs[r].View() == NOT_STARTED
      {
        var r := ALL_ROLES[i];
        assert ALL_ROLES[..i + 1] == ALL_ROLES[..i] + [r];
        if r in roles {
          var process := new ProcessManager(this, r);
          procs := procs[r := process];
        }
      }
      forall r
        ensures r in ALL_ROLES[..|ALL_ROLES|]
      {
        RoleListed(r);
      }
    }

    method OnProcessStateChanged(process: ProcessManager, processState: ChildState)
      requires process.manager == this && process.Connected()
      modifies this, procs.Values
      decreases if processState == STOPPED then 4 else 0
      ensures Wired()
      ensures View() == Notified(old(View()), process.role, processState)
      ensures sessionDetails == old(sessionDetails)
      ensures procs == old(procs) || (processState == STOPPED && procs == map[])
    {
      if processState == RUNNING {
        if state == STARTING {
          var ok := SetState(RUNNING);
        }
      } else if processState == STOPPED {
        if state == RUNNING || state == STARTING {
          Stop();
        }
        if state == STOPPING {
          var oneIsLeft := OneIsLeft(process);
          if !oneIsLeft {
            var ok := SetState(STOPPED);
          }
        }
      }
    }

    method OneIsLeft(process: ProcessManager) returns (oneIsLeft: bool)
      requires process.manager == this && process.Connected()
      ensures oneIsLeft <==> !OthersEnded(View(), process.role)
    {
      oneIsLeft := false;
      for i := 0 to |ALL_ROLES|
        invariant oneIsLeft <==> exists k :: 0 <= k < i && LeftAt(process, k)
      {
        var r := ALL_ROLES[i];
        if r in procs && procs[r] != process && procs[r].state != STOPPED {
          oneIsLeft := true;
          assert LeftAt(process, i);
        }
      }
      LeftMeans(process);
    }

    ghost predicate LeftAt(process: ProcessManager, k: nat)
      requires k < |ALL_ROLES|
      reads this, procs.Values
    {
      var r := ALL_ROLES[k];
      r in procs && procs[r] != process && procs[r].state != STOPPED
    }

    lemma {:induction false} LeftMeans(process: ProcessManager)
      requires process.manager == this && process.Connected()
      ensures (exists k :: 0 <= k < |ALL_ROLES| && LeftAt(process, k)) <==> !OthersEnded(View(), process.role)
    {
      var s := View();
      if k :| 0 <= k < |ALL_ROLES| && LeftAt(process, k) {
        var q := ALL_ROLES[k];
        assert q in s.procs && q != process.role && s.procs[q].state != STOPPED;
      }
      if !OthersEnded(s, process.role) {
        var q :| q in s.procs && q != process.role && s.procs[q].state != STOPPED;
        RoleListed(q);
        var k :| 0 <= k < |ALL_ROLES| && ALL_ROLES[k] == q;
        assert procs[q] != process;
        assert LeftAt(process, k);
      }
    }

    method Stop()
      requires Wired()
      modifies this, procs.Values
      decreases 3
      ensures Wired() && procs == old(procs) && sessionDetails == old(sessionDetails)
      ensures View() == StopAll(old(View()))
    {
      if state == RUNNING || state == STARTING {
        ghost var before := View().procs;
        var ok := SetState(STOPPING);
        assert View().procs == before == ToldUpTo(before, 0);
        for i := 0 to |ALL_ROLES|
          invariant Wired() && procs == old(procs) && sessionDetails == old(sessionDetails)
          invariant state == STOPPING && heard == old(heard) + [STOPPING]
          invariant View().procs == ToldUpTo(before, i)
        {
          var r := ALL_ROLES[i];
          ToldStep(before, i);
          if r in procs {
            var proc := procs[r];
            assert proc.View() == View().procs[r];
            if proc.state != STOPPED && proc.state != STOPPING {
              var ok := proc.Stop();
            }
          }
        }
        ToldAll(before);
      }
    }
  }

  /** The processes once the first i roles have been told to stop. */
  function ToldUpTo(procs: map<Role, Proc>, i: nat): map<Role, Proc>
    requires i <= |ALL_ROLES|
  {
    map r | r in procs :: if r in ALL_ROLES[..i] then ToldProc(procs[r]) else procs[r]
  }

  lemma {:induction false} RoleListed(r: Role)
    ensures r in ALL_ROLES
  {
    assert ALL_ROLES[0] == Receiver && ALL_ROLES[1] == ExtraReceiver && ALL_ROLES[2] == Sender;
    assert ALL_ROLES[3] == ExtraSender && ALL_ROLES[4] == MidiReceiver && ALL_ROLES[5] == MidiSender;
  }

  lemma {:induction false} ToldStep(procs: map<Role, Proc>, i: nat)
    requires i < |ALL_ROLES|
    ensures var (r, told) := (ALL_ROLES[i], ToldUpTo(procs, i));
            && (r in procs ==> told[r] == procs[r])
            && ToldUpTo(procs, i + 1)
               == if r in procs && Stoppable(procs[r]) then told[r := StopProc(procs[r])] else told
  {
    var r := ALL_ROLES[i];
    assert ALL_ROLES[..i + 1] == ALL_ROLES[..i] + [r];
    assert r !in ALL_ROLES[..i];
    var told := ToldUpTo(procs, i);
    assert ToldUpTo(procs, i + 1) == if r in procs && Stoppable(procs[r]) then told[r := StopProc(procs[r])] else told;
  }

  lemma {:induction false} ToldAll(procs: map<Role, Proc>)
    ensures ToldUpTo(procs, |ALL_ROLES|) == map r | r in procs :: ToldProc(procs[r])
  {
    forall r
      ensures r in ALL_ROLES[..|ALL_ROLES|]
    {
      RoleListed(r);
    }
  }

  /** The session once the first i roles of the starting order have been started, if they take part in it. */
  function StartedUpTo(s: Session, roles: set<Role>, sync: set<Role>, i: nat): Session
    requires i <= |START_ORDER|
  {
    var started := s.(procs := map r | r in roles :: if r in START_ORDER[..i] then Started(r in sync) else NOT_STARTED);
    if exists r :: r in START_ORDER[..i] && r in roles && r in sync then Announce(started, RUNNING) else started
  }

  lemma {:induction false} StartNone(s: Session, roles: set<Role>, sync: set<Role>)
    requires s.procs.Keys == roles && forall r :: r in s.procs ==> s.procs[r] == NOT_STARTED
    ensures StartedUpTo(s, roles, sync, 0) == s
  {
    assert StartedUpTo(s, roles, sync, 0).procs == s.procs;
  }

  lemma {:induction false} StartStep(s: Session, roles: set<Role>, sync: set<Role>, i: nat)
    requires i < |START_ORDER| && s.state == STARTING
    ensures var (r, t) := (START_ORDER[i], StartedUpTo(s, roles, sync, i));
            && (r in roles ==> t.procs[r] == NOT_STARTED)
            && t.procs.Keys == roles
            && StartedUpTo(s, roles, sync, i + 1) == if r in roles then StartedIn(t, r, r in sync) else t
  {
    var r, t := START_ORDER[i], StartedUpTo(s, roles, sync, i);
    assert START_ORDER[..i + 1] == START_ORDER[..i] + [r];
    assert r !in START_ORDER[..i];
    assert StartedUpTo(s, roles, sync, i + 1).procs == if r in roles then StartedIn(t, r, r in sync).procs else t.procs;
  }

  lemma {:induction false} StartListed(r: Role)
    ensures r in START_ORDER
  {
    assert START_ORDER[0] == Sender && START_ORDER[1] == ExtraSender && START_ORDER[2] == Receiver;
    assert START_ORDER[3] == ExtraReceiver && START_ORDER[4] == MidiReceiver && START_ORDER[5] == MidiSender;
  }

  lemma {:induction false} StartedAll(s: Session, roles: set<Role>, sync: set<Role>)
    ensures var started := s.(procs := map r | r in roles :: Started(r in sync));
            StartedUpTo(s, roles, sync, |START_ORDER|)
            == if roles * sync != {} then Announce(started, RUNNING) else started
  {
    forall r
      ensures r in START_ORDER[..|START_ORDER|]
    {
      StartListed(r);
    }
    assert forall r :: r in roles && r in sync ==> r in roles * sync;
    if roles * sync != {} {
      var r :| r in roles * sync;
    }
  }
}
