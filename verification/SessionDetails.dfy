/** What each peer decides to stream, from its own configuration and from the other's message. */
module SessionDetails {
  import opened Wrappers

  /** The configuration entries that the exchange or the streamer processes depend on. */
  datatype Config = Config(
    videoSend: bool, videoRecv: bool, videoCodec: string, videoBitrate: real, videoAspectRatio: string,
    videoCaptureSize: (int, int), videoSource: string, videoDevice: string, videoJitterbuffer: int,
    synchronized: bool, audioSend: bool, audioRecv: bool, audioCodec: string, audioChannels: int,
    audioJitterbuffer: int,
    midiSend: bool, midiRecv: bool, midiInputDevice: string, midiOutputDevice: string, midiJitterbuffer: int)

  /** A peer: its configuration, its receiving ports and the most raw channels it supports, once known. */
  datatype Peer = Peer(config: Config, videoPort: int, audioPort: int, midiPort: int, maxChannelsInRaw: Option<int>)

  // ----- The items of INVITE and ACCEPT

  datatype VideoItems = VideoItems(sendEnabled: bool, recvEnabled: bool, codec: string, bitrate: real, port: int,
                                   aspectRatio: string, captureSize: (int, int))
  datatype AudioItems = AudioItems(synchronized: bool, sendEnabled: bool, recvEnabled: bool, codec: string,
                                   numchannels: int, maxChannelsInRaw: Option<int>, port: int)
  datatype MidiItems = MidiItems(port: int, recvEnabled: bool, sendEnabled: bool)
  datatype Items = Items(video: VideoItems, audio: AudioItems, midi: MidiItems)

  function MessageItems(p: Peer): Items {
    var c := p.config;
    Items(
      VideoItems(c.videoSend, c.videoRecv, c.videoCodec, c.videoBitrate, p.videoPort, c.videoAspectRatio,
                 c.videoCaptureSize),
      AudioItems(c.synchronized, c.audioSend, c.audioRecv, c.audioCodec, c.audioChannels, p.maxChannelsInRaw,
                 p.audioPort),
      MidiItems(p.midiPort, c.midiRecv, c.midiSend))
  }

  predicate AllDisabled(c: Config, remote: Items) {
    && !(remote.video.recvEnabled && c.videoSend)
    && !(remote.audio.recvEnabled && c.audioSend)
    && !(remote.audio.sendEnabled && c.audioRecv)
    && !(remote.video.sendEnabled && c.videoRecv)
    && !(remote.midi.recvEnabled && c.midiSend)
    && !(remote.midi.sendEnabled && c.midiRecv)
  }

  // ----- The session details

  datatype SendVideo = SendVideo(enabled: bool, source: string, device: Option<string>, width: int, height: int,
                                 aspectRatio: string, port: int, bitrate: Option<real>, codec: string)
  datatype ReceiveVideo = ReceiveVideo(enabled: bool, port: int, codec: string, jitterbuffer: int, bitrate: real,
                                       aspectRatio: string, width: int, height: int)
  /** numchannels is None where the source stores Python's None. */
  datatype SendAudio = SendAudio(enabled: bool, numchannels: Option<int>, codec: string, port: int, synchronized: bool)
  datatype ReceiveAudio = ReceiveAudio(enabled: bool, numchannels: Option<int>, codec: string, port: int,
                                       synchronized: bool, jitterbuffer: int)
  datatype SendMidi = SendMidi(enabled: bool, inputDevice: string, port: int)
  datatype ReceiveMidi = ReceiveMidi(enabled: bool, jitterbuffer: int, outputDevice: string, port: int)

  datatype Details = Details(sendVideo: SendVideo, sendAudio: SendAudio, sendMidi: SendMidi,
                             receiveVideo: ReceiveVideo, receiveAudio: ReceiveAudio, receiveMidi: ReceiveMidi)

  /** Python 2 orders None before every number. */
  predicate Exceeds(numchannels: int, limit: Option<int>) {
    limit == None || numchannels > limit.value
  }

  /** The number of channels once a limit applies to the raw codec. */
  function Limited(codec: string, numchannels: int, limit: Option<int>): Option<int> {
    if codec == "raw" && Exceeds(numchannels, limit) then limit else Some(numchannels)
  }

  /** What a peer sends, each medium in turn. */
  function Sending(p: Peer, remote: Items): (SendVideo, SendAudio, SendMidi) {
    var c := p.config;
    (SendVideo(c.videoSend && remote.video.recvEnabled, c.videoSource,
               if c.videoSource != "v4l2src" then None else Some(c.videoDevice),
               c.videoCaptureSize.0, c.videoCaptureSize.1, c.videoAspectRatio, remote.video.port,
               if remote.video.codec == "theora" then None else Some(remote.video.bitrate), remote.video.codec),
     SendAudio(c.audioSend && remote.audio.recvEnabled,
               Limited(remote.audio.codec, remote.audio.numchannels, p.maxChannelsInRaw),
               remote.audio.codec, remote.audio.port, remote.audio.synchronized),
     SendMidi(c.midiSend && remote.midi.recvEnabled, c.midiInputDevice, remote.midi.port))
  }

  /** What a peer receives, each medium in turn. */
  function Receiving(p: Peer, remote: Items): (ReceiveVideo, ReceiveAudio, ReceiveMidi) {
    var c := p.config;
    (ReceiveVideo(c.videoRecv && remote.video.sendEnabled, p.videoPort, c.videoCodec, c.videoJitterbuffer,
                  c.videoBitrate, remote.video.aspectRatio, remote.video.captureSize.0, remote.video.captureSize.1),
     ReceiveAudio(c.audioRecv && remote.audio.sendEnabled,
                  Limited(c.audioCodec, c.audioChannels, remote.audio.maxChannelsInRaw),
                  c.audioCodec, p.audioPort, c.synchronized,
                  if c.synchronized && c.videoRecv then c.videoJitterbuffer else c.audioJitterbuffer),
     ReceiveMidi(c.midiRecv && remote.midi.sendEnabled, c.midiJitterbuffer, c.midiOutputDevice, p.midiPort))
  }

  /** The details, unless the limit to report to the user is not known: then formatting the message fails. */
  function Gathered(p: Peer, remote: Items): Result<Details, string> {
    if p.config.audioCodec == "raw" && remote.audio.maxChannelsInRaw == None then Failure("TypeError")
    else if remote.audio.codec == "raw" && p.maxChannelsInRaw == None then Failure("TypeError")
    else
      var (sent, received) := (Sending(p, remote), Receiving(p, remote));
      Success(Details(sent.0, sent.1, sent.2, received.0, received.1, received.2))
  }

  // ----- Which processes run

  datatype Role = Receiver | ExtraReceiver | Sender | ExtraSender | MidiReceiver | MidiSender

  /** The processes that `start` creates. */
  function Roles(d: Details): set<Role> {
    var extraSend := !d.sendAudio.synchronized && d.sendAudio.enabled;
    var extraRecv := !d.receiveAudio.synchronized && d.receiveAudio.enabled;
    (if d.receiveVideo.enabled || (d.receiveAudio.enabled && !extraRecv) then {Receiver} else {})
    + (if extraRecv then {ExtraReceiver} else {})
    + (if d.sendVideo.enabled || (d.sendAudio.enabled && !extraSend) then {Sender} else {})
    + (if extraSend then {ExtraSender} else {})
    + (if d.receiveMidi.enabled then {MidiReceiver} else {})
    + (if d.sendMidi.enabled then {MidiSender} else {})
  }

  function Counterpart(r: Role): Role {
    match r
    case Receiver => Sender
    case Sender => Receiver
    case ExtraReceiver => ExtraSender
    case ExtraSender => ExtraReceiver
    case MidiReceiver => MidiSender
    case MidiSender => MidiReceiver
  }

  // ----- How the two sides fit

  /** What one side sends is what the other expects, medium by medium. */
  predicate Mirrors(mine: Details, theirs: Details) {
    && mine.sendVideo.enabled == theirs.receiveVideo.enabled
    && mine.sendVideo.port == theirs.receiveVideo.port
    && mine.sendVideo.codec == theirs.receiveVideo.codec
    && mine.sendVideo.width == theirs.receiveVideo.width && mine.sendVideo.height == theirs.receiveVideo.height
    && mine.sendVideo.aspectRatio == theirs.receiveVideo.aspectRatio
    && (mine.sendVideo.bitrate
        == if theirs.receiveVideo.codec == "theora" then None else Some(theirs.receiveVideo.bitrate))
    && mine.sendAudio.enabled == theirs.receiveAudio.enabled
    && mine.sendAudio.port == theirs.receiveAudio.port
    && mine.sendAudio.codec == theirs.receiveAudio.codec
    && mine.sendAudio.numchannels == theirs.receiveAudio.numchannels && mine.sendAudio.numchannels.Some?
    && mine.sendAudio.synchronized == theirs.receiveAudio.synchronized
    && mine.sendMidi.enabled == theirs.receiveMidi.enabled
    && mine.sendMidi.port == theirs.receiveMidi.port
  }

  /** The details of a when b is the other peer, both having sent each other their items. */
  function Between(a: Peer, b: Peer): Result<Details, string> {
    Gathered(a, MessageItems(b))
  }

  /** After an exchange either both sides fail to gather their details or the two mirror each other, both ways. */
  lemma {:induction false} SidesMirror(a: Peer, b: Peer)
    ensures Between(a, b).Success? <==> Between(b, a).Success?
    ensures Between(a, b).Success? ==> Mirrors(Between(a, b).value, Between(b, a).value)
    ensures Between(a, b).Success? ==> Mirrors(Between(b, a).value, Between(a, b).value)
  {
  }

  /** The details can be gathered exactly when every raw codec in use has a known limit on the other side. */
  lemma {:induction false} GatheredExactly(a: Peer, b: Peer)
    ensures Between(a, b).Success? <==>
              && (a.config.audioCodec == "raw" ==> b.maxChannelsInRaw.Some?)
              && (b.config.audioCodec == "raw" ==> a.maxChannelsInRaw.Some?)
  {
  }

  lemma {:induction false} MirrorPairs(mine: Details, theirs: Details, r: Role)
    requires Mirrors(mine, theirs) && Mirrors(theirs, mine)
    ensures r in Roles(mine) ==> Counterpart(r) in Roles(theirs)
  {
  }

  /** Each process of one side has its counterpart on the other. */
  lemma {:induction false} ProcessesPair(a: Peer, b: Peer, r: Role)
    requires Between(a, b).Success?
    ensures Between(b, a).Success?
    ensures r in Roles(Between(a, b).value) <==> Counterpart(r) in Roles(Between(b, a).value)
  {
    SidesMirror(a, b);
    MirrorPairs(Between(a, b).value, Between(b, a).value, r);
    MirrorPairs(Between(b, a).value, Between(a, b).value, Counterpart(r));
    assert Counterpart(Counterpart(r)) == r;
  }

  /** Both sides find everything disabled, or neither does; and then, and only then, no process would run. */
  lemma {:induction false} DisabledTogether(a: Peer, b: Peer)
    ensures AllDisabled(a.config, MessageItems(b)) <==> AllDisabled(b.config, MessageItems(a))
    ensures Between(a, b).Success? ==>
              (AllDisabled(a.config, MessageItems(b)) <==> Roles(Between(a, b).value) == {})
  {
    if Between(a, b).Success? {
      var d := Between(a, b).value;
      assert Sender in Roles(d) || ExtraSender in Roles(d) <==> d.sendVideo.enabled || d.sendAudio.enabled;
      assert Receiver in Roles(d) || ExtraReceiver in Roles(d) <==> d.receiveVideo.enabled || d.receiveAudio.enabled;
      assert MidiSender in Roles(d) <==> d.sendMidi.enabled;
      assert MidiReceiver in Roles(d) <==> d.receiveMidi.enabled;
    }
  }

  // ----- What two configurations come to

  /** A medium is sent exactly when one side wants to send it and the other to receive it. */
  lemma {:induction false} EnabledExactly(a: Peer, b: Peer)
    requires Between(a, b).Success?
    ensures var d := Between(a, b).value;
            && (d.sendVideo.enabled <==> a.config.videoSend && b.config.videoRecv)
            && (d.sendAudio.enabled <==> a.config.audioSend && b.config.audioRecv)
            && (d.sendMidi.enabled <==> a.config.midiSend && b.config.midiRecv)
            && (d.receiveVideo.enabled <==> a.config.videoRecv && b.config.videoSend)
            && (d.receiveAudio.enabled <==> a.config.audioRecv && b.config.audioSend)
            && (d.receiveMidi.enabled <==> a.config.midiRecv && b.config.midiSend)
  {
  }

  /** The side that receives a medium decides its port and codec, and for audio whether it goes with the video. */
  lemma {:induction false} ReceiverDecides(a: Peer, b: Peer)
    requires Between(a, b).Success?
    ensures var d := Between(a, b).value;
            && d.sendVideo.port == b.videoPort && d.receiveVideo.port == a.videoPort
            && d.sendAudio.port == b.audioPort && d.receiveAudio.port == a.audioPort
            && d.sendMidi.port == b.midiPort && d.receiveMidi.port == a.midiPort
            && d.sendVideo.codec == b.config.videoCodec && d.receiveVideo.codec == a.config.videoCodec
            && d.sendAudio.codec == b.config.audioCodec && d.receiveAudio.codec == a.config.audioCodec
            && d.sendAudio.synchronized == b.config.synchronized && d.receiveAudio.synchronized == a.config.synchronized
            && d.receiveVideo.bitrate == a.config.videoBitrate
            && (d.sendVideo.bitrate == None <==> b.config.videoCodec == "theora")
            && (d.sendVideo.bitrate.Some? ==> d.sendVideo.bitrate.value == b.config.videoBitrate)
  {
  }

  /** The side that sends the video decides its size and aspect ratio; devices and buffers are each side's own. */
  lemma {:induction false} SenderDecides(a: Peer, b: Peer)
    requires Between(a, b).Success?
    ensures var d := Between(a, b).value;
            && (d.sendVideo.width, d.sendVideo.height) == a.config.videoCaptureSize
            && (d.receiveVideo.width, d.receiveVideo.height) == b.config.videoCaptureSize
            && d.sendVideo.aspectRatio == a.config.videoAspectRatio
            && d.receiveVideo.aspectRatio == b.config.videoAspectRatio
    ensures var d := Between(a, b).value;
            && d.sendVideo.source == a.config.videoSource
            && (d.sendVideo.device == None <==> a.config.videoSource != "v4l2src")
            && (d.sendVideo.device.Some? ==> d.sendVideo.device.value == a.config.videoDevice)
            && d.sendMidi.inputDevice == a.config.midiInputDevice
            && d.receiveMidi.outputDevice == a.config.midiOutputDevice
            && d.receiveVideo.jitterbuffer == a.config.videoJitterbuffer
            && d.receiveMidi.jitterbuffer == a.config.midiJitterbuffer
            && (a.config.synchronized && a.config.videoRecv ==>
                  d.receiveAudio.jitterbuffer == a.config.videoJitterbuffer)
            && (!a.config.synchronized || !a.config.videoRecv ==>
                  d.receiveAudio.jitterbuffer == a.config.audioJitterbuffer)
  {
  }

  /** n is what is left of the channels wanted: all of them, or for the raw codec the smaller of them and the limit. */
  predicate IsLimited(codec: string, wanted: int, limit: Option<int>, n: Option<int>) {
    && n.Some?
    && (codec != "raw" ==> n.value == wanted)
    && (codec == "raw" ==>
          limit.Some? && n.value <= wanted && n.value <= limit.value && (n.value == wanted || n.value == limit.value))
  }

  /**
   * Raw audio has no more channels than the receiver asks for, nor than the sender supports; any other codec has all.
   */
  lemma {:induction false} ChannelsExactly(a: Peer, b: Peer)
    requires Between(a, b).Success?
    ensures var d := Between(a, b).value;
            && IsLimited(a.config.audioCodec, a.config.audioChannels, b.maxChannelsInRaw, d.receiveAudio.numchannels)
            && IsLimited(b.config.audioCodec, b.config.audioChannels, a.maxChannelsInRaw, d.sendAudio.numchannels)
  {
  }

  /**
   * Which processes run: audio goes with the video when its receiver wants them synchronized, and else has a process of
   * its own.
   */
  lemma {:induction false} RolesExactly(a: Peer, b: Peer)
    requires Between(a, b).Success?
    ensures var roles := Roles(Between(a, b).value);
            var (c, d) := (a.config, b.config);
            var (videoOut, audioOut) := (c.videoSend && d.videoRecv, c.audioSend && d.audioRecv);
            var (videoIn, audioIn) := (c.videoRecv && d.videoSend, c.audioRecv && d.audioSend);
            && (Sender in roles <==> videoOut || (audioOut && b.config.synchronized))
            && (ExtraSender in roles <==> audioOut && !b.config.synchronized)
            && (Receiver in roles <==> videoIn || (audioIn && a.config.synchronized))
            && (ExtraReceiver in roles <==> audioIn && !a.config.synchronized)
            && (MidiSender in roles <==> a.config.midiSend && b.config.midiRecv)
            && (MidiReceiver in roles <==> a.config.midiRecv && b.config.midiSend)
  {
    EnabledExactly(a, b);
    ReceiverDecides(a, b);
  }
}
