/** The video-call component: one two-party call negotiated over a shared broadcast
    channel. The WebRTC engine and the relay are opaque; what the engine answers
    (a description, a refusal) is passed to each step as a parameter, and every browser
    event is one atomic step on an immutable `Call` record. */
module VideoCall {
  import opened Options

  type UserId = string
  /** A session description, network candidate or media stream, treated as an opaque token. */
  type Token = string

  datatype Role = Initiator | Responder

  /** The state shown in the call header. */
  datatype CallState = Connecting | Connected | Failed

  /** The values of the engine's `connectionState`: `'new'`, `'connecting'`, `'connected'`,
      `'disconnected'`, `'failed'` and `'closed'`. */
  datatype ConnectionState = PcNew | PcConnecting | PcConnected | PcDisconnected | PcFailed | PcClosed

  /** The three broadcast events on the signaling channel. */
  datatype SignalKind = Offer | Answer | IceCandidate

  /** A broadcast payload. `body` is the offer, answer or candidate; it is `None` when the
      payload lacks it (or carries a falsy value). */
  datatype Signal = Signal(kind: SignalKind, body: Option<Token>, from: UserId, to: UserId)

  datatype Track = Track(enabled: bool, live: bool)

  /** The local camera/microphone stream: its audio tracks and its video tracks. */
  datatype LocalStream = LocalStream(audio: seq<Track>, video: seq<Track>)

  /** What the model observes of the peer connection. */
  datatype Peer = Peer(local: Option<Token>, remote: Option<Token>, candidates: seq<Token>, closed: bool)

  datatype Channel = Channel(name: string, removed: bool)

  /** Error toasts the component raises. */
  datatype Notice = ConnectionLost | StartFailed

  datatype Call = Call(
    userId: UserId,
    matchId: UserId,
    role: Role,
    channelName: string,
    state: CallState,
    audioEnabled: bool,
    videoEnabled: bool,
    stream: Option<LocalStream>,
    peer: Option<Peer>,
    channel: Option<Channel>,
    remoteStream: Option<Token>,
    outbox: seq<Signal>,
    errors: seq<Notice>,
    endCalls: nat)

  /** The component as first rendered: nothing acquired, nothing sent. */
  function Mount(userId: UserId, matchId: UserId, role: Role, channelName: string): (c: Call)
    ensures c.state == Connecting && c.audioEnabled && c.videoEnabled
    ensures c.stream.None? && c.peer.None? && c.channel.None? && c.remoteStream.None?
    ensures c.outbox == [] && c.errors == [] && c.endCalls == 0
    ensures c.userId == userId && c.matchId == matchId && c.role == role && c.channelName == channelName
  {
    Call(userId, matchId, role, channelName, Connecting, true, true, None, None, None, None, [], [], 0)
  }

  /** A message this side sends: always from the local user to the match. */
  function Outgoing(c: Call, kind: SignalKind, body: Token): Signal
  {
    Signal(kind, Some(body), c.userId, c.matchId)
  }

  /** The start-up failure path: one error toast and one call of `onEndCall`. */
  function Abort(c: Call): Call
  {
    c.(errors := c.errors + [StartFailed], endCalls := c.endCalls + 1)
  }

  /** `initializeCall`. `media` is what `getUserMedia` yields (`None`: it threw);
      `offer` is the description `createOffer`/`setLocalDescription` produce for an
      initiator (`None`: one of them threw). */
  function Initialize(c: Call, media: Option<LocalStream>, offer: Option<Token>): (r: Call)
    ensures media.None? ==> r == c.(errors := c.errors + [StartFailed], endCalls := c.endCalls + 1)
    ensures media.Some? ==> r.stream == media && r.channel == Some(Channel(c.channelName, false))
    ensures media.Some? && c.role == Responder ==>
              r.outbox == c.outbox && r.errors == c.errors && r.endCalls == c.endCalls
    ensures media.Some? && c.role == Initiator && offer.Some? ==>
              && r.outbox == c.outbox + [Signal(Offer, offer, c.userId, c.matchId)]
              && r.peer == Some(Peer(offer, None, [], false))
              && r.errors == c.errors && r.endCalls == c.endCalls
    ensures media.Some? && c.role == Initiator && offer.None? ==>
              r.outbox == c.outbox && r.errors == c.errors + [StartFailed] && r.endCalls == c.endCalls + 1
    ensures media.Some? && (c.role == Responder || offer.None?) ==> r.peer == Some(Peer(None, None, [], false))
    ensures r.(stream := c.stream, peer := c.peer, channel := c.channel,
               outbox := c.outbox, errors := c.errors, endCalls := c.endCalls) == c
  {
    match media
    case None => Abort(c)
    case Some(stream) =>
      var wired := c.(stream := media, peer := Some(Peer(None, None, [], false)),
                      channel := Some(Channel(c.channelName, false)));
      if c.role == Responder then wired
      else match offer
        case None => Abort(wired)
        case Some(o) =>
          wired.(peer := Some(Peer(offer, None, [], false)),
                 outbox := wired.outbox + [Outgoing(c, Offer, o)])
  }

  /** `handleOffer`: with a peer connection and an offer the engine accepts, the offer
      becomes the remote description; with an `answer` from the engine it becomes the
      local description and is sent back once. */
  function HandleOffer(c: Call, offer: Option<Token>, accepted: bool, answer: Option<Token>): (r: Call)
    ensures c.peer.None? || offer.None? || !accepted ==> r == c
    ensures c.peer.Some? && offer.Some? && accepted ==>
              r.peer == Some(c.peer.value.(remote := offer,
                                          local := if answer.Some? then answer else c.peer.value.local))
    ensures r.outbox == c.outbox || (answer.Some? && r.outbox == c.outbox + [Signal(Answer, answer, c.userId, c.matchId)])
    ensures c.peer.Some? && offer.Some? && accepted && answer.Some? && c.channel.Some? ==>
              r.outbox == c.outbox + [Signal(Answer, answer, c.userId, c.matchId)]
    ensures r.(peer := c.peer, outbox := c.outbox) == c
  {
    match c.peer
    case None => c
    case Some(pc) =>
      if offer.None? || !accepted then c
      else
        var withRemote := c.(peer := Some(pc.(remote := offer)));
        match answer
        case None => withRemote
        case Some(a) =>
          var answered := withRemote.(peer := Some(pc.(remote := offer, local := answer)));
          if c.channel.None? then answered
          else answered.(outbox := c.outbox + [Outgoing(c, Answer, a)])
  }

  /** `handleAnswer`: the answer becomes the remote description when the engine accepts it. */
  function HandleAnswer(c: Call, answer: Option<Token>, accepted: bool): (r: Call)
    ensures c.peer.None? || answer.None? || !accepted ==> r == c
    ensures c.peer.Some? && answer.Some? && accepted ==> r.peer == Some(c.peer.value.(remote := answer))
    ensures r.(peer := c.peer) == c
  {
    match c.peer
    case None => c
    case Some(pc) => if answer.None? || !accepted then c else c.(peer := Some(pc.(remote := answer)))
  }

  /** `handleIceCandidate`: the candidate is added when the engine accepts it. There is
      no queue: a candidate the engine refuses (for instance one that arrives before the
      remote description) is lost. */
  function HandleIceCandidate(c: Call, candidate: Token, accepted: bool): (r: Call)
    ensures c.peer.None? || !accepted ==> r == c
    ensures c.peer.Some? && accepted ==>
              r.peer == Some(c.peer.value.(candidates := c.peer.value.candidates + [candidate]))
    ensures r.(peer := c.peer) == c
  {
    match c.peer
    case None => c
    case Some(pc) => if !accepted then c else c.(peer := Some(pc.(candidates := pc.candidates + [candidate])))
  }

  /** The channel's `offer` listener: only messages addressed to this user reach `handleOffer`. */
  function OnOffer(c: Call, m: Signal, accepted: bool, answer: Option<Token>): (r: Call)
    ensures m.to != c.userId ==> r == c
    ensures m.to == c.userId ==> r == HandleOffer(c, m.body, accepted, answer)
  {
    if m.to == c.userId then HandleOffer(c, m.body, accepted, answer) else c
  }

  /** The channel's `answer` listener. */
  function OnAnswer(c: Call, m: Signal, accepted: bool): (r: Call)
    ensures m.to != c.userId ==> r == c
    ensures m.to == c.userId ==> r == HandleAnswer(c, m.body, accepted)
  {
    if m.to == c.userId then HandleAnswer(c, m.body, accepted) else c
  }

  /** The channel's `ice-candidate` listener: the message must be addressed to this user
      and carry a candidate. */
  function OnIceCandidate(c: Call, m: Signal, accepted: bool): (r: Call)
    ensures m.to != c.userId || m.body.None? ==> r == c
    ensures m.to == c.userId && m.body.Some? ==> r == HandleIceCandidate(c, m.body.value, accepted)
  {
    if m.to == c.userId && m.body.Some? then HandleIceCandidate(c, m.body.value, accepted) else c
  }

  /** `onicecandidate`: a discovered local candidate is sent to the match; the final
      `null` event sends nothing. */
  function OnLocalCandidate(c: Call, candidate: Option<Token>): (r: Call)
    ensures candidate.None? ==> r == c
    ensures candidate.Some? ==> r == c.(outbox := c.outbox + [Outgoing(c, IceCandidate, candidate.value)])
  {
    match candidate
    case None => c
    case Some(t) => c.(outbox := c.outbox + [Outgoing(c, IceCandidate, t)])
  }

  /** The header state a connection-state change leads to. */
  function StateAfter(current: CallState, s: ConnectionState): (r: CallState)
    ensures s == PcConnected ==> r == Connected
    ensures s == PcFailed || s == PcDisconnected ==> r == Failed
    ensures s in {PcNew, PcConnecting, PcClosed} ==> r == current
  {
    match s
    case PcConnected => Connected
    case PcFailed => Failed
    case PcDisconnected => Failed
    case _ => current
  }

  /** `onconnectionstatechange`: a failure or disconnect also raises one error toast. */
  function OnConnectionStateChange(c: Call, s: ConnectionState): (r: Call)
    ensures r.state == StateAfter(c.state, s)
    ensures s == PcFailed || s == PcDisconnected ==> r.errors == c.errors + [ConnectionLost]
    ensures !(s == PcFailed || s == PcDisconnected) ==> r.errors == c.errors
    ensures r.(state := c.state, errors := c.errors) == c
  {
    match s
    case PcConnected => c.(state := Connected)
    case PcFailed => c.(state := Failed, errors := c.errors + [ConnectionLost])
    case PcDisconnected => c.(state := Failed, errors := c.errors + [ConnectionLost])
    case _ => c
  }

  /** `ontrack`: the first stream of the event is shown and the call counts as connected;
      an event without streams changes nothing. */
  function OnRemoteTrack(c: Call, streams: seq<Token>): (r: Call)
    ensures |streams| == 0 ==> r == c
    ensures |streams| > 0 ==> r == c.(state := Connected, remoteStream := Some(streams[0]))
  {
    if |streams| > 0 then c.(state := Connected, remoteStream := Some(streams[0])) else c
  }

  /** The first track of `tracks` with its enabled flag flipped. */
  function FlipFirst(tracks: seq<Track>): (r: seq<Track>)
    requires |tracks| > 0
    ensures |r| == |tracks| && r[1..] == tracks[1..]
    ensures r[0] == tracks[0].(enabled := !tracks[0].enabled)
  {
    [tracks[0].(enabled := !tracks[0].enabled)] + tracks[1..]
  }

  /** `toggleAudio`: flips the first audio track and mirrors its new flag in the button;
      nothing is signalled. Without a stream or an audio track nothing happens. */
  function ToggleAudio(c: Call): (r: Call)
    ensures c.stream.None? || |c.stream.value.audio| == 0 ==> r == c
    ensures c.stream.Some? && |c.stream.value.audio| > 0 ==>
              && r.stream == Some(c.stream.value.(audio := FlipFirst(c.stream.value.audio)))
              && r.audioEnabled == !c.stream.value.audio[0].enabled
    ensures r.outbox == c.outbox
    ensures r.(stream := c.stream, audioEnabled := c.audioEnabled) == c
  {
    match c.stream
    case None => c
    case Some(ls) =>
      if |ls.audio| == 0 then c
      else
        var audio := FlipFirst(ls.audio);
        c.(stream := Some(ls.(audio := audio)), audioEnabled := audio[0].enabled)
  }

  /** `toggleVideo`: the same for the first video track. */
  function ToggleVideo(c: Call): (r: Call)
    ensures c.stream.None? || |c.stream.value.video| == 0 ==> r == c
    ensures c.stream.Some? && |c.stream.value.video| > 0 ==>
              && r.stream == Some(c.stream.value.(video := FlipFirst(c.stream.value.video)))
              && r.videoEnabled == !c.stream.value.video[0].enabled
    ensures r.outbox == c.outbox
    ensures r.(stream := c.stream, videoEnabled := c.videoEnabled) == c
  {
    match c.stream
    case None => c
    case Some(ls) =>
      if |ls.video| == 0 then c
      else
        var video := FlipFirst(ls.video);
        c.(stream := Some(ls.(video := video)), videoEnabled := video[0].enabled)
  }

  /** Every track stopped, enabled flags untouched. */
  function StopAll(tracks: seq<Track>): (r: seq<Track>)
    ensures |r| == |tracks|
    ensures forall i :: 0 <= i < |r| ==> !r[i].live && r[i].enabled == tracks[i].enabled
  {
    seq(|tracks|, i requires 0 <= i < |tracks| => tracks[i].(live := false))
  }

  /** `cleanup`: stops every local track, closes the peer connection and removes the
      channel, each only when it exists. Nothing is sent and nobody is notified. */
  function Cleanup(c: Call): (r: Call)
    ensures r.stream.Some? <==> c.stream.Some?
    ensures r.stream.Some? ==>
              && |r.stream.value.audio| == |c.stream.value.audio|
              && |r.stream.value.video| == |c.stream.value.video|
              && (forall i :: 0 <= i < |r.stream.value.audio| ==>
                    !r.stream.value.audio[i].live && r.stream.value.audio[i].enabled == c.stream.value.audio[i].enabled)
              && (forall i :: 0 <= i < |r.stream.value.video| ==>
                    !r.stream.value.video[i].live && r.stream.value.video[i].enabled == c.stream.value.video[i].enabled)
    ensures r.peer == if c.peer.Some? then Some(c.peer.value.(closed := true)) else None
    ensures r.channel == if c.channel.Some? then Some(c.channel.value.(removed := true)) else None
    ensures r.(stream := c.stream, peer := c.peer, channel := c.channel) == c
  {
    var stream := match c.stream
      case None => None
      case Some(ls) => Some(LocalStream(StopAll(ls.audio), StopAll(ls.video)));
    var peer := match c.peer
      case None => None
      case Some(pc) => Some(pc.(closed := true));
    var channel := match c.channel
      case None => None
      case Some(ch) => Some(ch.(removed := true));
    c.(stream := stream, peer := peer, channel := channel)
  }

  /** `endCall`: cleanup, then one call of `onEndCall`. */
  function EndCall(c: Call): (r: Call)
    ensures r.endCalls == c.endCalls + 1
    ensures r.(endCalls := c.endCalls) == Cleanup(c)
  {
    Cleanup(c).(endCalls := c.endCalls + 1)
  }

  /** A browser event after initialisation, with the engine's reply where it matters. */
  datatype Event =
    | ReceiveOffer(m: Signal, accepted: bool, answer: Option<Token>)
    | ReceiveAnswer(m: Signal, accepted: bool)
    | ReceiveCandidate(m: Signal, accepted: bool)
    | LocalCandidate(candidate: Option<Token>)
    | StateChange(s: ConnectionState)
    | RemoteTrack(streams: seq<Token>)
    | ToggleMic
    | ToggleCamera
    | HangUp
    | Unmount

  function Step(c: Call, e: Event): Call {
    match e
    case ReceiveOffer(m, ok, a) => OnOffer(c, m, ok, a)
    case ReceiveAnswer(m, ok) => OnAnswer(c, m, ok)
    case ReceiveCandidate(m, ok) => OnIceCandidate(c, m, ok)
    case LocalCandidate(t) => OnLocalCandidate(c, t)
    case StateChange(s) => OnConnectionStateChange(c, s)
    case RemoteTrack(ss) => OnRemoteTrack(c, ss)
    case ToggleMic => ToggleAudio(c)
    case ToggleCamera => ToggleVideo(c)
    case HangUp => EndCall(c)
    case Unmount => Cleanup(c)
  }

  function Run(c: Call, events: seq<Event>): Call
    decreases |events|
  {
    if events == [] then c else Run(Step(c, events[0]), events[1..])
  }

  /** A whole call: mount, initialise, then the events in order. */
  function Session(userId: UserId, matchId: UserId, role: Role, channelName: string,
                   media: Option<LocalStream>, offer: Option<Token>, events: seq<Event>): Call
  {
    Run(Initialize(Mount(userId, matchId, role, channelName), media, offer), events)
  }

  /** Every message sent so far goes from the local user to the match and carries a body. */
  ghost predicate WellAddressed(c: Call) {
    forall i :: 0 <= i < |c.outbox| ==>
      c.outbox[i].from == c.userId && c.outbox[i].to == c.matchId && c.outbox[i].body.Some?
  }

  /** The number of messages of kind `k`. */
  function CountKind(s: seq<Signal>, k: SignalKind): nat
    decreases |s|
  {
    if s == [] then 0
    else CountKind(s[..|s| - 1], k) + (if s[|s| - 1].kind == k then 1 else 0)
  }

  lemma CountKindAppend(s: seq<Signal>, m: Signal, k: SignalKind)
    ensures CountKind(s + [m], k) == CountKind(s, k) + (if m.kind == k then 1 else 0)
  {
  }

  /** The facts a step must keep about the outbox. */
  ghost predicate KeepsSignaling(c: Call, r: Call) {
    && r.userId == c.userId && r.matchId == c.matchId && r.role == c.role
    && WellAddressed(r)
    && |c.outbox| <= |r.outbox| && r.outbox[..|c.outbox|] == c.outbox
    && CountKind(r.outbox, Offer) == CountKind(c.outbox, Offer)
  }

  /** Appending one well-addressed message that is not an offer keeps them. */
  lemma AppendKeepsSignaling(c: Call, r: Call, kind: SignalKind, body: Token)
    requires WellAddressed(c) && kind != Offer
    requires r.userId == c.userId && r.matchId == c.matchId && r.role == c.role
    requires r.outbox == c.outbox + [Outgoing(c, kind, body)]
    ensures KeepsSignaling(c, r)
  {
    CountKindAppend(c.outbox, Outgoing(c, kind, body), Offer);
    assert r.outbox[..|c.outbox|] == c.outbox;
  }

  /** A step after initialisation only appends to the outbox, never sends an offer,
      keeps every message well addressed and never changes who is calling whom. */
  lemma StepKeepsSignaling(c: Call, e: Event)
    requires WellAddressed(c)
    ensures KeepsSignaling(c, Step(c, e))
  {
    var r := Step(c, e);
    match e {
      case ReceiveOffer(m, ok, a) =>
        if r.outbox != c.outbox {
          AppendKeepsSignaling(c, r, Answer, a.value);
        }
      case LocalCandidate(t) =>
        if t.Some? {
          AppendKeepsSignaling(c, r, IceCandidate, t.value);
        }
      case _ =>
    }
  }

  lemma {:induction false} RunKeepsSignaling(c: Call, events: seq<Event>)
    requires WellAddressed(c)
    ensures KeepsSignaling(c, Run(c, events))
    decreases |events|
  {
    if events == [] {
      assert c.outbox[..|c.outbox|] == c.outbox;
    } else {
      var next := Step(c, events[0]);
      StepKeepsSignaling(c, events[0]);
      RunKeepsSignaling(next, events[1..]);
      var r := Run(next, events[1..]);
      assert r.outbox[..|c.outbox|] == r.outbox[..|next.outbox|][..|c.outbox|];
    }
  }

  /** Over a whole call: every message is addressed from the user to the match; only an
      initiator whose start-up succeeded offers, exactly once and first; a responder never offers. */
  lemma SessionSignaling(userId: UserId, matchId: UserId, role: Role, channelName: string,
                         media: Option<LocalStream>, offer: Option<Token>, events: seq<Event>)
    ensures var r := Session(userId, matchId, role, channelName, media, offer, events);
      && (forall i :: 0 <= i < |r.outbox| ==> r.outbox[i].from == userId && r.outbox[i].to == matchId)
      && CountKind(r.outbox, Offer) == (if role == Initiator && media.Some? && offer.Some? then 1 else 0)
      && (role == Initiator && media.Some? && offer.Some? ==>
            r.outbox[0] == Signal(Offer, offer, userId, matchId))
  {
    var c1 := Initialize(Mount(userId, matchId, role, channelName), media, offer);
    var starts := role == Initiator && media.Some? && offer.Some?;
    assert WellAddressed(c1) && c1.userId == userId && c1.matchId == matchId;
    assert CountKind(c1.outbox, Offer) == (if starts then 1 else 0) by {
      if starts {
        assert c1.outbox == [] + [c1.outbox[0]];
        CountKindAppend([], c1.outbox[0], Offer);
      }
    }
    RunKeepsSignaling(c1, events);
    var r := Run(c1, events);
    assert r == Session(userId, matchId, role, channelName, media, offer, events);
    if starts {
      assert r.outbox[0] == r.outbox[..|c1.outbox|][0];
    }
  }

  /** Toggling twice gives the track its original flag back and, when the button already
      mirrored the track, restores the whole call. */
  lemma ToggleAudioTwice(c: Call)
    ensures ToggleAudio(ToggleAudio(c)).stream == c.stream
    ensures c.stream.Some? && |c.stream.value.audio| > 0 && c.audioEnabled == c.stream.value.audio[0].enabled ==>
              ToggleAudio(ToggleAudio(c)) == c
  {
    if c.stream.Some? && |c.stream.value.audio| > 0 {
      var a := c.stream.value.audio;
      assert FlipFirst(FlipFirst(a)) == a;
    }
  }

  lemma ToggleVideoTwice(c: Call)
    ensures ToggleVideo(ToggleVideo(c)).stream == c.stream
    ensures c.stream.Some? && |c.stream.value.video| > 0 && c.videoEnabled == c.stream.value.video[0].enabled ==>
              ToggleVideo(ToggleVideo(c)) == c
  {
    if c.stream.Some? && |c.stream.value.video| > 0 {
      var v := c.stream.value.video;
      assert FlipFirst(FlipFirst(v)) == v;
    }
  }

  /** Cleaning up a second time (the unmount after a hang-up) changes nothing more. */
  lemma CleanupIdempotent(c: Call)
    ensures Cleanup(Cleanup(c)) == Cleanup(c)
  {
    var once := Cleanup(c);
    if c.stream.Some? {
      var ls := once.stream.value;
      assert StopAll(ls.audio) == ls.audio;
      assert StopAll(ls.video) == ls.video;
    }
  }

  /** Hanging up twice calls `onEndCall` twice: the component does not guard against it. */
  lemma EndCallTwice(c: Call)
    ensures EndCall(EndCall(c)).endCalls == c.endCalls + 2
    ensures EndCall(EndCall(c)).(endCalls := c.endCalls) == Cleanup(c)
  {
    CleanupIdempotent(c);
  }

  /** A signaling message addressed to someone else is ignored, whatever its kind and
      whatever the engine would have answered. */
  lemma MisaddressedIgnored(c: Call, e: Event)
    requires e.ReceiveOffer? || e.ReceiveAnswer? || e.ReceiveCandidate?
    requires e.m.to != c.userId
    ensures Step(c, e) == c
  {
  }

  /** The two-party handshake: the initiator's offer reaches the responder, who answers
      exactly once, addressed back to the initiator; the initiator then holds that answer
      as its remote description. */
  lemma Handshake(a: UserId, b: UserId, channelName: string,
                  mediaA: LocalStream, mediaB: LocalStream, offer: Token, answer: Token)
    ensures var callerA := Initialize(Mount(a, b, Initiator, channelName), Some(mediaA), Some(offer));
      var calleeB := Initialize(Mount(b, a, Responder, channelName), Some(mediaB), None);
      && callerA.outbox == [Signal(Offer, Some(offer), a, b)]
      && calleeB.outbox == []
      && var answeredB := OnOffer(calleeB, callerA.outbox[0], true, Some(answer));
         && answeredB.outbox == [Signal(Answer, Some(answer), b, a)]
         && answeredB.peer == Some(Peer(Some(answer), Some(offer), [], false))
         && var doneA := OnAnswer(callerA, answeredB.outbox[0], true);
            doneA.peer == Some(Peer(Some(offer), Some(answer), [], false))
  {
  }
}
