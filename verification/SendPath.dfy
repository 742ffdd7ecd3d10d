/**
 The send path with any number of streams (audio/audio_send_stream.cc, audio/audio_state.cc,
 audio/audio_transport_impl.cc): public calls of the streams and captured frames, in any order.

 First the whole path as one state machine, in which every stream is shown to behave as if it were
 alone, and to receive the frames captured while it is started. Then the objects themselves, which
 share one audio state and one allocator, are proved to follow that machine.
 */
module SendPath {
  import opened Wrappers
  import opened SendStreamModel
  import opened AudioTransport
  import opened AudioState
  import opened AudioSendStream

  datatype Event<K> = Called(stream: K, call: Call) | Captured(frame: AudioFrame)

  datatype Path<K> = Path(streams: map<K, Stream>, received: map<K, seq<AudioFrame>>)

  ghost predicate Holds<K>(t: map<K, Settings>, p: Path<K>) {
    && p.streams.Keys == t.Keys && p.received.Keys == t.Keys
    && forall k :: k in t ==> Invariant(t[k], p.streams[k])
  }

  ghost predicate Possible<K>(t: map<K, Settings>, p: Path<K>, e: Event<K>)
    requires Holds(t, p)
  {
    e.Called? ==> e.stream in t && Allowed(t[e.stream], p.streams[e.stream], e.call)
  }

  /** A captured frame goes to the streams the audio state lists. */
  ghost function Next<K>(t: map<K, Settings>, p: Path<K>, e: Event<K>): (p': Path<K>)
    requires Holds(t, p) && Possible(t, p, e)
    ensures Holds(t, p')
  {
    match e
    case Called(k, call) =>
      StepHolds(t[k], p.streams[k], call);
      p.(streams := p.streams[k := Step(t[k], p.streams[k], call)])
    case Captured(frame) =>
      p.(received := map k | k in p.received :: p.received[k] + if p.streams[k].entry.Some? then [frame] else [])
  }

  ghost predicate PossibleRun<K>(t: map<K, Settings>, p: Path<K>, events: seq<Event<K>>)
    requires Holds(t, p)
    decreases |events|
  {
    events == [] || (Possible(t, p, events[0]) && PossibleRun(t, Next(t, p, events[0]), events[1..]))
  }

  ghost function After<K>(t: map<K, Settings>, p: Path<K>, events: seq<Event<K>>): (p': Path<K>)
    requires Holds(t, p) && PossibleRun(t, p, events)
    ensures Holds(t, p')
    decreases |events|
  {
    if events == [] then p else After(t, Next(t, p, events[0]), events[1..])
  }

  /** Next, seen stream by stream. */
  lemma NextAfterCall<K>(t: map<K, Settings>, p: Path<K>, p': Path<K>, k: K, call: Call)
    requires Holds(t, p) && Possible(t, p, Called(k, call)) && p'.streams.Keys == p.streams.Keys
    requires p'.streams[k] == Step(t[k], p.streams[k], call)
    requires forall k' :: k' in t && k' != k ==> p'.streams[k'] == p.streams[k']
    requires p'.received == p.received
    ensures p' == Next(t, p, Called(k, call))
  {
    hide Step, Allowed, Invariant;
    assert p'.streams == p.streams[k := Step(t[k], p.streams[k], call)];
  }

  lemma NextAfterCapture<K>(t: map<K, Settings>, p: Path<K>, p': Path<K>, frame: AudioFrame)
    requires Holds(t, p) && p'.streams == p.streams && p'.received.Keys == p.received.Keys
    requires forall k :: k in t ==>
               p'.received[k] == if p.streams[k].sending then p.received[k] + [frame] else p.received[k]
    ensures p' == Next(t, p, Captured(frame))
  {
    var n := Next(t, p, Captured(frame));
    forall k | k in t ensures p'.received[k] == n.received[k] {
      NextForOne(t, p, Captured(frame), k);
    }
    assert p'.received == n.received;
  }

  // What a run means for one stream, without the state machine.

  ghost function CallsTo<K>(events: seq<Event<K>>, k: K): seq<Call>
    decreases |events|
  {
    if events == [] then []
    else if events[0].Called? && events[0].stream == k then [events[0].call] + CallsTo(events[1..], k)
    else CallsTo(events[1..], k)
  }

  /** The frames captured while k is started; `started` says whether it is to begin with. */
  ghost function FramesFor<K>(started: bool, events: seq<Event<K>>, k: K): seq<AudioFrame>
    decreases |events|
  {
    if events == [] then []
    else
      match events[0]
      case Captured(frame) => (if started then [frame] else []) + FramesFor(started, events[1..], k)
      case Called(k', call) =>
        var started' := if k' != k then started else call.Start? || (started && !call.Stop?);
        FramesFor(started', events[1..], k)
  }

  /** Only Start and Stop change whether a stream sends. */
  lemma SendingAfter(t: Settings, s: Stream, call: Call)
    requires Invariant(t, s) && Allowed(t, s, call)
    ensures Step(t, s, call).sending == if call.Start? then true else if call.Stop? then false else s.sending
  {
    if call.Reconfigure? {
      EncoderStageIsSteady(t, s, call.config, call.rtpOverhead, call.lengths);
    }
  }

  lemma ListedWhileSending(t: Settings, s: Stream)
    requires Invariant(t, s)
    ensures s.entry.Some? <==> s.sending
  {
  }

  /** What one event means for one stream. */
  lemma NextForOne<K>(t: map<K, Settings>, p: Path<K>, e: Event<K>, k: K)
    requires Holds(t, p) && Possible(t, p, e) && k in t
    ensures var p' := Next(t, p, e);
            && p'.streams[k] == (if e.Called? && e.stream == k then Step(t[k], p.streams[k], e.call) else p.streams[k])
            && p'.received[k] == p.received[k] + if e.Captured? && p.streams[k].sending then [e.frame] else []
  {
    hide Step, Allowed;
    ListedWhileSending(t[k], p.streams[k]);
  }

  /** In any run of the path each stream ends up where its own calls alone take it. */
  lemma {:induction false} EachStreamIsOnItsOwn<K>(t: map<K, Settings>, p: Path<K>, events: seq<Event<K>>, k: K)
    requires Holds(t, p) && PossibleRun(t, p, events) && k in t
    ensures AllowedRun(t[k], p.streams[k], CallsTo(events, k))
    ensures After(t, p, events).streams[k] == Run(t[k], p.streams[k], CallsTo(events, k))
    decreases |events|
  {
    hide Invariant, Allowed, Step, Next;
    if events == [] {
    } else {
      var e, rest := events[0], events[1..];
      NextForOne(t, p, e, k);
      EachStreamIsOnItsOwn(t, Next(t, p, e), rest, k);
      if e.Called? && e.stream == k {
        assert CallsTo(events, k)[1..] == CallsTo(rest, k);
      }
    }
  }

  /** And it has received exactly the frames captured while it was started, once each and in order. */
  lemma {:induction false} StartedStreamsGetEveryFrame<K>(t: map<K, Settings>, p: Path<K>, events: seq<Event<K>>, k: K)
    requires Holds(t, p) && PossibleRun(t, p, events) && k in t
    ensures After(t, p, events).received[k] == p.received[k] + FramesFor(p.streams[k].sending, events, k)
    decreases |events|
  {
    hide Invariant, Allowed, Step, Next;
    if events == [] {
    } else {
      var e := events[0];
      NextForOne(t, p, e, k);
      StartedStreamsGetEveryFrame(t, Next(t, p, e), events[1..], k);
      if e.Called? && e.stream == k {
        SendingAfter(t[k], p.streams[k], e.call);
      }
    }
  }

  /** Hence how the calls of different streams are interleaved does not matter to any of them. */
  lemma InterleavingDoesNotMatter<K>(t: map<K, Settings>, p: Path<K>, events: seq<Event<K>>, events': seq<Event<K>>,
                                     k: K)
    requires Holds(t, p) && PossibleRun(t, p, events) && PossibleRun(t, p, events') && k in t
    requires CallsTo(events, k) == CallsTo(events', k)
    ensures After(t, p, events).streams[k] == After(t, p, events').streams[k]
  {
    EachStreamIsOnItsOwn(t, p, events, k);
    EachStreamIsOnItsOwn(t, p, events', k);
  }

  // The objects.

  lemma KeptElsewhere<K, V>(m: map<K, V>, m': map<K, V>, k: K, other: K)
    requires m - {k} == m' - {k} && k != other
    ensures Lookup(m, other) == Lookup(m', other)
  {
    assert Lookup(m, other) == Lookup(m - {k}, other);
    assert Lookup(m', other) == Lookup(m' - {k}, other);
  }

  lemma SameKeysElsewhere<K, V>(m: map<K, V>, m': map<K, V>, k: K)
    requires m - {k} == m' - {k}
    ensures m.Keys <= m'.Keys + {k}
  {
    forall x | x in m && x != k ensures x in m' {
      KeptElsewhere(m, m', k, x);
    }
  }

  /** Two maps with the same values have the same largest ones. */
  lemma SameLargest<K, L>(m: map<K, Properties>, n: map<L, Properties>, rate: int, channels: nat)
    requires IsLargestRate(rate, m) && IsLargestChannelCount(channels, m)
    requires m.Values == n.Values
    ensures IsLargestRate(rate, n) && IsLargestChannelCount(channels, n)
  {
    forall y | y in n ensures n[y].sampleRateHz <= rate && n[y].numChannels <= channels {
      assert n[y] in m.Values;
    }
    if rate != MIN_SAMPLE_RATE_HZ {
      var x :| x in m && m[x].sampleRateHz == rate;
      assert m[x] in n.Values;
    }
    if channels != MIN_NUM_CHANNELS {
      var x :| x in m && m[x].numChannels == channels;
      assert m[x] in n.Values;
    }
  }

  class SendPath {
    const audioState: AudioState
    const allocator: BitrateAllocator
    var streams: set<AudioSendStream>

    /** The streams use this audio state and this allocator, and share nothing else. */
    ghost predicate Shared()
      reads this
    {
      && (forall s :: s in streams ==> s.audioState == audioState && s.allocator == allocator)
      && (forall s, s' :: s in streams && s' in streams && s != s' ==>
            s.sender != s'.sender && s.channel != s'.channel && s.rtp != s'.rtp)
    }

    ghost function Channels(): set<ChannelSend>
      reads this
    {
      set s | s in streams :: s.channel
    }

    ghost function Modules(): set<RtpRtcpModule>
      reads this
    {
      set s | s in streams :: s.rtp
    }

    ghost function Senders(): set<AudioSender>
      reads this
    {
      set s | s in streams :: s.sender
    }

    ghost function AllSettings(): map<AudioSendStream, Settings>
      reads this
    {
      map s | s in streams :: s.settings
    }

    ghost function States(): map<AudioSendStream, Stream>
      requires Shared()
      reads this, streams, Channels(), Modules(), allocator, audioState`sendingStreams
    {
      map s | s in streams :: s.View()
    }

    ghost function Received(): map<AudioSendStream, seq<AudioFrame>>
      reads this, Senders()
    {
      map s | s in streams :: s.sender.received
    }

    ghost function View(): Path<AudioSendStream>
      requires Shared()
      reads this, streams, Channels(), Modules(), Senders(), allocator, audioState`sendingStreams
    {
      Path(States(), Received())
    }

    /** Every stream is valid, and the audio state lists streams of this path only. */
    ghost predicate Valid()
      reads this, streams, Channels(), Modules(), allocator
      reads audioState, audioState.transport, audioState.device, audioState.mixer
    {
      && Shared()
      && audioState.Valid()
      && (forall s :: s in streams ==> s.Valid())
      && audioState.sendingStreams.Keys <= Senders()
    }

    constructor ()
      ensures Valid() && streams == {}
      ensures fresh(audioState) && fresh(allocator) && fresh(audioState.transport) && fresh(audioState.device)
    {
      audioState := new AudioState();
      allocator := new BitrateAllocator();
      streams := {};
    }

    lemma ViewHolds()
      requires Valid()
      ensures Shared() && Holds(AllSettings(), View())
    {
      hide Invariant, AudioState.Valid, AudioSendStream.View;
    }

    /** The started streams, with the properties of their encoders. */
    ghost function Started(): map<AudioSendStream, Properties>
      reads this, streams
    {
      map s | s in streams && s.sending :: Properties(s.encoderSampleRateHz, s.encoderNumChannels)
    }

    lemma TransportListsStartedStreams()
      requires Valid()
      ensures NoDuplicates(audioState.transport.audioSenders)
      ensures forall s :: s in streams ==> (s.sender in audioState.transport.audioSenders <==> s.sending)
      ensures forall s :: s in streams && s.sending ==>
                s.sender in audioState.sendingStreams && audioState.sendingStreams[s.sender] == Started()[s]
      ensures forall x :: x in audioState.transport.audioSenders ==> x in Senders() && x in audioState.sendingStreams
    {
      forall s | s in streams
        ensures s.View().entry == Lookup(audioState.sendingStreams, s.sender) && EntryAgrees(s.View())
      {
        assert s.Valid();
      }
    }

    /** What the transport holds: each started stream once, and no other, and the largest rate and
        channel count of their encoders, but at least 8000 and 1. */
    lemma TransportFeedsStartedStreams()
      requires Valid()
      ensures NoDuplicates(audioState.transport.audioSenders)
      ensures forall s :: s in streams ==> (s.sender in audioState.transport.audioSenders <==> s.sending)
      ensures forall s :: s in streams && s.sending ==>
                s.sender in audioState.sendingStreams && audioState.sendingStreams[s.sender] == Started()[s]
      ensures forall x :: x in audioState.transport.audioSenders ==> x in Senders()
      ensures IsLargestRate(audioState.transport.sendSampleRateHz, Started())
      ensures IsLargestChannelCount(audioState.transport.sendNumChannels, Started())
    {
      hide AudioSendStream.Valid, AudioState.DeviceMatches, IsLargestRate, IsLargestChannelCount, NoDuplicates;
      TransportListsStartedStreams();
      var listed, started := audioState.sendingStreams, Started();
      forall v | v in started.Values ensures v in listed.Values {
        var s :| s in started && started[s] == v;
        assert listed[s.sender] == v;
      }
      forall v | v in listed.Values ensures v in started.Values {
        var x :| x in listed && listed[x] == v;
        assert x in Senders();
        var s :| s in streams && s.sender == x;
        assert s in started && started[s] == v;
      }
      SameLargest(listed, started, audioState.transport.sendSampleRateHz, audioState.transport.sendNumChannels);
    }

    method NewStream(settings: Settings, config: Config, rtpOverhead: nat, lengths: Option<FrameLengths>)
        returns (stream: AudioSendStream)
      requires Valid() && ConfigureAllowed(settings, INITIAL, config, rtpOverhead, lengths)
      modifies allocator, audioState`sendingStreams, audioState.transport, audioState.device`recording
      ensures fresh(stream) && fresh(stream.sender) && fresh(stream.channel) && fresh(stream.rtp)
      ensures stream.audioState == audioState && stream.allocator == allocator && stream.settings == settings
      ensures stream.View() == Constructed(settings, config, rtpOverhead, lengths) && stream.Valid()
      ensures stream.sender.received == []
      ensures forall s :: s in streams ==> s.View() == old(s.View()) && s.Valid()
      ensures audioState.Valid() && audioState.sendingStreams == old(audioState.sendingStreams)
    {
      hide AudioState.Valid, Invariant, ConfigureAllowed, Constructed;
      stream := new AudioSendStream(settings, allocator, audioState, config, rtpOverhead, lengths);
    }

    method Adopt(stream: AudioSendStream)
      requires Valid() && stream.Valid() && stream !in streams
      requires stream.audioState == audioState && stream.allocator == allocator
      requires stream.sender !in Senders() && stream.channel !in Channels() && stream.rtp !in Modules()
      modifies this`streams
      ensures Valid() && streams == old(streams) + {stream}
      ensures States() == old(States())[stream := stream.View()]
    {
      hide AudioState.Valid, Invariant, AudioSendStream.View, AudioSendStream.Valid;
      assert forall s :: s in streams ==> s.sender in Senders() && s.channel in Channels() && s.rtp in Modules();
      streams := streams + {stream};
    }

    method Create(settings: Settings, config: Config, rtpOverhead: nat, lengths: Option<FrameLengths>)
        returns (stream: AudioSendStream)
      requires Valid() && ConfigureAllowed(settings, INITIAL, config, rtpOverhead, lengths)
      modifies this, allocator, audioState`sendingStreams, audioState.transport, audioState.device`recording
      ensures Valid() && streams == old(streams) + {stream} && fresh(stream)
      ensures States() == old(States())[stream := Constructed(settings, config, rtpOverhead, lengths)]
      ensures stream.sender.received == []
    {
      hide AudioState.Valid, Invariant, ConfigureAllowed, Constructed, AudioSendStream.View, AudioSendStream.Valid;
      stream := NewStream(settings, config, rtpOverhead, lengths);
      assert States() == old(States());
      Adopt(stream);
    }

    method Dispatch(stream: AudioSendStream, call: Call)
      requires stream.Valid() && stream.audioState.Valid() && Allowed(stream.settings, stream.View(), call)
      modifies stream, stream.channel, stream.rtp, stream.allocator
      modifies stream.audioState`sendingStreams, stream.audioState.transport, stream.audioState.device`recording
      ensures stream.View() == Step(stream.settings, old(stream.View()), call) && stream.Valid()
      ensures stream.audioState.Valid() && stream.OthersKept()
    {
      hide AudioState.Valid, Invariant, Allowed, Step, AudioSendStream.View;
      match call
      case Start => stream.Start();
      case Stop => stream.Stop();
      case Reconfigure(config, rtpOverhead, lengths) => var _ := stream.Reconfigure(config, rtpOverhead, lengths);
      case SetTransportOverhead(bytes) => stream.SetTransportOverhead(bytes);
      case DeliverRtcp(rtpOverhead) => stream.DeliverRtcp(rtpOverhead);
      case OnBitrateUpdated(target, stableTarget) => stream.OnBitrateUpdated(target, stableTarget);
    }

    method DispatchAmongOthers(stream: AudioSendStream, call: Call)
      requires Valid() && stream in streams && Allowed(stream.settings, stream.View(), call)
      modifies stream, stream.channel, stream.rtp, allocator
      modifies audioState`sendingStreams, audioState.transport, audioState.device`recording
      ensures stream.View() == Step(stream.settings, old(stream.View()), call) && stream.Valid()
      ensures forall s :: s in streams && s != stream ==> s.View() == old(s.View()) && s.Valid()
      ensures audioState.Valid() && audioState.sendingStreams.Keys <= Senders()
    {
      hide AudioState.Valid, Invariant, Allowed, Step;
      Dispatch(stream, call);
      forall s | s in streams && s != stream
        ensures s.View() == old(s.View())
      {
        KeptElsewhere(allocator.observers, old(allocator.observers), stream.sender, s.sender);
        KeptElsewhere(audioState.sendingStreams, old(audioState.sendingStreams), stream.sender, s.sender);
      }
      SameKeysElsewhere(audioState.sendingStreams, old(audioState.sendingStreams), stream.sender);
    }

    /** Any public call of any stream. */
    method Perform(stream: AudioSendStream, call: Call)
      requires Valid() && stream in streams && Allowed(stream.settings, stream.View(), call)
      modifies stream, stream.channel, stream.rtp, allocator
      modifies audioState`sendingStreams, audioState.transport, audioState.device`recording
      ensures Valid()
      ensures Holds(old(AllSettings()), old(View())) && Possible(old(AllSettings()), old(View()), Called(stream, call))
      ensures View() == Next(old(AllSettings()), old(View()), Called(stream, call))
      ensures unchanged(audioState`receivingStreams, audioState`playoutEnabled, audioState`nullAudioPollerRunning)
      ensures unchanged(audioState`recordingEnabled, audioState.device`playing, audioState.mixer)
    {
      hide AudioState.Valid, Invariant, Allowed, Step, Holds, Next, AudioSendStream.View, AudioSendStream.Valid;
      ViewHolds();
      DispatchAmongOthers(stream, call);
      NextAfterCall(AllSettings(), old(View()), View(), stream, call);
    }

    method Feed(samples: seq<int>, sampleRate: int, numChannels: nat, process: (seq<int>, int, nat) -> seq<int>)
        returns (frame: AudioFrame)
      requires Valid()
      modifies Senders()
      ensures IsProcessingRate(frame.sampleRateHz, Min(sampleRate, audioState.transport.sendSampleRateHz))
      ensures frame.numChannels == Min(numChannels, audioState.transport.sendNumChannels)
      ensures forall s :: s in streams ==>
                s.sender.received == if s.View().sending then old(s.sender.received) + [frame]
                  else old(s.sender.received)
    {
      hide Valid;
      TransportListsStartedStreams();
      frame := audioState.transport.RecordedDataIsAvailable(samples, sampleRate, numChannels, process);
    }

    /** A frame is captured and processed: every started stream gets it once. */
    method Capture(samples: seq<int>, sampleRate: int, numChannels: nat, process: (seq<int>, int, nat) -> seq<int>)
        returns (frame: AudioFrame)
      requires Valid()
      modifies Senders()
      ensures Valid()
      ensures IsProcessingRate(frame.sampleRateHz, Min(sampleRate, audioState.transport.sendSampleRateHz))
      ensures frame.numChannels == Min(numChannels, audioState.transport.sendNumChannels)
      ensures Holds(old(AllSettings()), old(View())) && View() == Next(old(AllSettings()), old(View()), Captured(frame))
    {
      hide AudioState.Valid, AudioSendStream.Valid, AudioSendStream.View, Next, Holds;
      ViewHolds();
      frame := Feed(samples, sampleRate, numChannels, process);
      NextAfterCapture(AllSettings(), old(View()), View(), frame);
    }

    // The other calls of the audio state leave every stream as it is.

    method AddReceivingStream(stream: AudioReceiveStream)
      requires Valid() && stream !in audioState.receivingStreams
      modifies audioState`receivingStreams, audioState`nullAudioPollerRunning, audioState.device`playing,
               audioState.mixer
      ensures Valid() && View() == old(View())
              && audioState.receivingStreams == old(audioState.receivingStreams) + {stream}
    {
      hide AudioState.Valid, AudioSendStream.Valid, AudioSendStream.View;
      audioState.AddReceivingStream(stream);
    }

    method RemoveReceivingStream(stream: AudioReceiveStream)
      requires Valid() && stream in audioState.receivingStreams
      modifies audioState`receivingStreams, audioState`nullAudioPollerRunning, audioState.device`playing,
               audioState.mixer
      ensures Valid() && View() == old(View())
              && audioState.receivingStreams == old(audioState.receivingStreams) - {stream}
    {
      hide AudioState.Valid, AudioSendStream.Valid, AudioSendStream.View;
      audioState.RemoveReceivingStream(stream);
    }

    method SetPlayout(enabled: bool)
      requires Valid()
      modifies audioState`playoutEnabled, audioState`nullAudioPollerRunning, audioState.device`playing
      ensures Valid() && View() == old(View()) && audioState.playoutEnabled == enabled
    {
      hide AudioState.Valid, AudioSendStream.Valid, AudioSendStream.View;
      audioState.SetPlayout(enabled);
    }

    method SetRecording(enabled: bool)
      requires Valid()
      modifies audioState`recordingEnabled, audioState.device`recording
      ensures Valid() && View() == old(View()) && audioState.recordingEnabled == enabled
    {
      hide AudioState.Valid, AudioSendStream.Valid, AudioSendStream.View;
      audioState.SetRecording(enabled);
    }
  }
}
