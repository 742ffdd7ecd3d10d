/**
 The audio send stream as the object it is (audio/audio_send_stream.cc): the fields, the private
 methods that update them step by step, and the public calls. `View` collects the state of the
 stream and what its surroundings hold about it; every method is proved to take the view where the
 state machine of SendStreamModel takes it, and to leave the records of other streams alone.
 */
module AudioSendStream {
  import opened Wrappers
  import opened HeaderExtensions
  import opened EncoderStack
  import opened SendStreamModel
  import opened SendStreamLaws
  import opened AudioTransport
  import opened AudioState

  /** The send channel: it holds the encoder, counts the calls that reach it, and records the bitrate
      updates it is given. */
  class ChannelSend {
    var encoder: Option<Encoder>
    var calls: nat
    var sending: bool
    var forwarded: seq<Update>

    constructor ()
      ensures encoder == None && calls == 0 && !sending && forwarded == []
    {
      encoder := None;
      calls := 0;
      sending := false;
      forwarded := [];
    }

    method SetEncoder(e: Encoder)
      modifies this`encoder
      ensures encoder == Some(e)
    {
      encoder := Some(e);
    }

    /** Does nothing when there is no encoder. */
    method CallEncoder(modifier: Encoder -> Encoder)
      modifies this`encoder, this`calls
      ensures encoder == if old(encoder).Some? then Some(modifier(old(encoder).value)) else None
      ensures calls == old(calls) + if encoder.Some? then 1 else 0
    {
      if encoder.Some? {
        encoder := Some(modifier(encoder.value));
        calls := calls + 1;
      }
    }

    method OnBitrateAllocation(update: Update)
      modifies this`encoder, this`calls, this`forwarded
      ensures forwarded == old(forwarded) + [update]
      ensures encoder == if old(encoder).Some? then Some(old(encoder).value.OnReceivedTargetBitrate(update.target))
              else None
    {
      forwarded := forwarded + [update];
      CallEncoder((e: Encoder) => e.OnReceivedTargetBitrate(update.target));
    }
  }

  class RtpRtcpModule {
    var expectedPerPacketOverhead: nat
    var partOfAllocation: bool

    constructor ()
      ensures expectedPerPacketOverhead == 0 && !partOfAllocation
    {
      expectedPerPacketOverhead := 0;
      partOfAllocation := false;
    }
  }

  /** The bitrate allocator's list of observers, and how often it was told about them. */
  class BitrateAllocator {
    var observers: map<AudioSender, Allocation>
    var calls: nat

    constructor ()
      ensures observers == map[] && calls == 0
    {
      observers := map[];
      calls := 0;
    }

    method AddObserver(observer: AudioSender, allocation: Allocation)
      modifies this
      ensures observers == old(observers)[observer := allocation] && calls == old(calls) + 1
    {
      calls := calls + 1;
      observers := observers[observer := allocation];
    }

    method RemoveObserver(observer: AudioSender)
      modifies this
      ensures observers == old(observers) - {observer} && calls == old(calls) + 1
    {
      calls := calls + 1;
      observers := observers - {observer};
    }
  }

  function Lookup<K, V>(m: map<K, V>, k: K): Option<V> {
    if k in m then Some(m[k]) else None
  }

  lemma SameWithoutAbsent<K, V>(m: map<K, V>, m': map<K, V>, k: K)
    requires k !in m && k !in m' && m - {k} == m' - {k}
    ensures m == m'
  {
    assert m == m - {k} && m' == m' - {k};
  }

  /** The last matching extension decides. */
  method FindTransportSeqNumId(extensions: seq<RtpExtension>) returns (id: int)
    ensures id == TransportSeqNumId(extensions)
  {
    id := 0;
    for i := 0 to |extensions|
      invariant id == TransportSeqNumId(extensions[..i])
    {
      assert extensions[..i + 1][..i] == extensions[..i];
      if extensions[i].uri == TRANSPORT_SEQUENCE_NUMBER_URI {
        id := extensions[i].id;
      }
    }
    assert extensions[..|extensions|] == extensions;
  }

  /** Start sets the RTP module's flag before it registers with the allocator. */
  lemma ObservedEitherWay(t: Settings, s: Stream, part: bool)
    ensures LimitsOf(t, s.(partOfAllocation := part)) == LimitsOf(t, s)
    ensures LimitsOf(t, s).Some? ==> Observed(t, s.(partOfAllocation := part)) == Observed(t,
            s).(partOfAllocation := part)
  {
  }

  class AudioSendStream {
    const settings: Settings
    const sender: AudioSender
    const channel: ChannelSend
    const rtp: RtpRtcpModule
    const allocator: BitrateAllocator
    const audioState: AudioState

    var config: Config
    var sending: bool
    var registeredWithAllocator: bool
    var cachedConstraints: Option<Limits>
    var frameLengthRange: Option<FrameLengths>
    var overheadPerPacket: nat
    var totalPacketOverheadBytes: nat
    var transportOverheadPerPacketBytes: nat
    var encoderSampleRateHz: int
    var encoderNumChannels: nat

    ghost function View(): Stream
      reads this, channel, rtp, allocator, audioState`sendingStreams
    {
      Stream(config, sending, registeredWithAllocator, cachedConstraints, frameLengthRange, overheadPerPacket,
             totalPacketOverheadBytes, transportOverheadPerPacketBytes, encoderSampleRateHz, encoderNumChannels,
             channel.encoder, channel.forwarded, rtp.expectedPerPacketOverhead, rtp.partOfAllocation,
             Lookup(allocator.observers, sender), Lookup(audioState.sendingStreams, sender))
    }

    ghost predicate Valid()
      reads this, channel, rtp, allocator, audioState`sendingStreams
    {
      Invariant(settings, View()) && channel.sending == sending
    }

    /** What the allocator and the audio state hold about other streams is unchanged. */
    twostate predicate OthersKept()
      reads allocator, audioState`sendingStreams
    {
      && allocator.observers - {sender} == old(allocator.observers) - {sender}
      && audioState.sendingStreams - {sender} == old(audioState.sendingStreams) - {sender}
    }

    constructor (settings: Settings, allocator: BitrateAllocator, audioState: AudioState,
                 config: Config, rtpOverhead: nat, lengths: Option<FrameLengths>)
      requires audioState.Valid() && ConfigureAllowed(settings, INITIAL, config, rtpOverhead, lengths)
      modifies allocator, audioState`sendingStreams, audioState.transport, audioState.device`recording
      ensures View() == Constructed(settings, config, rtpOverhead, lengths) && Valid()
      ensures this.settings == settings && this.allocator == allocator && this.audioState == audioState
      ensures audioState.Valid()
      ensures audioState.sendingStreams == old(audioState.sendingStreams)
              && allocator.observers == old(allocator.observers)
      ensures fresh(sender) && fresh(channel) && fresh(rtp) && sender.received == []
    {
      hide AudioState.Valid, ConfigureAllowed, Configured, Refreshed, Invariant, CanReconfigure;
      this.settings, this.allocator, this.audioState := settings, allocator, audioState;
      sender := new AudioSender();
      channel := new ChannelSend();
      rtp := new RtpRtcpModule();
      this.config := DEFAULT_CONFIG;
      sending, registeredWithAllocator := false, false;
      cachedConstraints, frameLengthRange := None, None;
      overheadPerPacket, totalPacketOverheadBytes, transportOverheadPerPacketBytes := 0, 0, 0;
      encoderSampleRateHz, encoderNumChannels := 0, 0;
      new;
      assert View() == INITIAL;
      var _ := ConfigureStream(config, true, rtpOverhead, lengths);
      UpdateCachedTargetAudioBitrateConstraints();
      ConstructedHolds(settings, config, rtpOverhead, lengths);
      SameWithoutAbsent(audioState.sendingStreams, old(audioState.sendingStreams), sender);
      SameWithoutAbsent(allocator.observers, old(allocator.observers), sender);
    }

    // Bitrate limits.

    method GetMinMaxBitrateConstraints() returns (constraints: Option<Limits>)
      ensures constraints == LimitsOf(settings, View())
      ensures constraints.Some? ==> AreLimits(settings, View(), constraints.value)
    {
      if LimitsOf(settings, View()).Some? {
        LimitsAreEnvelope(settings, View());
      }
      hide AreLimits;
      if config.minBitrateBps < 0 || config.maxBitrateBps < 0 {
        return None;
      }
      var min: nat, max: nat := config.minBitrateBps, config.maxBitrateBps;
      if settings.minBitrate.Some? {
        min := settings.minBitrate.value;
      }
      if settings.maxBitrate.Some? {
        max := settings.maxBitrate.value;
      }
      if max < min {
        return None;
      }
      if settings.legacyOverhead {
        var minOverhead := Rate(LEGACY_OVERHEAD_BYTES, LEGACY_MAX_FRAME_US);
        return Some(Limits(min + minOverhead, max + minOverhead));
      }
      if frameLengthRange.None? {
        return None;
      }
      min := min + Rate(totalPacketOverheadBytes, frameLengthRange.value.longest);
      max := max + Rate(totalPacketOverheadBytes, frameLengthRange.value.shortest);
      return Some(Limits(min, max));
    }

    method UpdateCachedTargetAudioBitrateConstraints()
      modifies this`cachedConstraints
      ensures View() == Refreshed(settings, old(View()))
    {
      var newConstraints := GetMinMaxBitrateConstraints();
      if newConstraints.None? {
        return;
      }
      cachedConstraints := newConstraints;
    }

    method ConfigureBitrateObserver()
      requires LimitsOf(settings, View()).Some?
      modifies this`registeredWithAllocator, allocator
      ensures View() == Observed(settings, old(View())) && OthersKept() && allocator.calls == old(allocator.calls) + 1
      ensures sender in allocator.observers && IsRecord(settings, old(View()), allocator.observers[sender])
    {
      RecordByField(settings, View());
      hide AreLimits, IsRecord;
      var constraints := GetMinMaxBitrateConstraints();
      var priorityBitrate := settings.priorityBitrate;
      if settings.legacyOverhead {
        priorityBitrate := priorityBitrate + Rate(LEGACY_OVERHEAD_BYTES, LEGACY_MIN_PACKET_US);
      } else {
        priorityBitrate := priorityBitrate + Rate(totalPacketOverheadBytes, frameLengthRange.value.longest);
      }
      if settings.priorityBitrateRaw.Some? {
        priorityBitrate := settings.priorityBitrateRaw.value;
      }
      var bitratePriority := if settings.bitratePriority.Some? then settings.bitratePriority.value
        else config.bitratePriority;
      allocator.AddObserver(sender, Allocation(constraints.value.min, constraints.value.max, priorityBitrate,
        bitratePriority));
      registeredWithAllocator := true;
    }

    method RemoveBitrateObserver()
      modifies this`registeredWithAllocator, allocator
      ensures View() == Unobserved(old(View())) && OthersKept()
    {
      registeredWithAllocator := false;
      allocator.RemoveObserver(sender);
    }

    // Overhead.

    method UpdateOverheadForEncoder()
      requires OverheadUpdateAllowed(settings, View())
      modifies this`overheadPerPacket, this`totalPacketOverheadBytes, this`registeredWithAllocator, channel`encoder,
               channel`calls, allocator
      ensures View() == OverheadUpdated(settings, old(View())) && OthersKept()
      ensures channel.calls == old(channel.calls)
                + if old(overheadPerPacket) == CurrentOverhead(old(View())) || old(channel.encoder).None? then 0 else 1
      ensures allocator.calls == old(allocator.calls)
                + if old(overheadPerPacket) == CurrentOverhead(old(View()))
                     || old(totalPacketOverheadBytes) == CurrentOverhead(old(View()))
                     || !old(registeredWithAllocator) then 0 else 1
    {
      var overheadPerPacketBytes := transportOverheadPerPacketBytes + rtp.expectedPerPacketOverhead;
      if overheadPerPacket == overheadPerPacketBytes {
        return;
      }
      overheadPerPacket := overheadPerPacketBytes;
      channel.CallEncoder((e: Encoder) => e.OnReceivedOverhead(overheadPerPacketBytes));
      if totalPacketOverheadBytes != overheadPerPacketBytes {
        totalPacketOverheadBytes := overheadPerPacketBytes;
        assert View() == OverheadNoted(old(View()));
        if registeredWithAllocator {
          ConfigureBitrateObserver();
        }
      }
    }

    // Codec.

    method StoreEncoderProperties(sampleRateHz: int, numChannels: nat)
      requires audioState.Valid()
      modifies this`encoderSampleRateHz, this`encoderNumChannels
      modifies audioState`sendingStreams, audioState.transport, audioState.device`recording
      ensures View() == PropertiesStored(old(View()), sampleRateHz, numChannels)
      ensures audioState.Valid() && OthersKept()
    {
      hide AudioState.Valid;
      encoderSampleRateHz := sampleRateHz;
      encoderNumChannels := numChannels;
      if sending {
        audioState.AddSendingStream(sender, sampleRateHz, numChannels);
      }
    }

    /** The part of SetupSendCodec that puts the encoder together. */
    method MakeEncoder(codec: Codec, newConfig: Config) returns (encoder: Encoder)
      requires newConfig.spec.Some?
      ensures encoder == Build(codec, newConfig.spec.value, newConfig.ana, CurrentOverhead(View()))
      ensures var spec, core := newConfig.spec.value, encoder.Core();
              && encoder.Layers() == LayersFor(spec) && core.codec == codec
              && core.payloadType == spec.payloadType && core.format == spec.format
              && core.targetBitrateBps == spec.targetBitrateBps
    {
      var spec := newConfig.spec.value;
      BuildByPart(codec, spec, newConfig.ana, CurrentOverhead(View()));
      encoder := Speech(codec, spec.payloadType, spec.format, None, None, 0);
      if spec.targetBitrateBps.Some? {
        encoder := encoder.OnReceivedTargetBitrate(spec.targetBitrateBps.value);
      }
      if newConfig.ana.Some? {
        encoder := encoder.EnableAdaptor(newConfig.ana.value);
      }
      if spec.cngPayloadType.Some? {
        encoder := ComfortNoise(spec.cngPayloadType.value, encoder);
      }
      if spec.redPayloadType.Some? {
        encoder := Redundant(spec.redPayloadType.value, encoder);
      }
      var overhead := transportOverheadPerPacketBytes + rtp.expectedPerPacketOverhead;
      if overhead > 0 {
        encoder := encoder.OnReceivedOverhead(overhead);
      }
    }

    method SetupSendCodec(newConfig: Config) returns (ok: bool)
      requires newConfig.spec.Some? && audioState.Valid()
      modifies this`encoderSampleRateHz, this`encoderNumChannels, channel`encoder, channel`calls
      modifies audioState`sendingStreams, audioState.transport, audioState.device`recording
      ensures ok <==> CodecFor(settings, newConfig.spec.value).Some?
      ensures View() == CodecSetUp(settings, old(View()), newConfig)
      ensures audioState.Valid() && OthersKept()
    {
      hide AudioState.Valid, Build;
      var spec := newConfig.spec.value;
      if (spec.payloadType, spec.format) !in settings.factory {
        return false;
      }
      var codec := settings.factory[(spec.payloadType, spec.format)];
      var encoder := MakeEncoder(codec, newConfig);
      StoreEncoderProperties(encoder.SampleRateHz(), encoder.NumChannels());
      channel.SetEncoder(encoder);
      return true;
    }

    method ReconfigureANA(newConfig: Config)
      modifies channel`encoder, channel`calls
      ensures channel.encoder == if old(channel.encoder).None? then None
                                 else Some(WithAdaptor(old(channel.encoder).value, config.ana, newConfig.ana,
                                                       CurrentOverhead(old(View()))))
    {
      if newConfig.ana == config.ana {
        return;
      }
      if newConfig.ana.Some? {
        var overhead := transportOverheadPerPacketBytes + rtp.expectedPerPacketOverhead;
        var ana := newConfig.ana.value;
        channel.CallEncoder((e: Encoder) =>
          if e.CanAdapt(ana) && overhead > 0 then e.EnableAdaptor(ana).OnReceivedOverhead(overhead)
          else e.EnableAdaptor(ana));
      } else {
        channel.CallEncoder((e: Encoder) => e.DisableAdaptor());
      }
    }

    /** `defined` is false where the encoder is used although there is none. */
    method ReconfigureCNG(newConfig: Config) returns (defined: bool)
      requires config.spec.Some? && newConfig.spec.Some?
      modifies channel`encoder, channel`calls
      ensures defined <==> old(channel.encoder).Some?
                           || newConfig.spec.value.cngPayloadType == config.spec.value.cngPayloadType
      ensures var cng0, cng1 := config.spec.value.cngPayloadType, newConfig.spec.value.cngPayloadType;
              channel.encoder == if old(channel.encoder).None? then None
                                 else Some(WithComfortNoise(old(channel.encoder).value, cng0, cng1))
    {
      if newConfig.spec.value.cngPayloadType == config.spec.value.cngPayloadType {
        return true;
      }
      if channel.encoder.None? {
        return false;
      }
      var encoder := channel.encoder.value;
      if !encoder.Speech? {
        encoder := encoder.inner;
      }
      if newConfig.spec.value.cngPayloadType.Some? {
        encoder := ComfortNoise(newConfig.spec.value.cngPayloadType.value, encoder);
      }
      channel.SetEncoder(encoder);
      return true;
    }

    method ReconfigureSendCodec(newConfig: Config) returns (ok: bool)
      requires audioState.Valid() && CodecChangeAllowed(settings, View(), newConfig)
      modifies this`encoderSampleRateHz, this`encoderNumChannels, channel`encoder, channel`calls
      modifies audioState`sendingStreams, audioState.transport, audioState.device`recording
      ensures ok <==> CanReconfigure(settings, config, newConfig)
      ensures View() == CodecReconfigured(settings, old(View()), newConfig)
      ensures audioState.Valid() && OthersKept()
    {
      hide AudioState.Valid;
      if newConfig.spec.None? {
        return true;
      }
      if newConfig.spec == config.spec && newConfig.ana == config.ana {
        return true;
      }
      if config.spec.None? || newConfig.spec.value.format != config.spec.value.format
         || newConfig.spec.value.payloadType != config.spec.value.payloadType
         || newConfig.spec.value.redPayloadType != config.spec.value.redPayloadType {
        ok := SetupSendCodec(newConfig);
        return;
      }
      var target := newConfig.spec.value.targetBitrateBps;
      if target.Some? && target != config.spec.value.targetBitrateBps {
        channel.CallEncoder((e: Encoder) => e.OnReceivedTargetBitrate(target.value));
      }
      ReconfigureANA(newConfig);
      var defined := ReconfigureCNG(newConfig);
      assert defined;
      return true;
    }

    // Configuration.

    method ReconfigureBitrateObserver(newConfig: Config)
      requires ObserverChangeAllowed(settings, View(), newConfig)
      modifies this`config, this`registeredWithAllocator, allocator, rtp`partOfAllocation
      ensures View() == ObserverReconfigured(settings, old(View()), newConfig) && OthersKept()
    {
      var oldId := FindTransportSeqNumId(config.extensions);
      var newId := FindTransportSeqNumId(newConfig.extensions);
      if config.minBitrateBps == newConfig.minBitrateBps && config.maxBitrateBps == newConfig.maxBitrateBps
         && config.bitratePriority == newConfig.bitratePriority && oldId == newId && config.ana == newConfig.ana {
        return;
      }
      if !newConfig.hasDscp && newConfig.minBitrateBps != -1 && newConfig.maxBitrateBps != -1 && newId != 0 {
        config := config.(minBitrateBps := newConfig.minBitrateBps, maxBitrateBps := newConfig.maxBitrateBps,
                          bitratePriority := newConfig.bitratePriority);
        assert View() == WithBitratesOf(old(View()), newConfig);
        ConfigureBitrateObserver();
        rtp.partOfAllocation := true;
      } else {
        RemoveBitrateObserver();
        rtp.partOfAllocation := false;
      }
    }

    /** `rtpOverhead` is what the RTP module expects once the header extensions are registered,
        `lengths` what the encoder reports. The callback is told whether the codec could be set up. */
    method ConfigureStream(newConfig: Config, firstTime: bool, rtpOverhead: nat, lengths: Option<FrameLengths>)
        returns (ok: bool)
      requires audioState.Valid() && ConfigureAllowed(settings, View(), newConfig, rtpOverhead, lengths)
      modifies this`config, this`frameLengthRange, this`cachedConstraints, this`registeredWithAllocator,
               this`overheadPerPacket,
               this`totalPacketOverheadBytes, this`encoderSampleRateHz, this`encoderNumChannels
      modifies channel`encoder, channel`calls, rtp, allocator
      modifies audioState`sendingStreams, audioState.transport, audioState.device`recording
      ensures ok <==> CanReconfigure(settings, old(config), newConfig)
      ensures View() == Configured(settings, old(View()), newConfig, firstTime, rtpOverhead, lengths)
      ensures audioState.Valid() && OthersKept()
    {
      hide AudioState.Valid, LimitsOf, CanReconfigure, EncoderStage, CodecChangeAllowed, OverheadUpdateAllowed,
           ObserverChangeAllowed, ObserverReconfigured, Refreshed;
      ok := ConfigureEncoder(newConfig, rtpOverhead, lengths);
      if sending {
        ReconfigureBitrateObserver(newConfig);
      }
      StoreConfig(newConfig, firstTime);
    }

    method StoreConfig(newConfig: Config, firstTime: bool)
      modifies this`config, this`cachedConstraints
      ensures View() == if firstTime then old(View()).(config := newConfig)
                        else Refreshed(settings, old(View()).(config := newConfig))
    {
      hide Refreshed;
      config := newConfig;
      if !firstTime {
        UpdateCachedTargetAudioBitrateConstraints();
      }
    }

    /** The part of ConfigureStream up to and including the frame lengths. */
    method ConfigureEncoder(newConfig: Config, rtpOverhead: nat, lengths: Option<FrameLengths>) returns (ok: bool)
      requires audioState.Valid() && CodecChangeAllowed(settings, View(), newConfig)
      requires OverheadUpdateAllowed(settings, CodecStage(settings, View(), newConfig, rtpOverhead))
      modifies this`frameLengthRange, this`cachedConstraints, this`registeredWithAllocator, this`overheadPerPacket,
               this`totalPacketOverheadBytes, this`encoderSampleRateHz, this`encoderNumChannels
      modifies channel`encoder, channel`calls, rtp`expectedPerPacketOverhead, allocator
      modifies audioState`sendingStreams, audioState.transport, audioState.device`recording
      ensures ok <==> CanReconfigure(settings, old(config), newConfig)
      ensures View() == EncoderStage(settings, old(View()), newConfig, rtpOverhead, lengths)
      ensures audioState.Valid() && OthersKept()
    {
      hide AudioState.Valid, CodecChangeAllowed, OverheadUpdateAllowed, CodecReconfigured, OverheadUpdated,
           FrameLengthsNoted,
           CanReconfigure, LimitsOf, Told;
      CodecChangeIgnoresOverhead(settings, View(), newConfig, rtpOverhead);
      rtp.expectedPerPacketOverhead := rtpOverhead;
      assert View() == old(View()).(rtpOverhead := rtpOverhead);
      ok := ReconfigureSendCodec(newConfig);
      UpdateOverheadForEncoder();
      NoteFrameLengths(lengths);
    }

    method NoteFrameLengths(lengths: Option<FrameLengths>)
      modifies this`frameLengthRange, this`cachedConstraints
      ensures View() == FrameLengthsNoted(settings, old(View()), lengths)
    {
      hide Refreshed;
      if channel.encoder.Some? {
        frameLengthRange := lengths;
        UpdateCachedTargetAudioBitrateConstraints();
      }
    }

    // Public calls.

    method RegisterAtStart()
      requires RegistersAtStart(settings, config) ==> LimitsOf(settings, View()).Some?
      modifies this`registeredWithAllocator, rtp`partOfAllocation, allocator
      ensures View() == (if RegistersAtStart(settings, config)
              then Observed(settings, old(View())).(partOfAllocation := true)
                         else old(View()).(partOfAllocation := false))
      ensures OthersKept()
    {
      hide LimitsOf, AllocationFor;
      var id := FindTransportSeqNumId(config.extensions);
      if !config.hasDscp && config.minBitrateBps != -1 && config.maxBitrateBps != -1
         && (settings.allocateWithoutFeedback || id != 0) {
        rtp.partOfAllocation := true;
        ObservedEitherWay(settings, old(View()), true);
        ConfigureBitrateObserver();
      } else {
        rtp.partOfAllocation := false;
      }
    }

    method Start()
      requires Valid() && audioState.Valid() && Allowed(settings, View(), SendStreamModel.Start)
      modifies this`sending, this`registeredWithAllocator, channel`sending, rtp`partOfAllocation, allocator
      modifies audioState`sendingStreams, audioState.transport, audioState.device`recording
      ensures View() == Step(settings, old(View()), SendStreamModel.Start) && Valid()
      ensures audioState.Valid() && OthersKept()
    {
      hide AudioState.Valid, Invariant, LimitsOf, Observed, RegistersAtStart;
      StepHolds(settings, View(), SendStreamModel.Start);
      if sending {
        return;
      }
      RegisterAtStart();
      channel.sending := true;
      sending := true;
      audioState.AddSendingStream(sender, encoderSampleRateHz, encoderNumChannels);
    }

    method Stop()
      requires Valid() && audioState.Valid()
      modifies this`sending, this`registeredWithAllocator, channel`sending, allocator
      modifies audioState`sendingStreams, audioState.transport, audioState.device`recording
      ensures View() == Step(settings, old(View()), SendStreamModel.Stop) && Valid()
      ensures audioState.Valid() && OthersKept()
    {
      hide AudioState.Valid;
      StepHolds(settings, View(), SendStreamModel.Stop);
      if !sending {
        return;
      }
      RemoveBitrateObserver();
      channel.sending := false;
      sending := false;
      audioState.RemoveSendingStream(sender);
    }

    method Reconfigure(newConfig: Config, rtpOverhead: nat, lengths: Option<FrameLengths>) returns (ok: bool)
      requires Valid() && audioState.Valid()
      requires Allowed(settings, View(), SendStreamModel.Reconfigure(newConfig, rtpOverhead, lengths))
      modifies this`config, this`frameLengthRange, this`cachedConstraints, this`registeredWithAllocator,
               this`overheadPerPacket,
               this`totalPacketOverheadBytes, this`encoderSampleRateHz, this`encoderNumChannels
      modifies channel`encoder, channel`calls, rtp, allocator
      modifies audioState`sendingStreams, audioState.transport, audioState.device`recording
      ensures ok <==> CanReconfigure(settings, old(config), newConfig)
      ensures View() == Step(settings, old(View()), SendStreamModel.Reconfigure(newConfig, rtpOverhead, lengths))
              && Valid()
      ensures audioState.Valid() && OthersKept()
    {
      hide AudioState.Valid, ConfigureAllowed, Configured, Invariant;
      StepHolds(settings, View(), SendStreamModel.Reconfigure(newConfig, rtpOverhead, lengths));
      ok := ConfigureStream(newConfig, false, rtpOverhead, lengths);
    }

    /** Encoder and allocator are told exactly when the total changes, once. */
    method SetTransportOverhead(bytes: nat)
      requires Valid() && Allowed(settings, View(), SendStreamModel.SetTransportOverhead(bytes))
      modifies this, channel`encoder, channel`calls, allocator
      ensures View() == Step(settings, old(View()), SendStreamModel.SetTransportOverhead(bytes)) && Valid()
              && OthersKept()
      ensures channel.calls == old(channel.calls)
                + if bytes + old(rtp.expectedPerPacketOverhead) == old(totalPacketOverheadBytes)
                  || old(channel.encoder).None? then 0 else 1
      ensures allocator.calls == old(allocator.calls)
                + if bytes + old(rtp.expectedPerPacketOverhead) == old(totalPacketOverheadBytes)
                  || !old(registeredWithAllocator) then 0 else 1
    {
      StepHolds(settings, View(), SendStreamModel.SetTransportOverhead(bytes));
      transportOverheadPerPacketBytes := bytes;
      UpdateOverheadForEncoder();
      UpdateCachedTargetAudioBitrateConstraints();
    }

    /** `rtpOverhead` is what the RTP module expects after the packet. */
    method DeliverRtcp(rtpOverhead: nat)
      requires Valid() && Allowed(settings, View(), SendStreamModel.DeliverRtcp(rtpOverhead))
      modifies this, channel`encoder, channel`calls, rtp`expectedPerPacketOverhead, allocator
      ensures View() == Step(settings, old(View()), SendStreamModel.DeliverRtcp(rtpOverhead)) && Valid() && OthersKept()
      ensures channel.calls == old(channel.calls)
                + if old(transportOverheadPerPacketBytes) + rtpOverhead == old(totalPacketOverheadBytes)
                  || old(channel.encoder).None? then 0 else 1
      ensures allocator.calls == old(allocator.calls)
                + if old(transportOverheadPerPacketBytes) + rtpOverhead == old(totalPacketOverheadBytes)
                  || !old(registeredWithAllocator) then 0 else 1
    {
      StepHolds(settings, View(), SendStreamModel.DeliverRtcp(rtpOverhead));
      rtp.expectedPerPacketOverhead := rtpOverhead;
      UpdateOverheadForEncoder();
      UpdateCachedTargetAudioBitrateConstraints();
    }

    method OnBitrateUpdated(target: int, stableTarget: int)
      requires Valid() && Allowed(settings, View(), SendStreamModel.OnBitrateUpdated(target, stableTarget))
      modifies channel`encoder, channel`calls, channel`forwarded
      ensures View() == Step(settings, old(View()), SendStreamModel.OnBitrateUpdated(target, stableTarget)) && Valid()
    {
      StepHolds(settings, View(), SendStreamModel.OnBitrateUpdated(target, stableTarget));
      var limits := cachedConstraints.value;
      channel.OnBitrateAllocation(Update(Clamped(target, limits.min, limits.max), Clamped(stableTarget, limits.min,
        limits.max)));
    }
  }
}
