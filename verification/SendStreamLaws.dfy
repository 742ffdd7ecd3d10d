/**
 What the audio send stream computes and changes, field by field, in terms of its inputs: the limits and
 the allocator's record, the encoder, and the effect of every public call.
 */
module SendStreamLaws {
  import opened Wrappers
  import opened HeaderExtensions
  import opened EncoderStack
  import opened SendStreamModel
  import opened SendStreamProperties

  // Rates and limits.

  /** A rate is the whole number of bits per second: `bytes` bytes every `microseconds`. */
  lemma RateIsFloor(bytes: nat, microseconds: nat)
    requires microseconds > 0
    ensures var r := Rate(bytes, microseconds);
            r * microseconds <= bytes * 8 * 1000000 < (r + 1) * microseconds
  {
    var x, r := bytes * 8000000, Rate(bytes, microseconds);
    assert x == microseconds * r + x % microseconds;
    assert (r + 1) * microseconds == r * microseconds + microseconds;
  }

  /** The last extension with the uri of transport sequence numbers decides. */
  lemma {:induction false} TransportSeqNumIdIsAt(extensions: seq<RtpExtension>, i: nat)
    requires i < |extensions| && extensions[i].uri == TRANSPORT_SEQUENCE_NUMBER_URI
    requires forall j :: i < j < |extensions| ==> extensions[j].uri != TRANSPORT_SEQUENCE_NUMBER_URI
    ensures TransportSeqNumId(extensions) == extensions[i].id
  {
    if i == |extensions| - 1 {
    } else {
      TransportSeqNumIdIsAt(extensions[..|extensions| - 1], i);
    }
  }

  lemma {:induction false} NoTransportSeqNumId(extensions: seq<RtpExtension>)
    requires forall j :: 0 <= j < |extensions| ==> extensions[j].uri != TRANSPORT_SEQUENCE_NUMBER_URI
    ensures TransportSeqNumId(extensions) == 0
  {
    if extensions == [] {
    } else {
      NoTransportSeqNumId(extensions[..|extensions| - 1]);
    }
  }

  /** The least and the greatest payload bitrate, after the overrides. */
  function LeastPayload(t: Settings, c: Config): int {
    if t.minBitrate.Some? then t.minBitrate.value else c.minBitrateBps
  }

  function GreatestPayload(t: Settings, c: Config): int {
    if t.maxBitrate.Some? then t.maxBitrate.value else c.maxBitrateBps
  }

  /** There are limits exactly when the configured bitrates are set, those in force are in order, and the
      frame lengths are known or not needed. */
  lemma LimitsExist(t: Settings, s: Stream)
    ensures LimitsOf(t, s).Some? <==>
              && s.config.minBitrateBps >= 0 && s.config.maxBitrateBps >= 0
              && LeastPayload(t, s.config) <= GreatestPayload(t, s.config)
              && (t.legacyOverhead || s.frameLengths.Some?)
  {
  }

  /** The bitrate on the wire of a payload of p bits per second in frames of f microseconds. */
  function OnTheWire(p: int, bytes: nat, f: nat): int
    requires f > 0
  {
    p + Rate(bytes, f)
  }

  predicate Possible(t: Settings, s: Stream, p: int, f: int) {
    && LeastPayload(t, s.config) <= p <= GreatestPayload(t, s.config)
    && s.frameLengths.Some? && s.frameLengths.value.shortest <= f <= s.frameLengths.value.longest
  }

  /** The limits are the tight envelope of what payload and overhead together can be; the legacy
      calculation adds 50 bytes every 60 ms to both instead. */
  ghost predicate AreLimits(t: Settings, s: Stream, limits: Limits) {
    if t.legacyOverhead then
      limits.min == LeastPayload(t, s.config) + 6666 && limits.max == GreatestPayload(t, s.config) + 6666
    else
      && (forall p, f :: Possible(t, s, p, f) ==> limits.min <= OnTheWire(p, s.totalOverhead, f) <= limits.max)
      && (exists p, f :: Possible(t, s, p, f) && limits.min == OnTheWire(p, s.totalOverhead, f))
      && (exists p, f :: Possible(t, s, p, f) && limits.max == OnTheWire(p, s.totalOverhead, f))
  }

  lemma LimitsAreEnvelope(t: Settings, s: Stream)
    requires LimitsOf(t, s).Some?
    ensures AreLimits(t, s, LimitsOf(t, s).value)
  {
    assert Rate(LEGACY_OVERHEAD_BYTES, LEGACY_MAX_FRAME_US) == 6666;
    if !t.legacyOverhead {
      var limits, range := LimitsOf(t, s).value, s.frameLengths.value;
      var low, high := LeastPayload(t, s.config), GreatestPayload(t, s.config);
      assert Possible(t, s, low, range.longest) && limits.min == OnTheWire(low, s.totalOverhead, range.longest);
      assert Possible(t, s, high, range.shortest) && limits.max == OnTheWire(high, s.totalOverhead, range.shortest);
      forall p, f | Possible(t, s, p, f) ensures limits.min <= OnTheWire(p, s.totalOverhead, f) <= limits.max {
        RateOfShorterFrame(s.totalOverhead, range.shortest, f);
        RateOfShorterFrame(s.totalOverhead, f, range.longest);
      }
    }
  }

  // The allocator's record.

  /** The limits of the record are the stream's; its priority is the override or the configured one; its
      priority bitrate is the raw value if there is one, and otherwise the setting with the least rate of
      overhead that the frame lengths allow (50 bytes every 20 ms in the legacy calculation). */
  ghost predicate IsRecord(t: Settings, s: Stream, a: Allocation) {
    && AreLimits(t, s, Limits(a.minBitrateBps, a.maxBitrateBps))
    && a.bitratePriority == (if t.bitratePriority.Some? then t.bitratePriority.value else s.config.bitratePriority)
    && (t.priorityBitrateRaw.Some? ==> a.priorityBitrateBps == t.priorityBitrateRaw.value)
    && (t.priorityBitrateRaw.None? && t.legacyOverhead ==> a.priorityBitrateBps == t.priorityBitrate + 20000)
    && (t.priorityBitrateRaw.None? && !t.legacyOverhead && s.frameLengths.Some? ==>
          IsLeast(a.priorityBitrateBps, t.priorityBitrate, s.totalOverhead, s.frameLengths.value))
  }

  ghost predicate IsLeast(v: int, p: int, bytes: nat, range: FrameLengths) {
    && (forall f :: range.shortest <= f <= range.longest ==> v <= OnTheWire(p, bytes, f))
    && (exists f :: range.shortest <= f <= range.longest && v == OnTheWire(p, bytes, f))
  }

  lemma RecordByField(t: Settings, s: Stream)
    ensures RecordFor(t, s).Some? <==> LimitsOf(t, s).Some?
    ensures RecordFor(t, s).Some? ==> IsRecord(t, s, RecordFor(t, s).value)
  {
    assert Rate(LEGACY_OVERHEAD_BYTES, LEGACY_MIN_PACKET_US) == 20000;
    if LimitsOf(t, s).Some? {
      LimitsAreEnvelope(t, s);
      if t.priorityBitrateRaw.None? && !t.legacyOverhead {
        LongestIsLeast(t.priorityBitrate, s.totalOverhead, s.frameLengths.value);
      }
      hide AreLimits, IsLeast;
    }
  }

  lemma LongestIsLeast(p: int, bytes: nat, range: FrameLengths)
    ensures IsLeast(p + Rate(bytes, range.longest), p, bytes, range)
  {
    forall f | range.shortest <= f <= range.longest
      ensures p + Rate(bytes, range.longest) <= OnTheWire(p, bytes, f)
    {
      RateOfShorterFrame(bytes, f, range.longest);
    }
    assert p + Rate(bytes, range.longest) == OnTheWire(p, bytes, range.longest);
  }

  // The encoder.

  predicate Makes(t: Settings, spec: CodecSpec) {
    (spec.payloadType, spec.format) in t.factory
  }

  /** What it means that the encoder is the wanted one. */
  predicate HasWantedParts(t: Settings, s: Stream) {
    if s.config.spec.Some? && Makes(t, s.config.spec.value) then
      var spec := s.config.spec.value;
      var codec := t.factory[(spec.payloadType, spec.format)];
      && s.encoder.Some?
      && s.encoder.value.Layers() == LayersFor(spec)
      && var core := s.encoder.value.Core();
         && core.codec == codec && core.payloadType == spec.payloadType && core.format == spec.format
         && (core.adaptor.Some? <==> s.config.ana.Some? && s.config.ana.value in codec.adaptorConfigs)
         && (core.adaptor.Some? ==> core.adaptor.value.config == s.config.ana.value)
    else s.encoder.None?
  }

  lemma WantedMeans(t: Settings, s: Stream)
    ensures EncoderIsWanted(t, s) <==> HasWantedParts(t, s)
  {
    if s.config.spec.Some? && Makes(t, s.config.spec.value) && s.encoder.Some? {
      var spec, e := s.config.spec.value, s.encoder.value;
      var codec := t.factory[(spec.payloadType, spec.format)];
      WantedByPart(codec, spec, s.config.ana);
      ShapeByPart(e);
      hide Wanted;
      if HasWantedParts(t, s) {
        PartsDetermine(e.Shape(), Wanted(codec, spec, s.config.ana));
      }
    }
  }

  function TargetOf(e: Option<Encoder>): Option<int> {
    if e.Some? then e.value.Core().targetBitrateBps else None
  }

  /** Both configurations name the same format, payload type and redundancy. */
  predicate SameCodec(c0: Config, c1: Config) {
    && c0.spec.Some? && c1.spec.Some?
    && c0.spec.value.format == c1.spec.value.format && c0.spec.value.payloadType == c1.spec.value.payloadType
    && c0.spec.value.redPayloadType == c1.spec.value.redPayloadType
  }

  lemma {:induction false} TellingKeepsParts(e: Encoder, o: nat)
    ensures var core, core' := e.Core(), e.OnReceivedOverhead(o).Core();
            && e.OnReceivedOverhead(o).Layers() == e.Layers()
            && core'.codec == core.codec && core'.payloadType == core.payloadType && core'.format == core.format
            && core'.targetBitrateBps == core.targetBitrateBps && core'.adaptor.Some? == core.adaptor.Some?
            && (core.adaptor.Some? ==> core'.adaptor.value.config == core.adaptor.value.config)
  {
    OverheadByPart(e, o);
  }

  /** The encoder after a reconfiguration to another format, payload type or redundancy, or to a first
      codec: made anew if the factory makes the codec, and otherwise kept. */
  lemma NewCodecByPart(t: Settings, s: Stream, c: Config, rtpOverhead: nat, lengths: Option<FrameLengths>)
    requires Invariant(t, s) && ConfigureAllowed(t, s, c, rtpOverhead, lengths)
    requires c.spec.Some? && !SameCodec(s.config, c)
    ensures var s' := Configured(t, s, c, false, rtpOverhead, lengths);
            if Makes(t, c.spec.value)
            then HasWantedParts(t, s') && TargetOf(s'.encoder) == c.spec.value.targetBitrateBps
            else s'.encoder.Some? == s.encoder.Some? && SameParts(s.encoder, s'.encoder)
  {
    hide Invariant, ConfigureAllowed, Configured, Build, HasWantedParts;
    var now := s.transportOverhead + rtpOverhead;
    ConfiguredEncoder(t, s, c, rtpOverhead, lengths);
    if Makes(t, c.spec.value) {
      var codec := t.factory[(c.spec.value.payloadType, c.spec.value.format)];
      var e := Build(codec, c.spec.value, c.ana, now);
      assert NewStack(t, s, c, now) == Some(e);
      BuildByPart(codec, c.spec.value, c.ana, now);
      TellingKeepsParts(e, now);
      PartsOfNew(t, Configured(t, s, c, false, rtpOverhead, lengths), codec);
    } else {
      assert NewStack(t, s, c, now) == s.encoder;
      if s.encoder.Some? {
        TellingKeepsParts(s.encoder.value, now);
      }
    }
  }

  lemma PartsOfNew(t: Settings, s: Stream, codec: Codec)
    requires s.config.spec.Some? && Makes(t, s.config.spec.value) && s.encoder.Some?
    requires codec == t.factory[(s.config.spec.value.payloadType, s.config.spec.value.format)]
    requires var core, spec := s.encoder.value.Core(), s.config.spec.value;
             && s.encoder.value.Layers() == LayersFor(spec)
             && core.codec == codec && core.payloadType == spec.payloadType && core.format == spec.format
             && (core.adaptor.Some? <==> s.config.ana.Some? && s.config.ana.value in codec.adaptorConfigs)
             && (core.adaptor.Some? ==> core.adaptor.value.config == s.config.ana.value)
    ensures HasWantedParts(t, s)
  {
  }

  /** The same layers over a speech encoder that differs at most in the overhead it knows. */
  predicate SameParts(a: Option<Encoder>, b: Option<Encoder>) {
    a.Some? && b.Some? ==>
      var core, core' := a.value.Core(), b.value.Core();
      && a.value.Layers() == b.value.Layers()
      && core'.codec == core.codec && core'.payloadType == core.payloadType && core'.format == core.format
      && core'.targetBitrateBps == core.targetBitrateBps && core'.adaptor.Some? == core.adaptor.Some?
      && (core.adaptor.Some? ==> core'.adaptor.value.config == core.adaptor.value.config)
  }

  /** The encoder after a reconfiguration without a codec: kept. */
  lemma NoCodecByPart(t: Settings, s: Stream, c: Config, rtpOverhead: nat, lengths: Option<FrameLengths>)
    requires Invariant(t, s) && ConfigureAllowed(t, s, c, rtpOverhead, lengths) && c.spec.None?
    ensures var s' := Configured(t, s, c, false, rtpOverhead, lengths);
            s'.encoder.Some? == s.encoder.Some? && SameParts(s.encoder, s'.encoder)
  {
    hide Invariant, ConfigureAllowed, Configured;
    ConfiguredEncoder(t, s, c, rtpOverhead, lengths);
    if s.encoder.Some? {
      TellingKeepsParts(s.encoder.value, s.transportOverhead + rtpOverhead);
    }
  }

  function NoiseLayers(spec: CodecSpec): seq<Layer> {
    if spec.cngPayloadType.Some? then [Noise(spec.cngPayloadType.value)] else []
  }

  predicate SameAdaptor(a: Option<Adaptor>, b: Option<Adaptor>) {
    a.Some? == b.Some? && (a.Some? ==> a.value.config == b.value.config)
  }

  /** From e to e' codec and format stay; a target that is given and new is taken over, and otherwise the
      old one stays; the adaptor follows the configuration unless comfort noise keeps it from hearing; and
      if comfort noise changes, the outermost layer goes and the new comfort noise comes. */
  predicate FollowsChange(e: Encoder, e': Encoder, c0: Config, c1: Config)
    requires c0.spec.Some? && c1.spec.Some?
  {
    var spec0, spec1 := c0.spec.value, c1.spec.value;
    var core, core' := e.Core(), e'.Core();
    && e'.Layers() == (if spec1.cngPayloadType == spec0.cngPayloadType then e.Layers()
                       else NoiseLayers(spec1) + if e.Layers() == [] then [] else e.Layers()[1..])
    && core'.codec == core.codec && core'.payloadType == core.payloadType && core'.format == core.format
    && core'.targetBitrateBps == (if spec1.targetBitrateBps.Some?
                                     && spec1.targetBitrateBps != spec0.targetBitrateBps
                                  then spec1.targetBitrateBps else core.targetBitrateBps)
    && (c1.ana == c0.ana || e.HasComfortNoise() ==> SameAdaptor(core.adaptor, core'.adaptor))
    && (c1.ana != c0.ana && !e.HasComfortNoise() ==>
          (core'.adaptor.Some? <==> c1.ana.Some? && c1.ana.value in core.codec.adaptorConfigs)
          && (core'.adaptor.Some? ==> core'.adaptor.value.config == c1.ana.value))
  }

  lemma ChangedFollows(e: Encoder, c0: Config, c1: Config, now: nat)
    requires c0.spec.Some? && c1.spec.Some?
    ensures FollowsChange(e, Changed(e, c0.spec.value, c0.ana, c1.spec.value, c1.ana, now), c0, c1)
    ensures c0.spec == c1.spec && c0.ana == c1.ana ==> FollowsChange(e, e, c0, c1)
  {
    hide Changed;
    ChangedByPart(e, c0.spec.value, c0.ana, c1.spec.value, c1.ana, now);
  }

  lemma ToldFollows(e: Encoder, e': Encoder, c0: Config, c1: Config, now: nat)
    requires c0.spec.Some? && c1.spec.Some? && FollowsChange(e, e', c0, c1)
    ensures FollowsChange(e, e'.OnReceivedOverhead(now), c0, c1)
  {
    TellingKeepsParts(e', now);
  }

  /** The encoder after a reconfiguration with the same format, payload type and redundancy. */
  lemma SameCodecByPart(t: Settings, s: Stream, c: Config, rtpOverhead: nat, lengths: Option<FrameLengths>)
    requires Invariant(t, s) && ConfigureAllowed(t, s, c, rtpOverhead, lengths) && SameCodec(s.config, c)
    ensures var s' := Configured(t, s, c, false, rtpOverhead, lengths);
            && s'.encoder.Some? == s.encoder.Some?
            && (s.encoder.Some? ==> FollowsChange(s.encoder.value, s'.encoder.value, s.config, c))
  {
    hide Invariant, ConfigureAllowed, Configured, Changed, FollowsChange;
    var now := s.transportOverhead + rtpOverhead;
    ConfiguredEncoder(t, s, c, rtpOverhead, lengths);
    if s.encoder.Some? {
      ChangedFollows(s.encoder.value, s.config, c, now);
      ToldFollows(s.encoder.value, NewStack(t, s, c, now).value, s.config, c, now);
    }
  }

  // The public calls.

  /** What no call but Reconfigure and the calls named changes. */
  predicate SameOtherwise(s: Stream, s': Stream) {
    && s'.config == s.config && s'.frameLengths == s.frameLengths
    && s'.encoderSampleRateHz == s.encoderSampleRateHz && s'.encoderNumChannels == s.encoderNumChannels
  }

  predicate SameOverheadAndLimits(s: Stream, s': Stream) {
    && s'.overheadPerPacket == s.overheadPerPacket && s'.totalOverhead == s.totalOverhead
    && s'.transportOverhead == s.transportOverhead && s'.rtpOverhead == s.rtpOverhead && s'.cached == s.cached
  }

  /** Starting a stream registers it exactly when it does not use DSCP, both bitrates are set, and it has
      feedback or needs none; it lists it with its encoder's properties, and does nothing else. */
  lemma StartByField(t: Settings, s: Stream)
    requires Invariant(t, s) && Allowed(t, s, Start)
    ensures s.sending ==> Step(t, s, Start) == s
    ensures !s.sending ==>
              var s', c := Step(t, s, Start), s.config;
              && s'.sending && s'.entry == Some(Properties(s.encoderSampleRateHz, s.encoderNumChannels))
              && (s'.registered <==> !c.hasDscp && c.minBitrateBps != -1 && c.maxBitrateBps != -1
                                     && (t.allocateWithoutFeedback || TransportSeqNumId(c.extensions) != 0))
              && s'.partOfAllocation == s'.registered
              && s'.allocation == (if s'.registered then RecordFor(t, s) else None)
              && SameOtherwise(s, s') && SameOverheadAndLimits(s, s')
              && s'.encoder == s.encoder && s'.forwarded == s.forwarded
  {
    hide LimitsOf;
  }

  /** Stopping a stream takes it off the allocator's and the audio state's lists, and does nothing else;
      in particular the RTP module is not told. */
  lemma StopByField(t: Settings, s: Stream)
    requires Invariant(t, s)
    ensures var s' := Step(t, s, Stop);
            && !s'.sending && !s'.registered && s'.allocation == None && s'.entry == None
            && s'.partOfAllocation == s.partOfAllocation
            && SameOtherwise(s, s') && SameOverheadAndLimits(s, s')
            && s'.encoder == s.encoder && s'.forwarded == s.forwarded
  {
    hide LimitsOf;
  }

  /** A new overhead of the transport or of the RTP headers is noted as the sum of the two, and a
      registered stream's record follows it. */
  lemma OverheadByField(t: Settings, s: Stream, call: Call)
    requires Invariant(t, s) && Allowed(t, s, call) && (call.SetTransportOverhead? || call.DeliverRtcp?)
    ensures var s' := Step(t, s, call);
            && s'.transportOverhead == (if call.SetTransportOverhead? then call.bytes else s.transportOverhead)
            && s'.rtpOverhead == (if call.DeliverRtcp? then call.rtpOverhead else s.rtpOverhead)
            && s'.overheadPerPacket == s'.totalOverhead == s'.transportOverhead + s'.rtpOverhead
            && SameOtherwise(s, s') && s'.sending == s.sending && s'.registered == s.registered
            && s'.partOfAllocation == s.partOfAllocation && s'.entry == s.entry && s'.forwarded == s.forwarded
            && s'.allocation == (if s.registered && s'.totalOverhead != s.totalOverhead then RecordFor(t, s')
                                 else s.allocation)
            && s'.encoder.Some? == s.encoder.Some? && SameParts(s.encoder, s'.encoder)
  {
    hide LimitsOf, AllocationFor, OverheadUpdated, OverheadUpdateAllowed;
    var s1 := if call.SetTransportOverhead? then s.(transportOverhead := call.bytes)
              else s.(rtpOverhead := call.rtpOverhead);
    UpdateKeeps(t, s1);
    SameRecord(t, Refreshed(t, OverheadUpdated(t, s1)), OverheadNoted(s1));
    OverheadCallEncoder(t, s, call, OverheadAfter(s, call));
    if s.encoder.Some? {
      TellingKeepsParts(s.encoder.value, OverheadAfter(s, call));
    }
    hide SameParts, RecordFor;
  }

  /** An update of the allocator gives the encoder the target that is passed on, and changes nothing else. */
  lemma UpdateByField(t: Settings, s: Stream, target: int, stableTarget: int)
    requires Invariant(t, s) && Allowed(t, s, OnBitrateUpdated(target, stableTarget))
    ensures var s' := Step(t, s, OnBitrateUpdated(target, stableTarget));
            && SameOtherwise(s, s') && SameOverheadAndLimits(s, s')
            && s'.sending == s.sending && s'.registered == s.registered
            && s'.partOfAllocation == s.partOfAllocation && s'.entry == s.entry && s'.allocation == s.allocation
            && |s'.forwarded| == |s.forwarded| + 1 && s'.encoder.Some? == s.encoder.Some?
            && (s.encoder.Some? ==>
                  && s'.encoder.value.Layers() == s.encoder.value.Layers()
                  && s'.encoder.value.Core()
                     == s.encoder.value.Core().(targetBitrateBps := Some(s'.forwarded[|s.forwarded|].target)))
  {
    if s.encoder.Some? {
      var bps := Clamped(target, s.cached.value.min, s.cached.value.max);
      TargetByPart(s.encoder.value, None, Some(bps));
      assert WithTarget(s.encoder.value, None, Some(bps)) == s.encoder.value.OnReceivedTargetBitrate(bps);
    }
    hide LimitsOf;
  }

  /** What a reconfiguration notes. */
  lemma ReconfigureByField(t: Settings, s: Stream, c: Config, rtpOverhead: nat, lengths: Option<FrameLengths>)
    requires Invariant(t, s) && ConfigureAllowed(t, s, c, rtpOverhead, lengths)
    ensures var s' := Configured(t, s, c, false, rtpOverhead, lengths);
            && s'.config == c && s'.sending == s.sending && s'.forwarded == s.forwarded
            && s'.transportOverhead == s.transportOverhead && s'.rtpOverhead == rtpOverhead
            && s'.overheadPerPacket == s'.totalOverhead == s.transportOverhead + rtpOverhead
            && s'.frameLengths == (if s'.encoder.Some? then lengths else s.frameLengths)
            && (s.cached.Some? ==> s'.cached.Some?)
            && (LimitsOf(t, s').Some? ==> s'.cached == LimitsOf(t, s'))
  {
    hide Invariant, Steady, EncoderStage, CodecChangeAllowed, OverheadUpdateAllowed, ObserverChangeAllowed;
    EncoderStageIsSteady(t, s, c, rtpOverhead, lengths);
    EncoderStageKeeps(t, s, c, rtpOverhead, lengths);
    ConfiguredHolds(t, s, c, rtpOverhead, lengths);
    var ready := EncoderStage(t, s, c, rtpOverhead, lengths);
    FinalStagesKeep(t, ready, c);
  }

  lemma EncoderStageKeeps(t: Settings, s: Stream, c: Config, rtpOverhead: nat, lengths: Option<FrameLengths>)
    requires Invariant(t, s) && CodecChangeAllowed(t, s, c)
    requires OverheadUpdateAllowed(t, CodecStage(t, s, c, rtpOverhead))
    ensures var ready := EncoderStage(t, s, c, rtpOverhead, lengths);
            && ready.transportOverhead == s.transportOverhead && ready.rtpOverhead == rtpOverhead
            && ready.forwarded == s.forwarded && ready.partOfAllocation == s.partOfAllocation
            && ready.totalOverhead == s.transportOverhead + rtpOverhead
  {
    hide Invariant, CodecStage, OverheadUpdated, CodecChangeAllowed, OverheadUpdateAllowed, LimitsOf;
    CodecStageKeeps(t, s, c, rtpOverhead);
    UpdateKeeps(t, CodecStage(t, s, c, rtpOverhead));
  }

  lemma UpdateKeeps(t: Settings, s: Stream)
    requires OverheadUpdateAllowed(t, s) && s.overheadPerPacket == s.totalOverhead
    ensures var s' := OverheadUpdated(t, s);
            && s'.transportOverhead == s.transportOverhead && s'.rtpOverhead == s.rtpOverhead
            && s'.forwarded == s.forwarded && s'.partOfAllocation == s.partOfAllocation
            && s'.overheadPerPacket == s'.totalOverhead == s.transportOverhead + s.rtpOverhead
            && SameOtherwise(s, s') && s'.sending == s.sending && s'.registered == s.registered && s'.entry == s.entry
            && s'.allocation == (if s.registered && s'.totalOverhead != s.totalOverhead
                                 then RecordFor(t, OverheadNoted(s)) else s.allocation)
  {
    hide LimitsOf, AllocationFor, Told;
  }

  lemma CodecStageKeeps(t: Settings, s: Stream, c: Config, rtpOverhead: nat)
    requires Invariant(t, s)
    ensures var s1 := CodecStage(t, s, c, rtpOverhead);
            && s1.transportOverhead == s.transportOverhead && s1.rtpOverhead == rtpOverhead
            && s1.forwarded == s.forwarded && s1.partOfAllocation == s.partOfAllocation
            && s1.overheadPerPacket == s1.totalOverhead == s.overheadPerPacket
  {
    hide Build, Changed, LimitsOf;
  }

  lemma FinalStagesKeep(t: Settings, ready: Stream, c: Config)
    requires ready.sending ==> ObserverChangeAllowed(t, ready, c)
    ensures var s' := Refreshed(t, (if ready.sending then ObserverReconfigured(t, ready, c) else ready).(config := c));
            && s'.config == c && s'.sending == ready.sending && s'.forwarded == ready.forwarded
            && s'.transportOverhead == ready.transportOverhead && s'.rtpOverhead == ready.rtpOverhead
            && s'.overheadPerPacket == ready.overheadPerPacket && s'.totalOverhead == ready.totalOverhead
            && s'.frameLengths == ready.frameLengths && s'.encoder == ready.encoder
            && (ready.cached.Some? ==> s'.cached.Some?)
  {
    hide LimitsOf, AllocationFor;
  }

  /** The allocator hears of a reconfiguration of a sending stream exactly when a bitrate, the bitrate
      priority, the transport sequence number id or the adaptor's configuration changes. Then the stream
      is registered, with its current record, if it does not use DSCP, has both bitrates and has feedback,
      and otherwise not; the RTP module is told which. In all other cases both stay as they were. */
  lemma ReconfigureRegistration(t: Settings, s: Stream, c: Config, rtpOverhead: nat, lengths: Option<FrameLengths>)
    requires Invariant(t, s) && ConfigureAllowed(t, s, c, rtpOverhead, lengths)
    ensures var s', c0 := Configured(t, s, c, false, rtpOverhead, lengths), s.config;
            var told := s.sending && (c.minBitrateBps != c0.minBitrateBps || c.maxBitrateBps != c0.maxBitrateBps
                                      || c.bitratePriority != c0.bitratePriority || c.ana != c0.ana
                                      || TransportSeqNumId(c.extensions) != TransportSeqNumId(c0.extensions));
            && (told ==>
                  && (s'.registered <==> !c.hasDscp && c.minBitrateBps != -1 && c.maxBitrateBps != -1
                                         && TransportSeqNumId(c.extensions) != 0)
                  && s'.partOfAllocation == s'.registered
                  && s'.allocation == if s'.registered then RecordFor(t, s') else None)
            && (!told ==> s'.registered == s.registered && s'.partOfAllocation == s.partOfAllocation)
  {
    hide Invariant, Steady, EncoderStage, CodecChangeAllowed, OverheadUpdateAllowed, ObserverChangeAllowed;
    EncoderStageIsSteady(t, s, c, rtpOverhead, lengths);
    EncoderStageKeeps(t, s, c, rtpOverhead, lengths);
    var ready := EncoderStage(t, s, c, rtpOverhead, lengths);
    if s.sending {
      ObserverStageByField(t, ready, c);
    }
    hide LimitsOf, ObserverReconfigured;
  }

  lemma ObserverStageByField(t: Settings, ready: Stream, c: Config)
    requires ObserverChangeAllowed(t, ready, c)
    ensures var s', c0 := Refreshed(t, ObserverReconfigured(t, ready, c).(config := c)), ready.config;
            var told := c.minBitrateBps != c0.minBitrateBps || c.maxBitrateBps != c0.maxBitrateBps
                        || c.bitratePriority != c0.bitratePriority || c.ana != c0.ana
                        || TransportSeqNumId(c.extensions) != TransportSeqNumId(c0.extensions);
            && (told ==>
                  && (s'.registered <==> !c.hasDscp && c.minBitrateBps != -1 && c.maxBitrateBps != -1
                                         && TransportSeqNumId(c.extensions) != 0)
                  && s'.partOfAllocation == s'.registered
                  && s'.allocation == if s'.registered then RecordFor(t, s') else None)
            && (!told ==> s'.registered == ready.registered && s'.partOfAllocation == ready.partOfAllocation)
  {
    var s' := Refreshed(t, ObserverReconfigured(t, ready, c).(config := c));
    SameRecord(t, s', WithBitratesOf(s', c));
    if !SameForObserver(ready.config, c) && s'.registered {
      SameRecord(t, s', WithBitratesOf(ready, c));
    }
    hide LimitsOf, AllocationFor;
  }
}
