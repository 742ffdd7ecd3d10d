/**
 What single calls of the audio send stream do, beyond the invariant they keep: bitrate updates, the
 live encoder against the configuration and the overhead, and registration with the allocator.
 */
module SendStreamProperties {
  import opened Wrappers
  import opened EncoderStack
  import opened SendStreamModel

  // Bitrate updates.

  function Distance(a: int, b: int): nat {
    if a < b then b - a else a - b
  }

  /** v is in the range, and nothing in the range is closer to x. */
  ghost predicate IsNearest(v: int, x: int, range: Limits) {
    && range.min <= v <= range.max
    && forall w :: range.min <= w <= range.max ==> Distance(v, x) <= Distance(w, x)
  }

  /** Whenever the allocator calls, the stream has limits, and what it passes on are the values
      nearest to the allocator's within them. */
  lemma ForwardedIsNearest(t: Settings, s: Stream, target: int, stableTarget: int)
    requires Invariant(t, s) && Allowed(t, s, OnBitrateUpdated(target, stableTarget))
    ensures s.cached.Some?
    ensures var s' := Step(t, s, OnBitrateUpdated(target, stableTarget));
            && |s'.forwarded| == |s.forwarded| + 1 && s.forwarded == s'.forwarded[..|s.forwarded|]
            && IsNearest(s'.forwarded[|s.forwarded|].target, target, s.cached.value)
            && IsNearest(s'.forwarded[|s.forwarded|].stableTarget, stableTarget, s.cached.value)
  {
  }

  // The encoder a reconfiguration leaves.

  function FinalStack(t: Settings, s: Stream, c: Config, now: nat): Option<Encoder> {
    if s.overheadPerPacket == now then NewStack(t, s, c, now) else Told(NewStack(t, s, c, now), now)
  }

  lemma ConfiguredEncoder(t: Settings, s: Stream, c: Config, rtpOverhead: nat, lengths: Option<FrameLengths>)
    requires Invariant(t, s) && ConfigureAllowed(t, s, c, rtpOverhead, lengths)
    ensures var s' := Configured(t, s, c, false, rtpOverhead, lengths);
            var now := s.transportOverhead + rtpOverhead;
            s'.encoder == FinalStack(t, s, c, now) && s'.overheadPerPacket == now && s'.config == c
  {
    hide NewStack, CodecReconfigured, CodecChangeAllowed, LimitsOf;
    var s1 := CodecStage(t, s, c, rtpOverhead);
    CodecStageStack(t, s, c, rtpOverhead);
    UpdatedEncoder(t, s1);
    var ready := EncoderStage(t, s, c, rtpOverhead, lengths);
    LaterStagesKeepEncoder(t, ready, c, s.sending);
  }

  lemma CodecStageStack(t: Settings, s: Stream, c: Config, rtpOverhead: nat)
    ensures var s1 := CodecStage(t, s, c, rtpOverhead);
            && s1.encoder == NewStack(t, s, c, s.transportOverhead + rtpOverhead)
            && s1.overheadPerPacket == s.overheadPerPacket
            && CurrentOverhead(s1) == s.transportOverhead + rtpOverhead
  {
  }

  lemma UpdatedEncoder(t: Settings, s: Stream)
    requires OverheadUpdateAllowed(t, s)
    ensures var s' := OverheadUpdated(t, s);
            && s'.encoder == (if s.overheadPerPacket == CurrentOverhead(s) then s.encoder
              else Told(s.encoder, CurrentOverhead(s)))
            && s'.overheadPerPacket == CurrentOverhead(s) && s'.config == s.config
  {
  }

  lemma LaterStagesKeepEncoder(t: Settings, s: Stream, c: Config, sending: bool)
    requires sending ==> ObserverChangeAllowed(t, s, c)
    ensures var s' := Refreshed(t, (if sending then ObserverReconfigured(t, s, c) else s).(config := c));
            s'.encoder == s.encoder && s'.overheadPerPacket == s.overheadPerPacket && s'.config == c
  {
  }

  /** The overhead in force after one of the two calls that change it. */
  function OverheadAfter(s: Stream, call: Call): nat
    requires call.SetTransportOverhead? || call.DeliverRtcp?
  {
    if call.SetTransportOverhead? then call.bytes + s.rtpOverhead else s.transportOverhead + call.rtpOverhead
  }

  lemma OverheadCallEncoder(t: Settings, s: Stream, call: Call, now: nat)
    requires Invariant(t, s) && Allowed(t, s, call)
    requires call.SetTransportOverhead? || call.DeliverRtcp?
    requires now == OverheadAfter(s, call)
    ensures var s' := Step(t, s, call);
            && s'.encoder == (if s.overheadPerPacket == now then s.encoder else Told(s.encoder, now))
            && s'.overheadPerPacket == now && s'.config == s.config
  {
    UpdatedEncoder(t, if call.SetTransportOverhead? then s.(transportOverhead := call.bytes)
      else s.(rtpOverhead := call.rtpOverhead));
  }

  // Transport overhead.

  /** Setting a transport overhead that leaves the total as it is touches neither encoder nor
      allocator. */
  lemma UnchangedOverheadIsQuiet(t: Settings, s: Stream, bytes: nat)
    requires Invariant(t, s) && bytes + s.rtpOverhead == s.totalOverhead
    ensures Allowed(t, s, SetTransportOverhead(bytes))
    ensures Step(t, s, SetTransportOverhead(bytes)) == s.(transportOverhead := bytes)
  {
    var s1 := s.(transportOverhead := bytes);
    assert LimitsOf(t, s1) == LimitsOf(t, s);
  }

  /** The speech encoder at the bottom of the stack was last told the overhead in force. */
  predicate OverheadHeard(s: Stream) {
    s.encoder.Some? ==> s.encoder.value.Heard(s.overheadPerPacket)
  }

  /** Under comfort noise an encoder does not hear of changes. */
  predicate Deaf(e: Option<Encoder>) {
    e.Some? && e.value.HasComfortNoise()
  }

  /** A new overhead is heard exactly when there is no comfort noise in the way, or nothing new. */
  lemma NewOverheadHeard(t: Settings, s: Stream, call: Call, now: nat)
    requires Invariant(t, s) && Allowed(t, s, call) && OverheadHeard(s)
    requires call.SetTransportOverhead? || call.DeliverRtcp?
    requires now == OverheadAfter(s, call)
    ensures OverheadHeard(Step(t, s, call)) <==> !Deaf(s.encoder) || now == s.overheadPerPacket
  {
    OverheadCallEncoder(t, s, call, now);
    if s.encoder.Some? {
      OverheadKeepsShape(s.encoder.value, now);
      KeptStackHeard(s.encoder.value, s.overheadPerPacket, now);
    }
  }

  /** Whether comfort noise is in the way after a reconfiguration. */
  predicate DeafAfter(t: Settings, s: Stream, c: Config) {
    match ChangeOf(s.config, c)
    case Unchanged => Deaf(s.encoder)
    case SetUp => if CodecFor(t, c.spec.value).Some? then c.spec.value.cngPayloadType.Some? else Deaf(s.encoder)
    case StepByStep =>
      s.encoder.Some? &&
      if c.spec.value.cngPayloadType == s.config.spec.value.cngPayloadType then s.encoder.value.HasComfortNoise()
      else c.spec.value.cngPayloadType.Some? || s.encoder.value.WithoutOuterLayer().HasComfortNoise()
  }

  lemma NewStackDeaf(t: Settings, s: Stream, c: Config, now: nat)
    ensures Deaf(NewStack(t, s, c, now)) <==> DeafAfter(t, s, c)
  {
    match ChangeOf(s.config, c)
    case Unchanged =>
    case SetUp =>
      if CodecFor(t, c.spec.value).Some? {
        BuildHears(CodecFor(t, c.spec.value).value, c.spec.value, c.ana, now);
      }
    case StepByStep =>
      if s.encoder.Some? {
        ChangedDeaf(s.encoder.value, s.config.spec.value, s.config.ana, c.spec.value, c.ana, now);
      }
  }

  lemma ChangedDeaf(e: Encoder, spec0: CodecSpec, ana0: Option<string>, spec1: CodecSpec, ana1: Option<string>,
                    now: nat)
    ensures Changed(e, spec0, ana0, spec1, ana1, now).HasComfortNoise() <==>
              if spec1.cngPayloadType == spec0.cngPayloadType then e.HasComfortNoise()
              else spec1.cngPayloadType.Some? || e.WithoutOuterLayer().HasComfortNoise()
  {
    AdaptedDeaf(e, spec0.targetBitrateBps, spec1.targetBitrateBps, ana0, ana1, now);
    if !e.Speech? {
      AdaptedDeaf(e.inner, spec0.targetBitrateBps, spec1.targetBitrateBps, ana0, ana1, now);
    }
  }

  /** Targets and adaptors leave the layers as they are. */
  lemma AdaptedDeaf(e: Encoder, old_: Option<int>, new_: Option<int>, ana0: Option<string>, ana1: Option<string>,
                    now: nat)
    ensures var e' := WithAdaptor(WithTarget(e, old_, new_), ana0, ana1, now);
            && e'.HasComfortNoise() == e.HasComfortNoise()
            && e'.WithoutOuterLayer().HasComfortNoise() == e.WithoutOuterLayer().HasComfortNoise()
  {
    TargetKeepsShape(e, old_, new_);
    var targeted, config := WithTarget(e, old_, new_), if ana1.Some? then ana1.value else "";
    AdaptableIsAudible(targeted, config);
    OverheadKeepsShape(targeted.EnableAdaptor(config), now);
    if !e.Speech? {
      TargetKeepsShape(e.inner, old_, new_);
      AdaptableIsAudible(targeted.inner, config);
      OverheadKeepsShape(targeted.inner.EnableAdaptor(config), now);
    }
  }

  /** Whether the overhead in force after a reconfiguration reaches the speech encoder: comfort noise
      is not in the way afterwards, or it is not new, or an adaptor enabled on a stack that still let
      it through brought it; a newly built stack with comfort noise only ever hears 0. */
  predicate ReconfigurationHeard(t: Settings, s: Stream, c: Config, now: nat) {
    || !DeafAfter(t, s, c)
    || match ChangeOf(s.config, c)
       case Unchanged => now == s.overheadPerPacket
       case SetUp => if CodecFor(t, c.spec.value).Some? then now == 0 else now == s.overheadPerPacket
       case StepByStep =>
         now == s.overheadPerPacket
         || (s.encoder.Some? && TellsThroughAdaptor(s.encoder.value, s.config.ana, c.ana, now))
  }

  predicate HeardBy(e: Option<Encoder>, o: nat) {
    e.Some? ==> e.value.Heard(o)
  }

  lemma ReconfiguredOverheadHeard(t: Settings, s: Stream, c: Config, rtpOverhead: nat, lengths: Option<FrameLengths>)
    requires Invariant(t, s) && ConfigureAllowed(t, s, c, rtpOverhead, lengths) && OverheadHeard(s)
    ensures OverheadHeard(Configured(t, s, c, false, rtpOverhead, lengths))
        <==> ReconfigurationHeard(t, s, c, s.transportOverhead + rtpOverhead)
  {
    hide Invariant, ConfigureAllowed, Configured, NewStack;
    ConfiguredEncoder(t, s, c, rtpOverhead, lengths);
    FinalStackHeard(t, s, c, s.transportOverhead + rtpOverhead);
  }

  /** A new stream's encoder knows the overhead unless it was built with comfort noise for another one
      than 0. */
  lemma ConstructedOverheadHeard(t: Settings, c: Config, rtpOverhead: nat, lengths: Option<FrameLengths>)
    requires ConfigureAllowed(t, INITIAL, c, rtpOverhead, lengths)
    ensures OverheadHeard(Constructed(t, c, rtpOverhead, lengths)) <==>
              c.spec.None? || CodecFor(t, c.spec.value).None? || c.spec.value.cngPayloadType.None? || rtpOverhead == 0
  {
    hide Configured, Constructed, ConfigureAllowed;
    ConstructedByConfiguring(t, c, rtpOverhead, lengths);
    ReconfiguredOverheadHeard(t, INITIAL, c, rtpOverhead, lengths);
  }

  lemma FinalStackHeard(t: Settings, s: Stream, c: Config, now: nat)
    requires OverheadHeard(s)
    ensures HeardBy(FinalStack(t, s, c, now), now) <==> ReconfigurationHeard(t, s, c, now)
  {
    var stack := NewStack(t, s, c, now);
    NewStackDeaf(t, s, c, now);
    if stack.Some? {
      OverheadKeepsShape(stack.value, now);
      match ChangeOf(s.config, c)
      case Unchanged =>
        KeptStackHeard(s.encoder.value, s.overheadPerPacket, now);
      case SetUp =>
        if CodecFor(t, c.spec.value).Some? {
          BuildHears(CodecFor(t, c.spec.value).value, c.spec.value, c.ana, now);
        } else {
          KeptStackHeard(s.encoder.value, s.overheadPerPacket, now);
        }
      case StepByStep =>
        ChangedStackHeard(s.encoder.value, s.config.spec.value, s.config.ana, c.spec.value, c.ana, now,
          s.overheadPerPacket);
    }
  }

  lemma KeptStackHeard(e: Encoder, told: nat, now: nat)
    requires e.Heard(told)
    ensures e.Heard(now) <==> told == now
  {
    if e.Heard(now) {
      HeardIsUnique(e, told, now);
    }
  }

  lemma ChangedStackHeard(e: Encoder, spec0: CodecSpec, ana0: Option<string>, spec1: CodecSpec, ana1: Option<string>,
                          now: nat, told: nat)
    requires e.Heard(told)
    ensures Changed(e, spec0, ana0, spec1, ana1, now).Heard(now) <==>
              told == now || TellsThroughAdaptor(e, ana0, ana1, now)
  {
    ChangedHears(e, spec0, ana0, spec1, ana1, now, told);
    if told != now && !TellsThroughAdaptor(e, ana0, ana1, now) {
      DeafStaysDeaf(e, spec0, ana0, spec1, ana1, now, told);
    }
  }

  /** Without a telling adaptor, a stack that ends under comfort noise has not heard the news. */
  lemma DeafStaysDeaf(e: Encoder, spec0: CodecSpec, ana0: Option<string>, spec1: CodecSpec, ana1: Option<string>,
                      now: nat, told: nat)
    requires e.Heard(told) && now != told && !TellsThroughAdaptor(e, ana0, ana1, now)
    ensures !Changed(e, spec0, ana0, spec1, ana1, now).Heard(now)
  {
    SpeechOverheadStays(e, spec0, ana0, spec1, ana1, now);
    SpeechHeard(e, told);
    if Changed(e, spec0, ana0, spec1, ana1, now).Heard(now) {
      SpeechHeard(Changed(e, spec0, ana0, spec1, ana1, now), now);
    }
  }

  function SpeechOverhead(e: Encoder): nat {
    match e
    case Speech(_, _, _, _, _, overhead) => overhead
    case ComfortNoise(_, inner) => SpeechOverhead(inner)
    case Redundant(_, inner) => SpeechOverhead(inner)
  }

  lemma {:induction false} SpeechHeard(e: Encoder, o: nat)
    requires e.Heard(o)
    ensures SpeechOverhead(e) == o
  {
    if e.Speech? {
    } else {
      SpeechHeard(e.inner, o);
    }
  }

  lemma {:induction false} CallsKeepSpeechOverhead(e: Encoder, bps: int, config: string)
    ensures SpeechOverhead(e.OnReceivedTargetBitrate(bps)) == SpeechOverhead(e)
    ensures SpeechOverhead(e.EnableAdaptor(config)) == SpeechOverhead(e)
    ensures SpeechOverhead(e.DisableAdaptor()) == SpeechOverhead(e)
    ensures e.OnReceivedTargetBitrate(bps).CanAdapt(config) == e.CanAdapt(config)
  {
    if e.Speech? {
    } else {
      CallsKeepSpeechOverhead(e.inner, bps, config);
    }
  }

  lemma SpeechOverheadStays(e: Encoder, spec0: CodecSpec, ana0: Option<string>, spec1: CodecSpec,
                            ana1: Option<string>, now: nat)
    requires !TellsThroughAdaptor(e, ana0, ana1, now)
    ensures SpeechOverhead(Changed(e, spec0, ana0, spec1, ana1, now)) == SpeechOverhead(e)
  {
    var bps := if spec1.targetBitrateBps.Some? then spec1.targetBitrateBps.value else 0;
    var config := if ana1.Some? then ana1.value else "";
    CallsKeepSpeechOverhead(e, bps, config);
    CallsKeepSpeechOverhead(WithTarget(e, spec0.targetBitrateBps, spec1.targetBitrateBps), bps, config);
  }

  predicate UsesNoComfortNoise(c: Config) {
    c.spec.Some? ==> c.spec.value.cngPayloadType.None?
  }

  lemma StepWithoutComfortNoise(t: Settings, s: Stream, call: Call)
    requires Invariant(t, s) && Allowed(t, s, call)
    requires OverheadHeard(s) && !Deaf(s.encoder) && UsesNoComfortNoise(s.config)
    requires call.Reconfigure? ==> UsesNoComfortNoise(call.config)
    ensures var s' := Step(t, s, call);
            OverheadHeard(s') && !Deaf(s'.encoder) && UsesNoComfortNoise(s'.config)
  {
    match call
    case Start =>
    case Stop =>
    case Reconfigure(c, rtpOverhead, lengths) =>
      ReconfiguredWithoutComfortNoise(t, s, c, rtpOverhead, lengths);
    case SetTransportOverhead(bytes) =>
      OverheadCallWithoutComfortNoise(t, s, call, bytes + s.rtpOverhead);
    case DeliverRtcp(rtpOverhead) =>
      OverheadCallWithoutComfortNoise(t, s, call, s.transportOverhead + rtpOverhead);
    case OnBitrateUpdated(target, _) =>
      if s.encoder.Some? {
        var bps := Clamped(target, s.cached.value.min, s.cached.value.max);
        TargetKeepsShape(s.encoder.value, None, Some(bps));
      }
  }

  lemma OverheadCallWithoutComfortNoise(t: Settings, s: Stream, call: Call, now: nat)
    requires Invariant(t, s) && Allowed(t, s, call) && OverheadHeard(s) && !Deaf(s.encoder)
    requires call.SetTransportOverhead? || call.DeliverRtcp?
    requires now == OverheadAfter(s, call)
    ensures OverheadHeard(Step(t, s, call)) && !Deaf(Step(t, s, call).encoder) && Step(t, s, call).config == s.config
  {
    NewOverheadHeard(t, s, call, now);
    OverheadCallEncoder(t, s, call, now);
    if s.encoder.Some? {
      OverheadKeepsShape(s.encoder.value, now);
    }
  }

  lemma ReconfiguredWithoutComfortNoise(t: Settings, s: Stream, c: Config, rtpOverhead: nat,
                                        lengths: Option<FrameLengths>)
    requires Invariant(t, s) && ConfigureAllowed(t, s, c, rtpOverhead, lengths)
    requires OverheadHeard(s) && !Deaf(s.encoder) && UsesNoComfortNoise(s.config) && UsesNoComfortNoise(c)
    ensures var s' := Configured(t, s, c, false, rtpOverhead, lengths);
            OverheadHeard(s') && !Deaf(s'.encoder)
  {
    hide Invariant, ConfigureAllowed, Configured, NewStack;
    var now := s.transportOverhead + rtpOverhead;
    ConfiguredEncoder(t, s, c, rtpOverhead, lengths);
    NewStackDeaf(t, s, c, now);
    FinalStackHeard(t, s, c, now);
    if NewStack(t, s, c, now).Some? {
      OverheadKeepsShape(NewStack(t, s, c, now).value, now);
    }
  }

  // The live encoder against the configuration.

  /** The stack a configuration asks for, if the factory can make its codec. */
  function WantedStack(t: Settings, c: Config): Option<Encoder> {
    if c.spec.Some? && CodecFor(t, c.spec.value).Some?
    then Some(Wanted(CodecFor(t, c.spec.value).value, c.spec.value, c.ana))
    else None
  }

  function ShapeOf(e: Option<Encoder>): Option<Encoder> {
    if e.Some? then Some(e.value.Shape()) else None
  }

  /** The live encoder is what setting the codec up from the current configuration would give. */
  predicate EncoderIsWanted(t: Settings, s: Stream) {
    ShapeOf(s.encoder) == WantedStack(t, s.config)
  }

  /** The reconfigurations that leave the wrong encoder: a codec the factory cannot make, while there
      is an encoder to stay behind, and the changes that the step-by-step branch misapplies. */
  predicate LeavesStaleEncoder(t: Settings, s: Stream, c: Config) {
    s.encoder.Some? &&
    match ChangeOf(s.config, c)
    case Unchanged => false
    case SetUp => CodecFor(t, c.spec.value).None?
    case StepByStep =>
      CodecFor(t, c.spec.value).Some? &&
      Misapplied(CodecFor(t, c.spec.value).value, s.config.spec.value, s.config.ana, c.spec.value, c.ana)
  }

  lemma ReconfiguredIsWanted(t: Settings, s: Stream, c: Config, rtpOverhead: nat, lengths: Option<FrameLengths>)
    requires Invariant(t, s) && ConfigureAllowed(t, s, c, rtpOverhead, lengths) && EncoderIsWanted(t, s)
    ensures EncoderIsWanted(t, Configured(t, s, c, false, rtpOverhead, lengths)) <==> !LeavesStaleEncoder(t, s, c)
  {
    hide Invariant, Configured, NewStack;
    ConfiguredEncoder(t, s, c, rtpOverhead, lengths);
    FinalStackIsWanted(t, s, c, s.transportOverhead + rtpOverhead);
  }

  lemma FinalStackIsWanted(t: Settings, s: Stream, c: Config, now: nat)
    requires EncoderIsWanted(t, s) && (c.spec.None? ==> s.config.spec.None?)
    ensures ShapeOf(FinalStack(t, s, c, now)) == WantedStack(t, c) <==> !LeavesStaleEncoder(t, s, c)
  {
    var stack := NewStack(t, s, c, now);
    if stack.Some? {
      OverheadKeepsShape(stack.value, now);
    }
    match ChangeOf(s.config, c)
    case Unchanged =>
    case SetUp =>
      if CodecFor(t, c.spec.value).Some? {
        BuildIsWanted(CodecFor(t, c.spec.value).value, c.spec.value, c.ana, now);
      }
    case StepByStep =>
      if s.encoder.Some? {
        ChangedIsWanted(CodecFor(t, c.spec.value).value, s.encoder.value,
                        s.config.spec.value, s.config.ana, c.spec.value, c.ana, now);
      }
  }

  lemma OtherCallsKeepWanted(t: Settings, s: Stream, call: Call)
    requires Invariant(t, s) && Allowed(t, s, call) && !call.Reconfigure? && EncoderIsWanted(t, s)
    ensures EncoderIsWanted(t, Step(t, s, call))
  {
    match call
    case Start =>
    case Stop =>
    case SetTransportOverhead(bytes) =>
      OverheadCallEncoder(t, s, call, bytes + s.rtpOverhead);
      if s.encoder.Some? { OverheadKeepsShape(s.encoder.value, bytes + s.rtpOverhead); }
    case DeliverRtcp(rtpOverhead) =>
      OverheadCallEncoder(t, s, call, s.transportOverhead + rtpOverhead);
      if s.encoder.Some? { OverheadKeepsShape(s.encoder.value, s.transportOverhead + rtpOverhead); }
    case OnBitrateUpdated(target, _) =>
      if s.encoder.Some? {
        TargetKeepsShape(s.encoder.value, None, Some(Clamped(target, s.cached.value.min, s.cached.value.max)));
      }
  }

  lemma ConstructedIsWanted(t: Settings, c: Config, rtpOverhead: nat, lengths: Option<FrameLengths>)
    requires ConfigureAllowed(t, INITIAL, c, rtpOverhead, lengths)
    ensures EncoderIsWanted(t, Constructed(t, c, rtpOverhead, lengths))
  {
    hide Configured, Constructed, ConfigureAllowed;
    ConstructedByConfiguring(t, c, rtpOverhead, lengths);
    ReconfiguredIsWanted(t, INITIAL, c, rtpOverhead, lengths);
  }

  // Registration against a restart.

  /** A sending stream is registered just when stopping and starting it would register it. */
  predicate RegisteredAsAtStart(t: Settings, s: Stream) {
    s.sending ==> (s.registered <==> RegistersAtStart(t, s.config))
  }

  /** Two kinds of reconfiguration part the two: a change of the DSCP flag alone, which is not
      noticed, and any noticed change to a stream that is allocated without feedback, which is then
      required to have it. */
  predicate RegistrationDrifts(t: Settings, c0: Config, c1: Config) {
    if SameForObserver(c0, c1)
    then c0.hasDscp != c1.hasDscp && RegistersAtStart(t, c1.(hasDscp := false))
    else HasBitrateLimits(c1) && t.allocateWithoutFeedback && TransportSeqNumId(c1.extensions) == 0
  }

  lemma ReconfiguredRegistration(t: Settings, s: Stream, c: Config, rtpOverhead: nat, lengths: Option<FrameLengths>)
    requires Invariant(t, s) && ConfigureAllowed(t, s, c, rtpOverhead, lengths)
    requires s.sending && RegisteredAsAtStart(t, s)
    ensures RegisteredAsAtStart(t, Configured(t, s, c, false, rtpOverhead, lengths))
        <==> !RegistrationDrifts(t, s.config, c)
  {
    EncoderStageIsSteady(t, s, c, rtpOverhead, lengths);
  }

  lemma StartedRegistration(t: Settings, s: Stream)
    requires Invariant(t, s) && !s.sending && Allowed(t, s, Start)
    ensures RegisteredAsAtStart(t, Step(t, s, Start))
    ensures Step(t, s, Start).registered ==> AllocatorIsCurrent(t, Step(t, s, Start))
  {
    assert LimitsOf(t, Step(t, s, Start)) == LimitsOf(t, s);
  }

  // The allocator's record.

  /** The record of limits, priority bitrate and priority that a stream's state calls for; SendStreamLaws
      says what its fields are. */
  function RecordFor(t: Settings, s: Stream): Option<Allocation> {
    if LimitsOf(t, s).Some? then Some(AllocationFor(t, s)) else None
  }

  /** The allocator's record is the one the stream's state calls for. */
  predicate AllocatorIsCurrent(t: Settings, s: Stream) {
    s.allocation.Some? && s.allocation == RecordFor(t, s)
  }

  lemma OverheadUpdateKeepsAllocator(t: Settings, s: Stream)
    requires s.overheadPerPacket == s.totalOverhead && s.registered && OverheadUpdateAllowed(t, s)
    requires AllocatorIsCurrent(t, s)
    ensures AllocatorIsCurrent(t, OverheadUpdated(t, s))
  {
  }

  /** A stream is registered after a reconfiguration if it sends, and is registered already or has
      limits and feedback. */
  predicate RegisteredAfter(s: Stream, c: Config) {
    s.sending &&
    if SameForObserver(s.config, c) then s.registered else HasBitrateLimits(c) && TransportSeqNumId(c.extensions) != 0
  }

  /** The reconfigurations that leave the allocator with an old record: the observer is not reconfigured,
      and the frame lengths the encoder then reports call for another one than those noted before. */
  predicate LeavesStaleAllocator(t: Settings, s: Stream, c: Config, rtpOverhead: nat, lengths: Option<FrameLengths>) {
    var base := s.(config := c, totalOverhead := s.transportOverhead + rtpOverhead);
    && s.registered && SameForObserver(s.config, c)
    && HasEncoderAfter(t, s, c)
    && RecordFor(t, base.(frameLengths := lengths)) != RecordFor(t, base)
  }

  predicate HasEncoderAfter(t: Settings, s: Stream, c: Config) {
    s.encoder.Some? || (ChangeOf(s.config, c).SetUp? && CodecFor(t, c.spec.value).Some?)
  }

  lemma ReconfiguredAllocator(t: Settings, s: Stream, c: Config, rtpOverhead: nat, lengths: Option<FrameLengths>)
    requires Invariant(t, s) && ConfigureAllowed(t, s, c, rtpOverhead, lengths)
    requires s.registered ==> AllocatorIsCurrent(t, s)
    ensures var s' := Configured(t, s, c, false, rtpOverhead, lengths);
            && (s'.registered <==> RegisteredAfter(s, c))
            && (s'.registered ==> (!AllocatorIsCurrent(t, s') <==> LeavesStaleAllocator(t, s, c, rtpOverhead, lengths)))
  {
    hide Invariant, Steady, EncoderStage, CodecChangeAllowed, OverheadUpdateAllowed, ObserverChangeAllowed,
         ObserverReconfigured, HasEncoderAfter, RecordFor, LimitsOf, SameForObserver;
    RegisteredIsSending(t, s);
    EncoderStageAllocator(t, s, c, rtpOverhead, lengths);
    EncoderStageIsSteady(t, s, c, rtpOverhead, lengths);
    var ready := EncoderStage(t, s, c, rtpOverhead, lengths);
    var noted := s.(totalOverhead := s.transportOverhead + rtpOverhead);
    if s.sending {
      ObservedAllocator(t, noted, ready, c);
      SameRecord(t, ready.(config := c), noted.(config := c, frameLengths := ready.frameLengths));
    }
  }

  lemma RegisteredIsSending(t: Settings, s: Stream)
    requires Invariant(t, s)
    ensures s.registered ==> s.sending
  {
  }

  /** Up to the frame lengths, the allocator's record follows the overhead. */
  lemma EncoderStageAllocator(t: Settings, s: Stream, c: Config, rtpOverhead: nat, lengths: Option<FrameLengths>)
    requires Invariant(t, s) && CodecChangeAllowed(t, s, c)
    requires OverheadUpdateAllowed(t, CodecStage(t, s, c, rtpOverhead))
    requires s.registered ==> AllocatorIsCurrent(t, s)
    ensures var ready := EncoderStage(t, s, c, rtpOverhead, lengths);
            && ready.totalOverhead == s.transportOverhead + rtpOverhead
            && ready.frameLengths == (if HasEncoderAfter(t, s, c) then lengths else s.frameLengths)
            && (s.registered ==>
                  ready.allocation.Some? && ready.allocation == RecordFor(t, s.(totalOverhead := ready.totalOverhead)))
  {
    CodecChangeIgnoresOverhead(t, s, c, rtpOverhead);
    CodecReconfiguredIsSteady(t, s.(rtpOverhead := rtpOverhead), c);
    var s1 := CodecStage(t, s, c, rtpOverhead);
    assert s1.allocation == s.allocation && s1.totalOverhead == s.totalOverhead
           && (s1.encoder.Some? <==> HasEncoderAfter(t, s, c));
    SameRecord(t, s1, s);
    OverheadUpdatedIsSteady(t, s1);
    if s.registered {
      OverheadUpdateKeepsAllocator(t, s1);
    }
    var s2 := OverheadUpdated(t, s1);
    SameRecord(t, s2, s.(totalOverhead := s2.totalOverhead));
  }

  lemma SameRecord(t: Settings, a: Stream, b: Stream)
    requires a.config.minBitrateBps == b.config.minBitrateBps && a.config.maxBitrateBps == b.config.maxBitrateBps
    requires a.config.bitratePriority == b.config.bitratePriority
    requires a.frameLengths == b.frameLengths && a.totalOverhead == b.totalOverhead
    ensures RecordFor(t, a) == RecordFor(t, b)
  {
  }

  /** The last stages of a reconfiguration, when the allocator has the record of `noted`. */
  lemma ObservedAllocator(t: Settings, noted: Stream, ready: Stream, c: Config)
    requires ObserverChangeAllowed(t, ready, c) && (ready.registered <==> noted.registered)
    requires ready.registered ==> ready.allocation.Some? && ready.allocation == RecordFor(t, noted)
    requires ready.totalOverhead == noted.totalOverhead && ready.config == noted.config
    ensures var s' := Refreshed(t, ObserverReconfigured(t, ready, c).(config := c));
            && (s'.registered <==> if SameForObserver(noted.config, c) then ready.registered
                                   else HasBitrateLimits(c) && TransportSeqNumId(c.extensions) != 0)
            && (s'.registered ==>
                  (!AllocatorIsCurrent(t, s') <==>
                     && SameForObserver(noted.config, c)
                     && RecordFor(t, ready.(config := c)) != RecordFor(t, noted.(config := c))))
  {
    var s' := Refreshed(t, ObserverReconfigured(t, ready, c).(config := c));
    if SameForObserver(noted.config, c) {
      SameRecord(t, s', ready.(config := c));
      SameRecord(t, noted, noted.(config := c));
    } else {
      SameRecord(t, s', WithBitratesOf(ready, c));
    }
  }

  // No check fails.

  /** A configuration with a codec the factory makes, comfort noise for mono codecs only, and bitrates
      that are unset or in order (after the overrides of the field trial). */
  predicate Sensible(t: Settings, c: Config) {
    && c.spec.Some? && CodecFor(t, c.spec.value).Some?
    && (c.spec.value.cngPayloadType.Some? ==> CodecFor(t, c.spec.value).value.numChannels == 1)
    && (c.minBitrateBps == -1 || c.maxBitrateBps == -1 || BitratesInOrder(t, c))
  }

  predicate BitratesInOrder(t: Settings, c: Config) {
    && 0 <= c.minBitrateBps && 0 <= c.maxBitrateBps
    && (if t.minBitrate.Some? then t.minBitrate.value else c.minBitrateBps)
         <= (if t.maxBitrate.Some? then t.maxBitrate.value else c.maxBitrateBps)
  }

  /** The encoder reports its frame lengths, and updates come to registered streams. */
  predicate SensibleCall(t: Settings, s: Stream, call: Call) {
    match call
    case Reconfigure(c, _, lengths) => Sensible(t, c) && lengths.Some?
    case OnBitrateUpdated(_, _) => s.allocation.Some?
    case _ => true
  }

  predicate Ready(t: Settings, s: Stream) {
    && Invariant(t, s) && Sensible(t, s.config)
    && s.encoder.Some? && s.frameLengths.Some?
    && s.encoderNumChannels == CodecFor(t, s.config.spec.value).value.numChannels
    && (s.registered ==> s.config.minBitrateBps != -1 && s.config.maxBitrateBps != -1)
  }

  lemma SensibleLimits(t: Settings, s: Stream)
    requires BitratesInOrder(t, s.config) && s.frameLengths.Some?
    ensures LimitsOf(t, s).Some?
  {
  }

  lemma MonoAcceptsComfortNoise(e: Encoder)
    requires e.ComfortNoiseIsMono() && e.NumChannels() == 1
    ensures AcceptsComfortNoise(e)
  {
  }

  lemma SensibleCodecChange(t: Settings, s: Stream, c: Config, now: nat)
    requires Invariant(t, s) && (s == INITIAL || Ready(t, s)) && Sensible(t, c)
    ensures CodecChangeAllowed(t, s, c) && NewStack(t, s, c, now).Some?
  {
    if s.encoder.Some? && s.encoderNumChannels == 1 {
      MonoAcceptsComfortNoise(s.encoder.value);
    }
  }

  lemma SensibleEncoderStage(t: Settings, s: Stream, c: Config, rtpOverhead: nat, lengths: Option<FrameLengths>)
    requires Invariant(t, s) && (s == INITIAL || Ready(t, s)) && Sensible(t, c)
    ensures CodecChangeAllowed(t, s, c) && OverheadUpdateAllowed(t, CodecStage(t, s, c, rtpOverhead))
    ensures var ready := EncoderStage(t, s, c, rtpOverhead, lengths);
            ready.frameLengths == lengths && ready.config == s.config && ready.registered == s.registered
            && ready.encoderNumChannels == CodecStage(t, s, c, rtpOverhead).encoderNumChannels
  {
    SensibleCodecChange(t, s, c, s.transportOverhead + rtpOverhead);
    CodecChangeIgnoresOverhead(t, s, c, rtpOverhead);
    hide CodecChangeAllowed, CodecReconfigured, NewStack;
    CodecReconfiguredIsSteady(t, s.(rtpOverhead := rtpOverhead), c);
    var s1 := CodecStage(t, s, c, rtpOverhead);
    CodecStageStack(t, s, c, rtpOverhead);
    if s.registered {
      SensibleLimits(t, OverheadNoted(s1));
    }
    OverheadUpdatedIsSteady(t, s1);
  }

  lemma SensibleObserverChange(t: Settings, ready: Stream, c: Config)
    requires Sensible(t, c) && ready.frameLengths.Some?
    ensures ObserverChangeAllowed(t, ready, c)
  {
    if HasBitrateLimits(c) {
      SensibleLimits(t, WithBitratesOf(ready, c));
    }
  }

  lemma LaterStagesKeepRest(t: Settings, s: Stream, c: Config, sending: bool)
    requires sending ==> ObserverChangeAllowed(t, s, c)
    ensures var s' := Refreshed(t, (if sending then ObserverReconfigured(t, s, c) else s).(config := c));
            && s'.frameLengths == s.frameLengths && s'.encoderNumChannels == s.encoderNumChannels
            && (s'.registered ==> HasBitrateLimits(c) || (s.registered && (SameForObserver(s.config, c) || !sending)))
  {
  }

  lemma ReconfiguredIsReady(t: Settings, s: Stream, c: Config, rtpOverhead: nat, lengths: Option<FrameLengths>)
    requires Invariant(t, s) && (s == INITIAL || Ready(t, s)) && Sensible(t, c) && lengths.Some?
    ensures ConfigureAllowed(t, s, c, rtpOverhead, lengths)
    ensures Ready(t, Configured(t, s, c, false, rtpOverhead, lengths))
  {
    hide EncoderStage, CodecChangeAllowed, OverheadUpdateAllowed, ObserverChangeAllowed, ObserverReconfigured,
         Refreshed,
         LimitsOf, NewStack, CodecStage;
    var now := s.transportOverhead + rtpOverhead;
    SensibleEncoderStage(t, s, c, rtpOverhead, lengths);
    var ready := EncoderStage(t, s, c, rtpOverhead, lengths);
    SensibleObserverChange(t, ready, c);
    ConfiguredHolds(t, s, c, rtpOverhead, lengths);
    ConfiguredEncoder(t, s, c, rtpOverhead, lengths);
    SensibleCodecChange(t, s, c, now);
    StoredChannels(t, s, c, rtpOverhead);
    LaterStagesKeepRest(t, ready, c, s.sending);
  }

  lemma StoredChannels(t: Settings, s: Stream, c: Config, rtpOverhead: nat)
    requires s == INITIAL || Ready(t, s)
    requires Sensible(t, c)
    ensures CodecStage(t, s, c, rtpOverhead).encoderNumChannels == CodecFor(t, c.spec.value).value.numChannels
  {
    if ChangeOf(s.config, c).SetUp? {
      BuildProperties(CodecFor(t, c.spec.value).value, c.spec.value, c.ana, s.transportOverhead + rtpOverhead);
    }
  }

  /** A stream that is set up sensibly and then called sensibly meets every check of the code. */
  lemma SensibleCallIsAllowed(t: Settings, s: Stream, call: Call)
    requires Ready(t, s) && SensibleCall(t, s, call)
    ensures Allowed(t, s, call) && Ready(t, Step(t, s, call))
  {
    match call
    case Start =>
      if RegistersAtStart(t, s.config) {
        SensibleLimits(t, s);
      }
      StepHolds(t, s, call);
    case Stop =>
      StepHolds(t, s, call);
    case Reconfigure(c, rtpOverhead, lengths) =>
      ReconfiguredIsReady(t, s, c, rtpOverhead, lengths);
    case SetTransportOverhead(bytes) =>
      OverheadCallIsReady(t, s, s.(transportOverhead := bytes));
      StepHolds(t, s, call);
    case DeliverRtcp(rtpOverhead) =>
      OverheadCallIsReady(t, s, s.(rtpOverhead := rtpOverhead));
      StepHolds(t, s, call);
    case OnBitrateUpdated(_, _) =>
      StepHolds(t, s, call);
  }

  lemma OverheadCallIsReady(t: Settings, s: Stream, s1: Stream)
    requires Ready(t, s)
    requires s1 == s.(transportOverhead := s1.transportOverhead, rtpOverhead := s1.rtpOverhead)
    ensures OverheadUpdateAllowed(t, s1)
    ensures var s' := Refreshed(t, OverheadUpdated(t, s1));
            s'.encoder.Some? && s'.frameLengths == s.frameLengths && s'.config == s.config
            && s'.registered == s.registered && s'.encoderNumChannels == s.encoderNumChannels
  {
    if s.registered {
      SensibleLimits(t, OverheadNoted(s1));
    }
    UpdatedEncoder(t, s1);
  }

  lemma SensibleStreamIsReady(t: Settings, c: Config, rtpOverhead: nat, lengths: Option<FrameLengths>)
    requires Sensible(t, c) && lengths.Some?
    ensures ConfigureAllowed(t, INITIAL, c, rtpOverhead, lengths)
    ensures Ready(t, Constructed(t, c, rtpOverhead, lengths))
  {
    ReconfiguredIsReady(t, INITIAL, c, rtpOverhead, lengths);
  }
}
