/**
 What holds of the audio send stream over whole runs of public calls. Five things can be asked of
 every state of a run; for each of them there is an exact condition on the calls. The last part says
 what puts things right again.
 */
module SendStreamRuns {
  import opened Wrappers
  import opened EncoderStack
  import opened SendStreamModel
  import opened SendStreamProperties

  /** Every state of every run from construction satisfies the invariant. */
  lemma RunFromConstruction(t: Settings, c: Config, rtpOverhead: nat, lengths: Option<FrameLengths>, calls: seq<Call>)
    requires ConfigureAllowed(t, INITIAL, c, rtpOverhead, lengths)
    requires Invariant(t, Constructed(t, c, rtpOverhead, lengths)) ==>
               AllowedRun(t, Constructed(t, c, rtpOverhead, lengths), calls)
    ensures Invariant(t, Constructed(t, c, rtpOverhead, lengths))
    ensures Invariant(t, Run(t, Constructed(t, c, rtpOverhead, lengths), calls))
  {
    ConstructedHolds(t, c, rtpOverhead, lengths);
  }

  // Properties of states and conditions on calls.

  /** Every state of the run, the first and the last one included, has the property. */
  ghost predicate Always(t: Settings, s: Stream, calls: seq<Call>, property: (Settings, Stream) -> bool)
    requires Invariant(t, s) && AllowedRun(t, s, calls)
    decreases |calls|
  {
    property(t, s) &&
    (calls == [] || (StepHolds(t, s, calls[0]); Always(t, Step(t, s, calls[0]), calls[1..], property)))
  }

  /** Every call of the run meets the condition in the state it is made in. */
  ghost predicate Each(t: Settings, s: Stream, calls: seq<Call>, condition: (Settings, Stream, Call) -> bool)
    requires Invariant(t, s) && AllowedRun(t, s, calls)
    decreases |calls|
  {
    calls == [] ||
    (condition(t, s, calls[0]) &&
     (StepHolds(t, s, calls[0]); Each(t, Step(t, s, calls[0]), calls[1..], condition)))
  }

  /** The condition is what decides whether a call keeps the property. */
  ghost predicate Decides(t: Settings, property: (Settings, Stream) -> bool, condition: (Settings, Stream,
                          Call) -> bool) {
    forall s, call :: Invariant(t, s) && Allowed(t, s, call) && property(t, s) ==>
      (property(t, Step(t, s, call)) <==> condition(t, s, call))
  }

  lemma {:induction false} AlwaysIfEach(t: Settings, s: Stream, calls: seq<Call>,
                                        property: (Settings, Stream) -> bool, condition: (Settings, Stream,
                                          Call) -> bool)
    requires Invariant(t, s) && AllowedRun(t, s, calls) && Decides(t, property, condition)
    ensures Always(t, s, calls, property) <==> property(t, s) && Each(t, s, calls, condition)
    decreases |calls|
  {
    hide Invariant, Allowed, Step;
    if calls == [] {
    } else {
      StepHolds(t, s, calls[0]);
      AlwaysIfEach(t, Step(t, s, calls[0]), calls[1..], property, condition);
    }
  }

  // The live encoder.

  predicate KeepsEncoderWanted(t: Settings, s: Stream, call: Call) {
    call.Reconfigure? ==> !LeavesStaleEncoder(t, s, call.config)
  }

  /** Over any run, the step-by-step encoder is at every moment the one a fresh setup would give,
      exactly when it is to begin with and no reconfiguration of the run is one of those that leave a
      stale encoder. */
  lemma IncrementalEqualsFresh(t: Settings, s: Stream, calls: seq<Call>)
    requires Invariant(t, s) && AllowedRun(t, s, calls)
    ensures Always(t, s, calls, EncoderIsWanted) <==> EncoderIsWanted(t, s) && Each(t, s, calls, KeepsEncoderWanted)
  {
    forall s, call | Invariant(t, s) && Allowed(t, s, call) && EncoderIsWanted(t, s)
      ensures EncoderIsWanted(t, Step(t, s, call)) <==> KeepsEncoderWanted(t, s, call)
    {
      hide Invariant, EncoderIsWanted, LeavesStaleEncoder, ConfigureAllowed, Configured;
      if call.Reconfigure? {
        ReconfiguredIsWanted(t, s, call.config, call.rtpOverhead, call.lengths);
      } else {
        OtherCallsKeepWanted(t, s, call);
      }
    }
    AlwaysIfEach(t, s, calls, EncoderIsWanted, KeepsEncoderWanted);
  }

  // The overhead the encoder knows.

  predicate KnowsOverhead(t: Settings, s: Stream) {
    OverheadHeard(s)
  }

  /** Whether the overhead in force after a call is known to the encoder, if the one before was. */
  predicate CallHeard(t: Settings, s: Stream, call: Call) {
    match call
    case Reconfigure(c, rtpOverhead, _) => ReconfigurationHeard(t, s, c, s.transportOverhead + rtpOverhead)
    case SetTransportOverhead(bytes) => !Deaf(s.encoder) || bytes + s.rtpOverhead == s.overheadPerPacket
    case DeliverRtcp(rtpOverhead) => !Deaf(s.encoder) || s.transportOverhead + rtpOverhead == s.overheadPerPacket
    case _ => true
  }

  lemma CallIsHeard(t: Settings, s: Stream, call: Call)
    requires Invariant(t, s) && Allowed(t, s, call) && OverheadHeard(s)
    ensures OverheadHeard(Step(t, s, call)) <==> CallHeard(t, s, call)
  {
    match call
    case Start =>
    case Stop =>
    case Reconfigure(c, rtpOverhead, lengths) =>
      hide Invariant, ConfigureAllowed, Configured, ReconfigurationHeard, OverheadHeard;
      ReconfiguredOverheadHeard(t, s, c, rtpOverhead, lengths);
    case SetTransportOverhead(bytes) =>
      hide Invariant, OverheadHeard, OverheadUpdated, Refreshed;
      NewOverheadHeard(t, s, call, bytes + s.rtpOverhead);
    case DeliverRtcp(rtpOverhead) =>
      hide Invariant, OverheadHeard, OverheadUpdated, Refreshed;
      NewOverheadHeard(t, s, call, s.transportOverhead + rtpOverhead);
    case OnBitrateUpdated(target, _) =>
      if s.encoder.Some? {
        TargetKeepsShape(s.encoder.value, None, Some(Clamped(target, s.cached.value.min, s.cached.value.max)));
      }
  }

  /** Over any run, comfort noise or not, the overhead last told to the encoder is at every moment the
      one in force, exactly when it is to begin with and every call of the run is heard. */
  lemma OverheadHeardThroughout(t: Settings, s: Stream, calls: seq<Call>)
    requires Invariant(t, s) && AllowedRun(t, s, calls)
    ensures Always(t, s, calls, KnowsOverhead) <==> OverheadHeard(s) && Each(t, s, calls, CallHeard)
  {
    forall s, call | Invariant(t, s) && Allowed(t, s, call) && KnowsOverhead(t, s)
      ensures KnowsOverhead(t, Step(t, s, call)) <==> CallHeard(t, s, call)
    {
      hide Invariant, Allowed, Step, OverheadHeard, CallHeard;
      CallIsHeard(t, s, call);
    }
    AlwaysIfEach(t, s, calls, KnowsOverhead, CallHeard);
  }

  /** In particular it is in every run without comfort noise. */
  lemma {:induction false} RunWithoutComfortNoiseIsHeard(t: Settings, s: Stream, calls: seq<Call>)
    requires Invariant(t, s) && AllowedRun(t, s, calls)
    requires OverheadHeard(s) && !Deaf(s.encoder) && UsesNoComfortNoise(s.config)
    requires forall i :: 0 <= i < |calls| && calls[i].Reconfigure? ==> UsesNoComfortNoise(calls[i].config)
    ensures Always(t, s, calls, KnowsOverhead)
    decreases calls
  {
    hide Invariant, Allowed, Step, OverheadHeard, Deaf, UsesNoComfortNoise;
    if calls == [] {
    } else {
      StepHolds(t, s, calls[0]);
      StepWithoutComfortNoise(t, s, calls[0]);
      RunWithoutComfortNoiseIsHeard(t, Step(t, s, calls[0]), calls[1..]);
    }
  }

  // Registration.

  predicate KeepsRegistration(t: Settings, s: Stream, call: Call) {
    call.Reconfigure? && s.sending ==> !RegistrationDrifts(t, s.config, call.config)
  }

  lemma RegistrationAfterCall(t: Settings, s: Stream, call: Call)
    requires Invariant(t, s) && Allowed(t, s, call) && RegisteredAsAtStart(t, s)
    ensures RegisteredAsAtStart(t, Step(t, s, call)) <==> KeepsRegistration(t, s, call)
  {
    match call
    case Start =>
    case Stop =>
    case Reconfigure(c, rtpOverhead, lengths) =>
      hide Invariant, ConfigureAllowed, RegistrationDrifts, RegistersAtStart;
      EncoderStageIsSteady(t, s, c, rtpOverhead, lengths);
      if s.sending {
        ReconfiguredRegistration(t, s, c, rtpOverhead, lengths);
      }
    case SetTransportOverhead(bytes) =>
      OverheadUpdatedIsSteady(t, s.(transportOverhead := bytes));
    case DeliverRtcp(rtpOverhead) =>
      OverheadUpdatedIsSteady(t, s.(rtpOverhead := rtpOverhead));
    case OnBitrateUpdated(_, _) =>
  }

  /** Over any run, a sending stream is at every moment registered just as starting it would register
      it, exactly when it is to begin with and no reconfiguration while it sends is a drifting one. */
  lemma RegisteredThroughout(t: Settings, s: Stream, calls: seq<Call>)
    requires Invariant(t, s) && AllowedRun(t, s, calls)
    ensures Always(t, s, calls, RegisteredAsAtStart) <==>
              RegisteredAsAtStart(t, s) && Each(t, s, calls, KeepsRegistration)
  {
    forall s, call | Invariant(t, s) && Allowed(t, s, call) && RegisteredAsAtStart(t, s)
      ensures RegisteredAsAtStart(t, Step(t, s, call)) <==> KeepsRegistration(t, s, call)
    {
      hide Invariant, Allowed, Step, RegisteredAsAtStart, KeepsRegistration;
      RegistrationAfterCall(t, s, call);
    }
    AlwaysIfEach(t, s, calls, RegisteredAsAtStart, KeepsRegistration);
  }

  // The allocator's record.

  predicate AllocatorKnowsStream(t: Settings, s: Stream) {
    s.registered ==> AllocatorIsCurrent(t, s)
  }

  predicate KeepsAllocator(t: Settings, s: Stream, call: Call) {
    call.Reconfigure? ==> !LeavesStaleAllocator(t, s, call.config, call.rtpOverhead, call.lengths)
  }

  lemma OverheadCallKeepsAllocator(t: Settings, s: Stream, s1: Stream)
    requires Invariant(t, s) && OverheadUpdateAllowed(t, s1) && AllocatorKnowsStream(t, s)
    requires s1 == s.(transportOverhead := s1.transportOverhead, rtpOverhead := s1.rtpOverhead)
    ensures AllocatorKnowsStream(t, Refreshed(t, OverheadUpdated(t, s1)))
  {
    OverheadUpdatedIsSteady(t, s1);
    SameRecord(t, s1, s);
    if s.registered {
      OverheadUpdateKeepsAllocator(t, s1);
    }
    SameRecord(t, Refreshed(t, OverheadUpdated(t, s1)), OverheadUpdated(t, s1));
  }

  lemma AllocatorAfterCall(t: Settings, s: Stream, call: Call)
    requires Invariant(t, s) && Allowed(t, s, call) && AllocatorKnowsStream(t, s)
    ensures AllocatorKnowsStream(t, Step(t, s, call)) <==> KeepsAllocator(t, s, call)
  {
    match call
    case Start =>
      hide LimitsOf, Invariant, AllocationFor;
      if !s.sending {
        StartedRegistration(t, s);
      }
    case Stop =>
    case Reconfigure(c, rtpOverhead, lengths) =>
      hide Invariant, ConfigureAllowed, Configured, AllocatorIsCurrent;
      ReconfiguredAllocator(t, s, c, rtpOverhead, lengths);
      RegisteredIsSending(t, s);
    case SetTransportOverhead(bytes) =>
      hide Invariant, AllocatorKnowsStream, OverheadUpdated, OverheadUpdateAllowed;
      OverheadCallKeepsAllocator(t, s, s.(transportOverhead := bytes));
    case DeliverRtcp(rtpOverhead) =>
      hide Invariant, AllocatorKnowsStream, OverheadUpdated, OverheadUpdateAllowed;
      OverheadCallKeepsAllocator(t, s, s.(rtpOverhead := rtpOverhead));
    case OnBitrateUpdated(_, _) =>
      SameRecord(t, Step(t, s, call), s);
  }

  /** Over any run, the allocator has at every moment the current record of a registered stream, exactly
      when it has it to begin with and no reconfiguration leaves it with an old one. */
  lemma AllocatorKnowsStreamThroughout(t: Settings, s: Stream, calls: seq<Call>)
    requires Invariant(t, s) && AllowedRun(t, s, calls)
    ensures Always(t, s, calls, AllocatorKnowsStream) <==>
              AllocatorKnowsStream(t, s) && Each(t, s, calls, KeepsAllocator)
  {
    forall s, call | Invariant(t, s) && Allowed(t, s, call) && AllocatorKnowsStream(t, s)
      ensures AllocatorKnowsStream(t, Step(t, s, call)) <==> KeepsAllocator(t, s, call)
    {
      hide Invariant, Allowed, Step, AllocatorKnowsStream, KeepsAllocator;
      AllocatorAfterCall(t, s, call);
    }
    AlwaysIfEach(t, s, calls, AllocatorKnowsStream, KeepsAllocator);
  }

  /** A new stream has the encoder its configuration asks for, and is not registered; whether its
      encoder knows the overhead, ConstructedOverheadHeard says. */
  lemma ConstructedInOrder(t: Settings, c: Config, rtpOverhead: nat, lengths: Option<FrameLengths>)
    requires ConfigureAllowed(t, INITIAL, c, rtpOverhead, lengths)
    ensures var s := Constructed(t, c, rtpOverhead, lengths);
            EncoderIsWanted(t, s) && RegisteredAsAtStart(t, s) && AllocatorKnowsStream(t, s)
  {
    ConstructedIsWanted(t, c, rtpOverhead, lengths);
    ConstructedHolds(t, c, rtpOverhead, lengths);
    hide Constructed, ConfigureAllowed, EncoderIsWanted;
  }

  // An encoder to work on.

  /** A stream with a codec specification has an encoder. */
  predicate EncoderIsThere(t: Settings, s: Stream) {
    s.config.spec.Some? ==> s.encoder.Some?
  }

  /** A first codec specification is one whose codec the factory makes. */
  predicate GetsEncoder(t: Settings, s: Stream, call: Call) {
    call.Reconfigure? && call.config.spec.Some? && s.encoder.None? ==> CodecFor(t, call.config.spec.value).Some?
  }

  /** A missing encoder is what it takes, and all it takes, for some configuration to make
      ReconfigureCNG use it: one that differs in comfort noise only. */
  lemma EncoderIsThereOrMissed(t: Settings, s: Stream)
    ensures EncoderIsThere(t, s) <==> forall c :: !UsesMissingEncoder(s, c)
  {
    if !EncoderIsThere(t, s) {
      var spec := s.config.spec.value;
      var cng := if spec.cngPayloadType.Some? then None else Some(13);
      assert UsesMissingEncoder(s, s.config.(spec := Some(spec.(cngPayloadType := cng))));
    }
  }

  lemma EncoderThereAfterCall(t: Settings, s: Stream, call: Call)
    requires Invariant(t, s) && Allowed(t, s, call) && EncoderIsThere(t, s)
    ensures EncoderIsThere(t, Step(t, s, call)) <==> GetsEncoder(t, s, call)
  {
    match call
    case Start =>
    case Stop =>
    case Reconfigure(c, rtpOverhead, lengths) =>
      hide Invariant, ConfigureAllowed, Configured, Build, Changed;
      ConfiguredEncoder(t, s, c, rtpOverhead, lengths);
    case SetTransportOverhead(bytes) =>
      hide Invariant, OverheadUpdated, OverheadUpdateAllowed;
      OverheadCallEncoder(t, s, call, bytes + s.rtpOverhead);
    case DeliverRtcp(rtpOverhead) =>
      hide Invariant, OverheadUpdated, OverheadUpdateAllowed;
      OverheadCallEncoder(t, s, call, s.transportOverhead + rtpOverhead);
    case OnBitrateUpdated(_, _) =>
  }

  /** Over any run there is at every moment an encoder for the codec specification, exactly when there
      is one to begin with and a first specification always names a codec the factory makes. */
  lemma EncoderThereThroughout(t: Settings, s: Stream, calls: seq<Call>)
    requires Invariant(t, s) && AllowedRun(t, s, calls)
    ensures Always(t, s, calls, EncoderIsThere) <==> EncoderIsThere(t, s) && Each(t, s, calls, GetsEncoder)
  {
    forall s, call | Invariant(t, s) && Allowed(t, s, call) && EncoderIsThere(t, s)
      ensures EncoderIsThere(t, Step(t, s, call)) <==> GetsEncoder(t, s, call)
    {
      hide Invariant, Allowed, Step, EncoderIsThere, GetsEncoder;
      EncoderThereAfterCall(t, s, call);
    }
    AlwaysIfEach(t, s, calls, EncoderIsThere, GetsEncoder);
  }

  lemma ConstructedEncoderIsThere(t: Settings, c: Config, rtpOverhead: nat, lengths: Option<FrameLengths>)
    requires ConfigureAllowed(t, INITIAL, c, rtpOverhead, lengths)
    ensures EncoderIsThere(t, Constructed(t, c, rtpOverhead, lengths)) <==>
              c.spec.None? || CodecFor(t, c.spec.value).Some?
  {
    hide Constructed, Configured, ConfigureAllowed, Build, Changed;
    ConstructedByConfiguring(t, c, rtpOverhead, lengths);
    ConfiguredEncoder(t, INITIAL, c, rtpOverhead, lengths);
  }

  // Recovery.

  /** Setting up a codec gives the wanted encoder whatever the encoder was before, and it knows the
      overhead unless it has comfort noise and the overhead is not 0. */
  lemma SetUpRecovers(t: Settings, s: Stream, c: Config, rtpOverhead: nat, lengths: Option<FrameLengths>)
    requires Invariant(t, s) && ConfigureAllowed(t, s, c, rtpOverhead, lengths)
    requires ChangeOf(s.config, c).SetUp? && CodecFor(t, c.spec.value).Some?
    ensures var s' := Configured(t, s, c, false, rtpOverhead, lengths);
            && EncoderIsWanted(t, s')
            && (OverheadHeard(s') <==> c.spec.value.cngPayloadType.None? || s.transportOverhead + rtpOverhead == 0)
  {
    hide Invariant, ConfigureAllowed, Configured, Build;
    var now, codec := s.transportOverhead + rtpOverhead, CodecFor(t, c.spec.value).value;
    ConfiguredEncoder(t, s, c, rtpOverhead, lengths);
    assert NewStack(t, s, c, now) == Some(Build(codec, c.spec.value, c.ana, now));
    BuildIsWanted(codec, c.spec.value, c.ana, now);
    BuildHears(codec, c.spec.value, c.ana, now);
    OverheadKeepsShape(Build(codec, c.spec.value, c.ana, now), now);
  }

  /** A new overhead without comfort noise in the way is heard whatever was heard before. */
  lemma NewOverheadRecovers(t: Settings, s: Stream, call: Call, now: nat)
    requires Invariant(t, s) && Allowed(t, s, call) && (call.SetTransportOverhead? || call.DeliverRtcp?)
    requires now == OverheadAfter(s, call) && now != s.overheadPerPacket && !Deaf(s.encoder)
    ensures OverheadHeard(Step(t, s, call))
  {
    hide Invariant, Allowed, Step;
    OverheadCallEncoder(t, s, call, now);
    if s.encoder.Some? {
      OverheadKeepsShape(s.encoder.value, now);
    }
  }

  /** Stopping and starting registers a stream as its configuration asks, with its current limits,
      whatever the registration was before. */
  lemma RestartRecovers(t: Settings, s: Stream)
    requires Invariant(t, s) && Allowed(t, Stopped(s), Start)
    ensures Invariant(t, Step(t, s, Stop))
    ensures var s' := Step(t, Step(t, s, Stop), Start); RegisteredAsAtStart(t, s') && AllocatorKnowsStream(t, s')
  {
    StepHolds(t, s, Stop);
    StartedRegistration(t, Step(t, s, Stop));
  }

  lemma {:induction false} RunInParts(t: Settings, s: Stream, before: seq<Call>, after: seq<Call>)
    requires Invariant(t, s) && AllowedRun(t, s, before + after)
    ensures AllowedRun(t, s, before) && AllowedRun(t, Run(t, s, before), after)
    ensures Run(t, s, before + after) == Run(t, Run(t, s, before), after)
    decreases |before|
  {
    hide Invariant, Allowed, Step;
    if before == [] {
      assert before + after == after;
    } else {
      StepHolds(t, s, before[0]);
      assert (before + after)[0] == before[0] && (before + after)[1..] == before[1..] + after;
      RunInParts(t, Step(t, s, before[0]), before[1..], after);
    }
  }

  lemma {:induction false} LastOfAlways(t: Settings, s: Stream, calls: seq<Call>, property: (Settings, Stream) -> bool)
    requires Invariant(t, s) && AllowedRun(t, s, calls) && Always(t, s, calls, property)
    ensures property(t, Run(t, s, calls))
    decreases |calls|
  {
    hide Invariant, Allowed, Step;
    if calls == [] {
    } else {
      StepHolds(t, s, calls[0]);
      LastOfAlways(t, Step(t, s, calls[0]), calls[1..], property);
    }
  }

  /** The last state of a run has a property when some state of it has and every later call meets the
      condition that decides, whatever happened before. */
  lemma LastStateIsRight(t: Settings, s: Stream, before: seq<Call>, after: seq<Call>,
                         property: (Settings, Stream) -> bool, condition: (Settings, Stream, Call) -> bool)
    requires Invariant(t, s) && AllowedRun(t, s, before + after) && Decides(t, property, condition)
    requires AllowedRun(t, s, before) && property(t, Run(t, s, before))
    requires AllowedRun(t, Run(t, s, before), after) && Each(t, Run(t, s, before), after, condition)
    ensures property(t, Run(t, s, before + after))
  {
    hide Invariant, Allowed, Step, Decides;
    RunInParts(t, s, before, after);
    AlwaysIfEach(t, Run(t, s, before), after, property, condition);
    LastOfAlways(t, Run(t, s, before), after, property);
  }
}
