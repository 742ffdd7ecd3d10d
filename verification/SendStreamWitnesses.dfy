/**
 Concrete streams and calls for which the code does not do what one would expect of it, one for each
 exact condition proved of the send stream.
 */
module SendStreamWitnesses {
  import opened Wrappers
  import opened HeaderExtensions
  import opened EncoderStack
  import opened SendStreamModel
  import opened SendStreamProperties
  import opened SendStreamRuns

  const OPUS := Format("opus", 48000, 2, map[])
  const MONO := Codec(48000, 1, {"adaptive"})

  function Plain(cng: Option<int>, red: Option<int>): CodecSpec {
    CodecSpec(111, OPUS, false, false, false, cng, red, None)
  }

  function Trials(withoutFeedback: bool): Settings {
    Settings(withoutFeedback, false, None, None, 0, None, None, map[(111, OPUS) := MONO, (112, OPUS) := MONO])
  }

  const SHORT_FRAMES: FrameLengths := FrameRange(20000, 20000)
  const LONG_FRAMES: FrameLengths := FrameRange(60000, 60000)
  const FEEDBACK := [RtpExtension(TRANSPORT_SEQUENCE_NUMBER_URI, 5, false)]

  function Limited(maxBitrateBps: int, extensions: seq<RtpExtension>, spec: CodecSpec): Config {
    Config(6000, maxBitrateBps, 1.0, false, extensions, None, Some(spec))
  }

  lemma EncoderStageStays(t: Settings, s: Stream, c: Config, rtpOverhead: nat, lengths: Option<FrameLengths>)
    requires OverheadUpdateAllowed(t, CodecStage(t, s, c, rtpOverhead))
    ensures var ready := EncoderStage(t, s, c, rtpOverhead, lengths);
            && ready.transportOverhead == s.transportOverhead && ready.rtpOverhead == rtpOverhead
            && (ready.encoder.Some? ==> ready.frameLengths == lengths)
  {
    hide CodecStage, LimitsOf, OverheadUpdateAllowed, AllocationFor;
    CodecStageStays(t, s, c, rtpOverhead);
  }

  lemma CodecStageStays(t: Settings, s: Stream, c: Config, rtpOverhead: nat)
    ensures var s1 := CodecStage(t, s, c, rtpOverhead);
            s1.transportOverhead == s.transportOverhead && s1.rtpOverhead == rtpOverhead
  {
    hide Build, Changed;
  }

  lemma InitialHolds(t: Settings)
    ensures Invariant(t, INITIAL)
  {
  }

  lemma OverheadsAgree(t: Settings, s: Stream)
    requires Invariant(t, s)
    ensures s.overheadPerPacket == s.totalOverhead
  {
  }

  lemma StaysWhereItWas(t: Settings, s: Stream, c: Config, rtpOverhead: nat, lengths: Option<FrameLengths>)
    requires ConfigureAllowed(t, s, c, rtpOverhead, lengths)
    ensures var s' := Configured(t, s, c, false, rtpOverhead, lengths);
            && s'.transportOverhead == s.transportOverhead && s'.rtpOverhead == rtpOverhead && s'.config == c
            && (s'.encoder.Some? ==> s'.frameLengths == lengths)
  {
    hide EncoderStage, LimitsOf, CodecChangeAllowed, OverheadUpdateAllowed, ObserverChangeAllowed;
    EncoderStageStays(t, s, c, rtpOverhead, lengths);
  }

  /** A stream with a configuration that registers at the start, constructed and started. */
  lemma StartedStream(t: Settings, c: Config, rtpOverhead: nat) returns (s: Stream)
    requires Sensible(t, c) && RegistersAtStart(t, c)
    ensures Ready(t, s) && s.sending && s.registered && s.config == c
    ensures s.transportOverhead == 0 && s.rtpOverhead == rtpOverhead && s.frameLengths == Some(SHORT_FRAMES)
    ensures ConfigureAllowed(t, INITIAL, c, rtpOverhead, Some(SHORT_FRAMES))
    ensures var s0 := Constructed(t, c, rtpOverhead, Some(SHORT_FRAMES));
            Invariant(t, s0) && Allowed(t, s0, Start) && s == Step(t, s0, Start)
    ensures RegisteredAsAtStart(t, s) && AllocatorKnowsStream(t, s)
  {
    var lengths := Some(SHORT_FRAMES);
    SensibleStreamIsReady(t, c, rtpOverhead, lengths);
    ConstructedByConfiguring(t, c, rtpOverhead, lengths);
    ConstructedHolds(t, c, rtpOverhead, lengths);
    StaysWhereItWas(t, INITIAL, c, rtpOverhead, lengths);
    hide Constructed, Configured, ConfigureAllowed, LimitsOf, Invariant;
    var s0 := Constructed(t, c, rtpOverhead, lengths);
    SensibleCallIsAllowed(t, s0, Start);
    StartedRegistration(t, s0);
    s := Step(t, s0, Start);
  }

  /** A change of the DSCP flag alone goes unnoticed: the stream stays registered although starting it
      would not register it. */
  lemma DscpIsNotNoticed() returns (t: Settings, s: Stream, c: Config)
    ensures Invariant(t, s) && s.sending && RegisteredAsAtStart(t, s)
    ensures Allowed(t, s, Reconfigure(c, 0, Some(SHORT_FRAMES)))
    ensures RegistrationDrifts(t, s.config, c)
    ensures var s' := Step(t, s, Reconfigure(c, 0, Some(SHORT_FRAMES)));
            s'.registered && !RegistersAtStart(t, s'.config)
  {
    hide Configured, ConfigureAllowed, Invariant, LimitsOf;
    t := Trials(false);
    var c0 := Limited(32000, FEEDBACK, Plain(None, None));
    c := c0.(hasDscp := true);
    s := StartedStream(t, c0, 0);
    SensibleCallIsAllowed(t, s, Reconfigure(c, 0, Some(SHORT_FRAMES)));
    ReconfiguredAllocator(t, s, c, 0, Some(SHORT_FRAMES));
    StaysWhereItWas(t, s, c, 0, Some(SHORT_FRAMES));
  }

  /** A stream allocated without feedback loses its registration when its limits change, although
      starting it would register it. */
  lemma FeedbackIsDemandedLater() returns (t: Settings, s: Stream, c: Config)
    ensures Invariant(t, s) && s.sending && RegisteredAsAtStart(t, s)
    ensures Allowed(t, s, Reconfigure(c, 0, Some(SHORT_FRAMES)))
    ensures RegistrationDrifts(t, s.config, c)
    ensures var s' := Step(t, s, Reconfigure(c, 0, Some(SHORT_FRAMES)));
            !s'.registered && RegistersAtStart(t, s'.config)
  {
    hide Configured, ConfigureAllowed, Invariant, LimitsOf;
    t := Trials(true);
    c := Limited(64000, [], Plain(None, None));
    s := StartedStream(t, Limited(32000, [], Plain(None, None)), 0);
    SensibleCallIsAllowed(t, s, Reconfigure(c, 0, Some(SHORT_FRAMES)));
    ReconfiguredAllocator(t, s, c, 0, Some(SHORT_FRAMES));
    StaysWhereItWas(t, s, c, 0, Some(SHORT_FRAMES));
  }

  lemma LongerFramesLowerLimits(t: Settings, s: Stream)
    requires t == Trials(false) && s.totalOverhead == 50 && s.frameLengths == Some(SHORT_FRAMES)
    requires s.config.minBitrateBps == 6000 && s.config.maxBitrateBps == 32000
    ensures RecordFor(t, s) == Some(Allocation(26000, 52000, 20000, s.config.bitratePriority))
    ensures RecordFor(t, s.(frameLengths := Some(LONG_FRAMES)))
         == Some(Allocation(12666, 38666, 6666, s.config.bitratePriority))
  {
    assert Rate(50, 20000) == 20000 && Rate(50, 60000) == 6666;
  }

  /** A codec with longer frames replaces one with shorter frames: the limits go down with the overhead
      rate, and the allocator keeps the old ones. */
  lemma AllocatorKeepsOldLimits() returns (t: Settings, s: Stream, c: Config)
    ensures Invariant(t, s) && s.registered && AllocatorIsCurrent(t, s)
    ensures Allowed(t, s, Reconfigure(c, 50, Some(LONG_FRAMES)))
    ensures LeavesStaleAllocator(t, s, c, 50, Some(LONG_FRAMES))
    ensures var s' := Step(t, s, Reconfigure(c, 50, Some(LONG_FRAMES))); s'.registered && !AllocatorIsCurrent(t, s')
  {
    hide Configured, ConfigureAllowed, Invariant, LimitsOf, RecordFor;
    t := Trials(false);
    var spec := Plain(None, None);
    c := Limited(32000, FEEDBACK, spec.(payloadType := 112));
    s := StartedStream(t, Limited(32000, FEEDBACK, spec), 50);
    SensibleCallIsAllowed(t, s, Reconfigure(c, 50, Some(LONG_FRAMES)));
    LongerFramesLowerLimits(t, s.(config := c, totalOverhead := 50));
    ReconfiguredAllocator(t, s, c, 50, Some(LONG_FRAMES));
  }

  /** A stream is constructed with comfort noise while there is no overhead, and knows it. A change of
      the transport overhead is then not heard; it is not heard either once comfort noise is turned
      off, nor when the same overhead is set again. */
  lemma OverheadIsMissedUnderComfortNoise()
      returns (t: Settings, s0: Stream, s1: Stream, s2: Stream, s3: Stream, quiet: Config, plain: Config)
    ensures ConfigureAllowed(t, INITIAL, quiet, 0, Some(SHORT_FRAMES))
    ensures s0 == Constructed(t, quiet, 0, Some(SHORT_FRAMES)) && OverheadHeard(s0)
    ensures Invariant(t, s0) && Allowed(t, s0, SetTransportOverhead(50)) && s1 == Step(t, s0, SetTransportOverhead(50))
    ensures Invariant(t, s1) && Allowed(t, s1, Reconfigure(plain, 0, Some(SHORT_FRAMES)))
    ensures s2 == Step(t, s1, Reconfigure(plain, 0, Some(SHORT_FRAMES)))
    ensures Invariant(t, s2) && Allowed(t, s2, SetTransportOverhead(50)) && s3 == Step(t, s2, SetTransportOverhead(50))
    ensures !OverheadHeard(s1) && !OverheadHeard(s2) && !Deaf(s2.encoder) && !OverheadHeard(s3)
  {
    hide Constructed, Configured, ConfigureAllowed, Invariant, LimitsOf, NewStack, Build;
    var lengths := Some(SHORT_FRAMES);
    t := Trials(false);
    quiet, plain := Limited(32000, [], Plain(Some(13), None)), Limited(32000, [], Plain(None, None));
    SensibleStreamIsReady(t, quiet, 0, lengths);
    ConstructedByConfiguring(t, quiet, 0, lengths);
    ConstructedOverheadHeard(t, quiet, 0, lengths);
    InitialHolds(t);
    ConfiguredEncoder(t, INITIAL, quiet, 0, lengths);
    StaysWhereItWas(t, INITIAL, quiet, 0, lengths);
    FirstStack(t, quiet);
    s0 := Constructed(t, quiet, 0, lengths);
    s1, s2, s3 := ThroughComfortNoise(t, s0, quiet, plain, lengths);
  }

  lemma FirstStack(t: Settings, c: Config)
    requires t == Trials(false) && c.spec.Some? && c.spec.value.payloadType == 111 && c.spec.value.format == OPUS
    ensures NewStack(t, INITIAL, c, 0) == Some(Build(MONO, c.spec.value, c.ana, 0))
  {
    assert CodecFor(t, c.spec.value) == Some(MONO);
    hide Trials;
    StackFromNothing(t, c, 0);
  }

  lemma StackFromNothing(t: Settings, c: Config, now: nat)
    requires c.spec.Some? && CodecFor(t, c.spec.value).Some?
    ensures NewStack(t, INITIAL, c, now) == Some(Build(CodecFor(t, c.spec.value).value, c.spec.value, c.ana, now))
  {
    hide Build, CodecFor;
  }

  lemma ThroughComfortNoise(t: Settings, s0: Stream, quiet: Config, plain: Config, lengths: Option<FrameLengths>)
      returns (s1: Stream, s2: Stream, s3: Stream)
    requires quiet == Limited(32000, [], Plain(Some(13), None)) && plain == Limited(32000, [], Plain(None, None))
    requires Sensible(t, quiet) && Sensible(t, plain) && lengths.Some?
    requires Ready(t, s0) && s0.config == quiet && OverheadHeard(s0)
    requires s0.encoder == Some(Build(MONO, quiet.spec.value, None, 0))
    requires s0.overheadPerPacket == s0.transportOverhead == s0.rtpOverhead == 0
    ensures Allowed(t, s0, SetTransportOverhead(50)) && s1 == Step(t, s0, SetTransportOverhead(50))
    ensures Invariant(t, s1) && Allowed(t, s1, Reconfigure(plain, 0, lengths))
            && s2 == Step(t, s1, Reconfigure(plain, 0, lengths))
    ensures Invariant(t, s2) && Allowed(t, s2, SetTransportOverhead(50)) && s3 == Step(t, s2, SetTransportOverhead(50))
    ensures !OverheadHeard(s1) && !OverheadHeard(s2) && !Deaf(s2.encoder) && !OverheadHeard(s3)
  {
    hide Invariant, Configured, ConfigureAllowed, LimitsOf, OverheadUpdateAllowed, NewStack, Build;
    SensibleCallIsAllowed(t, s0, SetTransportOverhead(50));
    OverheadCallEncoder(t, s0, SetTransportOverhead(50), 50);
    s1 := Step(t, s0, SetTransportOverhead(50));
    assert s1.transportOverhead == 50 && s1.rtpOverhead == 0;
    SensibleCallIsAllowed(t, s1, Reconfigure(plain, 0, lengths));
    ConfiguredEncoder(t, s1, plain, 0, lengths);
    s2 := Step(t, s1, Reconfigure(plain, 0, lengths));
    SecondStack(t, s1, quiet, plain);
    StaysWhereItWas(t, s1, plain, 0, lengths);
    OverheadsAgree(t, s2);
    UnchangedOverheadIsQuiet(t, s2, 50);
    s3 := Step(t, s2, SetTransportOverhead(50));
  }

  lemma SecondStack(t: Settings, s1: Stream, quiet: Config, plain: Config)
    requires quiet == Limited(32000, [], Plain(Some(13), None)) && plain == Limited(32000, [], Plain(None, None))
    requires s1.config == quiet && s1.encoder == Told(Some(Build(MONO, quiet.spec.value, None, 0)), 50)
    ensures var e := NewStack(t, s1, plain, 50);
            e.Some? && !e.value.HasComfortNoise() && !e.value.Heard(50)
    ensures s1.encoder.value.HasComfortNoise() && !s1.encoder.value.Heard(50)
  {
  }

  // Encoders that are not what the configuration asks for.

  /** While a stream does not send, the checks of a reconfiguration are those on the codec. */
  lemma QuietReconfiguration(t: Settings, s: Stream, c: Config, rtpOverhead: nat, lengths: Option<FrameLengths>)
    requires Invariant(t, s) && !s.sending && CodecChangeAllowed(t, s, c)
    ensures ConfigureAllowed(t, s, c, rtpOverhead, lengths)
  {
    CodecChangeIgnoresOverhead(t, s, c, rtpOverhead);
    CodecReconfiguredIsSteady(t, s.(rtpOverhead := rtpOverhead), c);
    hide CodecChangeAllowed, CodecReconfigured, LimitsOf;
  }

  /** A stream constructed with a codec its factory makes, which does not send. */
  lemma ConstructedStream(t: Settings, c: Config) returns (s: Stream)
    requires Sensible(t, c)
    ensures ConfigureAllowed(t, INITIAL, c, 0, Some(SHORT_FRAMES)) && s == Constructed(t, c, 0, Some(SHORT_FRAMES))
    ensures Invariant(t, s) && !s.sending && s.config == c && EncoderIsWanted(t, s)
    ensures s.encoder == Some(Build(CodecFor(t, c.spec.value).value, c.spec.value, c.ana, 0))
    ensures s.overheadPerPacket == s.transportOverhead == s.rtpOverhead == 0
  {
    hide Constructed, Configured, ConfigureAllowed, Invariant, LimitsOf, NewStack, Build;
    var lengths := Some(SHORT_FRAMES);
    SensibleStreamIsReady(t, c, 0, lengths);
    ConstructedByConfiguring(t, c, 0, lengths);
    ConstructedHolds(t, c, 0, lengths);
    ConstructedIsWanted(t, c, 0, lengths);
    InitialHolds(t);
    ConfiguredEncoder(t, INITIAL, c, 0, lengths);
    StaysWhereItWas(t, INITIAL, c, 0, lengths);
    StackFromNothing(t, c, 0);
    s := Constructed(t, c, 0, lengths);
  }

  lemma LeftStale(t: Settings, s: Stream, c: Config)
    requires Invariant(t, s) && !s.sending && EncoderIsWanted(t, s)
    requires CodecChangeAllowed(t, s, c) && LeavesStaleEncoder(t, s, c)
    ensures Allowed(t, s, Reconfigure(c, 0, Some(SHORT_FRAMES)))
    ensures !EncoderIsWanted(t, Step(t, s, Reconfigure(c, 0, Some(SHORT_FRAMES))))
  {
    hide Invariant, CodecChangeAllowed, LeavesStaleEncoder, EncoderIsWanted, Configured, ConfigureAllowed;
    QuietReconfiguration(t, s, c, 0, Some(SHORT_FRAMES));
    ReconfiguredIsWanted(t, s, c, 0, Some(SHORT_FRAMES));
  }

  /** An adaptor asked for while comfort noise is on is never enabled. */
  lemma AdaptorIsLostUnderComfortNoise() returns (t: Settings, s: Stream, c0: Config, c: Config)
    ensures ConfigureAllowed(t, INITIAL, c0, 0, Some(SHORT_FRAMES)) && s == Constructed(t, c0, 0, Some(SHORT_FRAMES))
    ensures c == c0.(ana := Some("adaptive"))
    ensures Invariant(t, s) && EncoderIsWanted(t, s) && LeavesStaleEncoder(t, s, c)
    ensures Allowed(t, s, Reconfigure(c, 0, Some(SHORT_FRAMES)))
    ensures !EncoderIsWanted(t, Step(t, s, Reconfigure(c, 0, Some(SHORT_FRAMES))))
  {
    hide Constructed, Configured, ConfigureAllowed, Invariant, Build, EncoderIsWanted;
    t, c0 := Trials(false), Limited(32000, [], Plain(Some(13), None));
    c := c0.(ana := Some("adaptive"));
    MonoCodec(t, c0.spec.value);
    s := ConstructedStream(t, c0);
    LeftStale(t, s, c);
  }

  /** Turning comfort noise on under redundancy turns redundancy off. */
  lemma RedundancyIsLostToComfortNoise() returns (t: Settings, s: Stream, c0: Config, c: Config)
    ensures ConfigureAllowed(t, INITIAL, c0, 0, Some(SHORT_FRAMES)) && s == Constructed(t, c0, 0, Some(SHORT_FRAMES))
    ensures c.spec == Some(Plain(Some(13), Some(63))) && c0.spec == Some(Plain(None, Some(63)))
    ensures Invariant(t, s) && EncoderIsWanted(t, s) && LeavesStaleEncoder(t, s, c)
    ensures Allowed(t, s, Reconfigure(c, 0, Some(SHORT_FRAMES)))
    ensures var s' := Step(t, s, Reconfigure(c, 0, Some(SHORT_FRAMES)));
            !EncoderIsWanted(t, s') && s'.encoder.Some? && s'.encoder.value.ComfortNoise?
              && s'.encoder.value.inner.Speech?
  {
    hide Constructed, Configured, ConfigureAllowed, Invariant, Build, EncoderIsWanted, NewStack;
    t, c0 := Trials(false), Limited(32000, [], Plain(None, Some(63)));
    c := Limited(32000, [], Plain(Some(13), Some(63)));
    MonoCodec(t, c0.spec.value);
    s := ConstructedStream(t, c0);
    RedundantStack(t, s, c0, c);
    LeftStale(t, s, c);
    ConfiguredEncoder(t, s, c, 0, Some(SHORT_FRAMES));
  }

  lemma RedundantStack(t: Settings, s: Stream, c0: Config, c: Config)
    requires c0.spec == Some(Plain(None, Some(63))) && c.spec == Some(Plain(Some(13), Some(63)))
             && c0.ana == c.ana == None
    requires s.config == c0 && s.encoder == Some(Build(MONO, c0.spec.value, None, 0))
    ensures AcceptsComfortNoise(s.encoder.value)
    ensures var e := NewStack(t, s, c, 0); e.Some? && e.value.ComfortNoise? && e.value.inner.Speech?
  {
  }

  /** A codec the factory cannot make leaves the old encoder behind. */
  lemma OldEncoderStaysBehind() returns (t: Settings, s: Stream, c0: Config, c: Config)
    ensures ConfigureAllowed(t, INITIAL, c0, 0, Some(SHORT_FRAMES)) && s == Constructed(t, c0, 0, Some(SHORT_FRAMES))
    ensures Invariant(t, s) && EncoderIsWanted(t, s) && s.encoder.Some? && LeavesStaleEncoder(t, s, c)
    ensures Allowed(t, s, Reconfigure(c, 0, Some(SHORT_FRAMES)))
    ensures var s' := Step(t, s, Reconfigure(c, 0, Some(SHORT_FRAMES)));
            !EncoderIsWanted(t, s') && s'.encoder == s.encoder && s'.config == c
  {
    hide Constructed, Configured, ConfigureAllowed, Invariant, Build, EncoderIsWanted;
    t, c0 := Trials(false), Limited(32000, [], Plain(None, None));
    c := Limited(32000, [], Plain(None, None).(payloadType := 99));
    MonoCodec(t, c0.spec.value);
    s := ConstructedStream(t, c0);
    LeftStale(t, s, c);
    ConfiguredEncoder(t, s, c, 0, Some(SHORT_FRAMES));
  }

  lemma MonoCodec(t: Settings, spec: CodecSpec)
    requires t == Trials(false) && spec.payloadType == 111 && spec.format == OPUS
    ensures CodecFor(t, spec) == Some(MONO)
  {
  }

  /** A stream constructed with a codec its factory cannot make has no encoder. Turning comfort noise on
      then meets every check of the code, and uses the encoder that is not there. */
  lemma ComfortNoiseNeedsAnEncoder() returns (t: Settings, s: Stream, c0: Config, c: Config)
    ensures ConfigureAllowed(t, INITIAL, c0, 0, None) && s == Constructed(t, c0, 0, None)
    ensures c == c0.(spec := Some(Plain(Some(13), None))) && c0.spec == Some(Plain(None, None))
    ensures s.encoder == None && !EncoderIsThere(t, s)
    ensures CodecChecks(t, s, c) && UsesMissingEncoder(s, c)
  {
    hide Constructed, Configured, ConfigureAllowed, Invariant, FinalStack;
    t := Trials(false).(factory := map[]);
    c0, c := Limited(32000, [], Plain(None, None)), Limited(32000, [], Plain(Some(13), None));
    InitialHolds(t);
    QuietReconfiguration(t, INITIAL, c0, 0, None);
    ConstructedByConfiguring(t, c0, 0, None);
    ConfiguredEncoder(t, INITIAL, c0, 0, None);
    NothingBuilt(t, c0);
    s := Constructed(t, c0, 0, None);
  }

  lemma NothingBuilt(t: Settings, c: Config)
    requires t.factory == map[]
    ensures FinalStack(t, INITIAL, c, 0) == None
  {
    hide Build, Changed;
  }
}
