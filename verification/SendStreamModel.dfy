/**
 The audio send stream (audio/audio_send_stream.cc) as a state machine.

 `Stream` is the state of one stream together with what it has told its surroundings: its encoder,
 the bitrate allocator, the RTP module and the audio state. The public calls are functions from
 state to state, built from the same private steps as the code; a call is `Allowed` when the
 checks in the code (RTC_DCHECK, RTC_CHECK) hold on its way and it does not use an encoder that is
 not there.
 */
module SendStreamModel {
  import opened Wrappers
  import opened HeaderExtensions
  import opened EncoderStack

  /** What is fixed for the life of a stream: field trials, allocation settings, encoder factory. */
  datatype Settings = Settings(
    allocateWithoutFeedback: bool,
    legacyOverhead: bool,
    minBitrate: Option<nat>,
    maxBitrate: Option<nat>,
    priorityBitrate: nat,
    priorityBitrateRaw: Option<nat>,
    bitratePriority: Option<real>,
    factory: Factory)

  /** A range of frame lengths in microseconds, as encoders report it. */
  datatype FrameRange = FrameRange(shortest: nat, longest: nat)
  type FrameLengths = r: FrameRange | 0 < r.shortest <= r.longest witness FrameRange(1, 1)

  datatype Config = Config(
    minBitrateBps: int,
    maxBitrateBps: int,
    bitratePriority: real,
    hasDscp: bool,
    extensions: seq<RtpExtension>,
    ana: Option<string>,
    spec: Option<CodecSpec>)

  const DEFAULT_CONFIG := Config(-1, -1, 1.0, false, [], None, None)

  /** TargetAudioBitrateConstraints, in bits per second. */
  datatype Limits = Limits(min: nat, max: nat)

  /** The allocator's record of an observer. */
  datatype Allocation = Allocation(minBitrateBps: nat, maxBitrateBps: nat, priorityBitrateBps: nat,
      bitratePriority: real)

  /** The audio state's record of a sending stream. */
  datatype Properties = Properties(sampleRateHz: int, numChannels: nat)

  /** A bitrate update passed on to the channel. */
  datatype Update = Update(target: int, stableTarget: int)

  datatype Stream = Stream(
    config: Config,
    sending: bool,
    registered: bool,
    cached: Option<Limits>,
    frameLengths: Option<FrameLengths>,
    overheadPerPacket: nat,
    totalOverhead: nat,
    transportOverhead: nat,
    encoderSampleRateHz: int,
    encoderNumChannels: nat,
    // What others know of the stream.
    encoder: Option<Encoder>,
    forwarded: seq<Update>,
    rtpOverhead: nat,
    partOfAllocation: bool,
    allocation: Option<Allocation>,
    entry: Option<Properties>)

  const INITIAL := Stream(DEFAULT_CONFIG, false, false, None, None, 0, 0, 0, 0, 0, None, [], 0, false, None, None)

  const TRANSPORT_SEQUENCE_NUMBER_URI := "http://www.ietf.org/id/draft-holmer-rmcat-transport-wide-cc-extensions-01"

  /** The id of the last transport sequence number extension, 0 if there is none. */
  function TransportSeqNumId(extensions: seq<RtpExtension>): int {
    if extensions == [] then 0
    else if extensions[|extensions| - 1].uri == TRANSPORT_SEQUENCE_NUMBER_URI then extensions[|extensions| - 1].id
    else TransportSeqNumId(extensions[..|extensions| - 1])
  }

  // Bitrate limits.

  /** DataSize / TimeDelta, in bits per second. */
  function Rate(bytes: nat, microseconds: nat): nat
    requires microseconds > 0
  {
    bytes * 8000000 / microseconds
  }

  const LEGACY_OVERHEAD_BYTES: nat := 20 + 8 + 10 + 12
  const LEGACY_MAX_FRAME_US: nat := 60000
  const LEGACY_MIN_PACKET_US: nat := 20000

  /** GetMinMaxBitrateConstraints. */
  function LimitsOf(t: Settings, s: Stream): Option<Limits> {
    if s.config.minBitrateBps < 0 || s.config.maxBitrateBps < 0 then None
    else
      var min := if t.minBitrate.Some? then t.minBitrate.value else s.config.minBitrateBps;
      var max := if t.maxBitrate.Some? then t.maxBitrate.value else s.config.maxBitrateBps;
      if max < min then None
      else if t.legacyOverhead then
        var overhead := Rate(LEGACY_OVERHEAD_BYTES, LEGACY_MAX_FRAME_US);
        Some(Limits(min + overhead, max + overhead))
      else if s.frameLengths.None? then None
      else
        Some(Limits(min + Rate(s.totalOverhead, s.frameLengths.value.longest),
                    max + Rate(s.totalOverhead, s.frameLengths.value.shortest)))
  }

  lemma RateOfShorterFrame(bytes: nat, shorter: nat, longer: nat)
    requires 0 < shorter <= longer
    ensures Rate(bytes, longer) <= Rate(bytes, shorter)
  {
    var x := bytes * 8000000;
    var q := x / longer;
    QuotientBound(x, longer, q);
    assert q * shorter <= q * longer;
    QuotientBelow(x, shorter, q);
  }

  lemma QuotientBound(x: nat, d: nat, q: nat)
    requires d > 0 && q == x / d
    ensures q * d <= x
  {
    assert x == d * (x / d) + x % d;
  }

  lemma QuotientBelow(x: nat, d: nat, q: nat)
    requires d > 0 && q * d <= x
    ensures q <= x / d
  {
    var r := x / d;
    assert x < (r + 1) * d by {
      assert x == d * r + x % d;
    }
    ProductIsMonotone(r + 1, q, d);
  }

  lemma ProductIsMonotone(a: nat, b: nat, d: nat)
    ensures a <= b ==> a * d <= b * d
  {
  }

  /** After the two different overhead rates are added the lower limit is still the lower one. */
  lemma LimitsAreOrdered(t: Settings, s: Stream)
    ensures LimitsOf(t, s).Some? ==> LimitsOf(t, s).value.min <= LimitsOf(t, s).value.max
  {
    if s.frameLengths.Some? {
      RateOfShorterFrame(s.totalOverhead, s.frameLengths.value.shortest, s.frameLengths.value.longest);
    }
  }

  // Private steps.

  /** UpdateCachedTargetAudioBitrateConstraints. */
  function Refreshed(t: Settings, s: Stream): Stream {
    if LimitsOf(t, s).Some? then s.(cached := LimitsOf(t, s)) else s
  }

  function AllocationFor(t: Settings, s: Stream): Allocation
    requires LimitsOf(t, s).Some?
  {
    var limits := LimitsOf(t, s).value;
    var overhead := if t.legacyOverhead then Rate(LEGACY_OVERHEAD_BYTES, LEGACY_MIN_PACKET_US)
                    else Rate(s.totalOverhead, s.frameLengths.value.longest);
    Allocation(limits.min, limits.max,
               if t.priorityBitrateRaw.Some? then t.priorityBitrateRaw.value else t.priorityBitrate + overhead,
               if t.bitratePriority.Some? then t.bitratePriority.value else s.config.bitratePriority)
  }

  /** ConfigureBitrateObserver. */
  function Observed(t: Settings, s: Stream): Stream
    requires LimitsOf(t, s).Some?
  {
    s.(allocation := Some(AllocationFor(t, s)), registered := true)
  }

  /** RemoveBitrateObserver. */
  function Unobserved(s: Stream): Stream {
    s.(registered := false, allocation := None)
  }

  function Told(e: Option<Encoder>, bytes: nat): Option<Encoder> {
    if e.Some? then Some(e.value.OnReceivedOverhead(bytes)) else None
  }

  /** GetPerPacketOverheadBytes. */
  function CurrentOverhead(s: Stream): nat {
    s.transportOverhead + s.rtpOverhead
  }

  /** The state in which UpdateOverheadForEncoder may have to tell the allocator. */
  function OverheadNoted(s: Stream): Stream {
    var bytes := CurrentOverhead(s);
    s.(overheadPerPacket := bytes, encoder := Told(s.encoder, bytes), totalOverhead := bytes)
  }

  predicate OverheadUpdateAllowed(t: Settings, s: Stream) {
    s.overheadPerPacket != CurrentOverhead(s) && s.totalOverhead != CurrentOverhead(s) && s.registered ==>
      LimitsOf(t, OverheadNoted(s)).Some?
  }

  /** UpdateOverheadForEncoder. */
  function OverheadUpdated(t: Settings, s: Stream): Stream
    requires OverheadUpdateAllowed(t, s)
  {
    if s.overheadPerPacket == CurrentOverhead(s) then s
    else if s.totalOverhead != CurrentOverhead(s) && s.registered then Observed(t, OverheadNoted(s))
    else OverheadNoted(s)
  }

  /** StoreEncoderProperties. */
  function PropertiesStored(s: Stream, rate: int, channels: nat): Stream {
    s.(encoderSampleRateHz := rate, encoderNumChannels := channels,
       entry := if s.sending then Some(Properties(rate, channels)) else s.entry)
  }

  function CodecFor(t: Settings, spec: CodecSpec): Option<Codec> {
    var key := (spec.payloadType, spec.format);
    if key in t.factory then Some(t.factory[key]) else None
  }

  /** SetupSendCodec: a factory that makes nothing leaves everything as it is. */
  function CodecSetUp(t: Settings, s: Stream, c: Config): Stream
    requires c.spec.Some?
  {
    var codec := CodecFor(t, c.spec.value);
    if codec.None? then s
    else
      var e := Build(codec.value, c.spec.value, c.ana, CurrentOverhead(s));
      PropertiesStored(s, e.SampleRateHz(), e.NumChannels()).(encoder := Some(e))
  }

  datatype CodecChange = Unchanged | SetUp | StepByStep

  /** Which branch ReconfigureSendCodec takes. */
  function ChangeOf(c0: Config, c1: Config): CodecChange {
    if c1.spec.None? || (c1.spec == c0.spec && c1.ana == c0.ana) then Unchanged
    else if c0.spec.None? || NeedsNewEncoder(c0.spec.value, c1.spec.value) then SetUp
    else StepByStep
  }

  /** ReconfigureSendCodec. */
  function CodecReconfigured(t: Settings, s: Stream, c: Config): Stream {
    match ChangeOf(s.config, c)
    case Unchanged => s
    case SetUp => CodecSetUp(t, s, c)
    case StepByStep =>
      if s.encoder.None? then s
      else s.(encoder := Some(Changed(s.encoder.value, s.config.spec.value, s.config.ana,
                                      c.spec.value, c.ana, CurrentOverhead(s))))
  }

  /** The encoder ReconfigureSendCodec leaves when the overhead in force is `now`. */
  function NewStack(t: Settings, s: Stream, c: Config, now: nat): Option<Encoder> {
    CodecReconfigured(t, s.(transportOverhead := now, rtpOverhead := 0), c).encoder
  }

  /** Whether ReconfigureSendCodec succeeds: the factory makes the encoder that is needed. */
  predicate CanReconfigure(t: Settings, c0: Config, c1: Config) {
    ChangeOf(c0, c1) == SetUp ==> CodecFor(t, c1.spec.value).Some?
  }

  /** The checks on the way: a codec is not taken away, and comfort noise goes over mono encoders. */
  predicate CodecChecks(t: Settings, s: Stream, c: Config) {
    && (c.spec.None? ==> s.config.spec.None?)
    && match ChangeOf(s.config, c)
       case Unchanged => true
       case SetUp =>
         CodecFor(t, c.spec.value).Some? && c.spec.value.cngPayloadType.Some? ==>
           CodecFor(t, c.spec.value).value.numChannels == 1
       case StepByStep =>
         s.encoder.Some? && c.spec.value.cngPayloadType.Some?
         && c.spec.value.cngPayloadType != s.config.spec.value.cngPayloadType ==>
           AcceptsComfortNoise(s.encoder.value)
  }

  /** ReconfigureCNG does not ask whether there is an encoder; here it would go on without one. */
  predicate UsesMissingEncoder(s: Stream, c: Config) {
    && s.encoder.None? && ChangeOf(s.config, c).StepByStep?
    && c.spec.value.cngPayloadType != s.config.spec.value.cngPayloadType
  }

  predicate CodecChangeAllowed(t: Settings, s: Stream, c: Config) {
    CodecChecks(t, s, c) && !UsesMissingEncoder(s, c)
  }

  lemma CodecChangeIgnoresOverhead(t: Settings, s: Stream, c: Config, rtpOverhead: nat)
    ensures CodecChangeAllowed(t, s.(rtpOverhead := rtpOverhead), c) <==> CodecChangeAllowed(t, s, c)
  {
  }

  /** ReconfigureBitrateObserver returns early when none of what it compares has changed. */
  predicate SameForObserver(c0: Config, c1: Config) {
    && c0.minBitrateBps == c1.minBitrateBps
    && c0.maxBitrateBps == c1.maxBitrateBps
    && c0.bitratePriority == c1.bitratePriority
    && TransportSeqNumId(c0.extensions) == TransportSeqNumId(c1.extensions)
    && c0.ana == c1.ana
  }

  predicate HasBitrateLimits(c: Config) {
    !c.hasDscp && c.minBitrateBps != -1 && c.maxBitrateBps != -1
  }

  function WithBitratesOf(s: Stream, c: Config): Stream {
    s.(config := s.config.(minBitrateBps := c.minBitrateBps, maxBitrateBps := c.maxBitrateBps,
                           bitratePriority := c.bitratePriority))
  }

  predicate ObserverChangeAllowed(t: Settings, s: Stream, c: Config) {
    !SameForObserver(s.config, c) && HasBitrateLimits(c) && TransportSeqNumId(c.extensions) != 0 ==>
      LimitsOf(t, WithBitratesOf(s, c)).Some?
  }

  /** ReconfigureBitrateObserver. */
  function ObserverReconfigured(t: Settings, s: Stream, c: Config): Stream
    requires ObserverChangeAllowed(t, s, c)
  {
    if SameForObserver(s.config, c) then s
    else if HasBitrateLimits(c) && TransportSeqNumId(c.extensions) != 0
    then Observed(t, WithBitratesOf(s, c)).(partOfAllocation := true)
    else Unobserved(s).(partOfAllocation := false)
  }

  /** The encoder's frame lengths are noted, if there is an encoder. */
  function FrameLengthsNoted(t: Settings, s: Stream, lengths: Option<FrameLengths>): Stream {
    if s.encoder.Some? then Refreshed(t, s.(frameLengths := lengths)) else s
  }

  /** The stages of ConfigureStream that come before the observer is reconfigured. `lengths` is what
      the encoder reports as its frame lengths, `rtpOverhead` what the RTP module expects once the
      header extensions are registered. */
  function CodecStage(t: Settings, s: Stream, c: Config, rtpOverhead: nat): Stream {
    CodecReconfigured(t, s.(rtpOverhead := rtpOverhead), c)
  }

  function EncoderStage(t: Settings, s: Stream, c: Config, rtpOverhead: nat, lengths: Option<FrameLengths>): Stream
    requires OverheadUpdateAllowed(t, CodecStage(t, s, c, rtpOverhead))
  {
    FrameLengthsNoted(t, OverheadUpdated(t, CodecStage(t, s, c, rtpOverhead)), lengths)
  }

  predicate ConfigureAllowed(t: Settings, s: Stream, c: Config, rtpOverhead: nat, lengths: Option<FrameLengths>) {
    && CodecChangeAllowed(t, s, c)
    && OverheadUpdateAllowed(t, CodecStage(t, s, c, rtpOverhead))
    && (s.sending ==> ObserverChangeAllowed(t, EncoderStage(t, s, c, rtpOverhead, lengths), c))
  }

  /** ConfigureStream. */
  function Configured(t: Settings, s: Stream, c: Config, firstTime: bool,
                      rtpOverhead: nat, lengths: Option<FrameLengths>): Stream
    requires ConfigureAllowed(t, s, c, rtpOverhead, lengths)
  {
    var ready := EncoderStage(t, s, c, rtpOverhead, lengths);
    var observed := if s.sending then ObserverReconfigured(t, ready, c) else ready;
    var configured := observed.(config := c);
    if firstTime then configured else Refreshed(t, configured)
  }

  // Public calls.

  /** Whether starting the stream registers it with the allocator. */
  predicate RegistersAtStart(t: Settings, c: Config) {
    HasBitrateLimits(c) && (t.allocateWithoutFeedback || TransportSeqNumId(c.extensions) != 0)
  }

  function Started(t: Settings, s: Stream): Stream
    requires !s.sending && RegistersAtStart(t, s.config) ==> LimitsOf(t, s).Some?
  {
    if s.sending then s
    else
      var observed := if RegistersAtStart(t, s.config) then Observed(t, s).(partOfAllocation := true)
                      else s.(partOfAllocation := false);
      observed.(sending := true, entry := Some(Properties(s.encoderSampleRateHz, s.encoderNumChannels)))
  }

  function Stopped(s: Stream): Stream {
    if s.sending then Unobserved(s).(sending := false, entry := None) else s
  }

  /** UnitBase::Clamped. */
  function Clamped(x: int, min: int, max: int): int {
    Max(min, Min(x, max))
  }

  function BitrateUpdated(s: Stream, target: int, stableTarget: int): Stream
    requires s.cached.Some?
  {
    var update := Update(Clamped(target, s.cached.value.min, s.cached.value.max),
                         Clamped(stableTarget, s.cached.value.min, s.cached.value.max));
    s.(forwarded := s.forwarded + [update],
       encoder := if s.encoder.Some? then Some(s.encoder.value.OnReceivedTargetBitrate(update.target)) else None)
  }

  datatype Call =
    | Start
    | Stop
    | Reconfigure(config: Config, rtpOverhead: nat, lengths: Option<FrameLengths>)
    | SetTransportOverhead(bytes: nat)
    | DeliverRtcp(rtpOverhead: nat)
    | OnBitrateUpdated(target: int, stableTarget: int)

  /** The checks of the code hold on the way, and the allocator calls its observers only. */
  predicate Allowed(t: Settings, s: Stream, call: Call) {
    match call
    case Start => !s.sending && RegistersAtStart(t, s.config) ==> LimitsOf(t, s).Some?
    case Stop => true
    case Reconfigure(c, rtpOverhead, lengths) => ConfigureAllowed(t, s, c, rtpOverhead, lengths)
    case SetTransportOverhead(bytes) => OverheadUpdateAllowed(t, s.(transportOverhead := bytes))
    case DeliverRtcp(rtpOverhead) => OverheadUpdateAllowed(t, s.(rtpOverhead := rtpOverhead))
    case OnBitrateUpdated(_, _) => s.allocation.Some?
  }

  function Step(t: Settings, s: Stream, call: Call): Stream
    requires Invariant(t, s) && Allowed(t, s, call)
  {
    match call
    case Start => Started(t, s)
    case Stop => Stopped(s)
    case Reconfigure(c, rtpOverhead, lengths) => Configured(t, s, c, false, rtpOverhead, lengths)
    case SetTransportOverhead(bytes) => Refreshed(t, OverheadUpdated(t, s.(transportOverhead := bytes)))
    case DeliverRtcp(rtpOverhead) => Refreshed(t, OverheadUpdated(t, s.(rtpOverhead := rtpOverhead)))
    case OnBitrateUpdated(target, stableTarget) => BitrateUpdated(s, target, stableTarget)
  }

  /** The constructor. */
  function Constructed(t: Settings, c: Config, rtpOverhead: nat, lengths: Option<FrameLengths>): Stream
    requires ConfigureAllowed(t, INITIAL, c, rtpOverhead, lengths)
  {
    Refreshed(t, Configured(t, INITIAL, c, true, rtpOverhead, lengths))
  }

  // What holds between public calls.

  /** The cached limits are the current ones, whenever there are any. */
  predicate CacheAgrees(t: Settings, s: Stream) {
    LimitsOf(t, s).Some? ==> s.cached == LimitsOf(t, s)
  }

  predicate CacheIsOrdered(s: Stream) {
    s.cached.Some? ==> s.cached.value.min <= s.cached.value.max
  }

  /** Registration is what the allocator knows, it happens while sending only, and a registered
      stream can serve bitrate updates. */
  predicate RegistrationIsSafe(s: Stream) {
    && (s.registered <==> s.allocation.Some?)
    && (s.registered ==> s.sending && s.cached.Some?)
    && (s.sending ==> s.partOfAllocation == s.registered)
  }

  /** The audio state lists the stream exactly while it sends, with its encoder's properties. */
  predicate EntryAgrees(s: Stream) {
    s.entry == if s.sending then Some(Properties(s.encoderSampleRateHz, s.encoderNumChannels)) else None
  }

  predicate EncoderAgrees(s: Stream) {
    s.encoder.Some? ==>
      && s.encoder.value.ComfortNoiseIsMono()
      && s.encoderSampleRateHz == s.encoder.value.SampleRateHz()
      && s.encoderNumChannels == s.encoder.value.NumChannels()
  }

  predicate Invariant(t: Settings, s: Stream) {
    && CacheAgrees(t, s)
    && CacheIsOrdered(s)
    && RegistrationIsSafe(s)
    && s.overheadPerPacket == s.totalOverhead
    && EntryAgrees(s)
    && EncoderAgrees(s)
  }

  // Every call keeps it. `Steady` is the part that also holds inside a call.

  predicate Steady(s: Stream) {
    && CacheIsOrdered(s)
    && (s.registered <==> s.allocation.Some?)
    && (s.registered ==> s.sending)
    && (s.sending ==> s.partOfAllocation == s.registered)
    && s.overheadPerPacket == s.totalOverhead
    && EntryAgrees(s)
    && EncoderAgrees(s)
  }

  lemma RefreshedHolds(t: Settings, s: Stream)
    requires Steady(s) && (s.registered ==> s.cached.Some? || LimitsOf(t, s).Some?)
    ensures Invariant(t, Refreshed(t, s))
  {
    LimitsAreOrdered(t, s);
    assert LimitsOf(t, Refreshed(t, s)) == LimitsOf(t, s);
  }

  lemma OverheadUpdatedIsSteady(t: Settings, s: Stream)
    requires Steady(s) && OverheadUpdateAllowed(t, s)
    ensures var s' := OverheadUpdated(t, s);
            && Steady(s')
            && s'.overheadPerPacket == CurrentOverhead(s)
            && s'.config == s.config && s'.cached == s.cached && s'.registered == s.registered
            && s'.sending == s.sending && s'.frameLengths == s.frameLengths && s'.encoder.Some? == s.encoder.Some?
  {
    if s.encoder.Some? {
      OverheadKeepsShape(s.encoder.value, CurrentOverhead(s));
    }
  }

  lemma CodecReconfiguredIsSteady(t: Settings, s: Stream, c: Config)
    requires Steady(s) && CodecChangeAllowed(t, s, c)
    ensures var s' := CodecReconfigured(t, s, c);
            && Steady(s')
            && s'.config == s.config && s'.cached == s.cached && s'.registered == s.registered
            && s'.sending == s.sending && s'.frameLengths == s.frameLengths
            && s'.overheadPerPacket == s.overheadPerPacket && CurrentOverhead(s') == CurrentOverhead(s)
  {
    match ChangeOf(s.config, c)
    case Unchanged =>
    case SetUp =>
      var codec := CodecFor(t, c.spec.value);
      if codec.Some? {
        BuildProperties(codec.value, c.spec.value, c.ana, CurrentOverhead(s));
      }
    case StepByStep =>
      if s.encoder.Some? {
        ChangedKeepsProperties(s.encoder.value, s.config.spec.value, s.config.ana, c.spec.value, c.ana,
          CurrentOverhead(s));
      }
  }

  lemma EncoderStageIsSteady(t: Settings, s: Stream, c: Config, rtpOverhead: nat, lengths: Option<FrameLengths>)
    requires Invariant(t, s) && CodecChangeAllowed(t, s, c)
    requires OverheadUpdateAllowed(t, CodecStage(t, s, c, rtpOverhead))
    ensures var s' := EncoderStage(t, s, c, rtpOverhead, lengths);
            && Steady(s')
            && s'.config == s.config && s'.registered == s.registered && s'.sending == s.sending
            && (s.cached.Some? ==> s'.cached.Some?)
            && s'.frameLengths == (if s'.encoder.Some? then lengths else s.frameLengths)
            && s'.overheadPerPacket == s.transportOverhead + rtpOverhead
  {
    CodecChangeIgnoresOverhead(t, s, c, rtpOverhead);
    hide CodecChangeAllowed, OverheadUpdateAllowed, CodecReconfigured, OverheadUpdated, LimitsOf;
    CodecReconfiguredIsSteady(t, s.(rtpOverhead := rtpOverhead), c);
    var s1 := CodecStage(t, s, c, rtpOverhead);
    OverheadUpdatedIsSteady(t, s1);
    var s2 := OverheadUpdated(t, s1).(frameLengths := lengths);
    LimitsAreOrdered(t, s2);
  }

  lemma ObserverStageIsSteady(t: Settings, ready: Stream, c: Config)
    requires Steady(ready) && (ready.registered ==> ready.cached.Some?)
    requires ready.sending ==> ObserverChangeAllowed(t, ready, c)
    ensures var s' := (if ready.sending then ObserverReconfigured(t, ready, c) else ready).(config := c);
            Steady(s') && (s'.registered ==> s'.cached.Some? || LimitsOf(t, s').Some?)
  {
    var s' := (if ready.sending then ObserverReconfigured(t, ready, c) else ready).(config := c);
    if ready.sending && !SameForObserver(ready.config, c) && s'.registered {
      assert LimitsOf(t, s') == LimitsOf(t, WithBitratesOf(ready, c));
    }
  }

  lemma ConfiguredHolds(t: Settings, s: Stream, c: Config, rtpOverhead: nat, lengths: Option<FrameLengths>)
    requires Invariant(t, s) && ConfigureAllowed(t, s, c, rtpOverhead, lengths)
    ensures Invariant(t, Configured(t, s, c, false, rtpOverhead, lengths))
  {
    assert s.registered ==> s.cached.Some?;
    hide Invariant, Steady, EncoderStage, CodecChangeAllowed, OverheadUpdateAllowed, ObserverChangeAllowed,
         ObserverReconfigured, LimitsOf, Refreshed;
    EncoderStageIsSteady(t, s, c, rtpOverhead, lengths);
    var ready := EncoderStage(t, s, c, rtpOverhead, lengths);
    ObserverStageIsSteady(t, ready, c);
    RefreshedHolds(t, (if s.sending then ObserverReconfigured(t, ready, c) else ready).(config := c));
  }

  lemma StartHolds(t: Settings, s: Stream)
    requires Invariant(t, s) && (!s.sending && RegistersAtStart(t, s.config) ==> LimitsOf(t, s).Some?)
    ensures Invariant(t, Started(t, s))
  {
    assert LimitsOf(t, Started(t, s)) == LimitsOf(t, s);
    hide LimitsOf;
  }

  lemma StopHolds(t: Settings, s: Stream)
    requires Invariant(t, s)
    ensures Invariant(t, Stopped(s))
  {
    assert LimitsOf(t, Stopped(s)) == LimitsOf(t, s);
    hide LimitsOf;
  }

  lemma OverheadCallHolds(t: Settings, s: Stream, s1: Stream)
    requires Invariant(t, s) && OverheadUpdateAllowed(t, s1)
    requires s1 == s.(transportOverhead := s1.transportOverhead, rtpOverhead := s1.rtpOverhead)
    ensures Invariant(t, Refreshed(t, OverheadUpdated(t, s1)))
  {
    OverheadUpdatedIsSteady(t, s1);
    RefreshedHolds(t, OverheadUpdated(t, s1));
  }

  lemma BitrateUpdateHolds(t: Settings, s: Stream, target: int, stableTarget: int)
    requires Invariant(t, s) && s.cached.Some?
    ensures Invariant(t, BitrateUpdated(s, target, stableTarget))
  {
    if s.encoder.Some? {
      CallsKeepProperties(s.encoder.value, Clamped(target, s.cached.value.min, s.cached.value.max), "");
    }
    assert LimitsOf(t, BitrateUpdated(s, target, stableTarget)) == LimitsOf(t, s);
    hide LimitsOf;
  }

  /** The public calls keep the invariant. */
  lemma StepHolds(t: Settings, s: Stream, call: Call)
    requires Invariant(t, s) && Allowed(t, s, call)
    ensures Invariant(t, Step(t, s, call))
  {
    assert s.allocation.Some? ==> s.cached.Some?;
    hide Invariant, Started, Stopped, Configured, ConfigureAllowed, OverheadUpdated, OverheadUpdateAllowed, Refreshed,
         BitrateUpdated;
    match call
    case Start => StartHolds(t, s);
    case Stop => StopHolds(t, s);
    case Reconfigure(c, rtpOverhead, lengths) => ConfiguredHolds(t, s, c, rtpOverhead, lengths);
    case SetTransportOverhead(bytes) => OverheadCallHolds(t, s, s.(transportOverhead := bytes));
    case DeliverRtcp(rtpOverhead) => OverheadCallHolds(t, s, s.(rtpOverhead := rtpOverhead));
    case OnBitrateUpdated(target, stableTarget) => BitrateUpdateHolds(t, s, target, stableTarget);
  }

  /** Construction is configuring a stream that nobody knows yet. */
  lemma ConstructedByConfiguring(t: Settings, c: Config, rtpOverhead: nat, lengths: Option<FrameLengths>)
    requires ConfigureAllowed(t, INITIAL, c, rtpOverhead, lengths)
    ensures Constructed(t, c, rtpOverhead, lengths) == Configured(t, INITIAL, c, false, rtpOverhead, lengths)
  {
    hide EncoderStage, ConfigureAllowed, ObserverReconfigured, Refreshed;
  }

  lemma ConstructedHolds(t: Settings, c: Config, rtpOverhead: nat, lengths: Option<FrameLengths>)
    requires ConfigureAllowed(t, INITIAL, c, rtpOverhead, lengths)
    ensures Invariant(t, Constructed(t, c, rtpOverhead, lengths))
    ensures var s := Constructed(t, c, rtpOverhead, lengths); !s.sending && s.entry == None && s.allocation == None
  {
    ConfiguredHolds(t, INITIAL, c, rtpOverhead, lengths);
    EncoderStageIsSteady(t, INITIAL, c, rtpOverhead, lengths);
  }

  // Runs.

  predicate AllowedRun(t: Settings, s: Stream, calls: seq<Call>)
    requires Invariant(t, s)
    decreases calls
  {
    calls == [] ||
    (Allowed(t, s, calls[0]) && (StepHolds(t, s, calls[0]); AllowedRun(t, Step(t, s, calls[0]), calls[1..])))
  }

  /** The state after any sequence of public calls: the invariant holds there. */
  function Run(t: Settings, s: Stream, calls: seq<Call>): (s': Stream)
    requires Invariant(t, s) && AllowedRun(t, s, calls)
    ensures Invariant(t, s')
    decreases calls
  {
    if calls == [] then s
    else
      StepHolds(t, s, calls[0]);
      Run(t, Step(t, s, calls[0]), calls[1..])
  }
}
