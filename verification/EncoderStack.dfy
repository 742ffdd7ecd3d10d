/**
 The live encoder of a send stream and the two ways it comes about: built from a configuration in
 one go (AudioSendStream::SetupSendCodec) or changed step by step (ReconfigureSendCodec,
 ReconfigureANA and ReconfigureCNG, audio/audio_send_stream.cc).

 An encoder is a speech encoder under layers. A comfort-noise layer passes neither the packet
 overhead nor the network-adaptor calls on (it inherits the empty defaults of AudioEncoder); a
 redundancy layer passes everything on.
 */
module EncoderStack {
  import opened Wrappers

  datatype Format = Format(name: string, clockrateHz: int, numChannels: nat, parameters: map<string, string>)

  /** What a factory makes: the properties of a speech encoder. `adaptorConfigs` are the network
      adaptor configurations it can use. */
  datatype Codec = Codec(sampleRateHz: int, numChannels: nat, adaptorConfigs: set<string>)

  /** An encoder factory, by payload type and format; it makes nothing for what is missing. */
  type Factory = map<(int, Format), Codec>

  datatype CodecSpec = CodecSpec(
    payloadType: int,
    format: Format,
    nackEnabled: bool,
    transportCcEnabled: bool,
    enableNonSenderRtt: bool,
    cngPayloadType: Option<int>,
    redPayloadType: Option<int>,
    targetBitrateBps: Option<int>)

  /** An active network adaptor and the overhead it has been told since it exists. */
  datatype Adaptor = Adaptor(config: string, overhead: nat)

  datatype Layer = Noise(payloadType: int) | Redundancy(payloadType: int)

  datatype Encoder =
    | Speech(codec: Codec, payloadType: int, format: Format,
             adaptor: Option<Adaptor>, targetBitrateBps: Option<int>, overhead: nat)
    | ComfortNoise(cngPayloadType: int, inner: Encoder)
    | Redundant(redPayloadType: int, inner: Encoder)
  {
    function SampleRateHz(): int {
      match this
      case Speech(codec, _, _, _, _, _) => codec.sampleRateHz
      case ComfortNoise(_, inner) => inner.SampleRateHz()
      case Redundant(_, inner) => inner.SampleRateHz()
    }

    function NumChannels(): nat {
      match this
      case Speech(codec, _, _, _, _, _) => codec.numChannels
      case ComfortNoise(_, _) => 1
      case Redundant(_, inner) => inner.NumChannels()
    }

    function OnReceivedTargetBitrate(bps: int): Encoder {
      match this
      case Speech(_, _, _, _, _, _) => this.(targetBitrateBps := Some(bps))
      case ComfortNoise(p, inner) => ComfortNoise(p, inner.OnReceivedTargetBitrate(bps))
      case Redundant(p, inner) => Redundant(p, inner.OnReceivedTargetBitrate(bps))
    }

    function OnReceivedOverhead(bytes: nat): Encoder {
      match this
      case Speech(_, _, _, adaptor, _, _) =>
        this.(overhead := bytes,
              adaptor := if adaptor.Some? then Some(adaptor.value.(overhead := bytes)) else None)
      case ComfortNoise(_, _) => this
      case Redundant(p, inner) => Redundant(p, inner.OnReceivedOverhead(bytes))
    }

    /** Whether EnableAudioNetworkAdaptor succeeds. */
    predicate CanAdapt(config: string) {
      match this
      case Speech(codec, _, _, _, _, _) => config in codec.adaptorConfigs
      case ComfortNoise(_, _) => false
      case Redundant(_, inner) => inner.CanAdapt(config)
    }

    /** A speech encoder replaces its adaptor, by none if it cannot make the new one. */
    function EnableAdaptor(config: string): Encoder {
      match this
      case Speech(codec, _, _, _, _, _) =>
        this.(adaptor := if config in codec.adaptorConfigs then Some(Adaptor(config, 0)) else None)
      case ComfortNoise(_, _) => this
      case Redundant(p, inner) => Redundant(p, inner.EnableAdaptor(config))
    }

    function DisableAdaptor(): Encoder {
      match this
      case Speech(_, _, _, _, _, _) => this.(adaptor := None)
      case ComfortNoise(_, _) => this
      case Redundant(p, inner) => Redundant(p, inner.DisableAdaptor())
    }

    /** ReclaimContainedEncoders: what remains when the outermost layer is taken off. */
    function WithoutOuterLayer(): Encoder {
      match this
      case Speech(_, _, _, _, _, _) => this
      case ComfortNoise(_, inner) => inner
      case Redundant(_, inner) => inner
    }

    predicate HasComfortNoise() {
      match this
      case Speech(_, _, _, _, _, _) => false
      case ComfortNoise(_, _) => true
      case Redundant(_, inner) => inner.HasComfortNoise()
    }

    /** Comfort noise is only put over mono encoders. */
    predicate ComfortNoiseIsMono() {
      match this
      case Speech(_, _, _, _, _, _) => true
      case ComfortNoise(_, inner) => inner.NumChannels() == 1 && inner.ComfortNoiseIsMono()
      case Redundant(_, inner) => inner.ComfortNoiseIsMono()
    }

    /** The speech encoder, and its adaptor if it has one, were last told this overhead. */
    predicate Heard(bytes: nat) {
      match this
      case Speech(_, _, _, adaptor, _, overhead) =>
        overhead == bytes && (adaptor.Some? ==> adaptor.value.overhead == bytes)
      case ComfortNoise(_, inner) => inner.Heard(bytes)
      case Redundant(_, inner) => inner.Heard(bytes)
    }

    /** The layers, outermost first ... */
    function Layers(): seq<Layer> {
      match this
      case Speech(_, _, _, _, _, _) => []
      case ComfortNoise(p, inner) => [Noise(p)] + inner.Layers()
      case Redundant(p, inner) => [Redundancy(p)] + inner.Layers()
    }

    /** ... and the speech encoder under them. */
    function Core(): (e: Encoder)
      ensures e.Speech?
    {
      match this
      case Speech(_, _, _, _, _, _) => this
      case ComfortNoise(_, inner) => inner.Core()
      case Redundant(_, inner) => inner.Core()
    }

    /** Format, payload types, layers and active adaptor, without what the encoder was told. */
    function Shape(): Encoder {
      match this
      case Speech(_, _, _, adaptor, _, _) =>
        this.(adaptor := if adaptor.Some? then Some(Adaptor(adaptor.value.config, 0)) else None,
              targetBitrateBps := None, overhead := 0)
      case ComfortNoise(p, inner) => ComfortNoise(p, inner.Shape())
      case Redundant(p, inner) => Redundant(p, inner.Shape())
    }
  }

  // Building.

  function BareEncoder(codec: Codec, spec: CodecSpec): Encoder {
    Speech(codec, spec.payloadType, spec.format, None, None, 0)
  }

  /** The layers a spec asks for around a speech encoder. */
  function Layered(speech: Encoder, spec: CodecSpec): Encoder {
    var quiet := if spec.cngPayloadType.Some? then ComfortNoise(spec.cngPayloadType.value, speech) else speech;
    if spec.redPayloadType.Some? then Redundant(spec.redPayloadType.value, quiet) else quiet
  }

  /** The speech encoder SetupSendCodec prepares before it adds layers. */
  function Prepared(codec: Codec, spec: CodecSpec, ana: Option<string>): Encoder {
    var bare := BareEncoder(codec, spec);
    var targeted := if spec.targetBitrateBps.Some? then bare.OnReceivedTargetBitrate(spec.targetBitrateBps.value)
      else bare;
    if ana.Some? then targeted.EnableAdaptor(ana.value) else targeted
  }

  /** SetupSendCodec, given what the factory made. */
  function Build(codec: Codec, spec: CodecSpec, ana: Option<string>, overhead: nat): Encoder {
    var e := Layered(Prepared(codec, spec, ana), spec);
    if overhead > 0 then e.OnReceivedOverhead(overhead) else e
  }

  /** The adaptor configuration a codec really uses when `ana` is asked for. */
  function ActiveAdaptor(codec: Codec, ana: Option<string>): Option<string> {
    if ana.Some? && ana.value in codec.adaptorConfigs then ana else None
  }

  /** What a configuration asks for, layer by layer. */
  function Wanted(codec: Codec, spec: CodecSpec, ana: Option<string>): Encoder {
    var active := ActiveAdaptor(codec, ana);
    var speech := BareEncoder(codec, spec).(adaptor := if active.Some? then Some(Adaptor(active.value, 0)) else None);
    Layered(speech, spec)
  }

  /** What layers do to the properties of the speech encoder under them. */
  lemma LayeredProperties(e: Encoder, spec: CodecSpec)
    requires e.Speech?
    ensures Layered(e, spec).Shape() == Layered(e.Shape(), spec)
    ensures Layered(e, spec).HasComfortNoise() == spec.cngPayloadType.Some?
    ensures forall o :: Layered(e, spec).Heard(o) == e.Heard(o)
    ensures Layered(e, spec).SampleRateHz() == e.SampleRateHz()
    ensures (spec.cngPayloadType.Some? ==> e.NumChannels() == 1) ==>
              Layered(e, spec).NumChannels() == e.NumChannels() && Layered(e, spec).ComfortNoiseIsMono()
  {
    var quiet := if spec.cngPayloadType.Some? then ComfortNoise(spec.cngPayloadType.value, e) else e;
    assert quiet.Shape() == if spec.cngPayloadType.Some? then ComfortNoise(spec.cngPayloadType.value, e.Shape())
           else e.Shape();
    assert quiet.HasComfortNoise() == spec.cngPayloadType.Some?;
    assert forall o :: quiet.Heard(o) == e.Heard(o);
    assert quiet.SampleRateHz() == e.SampleRateHz();
  }

  lemma BuildIsWanted(codec: Codec, spec: CodecSpec, ana: Option<string>, overhead: nat)
    ensures Build(codec, spec, ana, overhead).Shape() == Wanted(codec, spec, ana)
  {
    LayeredProperties(Prepared(codec, spec, ana), spec);
    OverheadKeepsShape(Layered(Prepared(codec, spec, ana), spec), overhead);
  }

  // Changing step by step.

  predicate NeedsNewEncoder(old_: CodecSpec, new_: CodecSpec) {
    new_.format != old_.format || new_.payloadType != old_.payloadType || new_.redPayloadType != old_.redPayloadType
  }

  function WithTarget(e: Encoder, old_: Option<int>, new_: Option<int>): Encoder {
    if new_.Some? && new_ != old_ then e.OnReceivedTargetBitrate(new_.value) else e
  }

  /** ReconfigureANA. */
  function WithAdaptor(e: Encoder, old_: Option<string>, new_: Option<string>, overhead: nat): Encoder {
    if new_ == old_ then e
    else if new_.None? then e.DisableAdaptor()
    else if e.CanAdapt(new_.value) && overhead > 0 then e.EnableAdaptor(new_.value).OnReceivedOverhead(overhead)
    else e.EnableAdaptor(new_.value)
  }

  /** ReconfigureCNG: whatever the outermost layer is, it is taken off first. */
  function WithComfortNoise(e: Encoder, old_: Option<int>, new_: Option<int>): Encoder {
    if new_ == old_ then e
    else if new_.Some? then ComfortNoise(new_.value, e.WithoutOuterLayer())
    else e.WithoutOuterLayer()
  }

  /** The step-by-step branch of ReconfigureSendCodec. */
  function Changed(e: Encoder, spec0: CodecSpec, ana0: Option<string>, spec1: CodecSpec, ana1: Option<string>,
                   overhead: nat): Encoder {
    var targeted := WithTarget(e, spec0.targetBitrateBps, spec1.targetBitrateBps);
    var adapted := WithAdaptor(targeted, ana0, ana1, overhead);
    WithComfortNoise(adapted, spec0.cngPayloadType, spec1.cngPayloadType)
  }

  /** The changes that the step-by-step branch gets wrong: an adaptor that should really change
      while comfort noise is on, and comfort noise that changes under redundancy. */
  predicate Misapplied(codec: Codec, spec0: CodecSpec, ana0: Option<string>, spec1: CodecSpec, ana1: Option<string>) {
    || (spec0.cngPayloadType.Some? && ActiveAdaptor(codec, ana0) != ActiveAdaptor(codec, ana1))
    || (spec0.redPayloadType.Some? && spec0.cngPayloadType != spec1.cngPayloadType)
  }

  lemma TargetKeepsShape(e: Encoder, old_: Option<int>, new_: Option<int>)
    ensures WithTarget(e, old_, new_).Shape() == e.Shape()
    ensures WithTarget(e, old_, new_).HasComfortNoise() == e.HasComfortNoise()
    ensures forall o :: WithTarget(e, old_, new_).Heard(o) == e.Heard(o)
    ensures forall c :: WithTarget(e, old_, new_).CanAdapt(c) == e.CanAdapt(c)
  {
    match e
    case Speech(_, _, _, _, _, _) =>
    case ComfortNoise(_, inner) => TargetKeepsShape(inner, old_, new_);
    case Redundant(_, inner) => TargetKeepsShape(inner, old_, new_);
  }

  lemma OverheadKeepsShape(e: Encoder, o: nat)
    ensures e.OnReceivedOverhead(o).Shape() == e.Shape()
    ensures e.OnReceivedOverhead(o).HasComfortNoise() == e.HasComfortNoise()
    ensures e.OnReceivedOverhead(o).SampleRateHz() == e.SampleRateHz()
    ensures e.OnReceivedOverhead(o).NumChannels() == e.NumChannels()
    ensures e.OnReceivedOverhead(o).ComfortNoiseIsMono() == e.ComfortNoiseIsMono()
    ensures if e.HasComfortNoise() then e.OnReceivedOverhead(o) == e else e.OnReceivedOverhead(o).Heard(o)
  {
    if e.Redundant? {
      OverheadKeepsShape(e.inner, o);
    }
  }

  /**
   Starting from what one configuration asks for, the step-by-step change to another with the same
   format, payload type and redundancy gives what that one asks for exactly when the change is not
   one of the misapplied ones.
   */
  lemma ChangedIsWanted(codec: Codec, e: Encoder, spec0: CodecSpec, ana0: Option<string>,
                        spec1: CodecSpec, ana1: Option<string>, overhead: nat)
    requires e.Shape() == Wanted(codec, spec0, ana0) && !NeedsNewEncoder(spec0, spec1)
    ensures Changed(e, spec0, ana0, spec1, ana1, overhead).Shape() == Wanted(codec, spec1, ana1)
        <==> !Misapplied(codec, spec0, ana0, spec1, ana1)
  {
    var targeted := WithTarget(e, spec0.targetBitrateBps, spec1.targetBitrateBps);
    TargetKeepsShape(e, spec0.targetBitrateBps, spec1.targetBitrateBps);
    AdaptorShape(codec, targeted, spec0, ana0, ana1, overhead);
    var adapted := WithAdaptor(targeted, ana0, ana1, overhead);
    ComfortNoiseShape(adapted, spec0.cngPayloadType, spec1.cngPayloadType);
  }

  lemma AdaptorShape(codec: Codec, e: Encoder, spec: CodecSpec, ana0: Option<string>, ana1: Option<string>,
                     overhead: nat)
    requires e.Shape() == Wanted(codec, spec, ana0)
    ensures WithAdaptor(e, ana0, ana1, overhead).Shape()
         == Wanted(codec, spec, if spec.cngPayloadType.Some? then ana0 else ana1)
  {
    var inner := if spec.redPayloadType.Some? then e.inner else e;
    var wanted := Wanted(codec, spec, ana0);
    assert inner.Shape() == if spec.redPayloadType.Some? then wanted.inner else wanted;
    if spec.redPayloadType.Some? {
      assert e.Redundant?;
      assert WithAdaptor(e, ana0, ana1, overhead) == Redundant(e.redPayloadType, WithAdaptor(inner, ana0, ana1,
             overhead));
    }
    assert inner.ComfortNoise? ==> WithAdaptor(inner, ana0, ana1, overhead) == inner;
    assert inner.ComfortNoise? || inner.Speech?;
    if ana1 != ana0 && ana1.Some? {
      OverheadKeepsShape(inner.EnableAdaptor(ana1.value), overhead);
    }
  }

  lemma ComfortNoiseShape(e: Encoder, old_: Option<int>, new_: Option<int>)
    ensures WithComfortNoise(e, old_, new_).Shape() == WithComfortNoise(e.Shape(), old_, new_)
  {
  }

  // The same part by part: layers, and fields of the speech encoder.

  /** The layers a specification asks for. */
  function LayersFor(spec: CodecSpec): seq<Layer> {
    (if spec.redPayloadType.Some? then [Redundancy(spec.redPayloadType.value)] else [])
    + if spec.cngPayloadType.Some? then [Noise(spec.cngPayloadType.value)] else []
  }

  lemma {:induction false} PartsDetermine(a: Encoder, b: Encoder)
    requires a.Layers() == b.Layers() && a.Core() == b.Core()
    ensures a == b
  {
    if a.Speech? || b.Speech? {
      assert |a.Layers()| == |b.Layers()|;
    } else {
      assert a.Layers()[0] == b.Layers()[0];
      assert a.Layers()[1..] == a.inner.Layers() && b.Layers()[1..] == b.inner.Layers();
      PartsDetermine(a.inner, b.inner);
    }
  }

  lemma LayeredByPart(e: Encoder, spec: CodecSpec)
    requires e.Speech?
    ensures Layered(e, spec).Layers() == LayersFor(spec) && Layered(e, spec).Core() == e
  {
    var quiet := if spec.cngPayloadType.Some? then ComfortNoise(spec.cngPayloadType.value, e) else e;
    assert quiet.Core() == e && e.Layers() == [];
    assert quiet.Layers() == if spec.cngPayloadType.Some? then [Noise(spec.cngPayloadType.value)] else [];
  }

  lemma {:induction false} OverheadByPart(e: Encoder, o: nat)
    ensures e.OnReceivedOverhead(o).Layers() == e.Layers()
    ensures e.OnReceivedOverhead(o).Core() == if e.HasComfortNoise() then e.Core() else e.Core().OnReceivedOverhead(o)
  {
    if !e.Redundant? {
    } else {
      OverheadByPart(e.inner, o);
    }
  }

  /** What SetupSendCodec makes: the speech encoder has the codec the factory made, the payload type, the
      format and the target of the specification, the adaptor if it is asked for and supported, and the
      overhead unless comfort noise is in the way. */
  lemma BuildByPart(codec: Codec, spec: CodecSpec, ana: Option<string>, overhead: nat)
    ensures var e := Build(codec, spec, ana, overhead);
            var told := if spec.cngPayloadType.Some? then 0 else overhead;
            var adapts := ana.Some? && ana.value in codec.adaptorConfigs;
            && e.Layers() == LayersFor(spec)
            && e.Core() == Speech(codec, spec.payloadType, spec.format,
                                  if adapts then Some(Adaptor(ana.value, told)) else None, spec.targetBitrateBps, told)
  {
    var prepared := Prepared(codec, spec, ana);
    LayeredByPart(prepared, spec);
    LayeredProperties(prepared, spec);
    OverheadByPart(Layered(prepared, spec), overhead);
  }

  lemma WantedByPart(codec: Codec, spec: CodecSpec, ana: Option<string>)
    ensures var e := Wanted(codec, spec, ana);
            var adapts := ana.Some? && ana.value in codec.adaptorConfigs;
            && e.Layers() == LayersFor(spec)
            && e.Core() == Speech(codec, spec.payloadType, spec.format,
                                  if adapts then Some(Adaptor(ana.value, 0)) else None, None, 0)
  {
    var active := ActiveAdaptor(codec, ana);
    var adaptor := if active.Some? then Some(Adaptor(active.value, 0)) else None;
    var bare := BareEncoder(codec, spec);
    assert bare.Speech?;
    LayeredByPart(bare.(adaptor := adaptor), spec);
  }

  lemma {:induction false} ShapeByPart(e: Encoder)
    ensures e.Shape().Layers() == e.Layers() && e.Shape().Core() == e.Core().Shape()
  {
    if e.Speech? {
    } else {
      ShapeByPart(e.inner);
    }
  }

  /** What a step-by-step change does. */
  lemma ChangedByPart(e: Encoder, spec0: CodecSpec, ana0: Option<string>, spec1: CodecSpec, ana1: Option<string>,
                      overhead: nat)
    ensures var e' := Changed(e, spec0, ana0, spec1, ana1, overhead);
            var core, core' := e.Core(), e'.Core();
            && e'.Layers() == (if spec1.cngPayloadType == spec0.cngPayloadType then e.Layers()
                               else (if spec1.cngPayloadType.Some? then [Noise(spec1.cngPayloadType.value)] else [])
                                    + if e.Layers() == [] then [] else e.Layers()[1..])
            && core'.codec == core.codec && core'.payloadType == core.payloadType && core'.format == core.format
            && core'.targetBitrateBps == (if spec1.targetBitrateBps.Some?
                                             && spec1.targetBitrateBps != spec0.targetBitrateBps
                                          then spec1.targetBitrateBps else core.targetBitrateBps)
            && (ana1 == ana0 || e.HasComfortNoise() ==> core'.adaptor == core.adaptor)
            && (ana1 != ana0 && !e.HasComfortNoise() ==>
                  (core'.adaptor.Some? <==> ana1.Some? && ana1.value in core.codec.adaptorConfigs)
                  && (core'.adaptor.Some? ==> core'.adaptor.value.config == ana1.value))
  {
    TargetByPart(e, spec0.targetBitrateBps, spec1.targetBitrateBps);
    var targeted := WithTarget(e, spec0.targetBitrateBps, spec1.targetBitrateBps);
    AdaptorByPart(targeted, ana0, ana1, overhead);
    hide WithTarget, WithAdaptor;
  }

  lemma {:induction false} TargetByPart(e: Encoder, old_: Option<int>, new_: Option<int>)
    ensures var e' := WithTarget(e, old_, new_);
            && e'.Layers() == e.Layers() && e'.HasComfortNoise() == e.HasComfortNoise()
            && e'.Core() == e.Core().(targetBitrateBps := if new_.Some? && new_ != old_ then new_
                                                          else e.Core().targetBitrateBps)
  {
    if e.Speech? {
    } else {
      TargetByPart(e.inner, old_, new_);
    }
  }

  lemma {:induction false} EnablingByPart(e: Encoder, config: string)
    ensures e.EnableAdaptor(config).Layers() == e.DisableAdaptor().Layers() == e.Layers()
    ensures e.EnableAdaptor(config).HasComfortNoise() == e.HasComfortNoise()
    ensures e.HasComfortNoise() ==> e.EnableAdaptor(config) == e && e.DisableAdaptor() == e && !e.CanAdapt(config)
    ensures !e.HasComfortNoise() ==>
              && e.Core().Speech? && e.DisableAdaptor().Core() == e.Core().(adaptor := None)
              && e.CanAdapt(config) == (config in e.Core().codec.adaptorConfigs)
              && e.EnableAdaptor(config).Core()
                 == e.Core().(adaptor := if e.CanAdapt(config) then Some(Adaptor(config, 0)) else None)
  {
    if !e.Redundant? {
    } else {
      EnablingByPart(e.inner, config);
    }
  }

  lemma AdaptorByPart(e: Encoder, ana0: Option<string>, ana1: Option<string>, overhead: nat)
    ensures var e' := WithAdaptor(e, ana0, ana1, overhead);
            var core, core' := e.Core(), e'.Core();
            && e'.Layers() == e.Layers()
            && core'.codec == core.codec && core'.payloadType == core.payloadType && core'.format == core.format
            && core'.targetBitrateBps == core.targetBitrateBps
            && (ana1 == ana0 || e.HasComfortNoise() ==> core'.adaptor == core.adaptor)
            && (ana1 != ana0 && !e.HasComfortNoise() ==>
                  (core'.adaptor.Some? <==> ana1.Some? && ana1.value in core.codec.adaptorConfigs)
                  && (core'.adaptor.Some? ==> core'.adaptor.value.config == ana1.value))
  {
    var config := if ana1.Some? then ana1.value else "";
    EnablingByPart(e, config);
    OverheadByPart(e.EnableAdaptor(config), overhead);
  }

  // Overhead.

  /** Whether a newly enabled adaptor makes a step-by-step change tell the encoder the overhead. */
  predicate TellsThroughAdaptor(e: Encoder, ana0: Option<string>, ana1: Option<string>, overhead: nat) {
    ana1 != ana0 && ana1.Some? && e.CanAdapt(ana1.value) && overhead > 0
  }

  lemma {:induction false} AdaptableIsAudible(e: Encoder, config: string)
    ensures e.CanAdapt(config) ==> !e.HasComfortNoise()
    ensures e.EnableAdaptor(config).HasComfortNoise() == e.HasComfortNoise()
    ensures e.DisableAdaptor().HasComfortNoise() == e.HasComfortNoise()
    ensures e.HasComfortNoise() ==> e.EnableAdaptor(config) == e && e.DisableAdaptor() == e
    ensures forall o :: e.Heard(o) ==> e.DisableAdaptor().Heard(o)
    ensures forall o :: e.Heard(o) && (!e.CanAdapt(config) || o == 0) ==> e.EnableAdaptor(config).Heard(o)
  {
    if !e.Redundant? {
    } else {
      AdaptableIsAudible(e.inner, config);
    }
  }

  lemma {:induction false} HeardIsUnique(e: Encoder, o1: nat, o2: nat)
    requires e.Heard(o1) && e.Heard(o2)
    ensures o1 == o2
  {
    if e.Speech? {
    } else {
      HeardIsUnique(e.inner, o1, o2);
    }
  }

  /** What a step-by-step change leaves heard, when `told` was heard before. */
  lemma ChangedHears(e: Encoder, spec0: CodecSpec, ana0: Option<string>, spec1: CodecSpec, ana1: Option<string>,
                     overhead: nat, told: nat)
    requires e.Heard(told)
    ensures var e' := Changed(e, spec0, ana0, spec1, ana1, overhead);
            && (TellsThroughAdaptor(e, ana0, ana1, overhead) ==> e'.Heard(overhead))
            && (!TellsThroughAdaptor(e, ana0, ana1, overhead) && (overhead == 0 ==> told == 0) ==> e'.Heard(told))
  {
    var targeted := WithTarget(e, spec0.targetBitrateBps, spec1.targetBitrateBps);
    TargetKeepsShape(e, spec0.targetBitrateBps, spec1.targetBitrateBps);
    if ana1 != ana0 {
      AdaptableIsAudible(targeted, if ana1.Some? then ana1.value else "");
      if ana1.Some? {
        OverheadKeepsShape(targeted.EnableAdaptor(ana1.value), overhead);
      }
    }
  }

  lemma BuildHears(codec: Codec, spec: CodecSpec, ana: Option<string>, overhead: nat)
    ensures Build(codec, spec, ana, overhead).Heard(overhead) <==> spec.cngPayloadType.None? || overhead == 0
    ensures Build(codec, spec, ana, overhead).HasComfortNoise() <==> spec.cngPayloadType.Some?
  {
    var prepared := Prepared(codec, spec, ana);
    LayeredProperties(prepared, spec);
    OverheadKeepsShape(Layered(prepared, spec), overhead);
    assert prepared.Heard(0);
    if Layered(prepared, spec).Heard(overhead) {
      HeardIsUnique(prepared, 0, overhead);
    }
  }

  // Sample rate and channels.

  lemma BuildProperties(codec: Codec, spec: CodecSpec, ana: Option<string>, overhead: nat)
    requires spec.cngPayloadType.Some? ==> codec.numChannels == 1
    ensures var e := Build(codec, spec, ana, overhead);
            e.ComfortNoiseIsMono() && e.SampleRateHz() == codec.sampleRateHz && e.NumChannels() == codec.numChannels
  {
    LayeredProperties(Prepared(codec, spec, ana), spec);
    OverheadKeepsShape(Layered(Prepared(codec, spec, ana), spec), overhead);
  }

  lemma {:induction false} CallsKeepProperties(e: Encoder, bps: int, config: string)
    ensures SameProperties(e, e.OnReceivedTargetBitrate(bps))
    ensures SameProperties(e, e.EnableAdaptor(config)) && SameProperties(e, e.DisableAdaptor())
  {
    if e.Speech? {
    } else {
      CallsKeepProperties(e.inner, bps, config);
    }
  }

  predicate SameProperties(a: Encoder, b: Encoder) {
    a.SampleRateHz() == b.SampleRateHz() && a.NumChannels() == b.NumChannels()
    && a.ComfortNoiseIsMono() == b.ComfortNoiseIsMono()
  }

  /** A comfort-noise layer can be put on: what lies under the outermost layer is mono. */
  predicate AcceptsComfortNoise(e: Encoder) {
    e.WithoutOuterLayer().NumChannels() == 1
  }

  /** Step-by-step changes keep the sample rate and the number of channels, although comfort noise
      comes and goes, because it is only used over mono encoders. */
  lemma ChangedKeepsProperties(e: Encoder, spec0: CodecSpec, ana0: Option<string>, spec1: CodecSpec,
                               ana1: Option<string>,
                               overhead: nat)
    requires e.ComfortNoiseIsMono()
    requires spec1.cngPayloadType.Some? && spec1.cngPayloadType != spec0.cngPayloadType ==> AcceptsComfortNoise(e)
    ensures SameProperties(e, Changed(e, spec0, ana0, spec1, ana1, overhead))
  {
    var bps := if spec1.targetBitrateBps.Some? then spec1.targetBitrateBps.value else 0;
    var targeted := WithTarget(e, spec0.targetBitrateBps, spec1.targetBitrateBps);
    CallsKeepProperties(e, bps, "");
    var config := if ana1.Some? then ana1.value else "";
    CallsKeepProperties(targeted, bps, config);
    OverheadKeepsShape(targeted.EnableAdaptor(config), overhead);
    var adapted := WithAdaptor(targeted, ana0, ana1, overhead);
    if !e.Speech? {
      InnerProperties(e, bps, config, overhead, adapted, spec0, spec1, ana0, ana1);
    }
  }

  lemma InnerProperties(e: Encoder, bps: int, config: string, overhead: nat, adapted: Encoder,
                        spec0: CodecSpec, spec1: CodecSpec, ana0: Option<string>, ana1: Option<string>)
    requires !e.Speech?
    requires bps == if spec1.targetBitrateBps.Some? then spec1.targetBitrateBps.value else 0
    requires config == if ana1.Some? then ana1.value else ""
    requires adapted == WithAdaptor(WithTarget(e, spec0.targetBitrateBps, spec1.targetBitrateBps), ana0, ana1, overhead)
    ensures !adapted.Speech? && SameProperties(e.inner, adapted.inner)
  {
    var targeted := WithTarget(e.inner, spec0.targetBitrateBps, spec1.targetBitrateBps);
    CallsKeepProperties(e.inner, bps, config);
    CallsKeepProperties(targeted, bps, config);
    OverheadKeepsShape(targeted.EnableAdaptor(config), overhead);
  }
}
