# WebRTC audio send path and API core: a verified model

This project models parts of WebRTC in which much state or careful arithmetic meets promises over whole runs, and proves
those promises.

- **The audio send path.** `EncoderStack` is the live encoder with its comfort-noise and redundancy layers, built in one
  go or changed step by step. `SendStreamModel` is one audio send stream as a state machine, with everything it tells its
  encoder, the bitrate allocator, the RTP module and the audio state, and the invariant that every public call keeps.
  `SendStreamProperties` says exactly what single calls do beyond it, `SendStreamRuns` what that means over whole runs
  and what puts things right again, and `SendStreamLaws` what limits, allocator's record, encoder and every public call
  come to, field by field and in terms of the inputs. `SendStreamWitnesses` has concrete streams for which the code does
  not do what one would expect. `AudioSendStream` is the stream as an object with mutable fields whose methods are proved
  to follow that state machine; `AudioState` and `AudioTransport` are the objects it shares with other streams. `SendPath`
  puts any number of streams together; its class stands for the program that creates and calls them.
- **Reference counting** (`RefCounting`): handles over intrusively counted objects, and conservation of references.
- **The peak meter** (`AudioLevel`): in-place decay against a closed form over the whole history.
- **Header extensions** (`HeaderExtensions`): deduplication as a canonical form, and lookup before and after it.
- **Legacy statistics** (`LegacyStats`): a list that behaves as a map, with one owner for every report; its class `Program`
  stands for the program that uses collections.
- **ICE priorities** (`CandidatePriority`): packed bit fields against sections 4.1.2.1 and 7.1.2.1 of RFC 5245.
- **Field trials** (`FieldTrials`): the parser against a printer, and exactly what it refuses.
- **The event log file** (`EventLogOutput`): a capped writer over whole runs.

`Wrappers` has the option and result types.

## Conventions

- Code that updates fields in place is a class; each method's new state is tied to a function of the old one, and the
  properties are proved of runs of those functions. Checks that abort the program (RTC_CHECK, RTC_DCHECK) are
  preconditions, or error results where the check is on input.
- What comes from outside is a parameter: the overhead the RTP module expects after an operation, the frame lengths an
  encoder reports, whether a file takes a write, the samples that audio processing produces.
- Integers are unbounded except where a width matters: `size_t` in the event log, `uint32_t` in the priority, `int16_t` in
  the meter. Rates are `bytes * 8 * 1000000 / microseconds`, rounded down. Audio energy and duration are reals.
- A step is one public call; callbacks of the allocator come between public calls.

## Where the code is not what one would expect

Each of these is proved with the exact condition under which the code meets the expectation.

- A comfort-noise encoder passes neither the packet overhead nor the network-adaptor calls on to the encoder inside it,
  and `ReconfigureCNG` takes off whatever layer is outermost. So over a run the step-by-step encoder is the one a fresh
  setup would give exactly when no reconfiguration is of the kinds named by `LeavesStaleEncoder`
  (`SendStreamRuns.IncrementalEqualsFresh`), and the encoder knows the overhead exactly when every call is heard by
  `CallHeard` (`SendStreamRuns.OverheadHeardThroughout`); in runs without comfort noise it always does. Redundancy is
  covered as well.
- `ReconfigureCNG` uses the encoder without asking whether there is one. Some configuration makes it use a missing encoder
  exactly when a stream has a codec specification and no encoder (`SendStreamRuns.EncoderIsThereOrMissed`). Over a run
  that never happens exactly when a first specification always names a codec the factory makes
  (`SendStreamRuns.EncoderThereThroughout`). Calls that would use a missing encoder are not among the allowed ones.
- `Start` and `ReconfigureBitrateObserver` decide about registration by different conditions
  (`SendStreamRuns.RegisteredThroughout`), and the latter does not look at frame lengths
  (`SendStreamRuns.AllocatorKnowsStreamThroughout`).
- `GetPriority` or-s its fields, so it is the sum of RFC 5245 exactly when they share no bits and no truncation shows
  (`CandidatePriority.PriorityIsRfcSum`). For components 0 to 256 and type preferences below 256 that is when the
  component is not 0 or the local preference is even; component 257 sets every bit.
- Lookup keeps the last unencrypted entry as a fallback where deduplication keeps the first
  (`HeaderExtensions.LookupAfterDeduplication`).
- The meter needs 98 silent frames to reach 0, from any state; 97 are not always enough.

## Model

| member | source | states |
|---|---|---|
| SendStreamModel.LimitsAreOrdered | audio/audio_send_stream.cc:858-903 | The lower limit stays the lower one although different overhead rates are added to the two. |
| SendStreamModel.RefreshedHolds | audio/audio_send_stream.cc:910-917 | Refreshing the cache after any internal change re-establishes the whole invariant. |
| SendStreamModel.OverheadUpdatedIsSteady | audio/audio_send_stream.cc:530-547 | An overhead update leaves both overhead fields equal to the current overhead, keeps registration and allocator record in step, and keeps the encoder's properties. |
| SendStreamModel.CodecReconfiguredIsSteady | audio/audio_send_stream.cc:581-779 | Every branch of a codec change keeps the recorded sample rate and channels equal to the encoder's, and the audio state's entry equal to both. |
| SendStreamModel.EncoderStageIsSteady | audio/audio_send_stream.cc:318-339 | The first stages of a configuration end with the encoder's frame lengths and the new overhead in force and registration untouched. |
| SendStreamModel.ConfiguredHolds | audio/audio_send_stream.cc:223-351 | A reconfiguration keeps the invariant. |
| SendStreamModel.StepHolds | audio/audio_send_stream.cc:353-384 | Every public call keeps the invariant: cache agreement and order, registration safety, equal overheads, an entry in the audio state exactly while sending, encoder properties. |
| SendStreamModel.ConstructedHolds | audio/audio_send_stream.cc:136-175 | A new stream satisfies the invariant, does not send and is unknown to allocator and audio state. |
| SendStreamModel.Run | audio/audio_send_stream.cc:189-557 | The state after any sequence of allowed public calls satisfies the invariant. |
| SendStreamRuns.RunFromConstruction | audio/audio_send_stream.cc:136-557 | Every state of every run from construction satisfies the invariant. |
| SendStreamProperties.ForwardedIsNearest | audio/audio_send_stream.cc:500-517 | When the allocator calls, limits are cached, and both targets passed on are the values nearest to the allocator's within them. |
| SendStreamProperties.ConfiguredEncoder | audio/audio_send_stream.cc:223-351 | The encoder after a reconfiguration, as a function of the old encoder, the two configurations and the new overhead. |
| SendStreamProperties.UnchangedOverheadIsQuiet | audio/audio_send_stream.cc:519-547 | Setting a transport overhead that leaves the total unchanged meets every check and leaves everything else as it is: encoder, allocator's record, cache and registration. |
| SendStreamProperties.NewOverheadHeard | audio/audio_send_stream.cc:487-547 | A changed overhead is known to the speech encoder and its adaptor if and only if no comfort noise is in the way or the total did not change. |
| SendStreamProperties.ReconfiguredOverheadHeard | audio/audio_send_stream.cc:592-779 | After a reconfiguration the overhead in force is known to the speech encoder if and only if a condition on the old state, the new configuration and the new overhead holds. |
| SendStreamProperties.NewStackDeaf | audio/audio_send_stream.cc:664-779 | Whether comfort noise is in the way after a reconfiguration, from the old encoder and the two configurations. |
| SendStreamProperties.ConstructedOverheadHeard | audio/audio_send_stream.cc:634-655 | A new stream's encoder knows the overhead if and only if it has no comfort noise, there is no encoder, or the overhead is 0. |
| SendStreamProperties.ReconfiguredIsWanted | audio/audio_send_stream.cc:664-779 | A reconfiguration gives the encoder that a fresh setup of the new configuration would give if and only if it is not one that leaves a stale encoder. |
| SendStreamRuns.IncrementalEqualsFresh | audio/audio_send_stream.cc:592-779 | Over any run of public calls the live encoder is always the freshly built one if and only if it is at first and no reconfiguration of the run leaves a stale encoder. |
| SendStreamRuns.OverheadHeardThroughout | audio/audio_send_stream.cc:519-779 | Over any run, with or without comfort noise, the overhead last told to the encoder is always the one in force if and only if it is at first and every call of the run is heard. |
| SendStreamRuns.RegisteredThroughout | audio/audio_send_stream.cc:353-384 | Over any run a sending stream is always registered just as starting it would register it if and only if it is at first and no reconfiguration while it sends is of the two drifting kinds. |
| SendStreamRuns.AllocatorKnowsStreamThroughout | audio/audio_send_stream.cc:781-851 | Over any run the allocator's whole record of a registered stream (limits, priority bitrate, bitrate priority) is always the current one if and only if it is at first and no reconfiguration leaves an old one. |
| SendStreamRuns.EncoderThereThroughout | audio/audio_send_stream.cc:592-708 | Over any run there is always an encoder for the codec specification if and only if there is one at first and a first specification always names a codec the factory makes. |
| SendStreamRuns.EncoderIsThereOrMissed | audio/audio_send_stream.cc:742-779 | There is an encoder for the codec specification if and only if no configuration makes the code use a missing one. |
| SendStreamRuns.ConstructedEncoderIsThere | audio/audio_send_stream.cc:136-175 | A new stream has its encoder if and only if it has no codec specification or the factory makes the codec. |
| SendStreamRuns.SetUpRecovers | audio/audio_send_stream.cc:592-662 | Setting a codec up gives the wanted encoder whatever went wrong before; it knows the overhead if and only if it has no comfort noise or the overhead is 0. |
| SendStreamRuns.NewOverheadRecovers | audio/audio_send_stream.cc:519-547 | A changed overhead is heard whatever was heard before, if no comfort noise is in the way. |
| SendStreamRuns.RestartRecovers | audio/audio_send_stream.cc:353-384 | Stopping and starting registers a stream as its configuration asks, with its current record, whatever its registration was. |
| SendStreamRuns.LastStateIsRight | audio/audio_send_stream.cc:189-557 | The last state of a run has one of these properties when some state of the run has it and every later call keeps it. |
| SendStreamRuns.ConstructedInOrder | audio/audio_send_stream.cc:136-175 | A new stream satisfies the first, third and fourth of these properties. |
| SendStreamProperties.ConstructedIsWanted | audio/audio_send_stream.cc:592-662 | A new stream has the encoder its configuration asks for. |
| SendStreamProperties.ReconfiguredRegistration | audio/audio_send_stream.cc:781-813 | A reconfigured sending stream is registered just as starting it would register it, if and only if the reconfiguration is not one of two stated kinds. |
| SendStreamProperties.StartedRegistration | audio/audio_send_stream.cc:353-372 | Starting registers exactly under the conditions on DSCP, limits and feedback, with the current record. |
| SendStreamProperties.ReconfiguredAllocator | audio/audio_send_stream.cc:781-849 | Which streams are registered after a reconfiguration; of these the allocator has another record than the current one if and only if the observer is skipped and the encoder's new frame lengths give another record than the old ones at the new overhead. |
| SendStreamProperties.SensibleCallIsAllowed | audio/audio_send_stream.cc:189-557 | A stream configured with codecs its factory makes, mono comfort noise and ordered bitrates meets every check of the code in every call. |
| SendStreamProperties.SensibleStreamIsReady | audio/audio_send_stream.cc:136-175 | The constructor meets every check for such a configuration, and the stream is ready for such calls. |
| SendStreamWitnesses.AdaptorIsLostUnderComfortNoise | audio/audio_send_stream.cc:710-740 | A constructed stream with the encoder it should have, and a reconfiguration that asks for an adaptor under comfort noise and does not get it. |
| SendStreamWitnesses.RedundancyIsLostToComfortNoise | audio/audio_send_stream.cc:742-779 | A constructed stream whose redundancy layer is replaced by comfort noise. |
| SendStreamWitnesses.OldEncoderStaysBehind | audio/audio_send_stream.cc:592-605 | A constructed stream that keeps its old encoder with the new configuration, whose codec the factory cannot make. |
| SendStreamWitnesses.ComfortNoiseNeedsAnEncoder | audio/audio_send_stream.cc:742-779 | A stream constructed without an encoder, and a change of comfort noise that passes every check of the code and uses the encoder that is not there. |
| SendStreamWitnesses.OverheadIsMissedUnderComfortNoise | audio/audio_send_stream.cc:519-547 | A stream constructed with comfort noise at overhead 0 misses a new transport overhead, also after comfort noise is turned off, and when the same overhead is set again. |
| SendStreamWitnesses.DscpIsNotNoticed | audio/audio_send_stream.cc:787-794 | A started stream that stays registered when DSCP is turned on, although starting it would not register it. |
| SendStreamWitnesses.FeedbackIsDemandedLater | audio/audio_send_stream.cc:796-812 | A stream allocated without feedback that loses its registration when its limits change, although starting it would register it. |
| SendStreamWitnesses.AllocatorKeepsOldLimits | audio/audio_send_stream.cc:781-794 | A started stream whose allocator keeps the limits of 20 ms frames when the codec changes to 60 ms frames. |
| SendStreamLaws.RateIsFloor | audio/audio_send_stream.cc:888-901 | A rate is the whole number of bits per second. |
| SendStreamLaws.TransportSeqNumIdIsAt | audio/audio_send_stream.cc:196-221 | The last extension with the uri decides about the id. |
| SendStreamLaws.NoTransportSeqNumId | audio/audio_send_stream.cc:196-221 | Without such an extension the id is 0. |
| SendStreamLaws.LimitsExist | audio/audio_send_stream.cc:858-903 | There are limits if and only if the configured bitrates are set, those in force after the overrides are in order, and frame lengths are known or not needed. |
| SendStreamLaws.LimitsAreEnvelope | audio/audio_send_stream.cc:858-903 | Every payload bitrate between those in force, with the rate of overhead at any frame length in the range, lies between the limits, and both limits are reached; the legacy calculation adds the rate of 50 bytes every 60 ms to both. |
| SendStreamLaws.RecordByField | audio/audio_send_stream.cc:815-849 | All four fields of the allocator's record: the two limits; the raw priority bitrate, or else the setting with the least rate of overhead over the frame lengths, which is reached; the overriding or the configured priority. |
| SendStreamLaws.WantedMeans | audio/audio_send_stream.cc:592-662 | The encoder is the wanted one if and only if its layers, codec, payload types, format and adaptor are those of the configuration, or the factory does not make the codec and there is none. |
| SendStreamLaws.NewCodecByPart | audio/audio_send_stream.cc:592-690 | A first codec, or another format, payload type or redundancy, gives the wanted encoder with the configured target if the factory makes it, and otherwise leaves the encoder. |
| SendStreamLaws.NoCodecByPart | audio/audio_send_stream.cc:664-672 | A configuration without a codec leaves the encoder. |
| SendStreamLaws.SameCodecByPart | audio/audio_send_stream.cc:674-779 | With the same format, payload type and redundancy: what becomes of layers, target and adaptor, and what stays. |
| SendStreamLaws.ReconfigureByField | audio/audio_send_stream.cc:318-351 | The configuration, overheads, frame lengths and cached limits after a reconfiguration. |
| SendStreamLaws.ReconfigureRegistration | audio/audio_send_stream.cc:781-813 | Registration follows the new configuration, with the current record, if and only if the stream sends and a bitrate, the bitrate priority, the transport sequence number id or the adaptor's configuration changes; otherwise it stays. |
| SendStreamLaws.StartByField | audio/audio_send_stream.cc:353-372 | Everything starting does and does not change, and exactly when it registers. |
| SendStreamLaws.StopByField | audio/audio_send_stream.cc:374-384 | Everything stopping does and does not change. |
| SendStreamLaws.OverheadByField | audio/audio_send_stream.cc:487-547 | A new overhead of transport or RTP headers is noted as their sum, and a registered stream's record follows it; the encoder changes at most in the overhead it knows, and nothing else changes. |
| SendStreamLaws.UpdateByField | audio/audio_send_stream.cc:500-517 | An update gives the encoder the target that is passed on, and changes nothing else. |
| EncoderStack.BuildIsWanted | audio/audio_send_stream.cc:592-662 | What setting up a codec gives, without targets and overheads, is what `Wanted` asks for, whatever the overhead. |
| EncoderStack.BuildByPart | audio/audio_send_stream.cc:592-662 | Setting up a codec gives a speech encoder with the factory's codec, the payload type, format and target of the specification, an adaptor if and only if one is asked for and supported, and the overhead unless comfort noise is in the way; over it comfort noise, then redundancy outermost, each if and only if asked for and with its payload type. |
| EncoderStack.WantedByPart | audio/audio_send_stream.cc:592-662 | The parts of the wanted encoder, in the same terms. |
| EncoderStack.PartsDetermine | audio/audio_send_stream.cc:623-641 | Layers and speech encoder determine an encoder. |
| EncoderStack.ChangedByPart | audio/audio_send_stream.cc:689-779 | A step-by-step change keeps codec, payload type and format; takes over a given new target only; changes the adaptor only if no comfort noise is in the way; and if comfort noise changes, replaces the outermost layer, whatever it is. |
| EncoderStack.ChangedIsWanted | audio/audio_send_stream.cc:689-779 | A step-by-step change gives what the new configuration asks for if and only if it is not one of the misapplied ones. |
| EncoderStack.BuildHears | audio/audio_send_stream.cc:634-655 | A newly built encoder knows the overhead if and only if it has no comfort noise or the overhead is 0. |
| EncoderStack.ChangedHears | audio/audio_send_stream.cc:710-779 | Which overhead the encoder knows after a step-by-step change. |
| EncoderStack.BuildProperties | audio/audio_send_stream.cc:623-662 | A newly built encoder has the codec's sample rate and channels under all its layers. |
| EncoderStack.ChangedKeepsProperties | audio/audio_send_stream.cc:689-779 | Step-by-step changes keep sample rate and channels. |
| AudioSendStream.FindTransportSeqNumId | audio/audio_send_stream.cc:196-221 | The id of the last transport sequence number extension, 0 without one. |
| AudioSendStream.AudioSendStream.constructor | audio/audio_send_stream.cc:136-175 | The object starts in the constructed state of the model and changes nothing about other streams. |
| AudioSendStream.AudioSendStream.GetMinMaxBitrateConstraints | audio/audio_send_stream.cc:858-903 | There are limits exactly when the model has them, and they are the tight envelope of every payload bitrate with every rate of overhead the frame lengths allow, the overrides of the field trials included. |
| AudioSendStream.AudioSendStream.UpdateCachedTargetAudioBitrateConstraints | audio/audio_send_stream.cc:910-917 | The cache is replaced by the current limits if there are any and kept otherwise. |
| AudioSendStream.AudioSendStream.ConfigureBitrateObserver | audio/audio_send_stream.cc:815-851 | The allocator's record of this stream, and no other, is set: the limits, the raw priority bitrate or else the setting with the least rate of overhead, and the overriding or the configured priority. The stream is registered. |
| AudioSendStream.AudioSendStream.RemoveBitrateObserver | audio/audio_send_stream.cc:853-856 | The allocator forgets this stream and no other. |
| AudioSendStream.AudioSendStream.UpdateOverheadForEncoder | audio/audio_send_stream.cc:530-547 | Follows the model's overhead update, leaving other streams alone, and says how often encoder and allocator are called: at most once each. |
| AudioSendStream.AudioSendStream.StoreEncoderProperties | audio/audio_send_stream.cc:581-589 | The properties are stored, and passed to the audio state while sending; its invariant holds again. |
| AudioSendStream.AudioSendStream.MakeEncoder | audio/audio_send_stream.cc:607-655 | The encoder put together layer by layer is the one the model builds, with the codec, payload type, format and target of the specification under the layers it asks for. |
| AudioSendStream.AudioSendStream.SetupSendCodec | audio/audio_send_stream.cc:592-662 | Fails exactly when the factory makes nothing, changing nothing; otherwise the encoder is built and its properties stored. |
| AudioSendStream.AudioSendStream.ReconfigureANA | audio/audio_send_stream.cc:710-740 | The encoder with its adaptor changed. |
| AudioSendStream.AudioSendStream.ReconfigureCNG | audio/audio_send_stream.cc:742-779 | If comfort noise changes: the encoder with its outermost layer taken off and comfort noise put on, where there is an encoder; where there is none the result says that the code would use it all the same. |
| AudioSendStream.AudioSendStream.ReconfigureSendCodec | audio/audio_send_stream.cc:664-708 | Follows the model's codec change; success is reported exactly when the needed encoder could be made. |
| AudioSendStream.AudioSendStream.ReconfigureBitrateObserver | audio/audio_send_stream.cc:781-813 | Follows the model's observer change, leaving other observers alone. |
| AudioSendStream.AudioSendStream.ConfigureEncoder | audio/audio_send_stream.cc:318-339 | The stages of a configuration up to the frame lengths. |
| AudioSendStream.AudioSendStream.ConfigureStream | audio/audio_send_stream.cc:223-351 | Follows the model's configuration and reports whether the codec could be set up. |
| AudioSendStream.AudioSendStream.RegisterAtStart | audio/audio_send_stream.cc:358-368 | The stream is registered and part of the allocation exactly under the conditions of starting. |
| AudioSendStream.AudioSendStream.Start | audio/audio_send_stream.cc:353-372 | Takes the model's step, keeps the invariants of stream and audio state, and leaves the records of other streams alone. |
| AudioSendStream.AudioSendStream.Stop | audio/audio_send_stream.cc:374-384 | Likewise for stopping. |
| AudioSendStream.AudioSendStream.Reconfigure | audio/audio_send_stream.cc:189-194 | Likewise for reconfiguring. |
| AudioSendStream.AudioSendStream.SetTransportOverhead | audio/audio_send_stream.cc:519-528 | Likewise for a new transport overhead. The encoder, and the allocator of a registered stream, are called once if the total changes and not at all otherwise. |
| AudioSendStream.AudioSendStream.DeliverRtcp | audio/audio_send_stream.cc:487-498 | Likewise for an RTCP packet, after which the RTP module may expect another overhead; calls are counted in the same way. |
| AudioSendStream.AudioSendStream.OnBitrateUpdated | audio/audio_send_stream.cc:500-517 | Likewise for an update from the allocator. |
| AudioState.AudioState.constructor | audio/audio_state.cc:30-37 | An audio state without streams, with playout and recording enabled, satisfies the invariant. |
| AudioState.AudioState.AddReceivingStream | audio/audio_state.cc:54-76 | Device, poller and mixer stay what the set of receiving streams and the flags make them. |
| AudioState.AudioState.RemoveReceivingStream | audio/audio_state.cc:78-89 | The same when a stream leaves; with the last one playing and polling stop. |
| AudioState.AudioState.AddSendingStream | audio/audio_state.cc:91-111 | The stream is listed with its properties; transport and recording stay what the list makes them. |
| AudioState.AudioState.RemoveSendingStream | audio/audio_state.cc:113-121 | Likewise for removal. |
| AudioState.AudioState.SetPlayout | audio/audio_state.cc:123-138 | Exactly one of device and poller plays for receiving streams, by the flag. |
| AudioState.AudioState.SetRecording | audio/audio_state.cc:140-153 | The device records if and only if there are sending streams and recording is enabled. |
| AudioState.AudioState.UpdateAudioTransportWithSendingStreams | audio/audio_state.cc:160-172 | The transport gets every sending stream once, the largest rate but at least 8000, and the largest channel count but at least 1. |
| AudioState.AudioState.UpdateNullAudioPollerState | audio/audio_state.cc:174-205 | The poller runs if and only if there are receiving streams and playout is disabled. |
| AudioTransport.InitializeCaptureFrame | audio/audio_transport_impl.cc:33-47 | The lowest native rate that loses nothing, or the highest; the smaller channel count. |
| AudioTransport.AudioTransportImpl.SendProcessedData | audio/audio_transport_impl.cc:184-200 | Every sender gets the frame as often as it is listed. |
| AudioTransport.AudioTransportImpl.RecordedDataIsAvailable | audio/audio_transport_impl.cc:127-182 | Every sender gets one frame, in the format chosen from the input and the send parameters. |
| SendPath.Next | audio/audio_transport_impl.cc:184-200 | Any public call of any stream, and any captured frame, keeps the invariant of all streams. |
| SendPath.SendingAfter | audio/audio_send_stream.cc:353-384 | Starting and stopping, and nothing else, change whether a stream sends. |
| SendPath.NextForOne | audio/audio_state.cc:91-121 | A captured frame reaches a stream if and only if its sending flag is set; a call changes its own stream only. |
| SendPath.EachStreamIsOnItsOwn | audio/audio_send_stream.cc:189-557 | In every interleaving each stream ends where its own calls alone take it. |
| SendPath.StartedStreamsGetEveryFrame | audio/audio_transport_impl.cc:184-200 | In every interleaving each stream receives exactly the frames captured while it is started, once each and in order. |
| SendPath.InterleavingDoesNotMatter | audio/audio_send_stream.cc:189-557 | Two interleavings with the same calls of a stream leave it in the same state. |
| SendPath.SendPath.TransportFeedsStartedStreams | audio/audio_state.cc:160-172 | The transport holds exactly the senders of the started streams, without duplicates, recorded with their encoders' properties, and the largest of their rates and channel counts, at least 8000 and 1. |
| SendPath.SendPath.Create | audio/audio_send_stream.cc:136-175 | A new stream joins without disturbing the others. |
| SendPath.SendPath.Perform | audio/audio_send_stream.cc:353-557 | Any call of any of the objects is the step of the path's state machine, keeps the invariant across all three classes, and leaves receiving streams, playout and poller alone. |
| SendPath.SendPath.Capture | audio/audio_transport_impl.cc:127-182 | A captured frame is the step of the path's state machine: each started stream gets it once. |
| SendPath.SendPath.AddReceivingStream | audio/audio_state.cc:54-76 | Leaves every send stream as it is and keeps the invariant across the classes. |
| SendPath.SendPath.RemoveReceivingStream | audio/audio_state.cc:78-89 | Likewise. |
| SendPath.SendPath.SetPlayout | audio/audio_state.cc:123-138 | Likewise for enabling and disabling playout. |
| SendPath.SendPath.SetRecording | audio/audio_state.cc:140-153 | Likewise for enabling and disabling recording. |
| RefCounting.ApplyInParts | api/scoped_refptr.h:79-158 | Every operation is a change of pointers with one AddRef and one Release at most. |
| RefCounting.PermittedIsDefined | api/scoped_refptr.h:101-158 | In a conserved heap no operation touches a deleted object. |
| RefCounting.ReferencesAfter | api/scoped_refptr.h:79-158 | How each operation changes the number of handles and raw references to each object. |
| RefCounting.ApplyConserves | api/scoped_refptr.h:76-158 | Counts equal handles plus raw references after every operation, self-assignment included, and no handle points at a deleted object. |
| RefCounting.DeletedWithLastReference | api/ref_counted_base.h:26-33 | An operation deletes an object if and only if it takes its references from some to none. |
| RefCounting.RunConserves | api/scoped_refptr.h:76-158 | The same in every state of every run of operations. |
| RefCounting.HandlesAfter | api/scoped_refptr.h:76-158 | Where each handle points after each operation, handle by handle. |
| RefCounting.RawReferencesAfter | api/scoped_refptr.h:116-156 | How many references of each object belong to no handle after each operation. |
| RefCounting.MoveThroughTemporary | api/scoped_refptr.h:141-150 | Move assignment is moving to a temporary, swapping and destroying it. |
| RefCounting.RefCountedBase.Release | api/ref_counted_base.h:27-33 | The count goes down by one; the object is deleted, and the last reference reported, exactly at 0. |
| RefCounting.ScopedRefPtr.FromRaw | api/scoped_refptr.h:76-82 | Over a raw pointer, null included: the model's construction, keeping counts equal to references. |
| RefCounting.ScopedRefPtr.Copy | api/scoped_refptr.h:84-93 | The model's copy construction, keeping the balance. |
| RefCounting.ScopedRefPtr.Move | api/scoped_refptr.h:96-99 | The model's move construction: the pointer is taken over, counts and balance stay. |
| RefCounting.ScopedRefPtr.Destroy | api/scoped_refptr.h:101-104 | The model's destruction: the reference is given up, the object goes with its last one, the balance stays. |
| RefCounting.ScopedRefPtr.Release | api/scoped_refptr.h:116-120 | The pointer is handed out with its reference, keeping the balance. |
| RefCounting.ScopedRefPtr.AssignRaw | api/scoped_refptr.h:122-130 | The model's assignment, also of the pointer already held, keeping the balance. |
| RefCounting.ScopedRefPtr.AssignCopy | api/scoped_refptr.h:132-139 | The model's copy assignment, also from itself, keeping the balance. |
| RefCounting.ScopedRefPtr.AssignMove | api/scoped_refptr.h:141-150 | The model's move assignment, also from itself, keeping the balance. |
| RefCounting.ScopedRefPtr.SwapRaw | api/scoped_refptr.h:152-156 | Pointer and raw pointer are exchanged with their references, keeping the balance. |
| RefCounting.ScopedRefPtr.SwapWith | api/scoped_refptr.h:158-158 | Two handles are exchanged, keeping the balance. |
| RefCounting.MakeObject | api/ref_counted_base.h:21-43 | A new object starts with no reference, as the model's, keeping the balance. |
| RefCounting.TakeReference | api/ref_counted_base.h:26-26 | Calling AddRef directly takes a raw reference, keeping the balance. |
| RefCounting.GiveReference | api/ref_counted_base.h:27-33 | Calling Release directly gives a raw reference up; the object goes with its last one, keeping the balance. |
| AudioLevel.Peak | common_audio/signal_processing/min_max_operations.c:38-58 | The largest magnitude, with -32768 counted as 32767: a bound of all samples that one of them reaches. |
| AudioLevel.MaxAbsValueW16 | common_audio/signal_processing/min_max_operations.c:38-58 | The loop computes the peak: the least bound of all samples from both sides, but for -32768, which 32767 bounds. |
| AudioLevel.DecayedIsMaximum | audio/audio_level.cc:68-82 | The recurrence is the maximum over all windows of their peak shifted by two bits per window of age. |
| AudioLevel.FrameTracks | audio/audio_level.cc:68-82 | One frame keeps the gauge equal to the history's decayed maximum. |
| AudioLevel.RunTracks | audio/audio_level.cc:24-82 | So does every run of frames and resets. |
| AudioLevel.LevelIsClosedForm | audio/audio_level.cc:55-82 | In every run the level is the closed form over the frames since the last reset. |
| AudioLevel.SilenceIsReached | audio/audio_level.cc:68-82 | From any reachable state 98 or more silent frames bring the level to 0. |
| AudioLevel.NinetySevenSilentFramesAreNotEnough | audio/audio_level.cc:68-82 | An input for which 97 do not. |
| AudioLevel.EnergyOfFrame | audio/audio_level.cc:90-93 | A frame adds at least 0 and at most its duration to the energy. |
| AudioLevel.FrameEnergyIsSquare | audio/audio_level.cc:90-93 | What it adds is the square of the level shown, as a part of 32767, times its duration. |
| AudioLevel.TotalsAreSums | audio/audio_level.cc:84-94 | In every run the energy is the sum of these over the frames since the last reset, each with the level shown after it, and the duration the sum of their durations. |
| AudioLevel.ResetForgets | audio/audio_level.cc:24-31 | After a reset a meter behaves as a new one. |
| AudioLevel.LevelResetForgets | audio/audio_level.cc:38-43 | After a reset of the level the gauge behaves as a new one, and the totals go on from where they were. |
| AudioLevel.EnergyIsBounded | audio/audio_level.cc:84-94 | In every run with non-negative durations energy is at most duration, and frames do not lower it. |
| AudioLevel.AudioLevel.LevelFullRange | audio/audio_level.cc:33-36 | Returns the closed form over the history of the object. |
| AudioLevel.AudioLevel.TotalEnergy | audio/audio_level.cc:45-48 | Returns the sum of squares over the history of the object. |
| AudioLevel.AudioLevel.TotalDuration | audio/audio_level.cc:50-53 | Returns the sum of durations since the last reset. |
| AudioLevel.AudioLevel.ResetAll | audio/audio_level.cc:24-31 | A reset of meter and totals. |
| AudioLevel.AudioLevel.ResetLevel | audio/audio_level.cc:38-43 | A reset of the meter alone. |
| AudioLevel.AudioLevel.ComputeLevel | audio/audio_level.cc:55-95 | A frame, with peak 0 if muted, joins the history, of which level, energy and duration are the closed forms. |
| HeaderExtensions.Sort | api/rtp_parameters.cc:287-293 | A sorted permutation, by uri, encryption and id. |
| HeaderExtensions.HeaderExtensionWithUriExists | api/rtp_parameters.cc:193-202 | Whether any entry has the uri. |
| HeaderExtensions.AddMissing | api/rtp_parameters.cc:262-285 | Adds the first entry of each uri of the given kind that is not there yet, and nothing else. |
| HeaderExtensions.DeduplicateHeaderExtensions | api/rtp_parameters.cc:257-296 | Strictly sorted by uri, with exactly the selected entry of every admitted uri: the first encrypted one if allowed, else the first unencrypted one if allowed. |
| HeaderExtensions.DeduplicatedIsUnique | api/rtp_parameters.cc:257-296 | Only one list satisfies that. |
| HeaderExtensions.DeduplicationIsIdempotent | api/rtp_parameters.cc:257-296 | Deduplicating again changes nothing. |
| HeaderExtensions.UnambiguousIsOrderFree | api/rtp_parameters.cc:257-296 | Permuting an unambiguous input does not change the result. |
| HeaderExtensions.AmbiguousDependsOnOrder | api/rtp_parameters.cc:257-296 | For every other input some permutation does. |
| HeaderExtensions.StringLessByFirstDifference | api/rtp_parameters.cc:287-293 | Strings are ordered by their first difference. |
| HeaderExtensions.FirstIsAt | api/rtp_parameters.cc:245-255 | If a position matches and none before it does, the entry there is the one taken. |
| HeaderExtensions.LastIsAt | api/rtp_parameters.cc:224-228 | The entry kept as a fallback is the one at the last matching position. |
| HeaderExtensions.SelectedIsAt | api/rtp_parameters.cc:257-285 | Which position deduplication takes for a uri, under each filter. |
| HeaderExtensions.FoundMeans | api/rtp_parameters.cc:204-243 | Which position lookup finds, under each filter, and when it finds none. |
| HeaderExtensions.FindHeaderExtensionByUri | api/rtp_parameters.cc:204-243 | By position: the first entry of the accepted kind; under the prefer filter the first encrypted one or, if none is encrypted, the last one. Nothing exactly if no entry is accepted. |
| HeaderExtensions.FindHeaderExtensionByUriAndEncryption | api/rtp_parameters.cc:245-255 | The entry at the first position with that uri and encryption, or none if there is no such position. |
| HeaderExtensions.LookupAfterDeduplication | api/rtp_parameters.cc:204-296 | A uri is found before if and only if it is found after; the same entry is, exactly unless the fallback has several different candidates. |
| HeaderExtensions.LookupKeepsTheLast | api/rtp_parameters.cc:204-296 | A list for which lookup finds another entry before deduplication than after it. |
| LegacyStats.EqualsIsIdentity | api/legacy_stats_types.cc:79-214 | With one id class per statistics type, comparing ids never casts wrongly and is equality. |
| LegacyStats.MergeOneIsUpdate | api/legacy_stats_types.cc:857-865 | Merging one report is a map update. |
| LegacyStats.MergeIsUnion | api/legacy_stats_types.cc:851-867 | Merging a list is right-biased map union and keeps ids unique. |
| LegacyStats.MergeKeepsPositions | api/legacy_stats_types.cc:851-867 | Known ids keep their positions, new ones follow in order of first appearance. |
| LegacyStats.MergeConserves | api/legacy_stats_types.cc:851-867 | The reports of both lists are in the result or displaced, with multiplicity. |
| LegacyStats.MergeOfDistinct | api/legacy_stats_types.cc:851-867 | A report merged in is never among the displaced ones when all reports are distinct. |
| LegacyStats.StatsCollection.Find | api/legacy_stats_types.cc:871-877 | The report of the id in the map, or null. |
| LegacyStats.StatsCollection.InsertNew | api/legacy_stats_types.cc:813-819 | A new report at the end. |
| LegacyStats.StatsCollection.FindOrAddNew | api/legacy_stats_types.cc:821-825 | The report of the id, new only if there was none. |
| LegacyStats.StatsCollection.ReplaceOrAddNew | api/legacy_stats_types.cc:827-840 | A new report takes the place of the old one, which is deleted. |
| LegacyStats.StatsCollection.DetachCollection | api/legacy_stats_types.cc:842-849 | The list is handed out and the collection left empty. |
| LegacyStats.StatsCollection.MergeReport | api/legacy_stats_types.cc:857-865 | One round: the list is the model's, and the displaced report, if any, is deleted once. |
| LegacyStats.StatsCollection.MergeCollection | api/legacy_stats_types.cc:851-867 | The list becomes the merge, and exactly the displaced reports are deleted, once. |
| LegacyStats.StatsCollection.Destroy | api/legacy_stats_types.cc:792-796 | Every listed report is deleted once. |
| LegacyStats.ApplyConserves | api/legacy_stats_types.cc:792-867 | Every operation keeps each report in one place. |
| LegacyStats.RunConserves | api/legacy_stats_types.cc:792-867 | So does every run over any number of collections and detached lists. |
| LegacyStats.EveryReportHasOneOwner | api/legacy_stats_types.cc:792-867 | After any run every report made is in exactly one list or deleted exactly once. |
| LegacyStats.Program.NewCollection | api/legacy_stats_types.cc:790-790 | A new collection is the pool's new list. |
| LegacyStats.Program.InsertNew | api/legacy_stats_types.cc:813-819 | Inserting into a collection is the pool's operation, and every report keeps one owner. |
| LegacyStats.Program.ReplaceOrAddNew | api/legacy_stats_types.cc:827-840 | Likewise for replacing, with the displaced report deleted. |
| LegacyStats.Program.Detach | api/legacy_stats_types.cc:842-849 | Likewise for detaching: the reports move to a list of their own. |
| LegacyStats.Program.MergeFrom | api/legacy_stats_types.cc:851-867 | Likewise for merging a detached list, with the displaced reports deleted. |
| LegacyStats.Program.Destroy | api/legacy_stats_types.cc:792-796 | Likewise for destroying a collection: its reports are deleted. |
| LegacyStats.Program.FindOrAddNew | api/legacy_stats_types.cc:821-825 | The report of the id with nothing changed, or the pool's insertion. |
| LegacyStats.Program.DeleteDetached | api/legacy_stats_types.cc:842-849 | Deleting the reports of a detached list is the pool's destruction of that list. |
| CandidatePriority.LocalPreferenceIsSum | api/candidate.cc:111-128 | The packed local preference as a sum, within 16 bits. |
| CandidatePriority.PriorityValue | api/candidate.cc:130-130 | For every component and type preference: the fields added up with 32-bit truncation, less the bits the last field shares with the upper two. |
| CandidatePriority.PriorityIsRfcSum | api/candidate.cc:90-131 | For every component and type preference it is the sum of section 4.1.2.1 of RFC 5245 if and only if the last field shares no bit with the upper two and the truncations cancel out. |
| CandidatePriority.PriorityInRange | api/candidate.cc:90-131 | For components 0 to 256 and type preferences below 256 that means: the component is not 0 or the local preference is even. |
| CandidatePriority.ComponentZeroLosesABit | api/candidate.cc:130-130 | An input with component 0 for which the priority is 256 below the sum. |
| CandidatePriority.ComponentBeyondRangeSetsEveryBit | api/candidate.cc:130-130 | With component 257 the priority is 0xFFFFFFFF, whatever the preferences. |
| CandidatePriority.PriorityDecodes | api/candidate.cc:90-131 | Type preference, local preference and component can be read back. |
| CandidatePriority.PriorityOrder | api/candidate.cc:90-131 | Priorities compare like the triples of their fields. |
| CandidatePriority.StunPriorityValue | api/candidate.cc:119-121 | The STUN priority keeps the local preference and the component. |
| CandidatePriority.RelayDoesNotOutrank | api/candidate.cc:115-128 | A relay candidate's STUN priority does not exceed that of an otherwise equal direct candidate if and only if the adjustment is on with a relay preference within it, or there is no relay preference. |
| FieldTrials.PrintedIsInjective | api/field_trials.cc:21-54 | A string is the printed form of at most one sequence of fields. |
| FieldTrials.ExplanationIsUnique | api/field_trials.cc:24-47 | The fields read and the fault met are determined by the string. |
| FieldTrials.FaultyIsNotPrinted | api/field_trials.cc:26-39 | A string with a fault is no printed form. |
| FieldTrials.FindSlash | api/field_trials.cc:25-25 | The next slash, if any. |
| FieldTrials.ReadField | api/field_trials.cc:25-41 | Reads one field or reports which check fails. |
| FieldTrials.InsertIntoMap | api/field_trials.cc:21-54 | Succeeds if and only if the string is a printed form, with the first-wins map of its fields; else reports the fault met after the fields read. The final check never fails. |
| FieldTrials.ParsePrinted | api/field_trials.cc:21-54 | Parsing what was printed gives the first-wins map. |
| FieldTrials.ParseOne | api/field_trials.cc:21-54 | A key and a value with their slashes give the map with that key and value. |
| FieldTrials.FaultsByShape | api/field_trials.cc:25-39 | Which check fails on which kind of broken field. |
| FieldTrials.FirstWinsIsFirst | api/field_trials.cc:43-46 | The map has exactly the keys of the fields, each with its first value. |
| EventLogOutput.PermittedPrefix | api/rtc_event_log_output_file.cc:57-61 | A permitted run without its last write is permitted, and the log was active before that write. |
| EventLogOutput.RunAccounting | api/rtc_event_log_output_file.cc:57-78 | Over every permitted run the written bytes are the total of the accepted writes and within a limit, the file is open until the first refusal, and refused writes end the run. |
| EventLogOutput.CapacityCheckDoesNotOverflow | api/rtc_event_log_output_file.cc:22-27 | In a limited file the sum in the capacity check does not wrap around. |
| EventLogOutput.RtcEventLogOutputFile.constructor | api/rtc_event_log_output_file.cc:44-51 | A new output has an empty history. |
| EventLogOutput.RtcEventLogOutputFile.IsActive | api/rtc_event_log_output_file.cc:53-55 | Active if and only if the last write was accepted. |
| EventLogOutput.RtcEventLogOutputFile.Write | api/rtc_event_log_output_file.cc:57-78 | The write joins the history; it succeeds if and only if it fits and the file takes it. |

## Left out

- Threads, locks and memory order: every public call is one step.
- A bitrate callback from inside the allocator's AddObserver, which would see the cache before it is refreshed.
- SendAudioData's level metering, encoding and the frame timestamps; a sender records the frames it is given.
- Pacing flags, congestion-control objects, ALR probing, frame encryptors and transformers, CNAME, MID and the registration of header extensions, except that it can change the expected overhead.
- Telephone events, muting, statistics and RTP state of the send stream; it is destroyed by dropping the object.
- Encoders beyond their layers, formats, adaptor, last target and last overhead; the factory is the same for the life of a stream and gives the same answer every time.
- Device and mixer failures: initialisation succeeds and the device's status follows the last command.
- Playout mixing, resampling, audio processing and asynchronous processing; processing is a parameter.
- Objects whose destruction releases further references; release in the reference-count model deletes one object.
- Partial file writes, and names, display strings and values of legacy statistics.
- Floating-point rounding in energy and duration.
- Letter case in format names, which the code ignores when it compares formats: a name stands for its lower-case form.
- HeaderExtensions.Sort: an insertion sort stands for the library's sort; only its result is used.
- The receive path, PeerConnection, transports, JSEP and DNS: interfaces and foreign code.
