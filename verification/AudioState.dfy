/**
 The audio state (audio/audio_state.cc): which streams send and receive, and what the transport, the
 audio device, the mixer and the fallback poller are told in consequence.
 */
module AudioState {
  import opened Wrappers
  import opened AudioTransport
  import opened SendStreamModel

  /** A device whose initialisation succeeds and whose status follows the last command. */
  class AudioDeviceModule {
    var playing: bool
    var recording: bool

    constructor ()
      ensures !playing && !recording
    {
      playing, recording := false, false;
    }

    method StartPlayout()
      modifies this`playing
      ensures playing
    {
      playing := true;
    }

    method StopPlayout()
      modifies this`playing
      ensures !playing
    {
      playing := false;
    }

    method StartRecording()
      modifies this`recording
      ensures recording
    {
      recording := true;
    }

    method StopRecording()
      modifies this`recording
      ensures !recording
    {
      recording := false;
    }
  }

  class AudioReceiveStream {
  }

  class AudioMixer {
    var sources: set<AudioReceiveStream>

    constructor ()
      ensures sources == {}
    {
      sources := {};
    }

    method AddSource(stream: AudioReceiveStream)
      modifies this
      ensures sources == old(sources) + {stream}
    {
      sources := sources + {stream};
    }

    method RemoveSource(stream: AudioReceiveStream)
      modifies this
      ensures sources == old(sources) - {stream}
    {
      sources := sources - {stream};
    }
  }

  const MIN_SAMPLE_RATE_HZ: int := 8000
  const MIN_NUM_CHANNELS: nat := 1

  /** rate is the largest sample rate of the streams, but at least the minimum. */
  ghost predicate IsLargestRate<K>(rate: int, streams: map<K, Properties>) {
    && rate >= 8000
    && (forall k :: k in streams ==> streams[k].sampleRateHz <= rate)
    && (rate == 8000 || exists k :: k in streams && streams[k].sampleRateHz == rate)
  }

  ghost predicate IsLargestChannelCount<K>(channels: nat, streams: map<K, Properties>) {
    && channels >= 1
    && (forall k :: k in streams ==> streams[k].numChannels <= channels)
    && (channels == 1 || exists k :: k in streams && streams[k].numChannels == channels)
  }

  class AudioState {
    const transport: AudioTransportImpl
    const device: AudioDeviceModule
    const mixer: AudioMixer
    var recordingEnabled: bool
    var playoutEnabled: bool
    var nullAudioPollerRunning: bool
    var receivingStreams: set<AudioReceiveStream>
    var sendingStreams: map<AudioSender, Properties>

    /** The transport feeds each sending stream once, at the largest rate and channel count. */
    ghost predicate TransportMatches()
      reads this`sendingStreams, transport
    {
      && NoDuplicates(transport.audioSenders)
      && (forall x :: x in transport.audioSenders ==> x in sendingStreams)
      && (forall x :: x in sendingStreams ==> x in transport.audioSenders)
      && IsLargestRate(transport.sendSampleRateHz, sendingStreams)
      && IsLargestChannelCount(transport.sendNumChannels, sendingStreams)
    }

    /** The device plays and records when there is a stream to do it for and it is enabled; the
        poller stands in for disabled playout. */
    ghost predicate DeviceMatches()
      reads this, device
    {
      && (device.playing <==> receivingStreams != {} && playoutEnabled)
      && (nullAudioPollerRunning <==> receivingStreams != {} && !playoutEnabled)
      && (device.recording <==> sendingStreams != map[] && recordingEnabled)
    }

    ghost predicate Valid()
      reads this, transport, device, mixer
    {
      TransportMatches() && DeviceMatches() && mixer.sources == receivingStreams
    }

    constructor ()
      ensures Valid()
      ensures receivingStreams == {} && sendingStreams == map[] && playoutEnabled && recordingEnabled
      ensures fresh(transport) && fresh(device) && fresh(mixer)
    {
      transport := new AudioTransportImpl();
      device := new AudioDeviceModule();
      mixer := new AudioMixer();
      recordingEnabled, playoutEnabled := true, true;
      nullAudioPollerRunning := false;
      receivingStreams := {};
      sendingStreams := map[];
    }

    method AddReceivingStream(stream: AudioReceiveStream)
      requires Valid() && stream !in receivingStreams
      modifies this`receivingStreams, this`nullAudioPollerRunning, device`playing, mixer
      ensures Valid() && receivingStreams == old(receivingStreams) + {stream}
    {
      receivingStreams := receivingStreams + {stream};
      mixer.AddSource(stream);
      UpdateNullAudioPollerState();
      if !device.playing {
        if playoutEnabled {
          device.StartPlayout();
        }
      }
    }

    method RemoveReceivingStream(stream: AudioReceiveStream)
      requires Valid() && stream in receivingStreams
      modifies this`receivingStreams, this`nullAudioPollerRunning, device`playing, mixer
      ensures Valid() && receivingStreams == old(receivingStreams) - {stream}
    {
      receivingStreams := receivingStreams - {stream};
      mixer.RemoveSource(stream);
      UpdateNullAudioPollerState();
      if receivingStreams == {} {
        device.StopPlayout();
      }
    }

    /** Also called for a stream that is listed already, to update its properties. */
    method AddSendingStream(stream: AudioSender, sampleRateHz: int, numChannels: nat)
      requires Valid()
      modifies this`sendingStreams, transport, device`recording
      ensures Valid() && sendingStreams == old(sendingStreams)[stream := Properties(sampleRateHz, numChannels)]
    {
      sendingStreams := sendingStreams[stream := Properties(sampleRateHz, numChannels)];
      UpdateAudioTransportWithSendingStreams();
      assert stream in sendingStreams;
      if !device.recording {
        if recordingEnabled {
          device.StartRecording();
        }
      }
    }

    method RemoveSendingStream(stream: AudioSender)
      requires Valid() && stream in sendingStreams
      modifies this`sendingStreams, transport, device`recording
      ensures Valid() && sendingStreams == old(sendingStreams) - {stream}
    {
      assert stream in sendingStreams;
      sendingStreams := sendingStreams - {stream};
      UpdateAudioTransportWithSendingStreams();
      if sendingStreams == map[] {
        device.StopRecording();
      }
    }

    method SetPlayout(enabled: bool)
      requires Valid()
      modifies this`playoutEnabled, this`nullAudioPollerRunning, device`playing
      ensures Valid() && playoutEnabled == enabled
    {
      if playoutEnabled != enabled {
        playoutEnabled := enabled;
        if enabled {
          UpdateNullAudioPollerState();
          if receivingStreams != {} {
            device.StartPlayout();
          }
        } else {
          device.StopPlayout();
          UpdateNullAudioPollerState();
        }
      }
    }

    method SetRecording(enabled: bool)
      requires Valid()
      modifies this`recordingEnabled, device`recording
      ensures Valid() && recordingEnabled == enabled
    {
      if recordingEnabled != enabled {
        recordingEnabled := enabled;
        if enabled {
          if sendingStreams != map[] {
            device.StartRecording();
          }
        } else {
          device.StopRecording();
        }
      }
    }

    /** The streams are visited in some order. */
    method UpdateAudioTransportWithSendingStreams()
      modifies transport
      ensures TransportMatches()
    {
      var audioSenders: seq<AudioSender> := [];
      var maxSampleRateHz := MIN_SAMPLE_RATE_HZ;
      var maxNumChannels := MIN_NUM_CHANNELS;
      var left := sendingStreams.Keys;
      while left != {}
        invariant left <= sendingStreams.Keys
        invariant NoDuplicates(audioSenders)
        invariant forall x :: x in audioSenders <==> x in sendingStreams && x !in left
        invariant maxSampleRateHz >= MIN_SAMPLE_RATE_HZ && maxNumChannels >= MIN_NUM_CHANNELS
        invariant forall x :: x in audioSenders ==>
                    sendingStreams[x].sampleRateHz <= maxSampleRateHz && sendingStreams[x].numChannels <= maxNumChannels
        invariant maxSampleRateHz == MIN_SAMPLE_RATE_HZ ||
                  exists x :: x in sendingStreams && sendingStreams[x].sampleRateHz == maxSampleRateHz
        invariant maxNumChannels == MIN_NUM_CHANNELS ||
                  exists x :: x in sendingStreams && sendingStreams[x].numChannels == maxNumChannels
        decreases left
      {
        var stream :| stream in left;
        left := left - {stream};
        audioSenders := audioSenders + [stream];
        maxSampleRateHz := Max(maxSampleRateHz, sendingStreams[stream].sampleRateHz);
        maxNumChannels := Max(maxNumChannels, sendingStreams[stream].numChannels);
      }
      transport.UpdateAudioSenders(audioSenders, maxSampleRateHz, maxNumChannels);
    }

    method UpdateNullAudioPollerState()
      modifies this`nullAudioPollerRunning
      ensures nullAudioPollerRunning <==> receivingStreams != {} && !playoutEnabled
    {
      if receivingStreams != {} && !playoutEnabled {
        if !nullAudioPollerRunning {
          nullAudioPollerRunning := true;
        }
      } else {
        nullAudioPollerRunning := false;
      }
    }
  }
}
