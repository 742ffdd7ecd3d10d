/**
 The capture side of the audio transport (audio/audio_transport_impl.cc): choosing the rate at which
 captured audio is processed, and handing each processed frame to every sender.
 */
module AudioTransport {
  import opened Wrappers

  datatype AudioFrame = AudioFrame(samples: seq<int>, sampleRateHz: int, numChannels: nat)

  /** A destination of captured audio; every send stream is one. */
  class AudioSender {
    var received: seq<AudioFrame>

    constructor ()
      ensures received == []
    {
      received := [];
    }

    method SendAudioData(frame: AudioFrame)
      modifies this
      ensures received == old(received) + [frame]
    {
      received := received + [frame];
    }
  }

  const NATIVE_SAMPLE_RATES_HZ: seq<int> := [8000, 16000, 32000, 48000]

  /** The lowest native rate that is at least `wanted`, or the highest one if none is. */
  predicate IsProcessingRate(rate: int, wanted: int) {
    rate == if wanted <= 8000 then 8000 else if wanted <= 16000 then 16000 else if wanted <= 32000 then 32000 else 48000
  }

  method InitializeCaptureFrame(inputSampleRate: int, sendSampleRateHz: int,
                                inputNumChannels: nat, sendNumChannels: nat)
      returns (sampleRateHz: int, numChannels: nat)
    ensures IsProcessingRate(sampleRateHz, Min(inputSampleRate, sendSampleRateHz))
    ensures numChannels == Min(inputNumChannels, sendNumChannels)
  {
    var minProcessingRateHz := Min(inputSampleRate, sendSampleRateHz);
    sampleRateHz := NATIVE_SAMPLE_RATES_HZ[0];
    for i := 0 to |NATIVE_SAMPLE_RATES_HZ|
      invariant i == 0 ==> sampleRateHz == NATIVE_SAMPLE_RATES_HZ[0]
      invariant i > 0 ==> sampleRateHz == NATIVE_SAMPLE_RATES_HZ[i - 1]
      invariant forall j :: 0 <= j < i ==> NATIVE_SAMPLE_RATES_HZ[j] < minProcessingRateHz
    {
      sampleRateHz := NATIVE_SAMPLE_RATES_HZ[i];
      if sampleRateHz >= minProcessingRateHz {
        break;
      }
    }
    numChannels := Min(inputNumChannels, sendNumChannels);
  }

  function Copies(frame: AudioFrame, n: nat): seq<AudioFrame> {
    seq(n, _ => frame)
  }

  /** What the loop over the other senders, and then the first one, add to what x has received. */
  lemma OneMore<T>(s: seq<T>, i: nat, x: T, frame: AudioFrame, was: seq<AudioFrame>, now: seq<AudioFrame>)
    requires 1 <= i < |s| && now == was + Copies(frame, multiset(s[1..i])[x])
    ensures (if x == s[i] then now + [frame] else now) == was + Copies(frame, multiset(s[1..i + 1])[x])
  {
    assert s[1..i + 1] == s[1..i] + [s[i]];
  }

  lemma FirstAsWell<T>(s: seq<T>, x: T, frame: AudioFrame, was: seq<AudioFrame>, now: seq<AudioFrame>)
    requires s != [] && now == was + Copies(frame, multiset(s[1..])[x])
    ensures (if x == s[0] then now + [frame] else now) == was + Copies(frame, multiset(s)[x])
  {
    assert s == [s[0]] + s[1..];
  }

  predicate NoDuplicates<T(==)>(s: seq<T>) {
    forall i, j :: 0 <= i < j < |s| ==> s[i] != s[j]
  }

  class AudioTransportImpl {
    var audioSenders: seq<AudioSender>
    var sendSampleRateHz: int
    var sendNumChannels: nat

    constructor ()
      ensures audioSenders == [] && sendSampleRateHz == 8000 && sendNumChannels == 1
    {
      audioSenders := [];
      sendSampleRateHz := 8000;
      sendNumChannels := 1;
    }

    method UpdateAudioSenders(senders: seq<AudioSender>, sampleRateHz: int, numChannels: nat)
      modifies this
      ensures audioSenders == senders && sendSampleRateHz == sampleRateHz && sendNumChannels == numChannels
    {
      audioSenders := senders;
      sendSampleRateHz := sampleRateHz;
      sendNumChannels := numChannels;
    }

    /** Every sender gets the frame as often as it is listed: copies go to all but the first, the
        frame itself to the first. */
    method SendProcessedData(frame: AudioFrame)
      modifies audioSenders
      ensures forall x :: x in audioSenders ==>
                x.received == old(x.received) + Copies(frame, multiset(audioSenders)[x])
    {
      if audioSenders == [] {
        return;
      }
      assert Copies(frame, 0) == [];
      hide Copies;
      var i := 1;
      while i < |audioSenders|
        invariant 1 <= i <= |audioSenders|
        invariant forall x :: x in audioSenders ==>
                    x.received == old(x.received) + Copies(frame, multiset(audioSenders[1..i])[x])
      {
        label before:
        audioSenders[i].SendAudioData(frame);
        forall x | x in audioSenders
          ensures x.received == old(x.received) + Copies(frame, multiset(audioSenders[1..i + 1])[x])
        {
          OneMore(audioSenders, i, x, frame, old(x.received), old@before(x.received));
        }
        i := i + 1;
      }
      assert audioSenders[1..i] == audioSenders[1..];
      label rest:
      audioSenders[0].SendAudioData(frame);
      forall x | x in audioSenders
        ensures x.received == old(x.received) + Copies(frame, multiset(audioSenders)[x])
      {
        FirstAsWell(audioSenders, x, frame, old(x.received), old@rest(x.received));
      }
    }

    /** Captured audio arrives; `process` stands for resampling and audio processing, which keep the
        format they are given. */
    method RecordedDataIsAvailable(samples: seq<int>, sampleRate: int, numChannels: nat,
                                   process: (seq<int>, int, nat) -> seq<int>)
        returns (frame: AudioFrame)
      requires NoDuplicates(audioSenders)
      modifies audioSenders
      ensures IsProcessingRate(frame.sampleRateHz, Min(sampleRate, sendSampleRateHz))
      ensures frame.numChannels == Min(numChannels, sendNumChannels)
      ensures frame.samples == process(samples, frame.sampleRateHz, frame.numChannels)
      ensures forall x :: x in audioSenders ==> x.received == old(x.received) + [frame]
    {
      var rate, channels := InitializeCaptureFrame(sampleRate, sendSampleRateHz, numChannels, sendNumChannels);
      frame := AudioFrame(process(samples, rate, channels), rate, channels);
      SendProcessedData(frame);
      forall x | x in audioSenders ensures x.received == old(x.received) + [frame] {
        ListedOnce(audioSenders, x);
      }
    }
  }

  lemma {:induction false} ListedOnce<T>(s: seq<T>, x: T)
    requires NoDuplicates(s) && x in s
    ensures multiset(s)[x] == 1
  {
    var init, last := s[..|s| - 1], s[|s| - 1];
    assert s == init + [last];
    if x in init {
      ListedOnce(init, x);
      assert last != x;
    } else {
      assert x == last;
    }
  }
}
