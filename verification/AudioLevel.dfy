/**
 The audio peak meter (audio/audio_level.cc).

 The class keeps a running maximum that it quarters on every 11th frame. `Decayed` defines the
 level over the whole history of peaks since the last reset, with no running state; the meter is
 shown to compute it after every run.
 */
module AudioLevel {
  import opened Wrappers

  const UPDATE_FREQUENCY: nat := 10
  const WINDOW: nat := 11
  const INT16_MAX: nat := 32767

  type Int16 = x: int | -32768 <= x <= 32767
  type Level = x: int | 0 <= x <= 32767

  function Abs(x: int): int {
    if x < 0 then -x else x
  }

  /** The magnitude of a sample; that of -32768 is clipped to fit 16 bits. */
  function Magnitude(x: Int16): Level {
    Min(Abs(x), INT16_MAX)
  }

  /** The largest magnitude in a block of samples. */
  function Peak(samples: seq<Int16>): (p: Level)
    ensures forall i :: 0 <= i < |samples| ==> Magnitude(samples[i]) <= p
    ensures samples != [] ==> exists i :: 0 <= i < |samples| && p == Magnitude(samples[i])
  {
    if samples == [] then 0
    else
      var rest := Peak(samples[..|samples| - 1]);
      if Magnitude(samples[|samples| - 1]) > rest
      then Magnitude(samples[|samples| - 1])
      else assert samples[..|samples| - 1] == [] ==> Magnitude(samples[0]) == rest; rest
  }

  /** The sample lies between -m and m, or is the one whose magnitude is clipped. */
  predicate Fits(x: int, m: int) {
    -m <= x <= m || (x == -32768 && m == 32767)
  }

  /** WebRtcSpl_MaxAbsValueW16: the maximum is taken first and clipped last. */
  method MaxAbsValueW16(samples: seq<Int16>) returns (m: Level)
    requires samples != []
    ensures m == Peak(samples)
    ensures forall i :: 0 <= i < |samples| ==> Fits(samples[i], m)
    ensures exists i :: 0 <= i < |samples| && Fits(samples[i], m) && (m == 0 || !Fits(samples[i], m - 1))
  {
    var maximum := 0;
    var i := 0;
    while i < |samples|
      invariant 0 <= i <= |samples| && 0 <= maximum <= 32768
      invariant Min(maximum, INT16_MAX) == Peak(samples[..i])
    {
      var absolute := Abs(samples[i]);
      assert samples[..i + 1][..i] == samples[..i];
      if absolute > maximum {
        maximum := absolute;
      }
      i := i + 1;
    }
    assert samples[..i] == samples;
    m := Min(maximum, INT16_MAX);
  }

  // The meter as a state machine.

  /** The windowed maximum. */
  datatype Gauge = Gauge(absMax: Level, count: nat, level: Level)

  datatype Meter = Meter(gauge: Gauge, energy: real, duration: real)

  datatype Event =
    | Frame(peak: Level, length: real)
    | ResetLevelFullRange
    | Reset

  const ZERO_GAUGE := Gauge(0, 0, 0)

  function NextGauge(g: Gauge, peak: Level): Gauge {
    var absMax := Max(g.absMax, peak);
    if g.count == UPDATE_FREQUENCY
    then Gauge(absMax / 4, 0, absMax)
    else Gauge(absMax, g.count + 1, g.level)
  }

  /** The energy a frame adds while the meter shows `level`. */
  function FrameEnergy(level: Level, length: real): real {
    var normalized := level as real / 32767.0;
    normalized * normalized * length
  }

  function Step(m: Meter, e: Event): Meter {
    match e
    case Frame(peak, length) =>
      var gauge := NextGauge(m.gauge, peak);
      Meter(gauge, m.energy + FrameEnergy(gauge.level, length), m.duration + length)
    case ResetLevelFullRange => m.(gauge := ZERO_GAUGE)
    case Reset => Meter(ZERO_GAUGE, 0.0, 0.0)
  }

  function Run(log: seq<Event>): Meter {
    if log == [] then Meter(ZERO_GAUGE, 0.0, 0.0) else Step(Run(log[..|log| - 1]), log[|log| - 1])
  }

  /** The peaks of all frames since the last reset of either kind. */
  function Peaks(log: seq<Event>): seq<Level> {
    if log == [] then []
    else if log[|log| - 1].Frame? then Peaks(log[..|log| - 1]) + [log[|log| - 1].peak]
    else []
  }

  // The level over a history of peaks.

  function Largest(h: seq<Level>): Level {
    if h == [] then 0 else Max(Largest(h[..|h| - 1]), h[|h| - 1])
  }

  /** x >> bits. */
  function ShiftRight(x: nat, bits: nat): nat {
    if bits == 0 then x else ShiftRight(x, bits - 1) / 2
  }

  /** The largest peak in the i-th window of 11 frames. */
  function WindowPeak(h: seq<Level>, i: nat): Level
    requires WINDOW * (i + 1) <= |h|
  {
    Largest(h[WINDOW * i..WINDOW * (i + 1)])
  }

  /** The contribution of the window k windows before the newest complete one, of n. */
  function Contribution(h: seq<Level>, n: nat, k: nat): nat
    requires k < n && WINDOW * n <= |h|
  {
    ShiftRight(WindowPeak(h, n - 1 - k), 2 * k)
  }

  /** v is the maximum over k of the peak of window n-1-k shifted right by 2k bits. */
  ghost predicate IsDecayed(h: seq<Level>, n: nat, v: nat)
    requires WINDOW * n <= |h|
  {
    && (forall k :: 0 <= k < n ==> Contribution(h, n, k) <= v)
    && (if n == 0 then v == 0 else exists k :: 0 <= k < n && Contribution(h, n, k) == v)
  }

  /** The running form of the same maximum. */
  function Decayed(h: seq<Level>, n: nat): Level
    requires WINDOW * n <= |h|
  {
    if n == 0 then 0 else Max(WindowPeak(h, n - 1), Decayed(h, n - 1) / 4)
  }

  lemma OlderContribution(h: seq<Level>, n: nat, k: nat)
    requires 0 <= k < n && WINDOW * (n + 1) <= |h|
    ensures Contribution(h, n + 1, k + 1) == Contribution(h, n, k) / 4
  {
    var x, bits := WindowPeak(h, n - 1 - k), 2 * k;
    assert ShiftRight(x, bits + 2) == ShiftRight(x, bits + 1) / 2;
    assert ShiftRight(x, bits + 1) == ShiftRight(x, bits) / 2;
  }

  /** The running maximum with in-place decay is the maximum over the whole history. */
  lemma {:induction false} DecayedIsMaximum(h: seq<Level>, n: nat)
    requires WINDOW * n <= |h|
    ensures IsDecayed(h, n, Decayed(h, n))
  {
    if n == 0 {
    } else {
      DecayedIsMaximum(h, n - 1);
      var v, older := Decayed(h, n), Decayed(h, n - 1);
      assert Contribution(h, n, 0) == WindowPeak(h, n - 1);
      forall k | 0 <= k < n ensures Contribution(h, n, k) <= v {
        if k > 0 {
          OlderContribution(h, n - 1, k - 1);
          assert Contribution(h, n - 1, k - 1) <= older;
        }
      }
      if v != WindowPeak(h, n - 1) {
        var k :| 0 <= k < n - 1 && Contribution(h, n - 1, k) == older;
        OlderContribution(h, n - 1, k);
        assert Contribution(h, n, k + 1) == v;
      }
    }
  }

  // The meter computes it.

  /** The part of the history after the last complete window. */
  function OpenWindow(h: seq<Level>): seq<Level> {
    h[WINDOW * (|h| / WINDOW)..]
  }

  ghost predicate Tracks(g: Gauge, h: seq<Level>) {
    var n := |h| / WINDOW;
    && g.count == |h| % WINDOW
    && g.level == Decayed(h, n)
    && g.absMax == Max(Largest(OpenWindow(h)), Decayed(h, n) / 4)
  }

  lemma {:induction false} DecayedPrefix(h: seq<Level>, h': seq<Level>, n: nat)
    requires h <= h' && WINDOW * n <= |h|
    ensures Decayed(h', n) == Decayed(h, n)
  {
    if n == 0 {
    } else {
      DecayedPrefix(h, h', n - 1);
      assert h'[WINDOW * (n - 1)..WINDOW * n] == h[WINDOW * (n - 1)..WINDOW * n];
    }
  }

  lemma LongerHistory(length: nat)
    ensures if length % WINDOW == UPDATE_FREQUENCY
            then (length + 1) % WINDOW == 0 && (length + 1) / WINDOW == length / WINDOW + 1
                 && WINDOW * (length / WINDOW + 1) == length + 1
            else (length + 1) % WINDOW == length % WINDOW + 1 && (length + 1) / WINDOW == length / WINDOW
  {
  }

  lemma FrameTracks(g: Gauge, h: seq<Level>, peak: Level)
    requires Tracks(g, h)
    ensures Tracks(NextGauge(g, peak), h + [peak])
  {
    LongerHistory(|h|);
    LargestOfOpenWindow(h, peak);
    DecayedPrefix(h, h + [peak], |h| / WINDOW);
    if g.count == UPDATE_FREQUENCY {
      FrameCompletesWindow(h, peak);
    }
    hide Largest, Decayed;
  }

  lemma LargestOfOpenWindow(h: seq<Level>, peak: Level)
    ensures Largest((h + [peak])[WINDOW * (|h| / WINDOW)..]) == Max(Largest(OpenWindow(h)), peak)
  {
    var open := (h + [peak])[WINDOW * (|h| / WINDOW)..];
    assert open[..|open| - 1] == OpenWindow(h);
  }

  lemma FrameCompletesWindow(h: seq<Level>, peak: Level)
    requires |h| % WINDOW == UPDATE_FREQUENCY
    ensures var h', n := h + [peak], |h| / WINDOW;
            && WINDOW * (n + 1) <= |h'|
            && Decayed(h', n + 1) == Max(Largest(h'[WINDOW * n..]), Decayed(h', n) / 4)
            && Largest(OpenWindow(h')) == 0
  {
    LongerHistory(|h|);
    var h', n := h + [peak], |h| / WINDOW;
    assert h'[WINDOW * n..WINDOW * (n + 1)] == h'[WINDOW * n..];
    assert OpenWindow(h') == [];
  }

  lemma {:induction false} RunTracks(log: seq<Event>)
    ensures Tracks(Run(log).gauge, Peaks(log))
  {
    if log == [] {
    } else {
      var init, last := log[..|log| - 1], log[|log| - 1];
      RunTracks(init);
      if last.Frame? {
        FrameTracks(Run(init).gauge, Peaks(init), last.peak);
      }
    }
  }

  /** After any run the level is the maximum over k of the peak of the 11-frame window k windows
      before the newest complete one, shifted right by 2k bits; 0 before the first window is full. */
  lemma LevelIsClosedForm(log: seq<Event>)
    ensures IsDecayed(Peaks(log), |Peaks(log)| / WINDOW, Run(log).gauge.level)
  {
    RunTracks(log);
    DecayedIsMaximum(Peaks(log), |Peaks(log)| / WINDOW);
  }

  // Silence.

  function Silence(n: nat): seq<Event> {
    seq(n, _ => Frame(0, 0.0))
  }

  ghost predicate AllSilent(frames: seq<Event>) {
    forall i :: 0 <= i < |frames| ==> frames[i].Frame? && frames[i].peak == 0
  }

  lemma {:induction false} PeaksOfSilence(log: seq<Event>, frames: seq<Event>)
    requires AllSilent(frames)
    ensures var h := Peaks(log + frames);
            Peaks(log) <= h && |h| == |Peaks(log)| + |frames|
            && forall i :: |Peaks(log)| <= i < |h| ==> h[i] == 0
  {
    if frames == [] {
      assert log + frames == log;
    } else {
      var init := frames[..|frames| - 1];
      assert (log + frames)[..|log + frames| - 1] == log + init;
      PeaksOfSilence(log, init);
    }
  }

  lemma {:induction false} LargestOfZeros(h: seq<Level>)
    requires forall i :: 0 <= i < |h| ==> h[i] == 0
    ensures Largest(h) == 0
  {
    if h == [] {
    } else {
      LargestOfZeros(h[..|h| - 1]);
    }
  }

  function Pow2(k: nat): nat {
    if k == 0 then 1 else 2 * Pow2(k - 1)
  }

  lemma {:induction false} ShiftBounded(x: nat, size: nat, bits: nat)
    requires x < Pow2(size) && bits <= size
    ensures ShiftRight(x, bits) < Pow2(size - bits)
  {
    if bits == 0 {
    } else {
      ShiftBounded(x, size, bits - 1);
    }
  }

  lemma {:induction false} ShiftVanishes(x: Level, bits: nat)
    requires bits >= 15
    ensures ShiftRight(x, bits) == 0
  {
    if bits == 15 {
      assert Pow2(15) == 32768;
      ShiftBounded(x, 15, 15);
    } else {
      ShiftVanishes(x, bits - 1);
    }
  }

  lemma {:induction false} ShiftOfZero(bits: nat)
    ensures ShiftRight(0, bits) == 0
  {
    if bits == 0 {
    } else {
      ShiftOfZero(bits - 1);
    }
  }

  /** Among the newest 8 windows after 98 silent frames, each one is silent. */
  lemma RecentWindowIsSilent(before: nat, silent: nat, n: nat, k: nat)
    requires silent >= 98 && n == (before + silent) / WINDOW && k < n && k < 8
    ensures WINDOW * (n - 1 - k) >= before
  {
  }

  /** Whatever came before, 98 or more silent frames in a row bring the level to 0. */
  lemma SilenceIsReached(log: seq<Event>, frames: seq<Event>)
    requires AllSilent(frames) && |frames| >= 98
    ensures Run(log + frames).gauge.level == 0
  {
    hide Run, Peaks, ShiftRight, Largest;
    var h, before := Peaks(log + frames), |Peaks(log)|;
    var n := |h| / WINDOW;
    PeaksOfSilence(log, frames);
    LevelIsClosedForm(log + frames);
    forall k | 0 <= k < n ensures Contribution(h, n, k) == 0 {
      if k >= 8 {
        ShiftVanishes(WindowPeak(h, n - 1 - k), 2 * k);
      } else {
        var i := n - 1 - k;
        RecentWindowIsSilent(before, |frames|, n, k);
        LargestOfZeros(h[WINDOW * i..WINDOW * (i + 1)]);
        ShiftOfZero(2 * k);
      }
    }
  }

  /** One frame fewer is not always enough: after a full-scale frame and 97 silent ones the level
      is still above 0. */
  lemma NinetySevenSilentFramesAreNotEnough()
    ensures AllSilent(Silence(97)) && Run([Frame(INT16_MAX, 0.0)] + Silence(97)).gauge.level > 0
  {
    var loud := [Frame(INT16_MAX, 0.0)];
    var log := loud + Silence(97);
    var h := Peaks(log);
    assert loud[..0] == [];
    assert Peaks(loud) == [INT16_MAX];
    PeaksOfSilence(loud, Silence(97));
    assert |h| == 98;
    LevelIsClosedForm(log);
    assert h[0] == INT16_MAX;
    LargestIsAtLeast(h[WINDOW * 0..WINDOW * 1], 0);
    assert WindowPeak(h, 0) == INT16_MAX;
    assert Contribution(h, 8, 7) == ShiftRight(INT16_MAX, 14) == 1;
  }

  lemma {:induction false} LargestIsAtLeast(h: seq<Level>, i: nat)
    requires i < |h|
    ensures Largest(h) >= h[i]
  {
    if i == |h| - 1 {
    } else {
      LargestIsAtLeast(h[..|h| - 1], i);
    }
  }

  // Energy.

  ghost predicate NonNegativeDurations(log: seq<Event>) {
    forall i :: 0 <= i < |log| && log[i].Frame? ==> log[i].length >= 0.0
  }

  /** The energy of a frame is the square of its normalized level times its length. */
  lemma FrameEnergyIsSquare(level: Level, length: real)
    ensures FrameEnergy(level, length) * (32767.0 * 32767.0) == (level as real) * (level as real) * length
  {
    var x := level as real / 32767.0;
    assert x * 32767.0 == level as real;
    SquareOfProduct(x, 32767.0, length);
  }

  lemma SquareOfProduct(x: real, y: real, z: real)
    ensures (x * x * z) * (y * y) == (x * y) * (x * y) * z
  {
  }

  lemma SumTimes(x: real, y: real, z: real)
    ensures (x + y) * z == x * z + y * z
  {
  }

  /** The events since the last Reset. */
  function SinceReset(log: seq<Event>): nat {
    if log == [] then 0 else if log[|log| - 1].Reset? then |log| else SinceReset(log[..|log| - 1])
  }

  lemma {:induction false} SinceResetIsLast(log: seq<Event>)
    ensures SinceReset(log) <= |log|
    ensures SinceReset(log) > 0 ==> log[SinceReset(log) - 1].Reset?
    ensures forall i :: SinceReset(log) <= i < |log| ==> !log[i].Reset?
  {
    if log == [] {
    } else {
      SinceResetIsLast(log[..|log| - 1]);
    }
  }

  /** The level the meter shows after the i-th event, squared, times the length of that event. */
  function WeightedSquare(log: seq<Event>, i: nat): real
    requires i < |log|
  {
    var level := Run(log[..i + 1]).gauge.level as real;
    if log[i].Frame? then level * level * log[i].length else 0.0
  }

  /** The sum over the events from `from` up to `to`. */
  function SumOfSquares(log: seq<Event>, from: nat, to: nat): real
    requires to <= |log|
  {
    if to <= from then 0.0 else SumOfSquares(log, from, to - 1) + WeightedSquare(log, to - 1)
  }

  function SumOfLengths(log: seq<Event>, from: nat, to: nat): real
    requires to <= |log|
  {
    if to <= from then 0.0
    else SumOfLengths(log, from, to - 1) + if log[to - 1].Frame? then log[to - 1].length else 0.0
  }

  lemma {:induction false} SumsOfPrefix(log: seq<Event>, longer: seq<Event>, from: nat, to: nat)
    requires to <= |log| && log <= longer
    ensures SumOfSquares(longer, from, to) == SumOfSquares(log, from, to)
    ensures SumOfLengths(longer, from, to) == SumOfLengths(log, from, to)
  {
    hide Run;
    if to <= from {
    } else {
      SumsOfPrefix(log, longer, from, to - 1);
      assert log[..to] == longer[..to];
    }
  }

  /** After any run the totals are sums over the frames since the last Reset: of the squares of the
      levels shown, in units of the full scale, times the lengths; and of the lengths. */
  lemma {:induction false} TotalsAreSums(log: seq<Event>)
    ensures Run(log).energy * (32767.0 * 32767.0) == SumOfSquares(log, SinceReset(log), |log|)
    ensures Run(log).duration == SumOfLengths(log, SinceReset(log), |log|)
  {
    hide NextGauge, FrameEnergy;
    if log == [] {
    } else {
      var init, last := log[..|log| - 1], log[|log| - 1];
      TotalsAreSums(init);
      assert log[..|log|] == log;
      if !last.Reset? {
        SumsOfPrefix(init, log, SinceReset(init), |init|);
        SinceResetIsLast(init);
        if last.Frame? {
          FrameEnergyIsSquare(Run(log).gauge.level, last.length);
          SumTimes(Run(init).energy, FrameEnergy(Run(log).gauge.level, last.length), 32767.0 * 32767.0);
        }
      }
    }
  }

  /** A Reset makes the meter forget everything. */
  lemma {:induction false} ResetForgets(log: seq<Event>, more: seq<Event>)
    ensures Run(log + [Reset] + more) == Run(more)
  {
    hide NextGauge, FrameEnergy;
    if more == [] {
      assert log + [Reset] + more == log + [Reset];
    } else {
      ResetForgets(log, more[..|more| - 1]);
      assert (log + [Reset] + more)[..|log| + |more|] == log + [Reset] + more[..|more| - 1];
    }
  }

  /** ResetLevelFullRange makes it forget the level, and keeps the totals. */
  lemma {:induction false} LevelResetForgets(log: seq<Event>, more: seq<Event>)
    ensures var m := Run(log + [ResetLevelFullRange] + more);
            && m.gauge == Run(more).gauge
            && (SinceReset(more) == 0 ==>
                  && m.energy == Run(log).energy + Run(more).energy
                  && m.duration == Run(log).duration + Run(more).duration)
  {
    hide NextGauge, FrameEnergy;
    var start := log + [ResetLevelFullRange];
    if more == [] {
      assert start + more == start && start[..|log|] == log;
    } else {
      var init := more[..|more| - 1];
      LevelResetForgets(log, init);
      assert (start + more)[..|log| + |more|] == start + init;
    }
  }

  lemma ScaledByFraction(x: real, y: real)
    requires 0.0 <= x <= 1.0 && y >= 0.0
    ensures 0.0 <= x * y <= y
  {
  }

  lemma EnergyOfFrame(level: Level, length: real)
    requires length >= 0.0
    ensures 0.0 <= FrameEnergy(level, length) <= length
  {
    var x := level as real / 32767.0;
    assert 0.0 <= x <= 1.0;
    ScaledByFraction(x, x);
    var square := x * x;
    ScaledByFraction(square, length);
    assert FrameEnergy(level, length) == square * length;
  }

  /** For non-negative durations the total energy never exceeds the total duration, and no frame
      lowers either total. */
  lemma {:induction false} EnergyIsBounded(log: seq<Event>)
    requires NonNegativeDurations(log)
    ensures 0.0 <= Run(log).energy <= Run(log).duration
    ensures log != [] && !log[|log| - 1].Reset? ==>
              && Run(log[..|log| - 1]).energy <= Run(log).energy
              && Run(log[..|log| - 1]).duration <= Run(log).duration
  {
    if log == [] {
    } else {
      var last := log[|log| - 1];
      EnergyIsBounded(log[..|log| - 1]);
      if last.Frame? {
        EnergyOfFrame(Run(log).gauge.level, last.length);
      }
    }
  }

  class AudioLevel {
    var absMax: Level
    var count: nat
    var currentLevelFullRange: Level
    var totalEnergy: real
    var totalDuration: real
    /** Everything that happened to this meter, in order. */
    ghost var log: seq<Event>

    ghost predicate Valid()
      reads this
    {
      Run(log) == Meter(Gauge(absMax, count, currentLevelFullRange), totalEnergy, totalDuration)
    }

    constructor ()
      ensures Valid() && log == []
    {
      absMax, count, currentLevelFullRange := 0, 0, 0;
      totalEnergy, totalDuration := 0.0, 0.0;
      log := [];
    }

    method LevelFullRange() returns (level: Level)
      requires Valid()
      ensures IsDecayed(Peaks(log), |Peaks(log)| / WINDOW, level)
    {
      LevelIsClosedForm(log);
      level := currentLevelFullRange;
    }

    method TotalEnergy() returns (energy: real)
      requires Valid()
      ensures energy * (32767.0 * 32767.0) == SumOfSquares(log, SinceReset(log), |log|)
    {
      TotalsAreSums(log);
      energy := totalEnergy;
    }

    method TotalDuration() returns (duration: real)
      requires Valid()
      ensures duration == SumOfLengths(log, SinceReset(log), |log|)
    {
      TotalsAreSums(log);
      duration := totalDuration;
    }

    method ResetAll()
      requires Valid()
      modifies this
      ensures Valid() && log == old(log) + [Reset]
    {
      absMax, count, currentLevelFullRange := 0, 0, 0;
      totalEnergy, totalDuration := 0.0, 0.0;
      log := log + [Reset];
    }

    method ResetLevel()
      requires Valid()
      modifies this
      ensures Valid() && log == old(log) + [ResetLevelFullRange]
    {
      absMax, count, currentLevelFullRange := 0, 0, 0;
      assert (log + [ResetLevelFullRange])[..|log|] == log;
      log := log + [ResetLevelFullRange];
    }

    /** A muted frame counts as silence; any other frame has samples. */
    method ComputeLevel(muted: bool, samples: seq<Int16>, duration: real)
      requires Valid()
      requires muted || samples != []
      modifies this
      ensures Valid() && log == old(log) + [Frame(if muted then 0 else Peak(samples), duration)]
    {
      var absValue: Level := 0;
      if !muted {
        absValue := MaxAbsValueW16(samples);
      }
      if absValue > absMax {
        absMax := absValue;
      }
      if count == UPDATE_FREQUENCY {
        currentLevelFullRange := absMax;
        count := 0;
        absMax := absMax / 4;
      } else {
        count := count + 1;
      }
      totalEnergy := totalEnergy + FrameEnergy(currentLevelFullRange, duration);
      totalDuration := totalDuration + duration;
      assert (log + [Frame(absValue, duration)])[..|log|] == log;
      log := log + [Frame(absValue, duration)];
    }
  }
}
