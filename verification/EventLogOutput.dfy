/**
 The size-capped event-log output (api/rtc_event_log_output_file.cc).

 `Run` is the bookkeeping as the code does it, with size_t additions that wrap;
 `Accepted` says, with unbounded sums over the whole log, which writes succeed.
 */
module EventLogOutput {

  const SIZE_MODULUS: nat := 0x1_0000_0000_0000_0000
  const MAX_REASONABLE_FILE_SIZE: nat := (SIZE_MODULUS - 1) / 2
  const UNLIMITED_OUTPUT: nat := 0

  /** One call of Write: the bytes, and whether the file took all of them. */
  datatype Attempt = Attempt(output: seq<bv8>, fileTakesIt: bool)

  /** The mutable part of an output. */
  datatype Progress = Progress(writtenBytes: nat, open: bool)

  /** Addition of two size_t values. */
  function AddSize(a: nat, b: nat): nat {
    (a + b) % SIZE_MODULUS
  }

  function Write(max: nat, p: Progress, a: Attempt): Progress {
    if (max == UNLIMITED_OUTPUT || AddSize(p.writtenBytes, |a.output|) <= max) && a.fileTakesIt
    then p.(writtenBytes := AddSize(p.writtenBytes, |a.output|))
    else p.(open := false)
  }

  function Run(max: nat, log: seq<Attempt>): Progress {
    if log == [] then Progress(0, true) else Write(max, Run(max, log[..|log| - 1]), log[|log| - 1])
  }

  function TotalLength(log: seq<Attempt>): nat {
    if log == [] then 0 else TotalLength(log[..|log| - 1]) + |log[|log| - 1].output|
  }

  /** Whether the i-th write of a log succeeds, by the true total of all bytes up to it. */
  predicate Accepted(max: nat, log: seq<Attempt>, i: nat)
    requires i < |log|
  {
    log[i].fileTakesIt && (max == UNLIMITED_OUTPUT || TotalLength(log[..i + 1]) <= max)
  }

  /** A log the class's callers may produce: every write is made on an active output and is of
      reasonable length, so every write but the last one succeeded. */
  ghost predicate Permitted(max: nat, log: seq<Attempt>) {
    && (forall i :: 0 <= i < |log| ==> |log[i].output| < MAX_REASONABLE_FILE_SIZE)
    && (forall i :: 0 <= i < |log| - 1 ==> Accepted(max, log, i))
  }

  lemma PermittedPrefix(max: nat, log: seq<Attempt>)
    requires Permitted(max, log) && log != []
    ensures Permitted(max, log[..|log| - 1])
    ensures |log| > 1 ==> Accepted(max, log[..|log| - 1], |log| - 2)
  {
    var init := log[..|log| - 1];
    forall i | 0 <= i < |init|
      ensures Accepted(max, init, i)
    {
      assert Accepted(max, log, i);
      assert init[..i + 1] == log[..i + 1];
    }
  }

  /**
   Over any run of permitted writes: the output is active exactly until a write is refused, and
   what has been counted is the total length of the successful writes, within the limit if there
   is one and modulo the width of size_t if there is none.
   */
  lemma {:induction false} RunAccounting(max: nat, log: seq<Attempt>)
    requires max <= MAX_REASONABLE_FILE_SIZE && Permitted(max, log)
    ensures var p := Run(max, log);
            var taken := if log == [] || Accepted(max, log, |log| - 1) then log else log[..|log| - 1];
            && (p.open <==> taken == log)
            && (max == UNLIMITED_OUTPUT ==> p.writtenBytes == TotalLength(taken) % SIZE_MODULUS)
            && (max != UNLIMITED_OUTPUT ==> p.writtenBytes == TotalLength(taken) <= max)
  {
    if log == [] {
    } else {
      var init, last := log[..|log| - 1], log[|log| - 1];
      PermittedPrefix(max, log);
      RunAccounting(max, init);
      assert log[..|log|] == log;
      assert Accepted(max, log, |log| - 1) <==>
             last.fileTakesIt && (max == UNLIMITED_OUTPUT || TotalLength(log) <= max);
      if max == UNLIMITED_OUTPUT {
        WrappedAddition(TotalLength(init), |last.output|);
      } else {
        PlainAddition(TotalLength(init), |last.output|);
      }
    }
  }

  lemma PlainAddition(a: nat, b: nat)
    requires a <= MAX_REASONABLE_FILE_SIZE && b < MAX_REASONABLE_FILE_SIZE
    ensures AddSize(a, b) == a + b
  {
  }

  lemma WrappedAddition(a: nat, b: nat)
    ensures AddSize(a % SIZE_MODULUS, b) == (a + b) % SIZE_MODULUS
  {
    assert a == SIZE_MODULUS * (a / SIZE_MODULUS) + a % SIZE_MODULUS;
  }

  /** On a limited output the capacity check never wraps around, whatever came before. */
  lemma CapacityCheckDoesNotOverflow(max: nat, log: seq<Attempt>, next: Attempt)
    requires max != UNLIMITED_OUTPUT && max <= MAX_REASONABLE_FILE_SIZE && Permitted(max, log)
    requires |next.output| < MAX_REASONABLE_FILE_SIZE
    ensures AddSize(Run(max, log).writtenBytes, |next.output|) == Run(max, log).writtenBytes + |next.output|
  {
    RunAccounting(max, log);
  }

  class RtcEventLogOutputFile {
    const maxSizeBytes: nat
    var writtenBytes: nat
    var fileOpen: bool
    /** Every write so far, in order. */
    ghost var log: seq<Attempt>

    ghost predicate Valid()
      reads this
    {
      && maxSizeBytes <= MAX_REASONABLE_FILE_SIZE
      && Permitted(maxSizeBytes, log)
      && (log != [] ==> Run(maxSizeBytes, log) == Progress(writtenBytes, fileOpen))
      && (log == [] ==> writtenBytes == 0)
    }

    /** `isOpen`: whether the file could be opened; an output on an invalid file starts inactive. */
    constructor (isOpen: bool, maxSize: nat)
      requires maxSize <= MAX_REASONABLE_FILE_SIZE
      ensures Valid() && log == [] && maxSizeBytes == maxSize && fileOpen == isOpen
    {
      maxSizeBytes := maxSize;
      writtenBytes := 0;
      fileOpen := isOpen;
      log := [];
    }

    method IsActive() returns (active: bool)
      requires Valid()
      ensures log != [] ==> (active <==> Accepted(maxSizeBytes, log, |log| - 1))
      ensures active <==> fileOpen
    {
      if log != [] {
        RunAccounting(maxSizeBytes, log);
      }
      active := fileOpen;
    }

    method Write(output: seq<bv8>, fileTakesIt: bool) returns (ok: bool)
      requires Valid() && fileOpen
      requires |output| < MAX_REASONABLE_FILE_SIZE
      modifies this
      ensures Valid() && log == old(log) + [Attempt(output, fileTakesIt)]
      ensures ok == fileOpen == Accepted(maxSizeBytes, log, |log| - 1)
      ensures writtenBytes == if ok then AddSize(old(writtenBytes), |output|) else old(writtenBytes)
    {
      ghost var before := log;
      RunAccounting(maxSizeBytes, before);
      log := log + [Attempt(output, fileTakesIt)];
      assert log[..|before|] == before;
      ExtendPermitted(maxSizeBytes, before, log);
      RunAccounting(maxSizeBytes, log);
      if maxSizeBytes == UNLIMITED_OUTPUT || AddSize(writtenBytes, |output|) <= maxSizeBytes {
        if fileTakesIt {
          writtenBytes := AddSize(writtenBytes, |output|);
          return true;
        }
      }
      fileOpen := false;
      return false;
    }
  }

  lemma ExtendPermitted(max: nat, before: seq<Attempt>, log: seq<Attempt>)
    requires |log| == |before| + 1 && log[..|before|] == before
    requires |log[|before|].output| < MAX_REASONABLE_FILE_SIZE
    requires Permitted(max, before)
    requires before != [] ==> Accepted(max, before, |before| - 1)
    ensures Permitted(max, log)
  {
    forall i | 0 <= i < |log| - 1
      ensures Accepted(max, log, i)
    {
      assert Accepted(max, before, i);
      assert log[..i + 1] == before[..i + 1];
      assert log[i] == before[i];
    }
    forall i | 0 <= i < |log|
      ensures |log[i].output| < MAX_REASONABLE_FILE_SIZE
    {
      if i < |before| {
        assert log[i] == before[i];
      }
    }
  }
}
