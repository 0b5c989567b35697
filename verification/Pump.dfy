/** The recorder's buffer pump as a transition system: two buffers circulate
    between the platform's read callbacks and the buffer event handler until a
    stop, after which the header is patched and the file closed. */
module Pump {
  import opened Options
  import opened Sequences

  const WORD := 0x1_0000_0000
  const HEADER := 44
  const BUFFERS := 2

  /** A 32-bit unsigned result. */
  function Wrap(n: nat): (r: nat)
    ensures r < WORD && (n < WORD ==> r == n)
  {
    if n < WORD then n else Wrap(n - WORD)
  }

  lemma {:induction false} WrapIsModulo(n: nat)
    ensures Wrap(n) == n % WORD
  {
    if n >= WORD {
      WrapIsModulo(n - WORD);
      assert n % WORD == (n - WORD) % WORD;
    }
  }

  lemma {:induction false} WrapAdds(n: nat, m: nat)
    ensures Wrap(Wrap(n) + m) == Wrap(n + m)
    decreases n
  {
    if n >= WORD {
      WrapAdds(n - WORD, m);
    }
  }

  type Buffer = nat

  datatype Outcome = Stopped | Error

  /** `size` is the buffer's read size, `maxFileBytes` the configured limit; both 32 bits. */
  datatype Config = Config(size: nat, maxFileBytes: nat)

  /** The pump. `inFlight` are the reads the platform holds, `reporting` the callbacks
      that have queued their buffer but not yet posted their event, and `events` the
      posted events, each with whether its stream pointer was set. */
  datatype State = State(
    recording: bool, recError: bool, fileOpen: bool, streamSet: bool,
    finalising: bool, faulted: bool,
    recorded: nat, free: seq<Buffer>, inFlight: set<Buffer>,
    reporting: nat, events: seq<bool>,
    written: nat, lost: nat, dataSize: nat, riffSize: nat,
    starts: nat, finalised: nat, outcome: Option<Outcome>)

  /** One atomic action of the main thread, a platform thread or the buffer thread. */
  datatype Step =
    | Start(first: Buffer, second: Buffer)
    | Deliver(buffer: Buffer, ok: bool, bytes: nat, stored: nat)
    | Report
    | Handle(captureOk: bool)
    | Finish
    | Stop

  predicate ConfigOk(c: Config) {
    0 < c.size < WORD && 0 < c.maxFileBytes < WORD
  }

  predicate Enabled(s: State, c: Config, a: Step) {
    match a
    case Start(x, y) => !s.recording && x != y && x !in s.inFlight && y !in s.inFlight
    case Deliver(b, _, n, w) => b in s.inFlight && w <= n <= c.size
    case Report => s.reporting > 0
    case Handle(_) => s.events != [] && !s.finalising && !s.faulted
    case Finish => s.finalising && |s.free| == BUFFERS
    case Stop => s.recording
  }

  function Started(s: State, x: Buffer, y: Buffer): State {
    s.(recording := true, fileOpen := true, streamSet := true, recorded := 0,
       free := [], inFlight := s.inFlight + {x, y}, written := 0, lost := 0,
       dataSize := 0, riffSize := HEADER - 8, starts := s.starts + 1)
  }

  function Delivered(s: State, b: Buffer, ok: bool, n: nat, w: nat): State
    requires w <= n
  {
    var t := s.(free := s.free + [b], inFlight := s.inFlight - {b}, reporting := s.reporting + 1);
    if ok then t.(recorded := Wrap(s.recorded + n), written := s.written + w, lost := s.lost + (n - w))
    else t.(recording := false, recError := true)
  }

  function Reported(s: State): State
    requires s.reporting > 0
  {
    s.(reporting := s.reporting - 1, events := s.events + [s.streamSet])
  }

  /** The size test, in 32-bit unsigned arithmetic. */
  predicate LimitReached(c: Config, recorded: nat) {
    Wrap(recorded + HEADER + 2 * c.size) >= c.maxFileBytes
  }

  function Handled(s: State, c: Config, captureOk: bool): State
    requires s.events != []
  {
    var t := s.(events := s.events[1..]);
    if !s.events[0] then t.(faulted := true)
    else if !s.fileOpen then t
    else if !captureOk then t.(recording := false, recError := true, finalising := true)
    else if !s.recording then t.(finalising := true)
    else if LimitReached(c, s.recorded) then t.(recording := false, events := t.events + [true])
    else if s.free != [] then t.(free := s.free[1..], inFlight := s.inFlight + {s.free[0]})
    else t
  }

  function Finished(s: State): State {
    s.(dataSize := s.recorded, riffSize := Wrap(s.recorded + HEADER - 8),
       fileOpen := false, streamSet := false, finalising := false, recError := false,
       finalised := s.finalised + 1,
       outcome := Some(if s.recorded == 0 || s.recError then Error else Stopped))
  }

  function Next(s: State, c: Config, a: Step): State
    requires Enabled(s, c, a)
  {
    match a
    case Start(x, y) => Started(s, x, y)
    case Deliver(b, ok, n, w) => Delivered(s, b, ok, n, w)
    case Report => Reported(s)
    case Handle(ok) => Handled(s, c, ok)
    case Finish => Finished(s)
    case Stop => s.(recording := false)
  }

  const INITIAL := State(false, false, false, false, false, false, 0, [], {}, 0, [],
                         0, 0, 0, 0, 0, 0, None)

  // ----- Runs -----

  predicate IsRun(s: State, c: Config, run: seq<Step>)
    decreases |run|
  {
    run == [] || (Enabled(s, c, run[0]) && IsRun(Next(s, c, run[0]), c, run[1..]))
  }

  function End(s: State, c: Config, run: seq<Step>): State
    requires IsRun(s, c, run)
    decreases |run|
  {
    if run == [] then s else End(Next(s, c, run[0]), c, run[1..])
  }

  lemma {:induction false} RunConcat(s: State, c: Config, a: seq<Step>, b: seq<Step>)
    requires IsRun(s, c, a) && IsRun(End(s, c, a), c, b)
    ensures IsRun(s, c, a + b) && End(s, c, a + b) == End(End(s, c, a), c, b)
    decreases |a|
  {
    if a == [] {
      assert a + b == b;
    } else {
      RunConcat(Next(s, c, a[0]), c, a[1..], b);
      assert (a + b)[0] == a[0] && (a + b)[1..] == a[1..] + b;
    }
  }

  // ----- Conservation -----

  /** While a file is open the two buffers of its recording are each in exactly one place and
      every free buffer has an event to come; a closed file leaves no read behind;
      every recording but an open one has been finalised. */
  ghost predicate Conserved(s: State) {
    && Distinct(s.free)
    && (forall b <- s.free :: b !in s.inFlight)
    && (s.fileOpen ==> |s.free| + |s.inFlight| == BUFFERS && s.streamSet)
    && (s.fileOpen && !s.finalising && !s.faulted ==> |s.events| + s.reporting >= |s.free|)
    && (!s.fileOpen ==> s.inFlight == {} && !s.recording && !s.finalising)
    && (s.finalising ==> !s.recording)
    && s.starts == s.finalised + (if s.fileOpen then 1 else 0)
    && s.recorded == Wrap(s.written + s.lost)
  }

  /** No event carries, or is about to carry, a null stream. */
  ghost predicate NoNullEvent(s: State) {
    && !s.faulted
    && (forall e <- s.events :: e)
    && (s.reporting > 0 ==> s.streamSet)
  }

  lemma DeliverConserves(s: State, c: Config, a: Step)
    requires Conserved(s) && a.Deliver? && Enabled(s, c, a)
    ensures Conserved(Next(s, c, a))
  {
    assert |s.inFlight - {a.buffer}| == |s.inFlight| - 1;
    WrapAdds(s.written + s.lost, a.bytes);
  }

  lemma HandleConserves(s: State, c: Config, a: Step)
    requires Conserved(s) && a.Handle? && Enabled(s, c, a)
    ensures Conserved(Next(s, c, a))
  {
    if s.free != [] {
      assert s.free[0] in s.free;
      assert |s.inFlight + {s.free[0]}| == |s.inFlight| + 1;
    }
  }

  /** Starting keeps the pump conserved exactly when no file is still open. The
      service only tests the recording flag, which a size stop clears earlier. */
  lemma StartConservesIff(s: State, c: Config, a: Step)
    requires Conserved(s) && a.Start? && Enabled(s, c, a)
    ensures Conserved(Next(s, c, a)) <==> !s.fileOpen
  {
  }

  lemma StepConserves(s: State, c: Config, a: Step)
    requires Conserved(s) && Enabled(s, c, a)
    requires a.Start? ==> !s.fileOpen
    ensures Conserved(Next(s, c, a))
  {
    match a
    case Start(_, _) => StartConservesIff(s, c, a);
    case Deliver(_, _, _, _) => DeliverConserves(s, c, a);
    case Handle(_) => HandleConserves(s, c, a);
    case _ =>
  }

  /** Finalising keeps null streams out exactly when no callback is between queuing
      its buffer and posting its event; every other step keeps them out. */
  lemma NoNullEventIff(s: State, c: Config, a: Step)
    requires Conserved(s) && NoNullEvent(s) && Enabled(s, c, a)
    ensures NoNullEvent(Next(s, c, a)) <==> !(a.Finish? && s.reporting > 0)
  {
    if a.Report? || a.Handle? {
      var t := Next(s, c, a);
      forall e <- t.events ensures e {
        assert e in s.events || e;
      }
    }
  }

  // ----- No lost finalisation -----

  /** The steps of a recording already under way. */
  predicate Pumping(a: Step) { a.Deliver? || a.Report? || a.Handle? || a.Finish? }

  /** What is left to do after a stop. */
  function Remaining(s: State): nat {
    if s.fileOpen then 3 * |s.inFlight| + 2 * s.reporting + |s.events| + 1 else 0
  }

  /** A stopped recording is never stuck. */
  lemma StoppedCanProceed(s: State, c: Config)
    requires Conserved(s) && NoNullEvent(s) && s.fileOpen
    ensures exists a :: Pumping(a) && Enabled(s, c, a)
  {
    if s.reporting > 0 {
      assert Enabled(s, c, Report);
    } else if s.inFlight != {} {
      var b :| b in s.inFlight;
      assert Enabled(s, c, Deliver(b, true, 0, 0));
    } else if s.finalising {
      assert Enabled(s, c, Finish);
    } else {
      assert s.events != [];
      assert Enabled(s, c, Handle(true));
    }
  }

  lemma StoppedStep(s: State, c: Config, a: Step)
    requires Conserved(s) && NoNullEvent(s) && s.fileOpen && !s.recording
    requires Pumping(a) && Enabled(s, c, a)
    ensures var t := Next(s, c, a);
            && t.starts == s.starts && !t.recording
            && (t.fileOpen ==> Remaining(t) < Remaining(s))
            && (!t.fileOpen <==> a.Finish?)
  {
    if a.Deliver? {
      assert |s.inFlight - {a.buffer}| == |s.inFlight| - 1;
    }
    if a.Handle? {
      assert s.events[0] in s.events;
    }
  }

  /** Whatever the interleaving, a stopped recording is finalised, once, within a
      fixed number of steps: a run that has not closed the file is shorter than that,
      and can be extended. */
  lemma {:induction false} StopIsFinalisedOnce(s: State, c: Config, run: seq<Step>)
    requires Conserved(s) && NoNullEvent(s) && s.fileOpen && !s.recording
    requires IsRun(s, c, run) && forall a <- run :: Pumping(a)
    ensures var t := End(s, c, run);
            && t.finalised == s.finalised + (if t.fileOpen then 0 else 1)
            && (t.fileOpen ==> |run| + Remaining(t) <= Remaining(s))
            && (t.fileOpen ==> exists a :: Pumping(a) && Enabled(t, c, a))
    decreases |run|
  {
    if run == [] {
      StoppedCanProceed(s, c);
    } else {
      var t := Next(s, c, run[0]);
      assert run[0] in run && forall a <- run[1..] :: a in run;
      StepConserves(s, c, run[0]);
      StoppedStep(s, c, run[0]);
      if t.fileOpen {
        NoNullEventIff(s, c, run[0]);
        StopIsFinalisedOnce(t, c, run[1..]);
      } else {
        ClosedStaysClosed(t, c, run[1..]);
      }
    }
  }

  lemma {:induction false} ClosedStaysClosed(s: State, c: Config, run: seq<Step>)
    requires Conserved(s) && !s.fileOpen
    requires IsRun(s, c, run) && forall a <- run :: Pumping(a)
    ensures var t := End(s, c, run);
            && !t.fileOpen && t.finalised == s.finalised && t.outcome == s.outcome
            && t.dataSize == s.dataSize && t.riffSize == s.riffSize && t.written == s.written
    decreases |run|
  {
    if run != [] {
      assert run[0] in run && forall a <- run[1..] :: a in run;
      StepConserves(s, c, run[0]);
      ClosedStaysClosed(Next(s, c, run[0]), c, run[1..]);
    }
  }

  // ----- Whole runs -----

  /** A run in which every recording starts on a closed file. */
  predicate Orderly(s: State, c: Config, run: seq<Step>): (orderly: bool)
    ensures orderly ==> IsRun(s, c, run)
    decreases |run|
  {
    run == [] || (&& Enabled(s, c, run[0])
                  && (run[0].Start? ==> !s.fileOpen)
                  && Orderly(Next(s, c, run[0]), c, run[1..]))
  }

  /** Prefixing one step to a run. */
  ghost function Then(s: State, c: Config, a: Step, run: seq<Step>): (r: seq<Step>)
    requires Enabled(s, c, a) && IsRun(Next(s, c, a), c, run)
    ensures IsRun(s, c, r) && End(s, c, r) == End(Next(s, c, a), c, run)
    ensures (a.Start? ==> !s.fileOpen) && Orderly(Next(s, c, a), c, run) ==> Orderly(s, c, r)
  {
    assert ([a] + run)[1..] == run;
    [a] + run
  }

  lemma {:induction false} OrderlyConcat(s: State, c: Config, a: seq<Step>, b: seq<Step>)
    requires Orderly(s, c, a) && Orderly(End(s, c, a), c, b)
    ensures Orderly(s, c, a + b) && End(s, c, a + b) == End(End(s, c, a), c, b)
    decreases |a|
  {
    if a == [] {
      assert a + b == b;
    } else {
      var t := Next(s, c, a[0]);
      OrderlyConcat(t, c, a[1..], b);
      assert a + b == Then(s, c, a[0], a[1..] + b);
    }
  }

  /** The most a file may hold: the first two reads, or one byte less than the limit. */
  function FileLimit(c: Config): nat {
    if c.maxFileBytes > HEADER + 2 * c.size then c.maxFileBytes - 1 else HEADER + 2 * c.size
  }

  /** No total within the limit passes the 32-bit size test although two more reads exceed it. */
  ghost predicate Sound(c: Config) {
    forall r: nat | HEADER + r <= FileLimit(c) ::
      LimitReached(c, r) || HEADER + r + 2 * c.size <= FileLimit(c)
  }

  predicate NoWrap(c: Config) { FileLimit(c) + 2 * c.size < WORD }

  /** The size test is sound when its sums fit 32 bits; for a limit beyond the first two
      reads, only then. */
  lemma SoundIffNoWrap(c: Config)
    requires ConfigOk(c)
    ensures NoWrap(c) ==> Sound(c)
    ensures HEADER + 2 * c.size < c.maxFileBytes ==> (Sound(c) <==> NoWrap(c))
  {
    if HEADER + 2 * c.size < c.maxFileBytes && !NoWrap(c) {
      var r := c.maxFileBytes - 1 - HEADER;
      assert HEADER + r <= FileLimit(c) && !LimitReached(c, r);
    }
  }

  /** The header, the bytes delivered and the reads still out stay within the limit. */
  ghost predicate Bounded(s: State, c: Config) {
    HEADER + s.written + s.lost + |s.inFlight| * c.size <= FileLimit(c)
  }

  lemma DeliverBounded(s: State, c: Config, a: Step)
    requires Conserved(s) && Bounded(s, c) && a.Deliver? && Enabled(s, c, a)
    ensures Bounded(Next(s, c, a), c)
  {
  }

  lemma HandleBounded(s: State, c: Config, a: Step)
    requires Sound(c) && Conserved(s) && Bounded(s, c) && a.Handle? && Enabled(s, c, a)
    ensures Bounded(Next(s, c, a), c)
  {
    if Next(s, c, a).inFlight != s.inFlight {
      assert s.free[0] in s.free;
      var total, n := s.written + s.lost, |s.inFlight + {s.free[0]}|;
      assert n == |s.inFlight| + 1 && (n == 1 || n == 2);
      assert HEADER + total <= FileLimit(c) by { assert 0 <= |s.inFlight| * c.size; }
      SameTest(c, total);
      RoomForReads(c, total, n);
    }
  }

  lemma RoomForReads(c: Config, total: nat, n: nat)
    requires Sound(c) && HEADER + total <= FileLimit(c) && !LimitReached(c, total) && (n == 1 || n == 2)
    ensures HEADER + total + n * c.size <= FileLimit(c)
  {
    assert HEADER + total + 2 * c.size <= FileLimit(c);
  }

  /** The test does not see that the recorded total has wrapped. */
  lemma SameTest(c: Config, total: nat)
    ensures LimitReached(c, Wrap(total)) == LimitReached(c, total)
  {
    WrapAdds(total, HEADER + 2 * c.size);
  }

  lemma StepBounded(s: State, c: Config, a: Step)
    requires Sound(c)
    requires Conserved(s) && Bounded(s, c) && Enabled(s, c, a) && (a.Start? ==> !s.fileOpen)
    ensures Bounded(Next(s, c, a), c)
  {
    match a
    case Start(x, y) =>
      assert s.inFlight + {x, y} == {x, y} && |{x, y}| == 2;
    case Deliver(_, _, _, _) => DeliverBounded(s, c, a);
    case Handle(_) => HandleBounded(s, c, a);
    case _ =>
  }

  /** Every orderly run conserves buffers, events and finalisations, and keeps each file
      within the limit if the 32-bit size test is sound. */
  lemma {:induction false} OrderlyRunInvariant(s: State, c: Config, run: seq<Step>)
    requires ConfigOk(c) && Conserved(s) && Orderly(s, c, run)
    ensures Conserved(End(s, c, run))
    ensures Sound(c) && Bounded(s, c) ==> Bounded(End(s, c, run), c)
    decreases |run|
  {
    if run != [] {
      StepConserves(s, c, run[0]);
      if Sound(c) && Bounded(s, c) {
        StepBounded(s, c, run[0]);
      }
      OrderlyRunInvariant(Next(s, c, run[0]), c, run[1..]);
    }
  }

  /** What finalising leaves: `written` bytes in a file whose header counts all bytes delivered. */
  ghost predicate Described(s: State, c: Config) {
    var t, total := Finished(s), s.written + s.lost;
    && HEADER + total <= FileLimit(c)
    && t.finalised == t.starts
    && t.dataSize == Wrap(total) && t.riffSize == Wrap(total + HEADER - 8)
    && (FileLimit(c) < WORD ==>
          && (t.dataSize == t.written <==> t.lost == 0)
          && (t.riffSize == HEADER + t.written - 8 <==> t.lost == 0)
          && (t.outcome == Some(Error) <==> total == 0 || s.recError))
  }

  lemma FinishDescribes(s: State, c: Config)
    requires Conserved(s) && Bounded(s, c) && Enabled(s, c, Finish)
    ensures Described(s, c)
  {
    assert 0 <= |s.inFlight| * c.size;
    WrapAdds(s.written + s.lost, HEADER - 8);
  }

  /** Whenever an orderly run finalises a file under a sound size test: its length obeys the
      limit; every recording so far has been finalised; the header holds the 32-bit count of
      the bytes delivered; and, for a limit of 32 bits, it describes the file exactly when no
      short write lost bytes, and the client hears of an error iff one occurred or nothing
      was recorded. */
  lemma FinalisedFile(c: Config, run: seq<Step>)
    requires ConfigOk(c) && Sound(c) && Orderly(INITIAL, c, run)
    requires Enabled(End(INITIAL, c, run), c, Finish)
    ensures Described(End(INITIAL, c, run), c)
    ensures FileLimit(c) < 0x1_0000_0000 ==>
              (Next(End(INITIAL, c, run), c, Finish).outcome == Some(Error) <==>
                 DeliveredBytes(0, run) == 0 || FailedSince(INITIAL, c, run))
  {
    InitialOk(c);
    FinishTells(c, run);
    BytesAreCounted(INITIAL, c, run);
    OrderlyRunInvariant(INITIAL, c, run);
    FinishDescribes(End(INITIAL, c, run), c);
  }

  // ----- What a finalised recording says, from the steps of the run alone -----

  /** A read fails, or the handler finds the file open and no capture stream. */
  predicate Fails(s: State, a: Step) {
    || (a.Deliver? && !a.ok)
    || (a.Handle? && !a.captureOk && s.fileOpen && s.events != [] && s.events[0])
  }

  predicate NoFinish(run: seq<Step>) { forall a <- run :: !a.Finish? }

  /** Something failed in the run and no recording was finalised after that. */
  predicate FailedSince(s: State, c: Config, run: seq<Step>)
    requires IsRun(s, c, run)
    decreases |run|
  {
    run != [] && ((Fails(s, run[0]) && NoFinish(run[1..])) || FailedSince(Next(s, c, run[0]), c, run[1..]))
  }

  lemma {:induction false} ErrorIsKept(s: State, c: Config, run: seq<Step>)
    requires IsRun(s, c, run)
    ensures End(s, c, run).recError <==> (s.recError && NoFinish(run)) || FailedSince(s, c, run)
    decreases |run|
  {
    if run != [] {
      ErrorIsKept(Next(s, c, run[0]), c, run[1..]);
      assert NoFinish(run) <==> !run[0].Finish? && NoFinish(run[1..]) by {
        assert run == [run[0]] + run[1..];
      }
    }
  }

  /** The bytes that successful reads delivered since the last start, after `n` before the run. */
  function DeliveredBytes(n: nat, run: seq<Step>): nat
    decreases |run|
  {
    if run == [] then n
    else
      var a := run[0];
      DeliveredBytes(if a.Start? then 0 else if a.Deliver? && a.ok then n + a.bytes else n, run[1..])
  }

  /** Those of them that the file system stored. */
  function StoredBytes(n: nat, run: seq<Step>): nat
    decreases |run|
  {
    if run == [] then n
    else
      var a := run[0];
      StoredBytes(if a.Start? then 0 else if a.Deliver? && a.ok then n + a.stored else n, run[1..])
  }

  lemma BytesStep(s: State, c: Config, a: Step)
    requires Enabled(s, c, a) && s.recorded == Wrap(s.written + s.lost)
    ensures var t := Next(s, c, a);
            && t.recorded == Wrap(t.written + t.lost)
            && t.written + t.lost == (if a.Start? then 0 else if a.Deliver? && a.ok then s.written + s.lost + a.bytes
                                      else s.written + s.lost)
            && t.written == (if a.Start? then 0 else if a.Deliver? && a.ok then s.written + a.stored else s.written)
  {
    if a.Deliver? {
      WrapAdds(s.written + s.lost, a.bytes);
    }
  }

  lemma {:induction false} BytesAreCounted(s: State, c: Config, run: seq<Step>)
    requires IsRun(s, c, run) && s.recorded == Wrap(s.written + s.lost)
    ensures var t := End(s, c, run);
            && t.recorded == Wrap(t.written + t.lost)
            && t.written + t.lost == DeliveredBytes(s.written + s.lost, run)
            && t.written == StoredBytes(s.written, run)
    decreases |run|
  {
    if run != [] {
      BytesStep(s, c, run[0]);
      BytesAreCounted(Next(s, c, run[0]), c, run[1..]);
    }
  }

  /** Whenever any run finalises a recording, the header counts the bytes delivered to it, and
      the client hears of an error exactly if that count is zero or something failed since the
      finalisation before. */
  lemma FinishTells(c: Config, run: seq<Step>)
    requires IsRun(INITIAL, c, run) && Enabled(End(INITIAL, c, run), c, Finish)
    ensures var t, n := Next(End(INITIAL, c, run), c, Finish), DeliveredBytes(0, run);
            && t.dataSize == n % 0x1_0000_0000 && t.riffSize == (n + 36) % 0x1_0000_0000
            && t.written == StoredBytes(0, run)
            && t.outcome == Some(if n % 0x1_0000_0000 == 0 || FailedSince(INITIAL, c, run) then Error else Stopped)
  {
    BytesAreCounted(INITIAL, c, run);
    ErrorIsKept(INITIAL, c, run);
    var n := DeliveredBytes(0, run);
    WrapAdds(n, 36);
    WrapIsModulo(n);
    WrapIsModulo(n + 36);
  }

  // ----- The bound fails exactly when the size test is not sound -----

  /** Recording with both reads out and `r` bytes so far. */
  ghost function Steady(r: nat): State {
    INITIAL.(recording := true, fileOpen := true, streamSet := true, recorded := r, written := r,
             inFlight := {0, 1}, riffSize := HEADER - 8, starts := 1)
  }

  /** Any total that keeps the test below the limit can be reached. */
  lemma {:induction false} Fill(c: Config, r: nat, target: nat) returns (run: seq<Step>)
    requires ConfigOk(c) && r <= target
    requires r == target || target + HEADER + 2 * c.size < c.maxFileBytes
    ensures Orderly(Steady(r), c, run)
    ensures End(Steady(r), c, run) == Steady(target)
    decreases target - r
  {
    if r == target {
      run := [];
    } else {
      var n := if target - r < c.size then target - r else c.size;
      var s1 := Next(Steady(r), c, Deliver(0, true, n, n));
      var s2 := Next(s1, c, Report);
      var s3 := Next(s2, c, Handle(true));
      assert s3.inFlight == {0, 1};
      assert s3 == Steady(r + n);
      var rest := Fill(c, r + n, target);
      run := Then(Steady(r), c, Deliver(0, true, n, n), Then(s1, c, Report, Then(s2, c, Handle(true), rest)));
    }
  }

  /** A total that wrongly passes the test is reached with both buffers back, and both
      are read into again. */
  lemma Overrun(c: Config, r: nat) returns (run: seq<Step>)
    requires ConfigOk(c) && HEADER + r <= FileLimit(c)
    requires !LimitReached(c, r) && HEADER + r + 2 * c.size > FileLimit(c)
    ensures Orderly(INITIAL, c, run)
    ensures !Bounded(End(INITIAL, c, run), c)
  {
    var most := c.maxFileBytes - 1 - HEADER - 2 * c.size;
    var base := if most > 0 then most else 0;
    var fill := Fill(c, 0, base);
    var first := if r - base < c.size then r - base else c.size;
    var tail := TwoMoreReads(c, base, first, r - base - first);
    assert Next(INITIAL, c, Start(0, 1)) == Steady(0) by {
      assert {} + {0, 1} == {0, 1};
    }
    OrderlyConcat(Steady(0), c, fill, tail);
    run := Then(INITIAL, c, Start(0, 1), fill + tail);
  }

  lemma TwoMoreReads(c: Config, base: nat, x: nat, y: nat) returns (run: seq<Step>)
    requires ConfigOk(c) && base < WORD && x <= c.size && y <= c.size && !LimitReached(c, base + x + y)
    ensures Orderly(Steady(base), c, run)
    ensures var s := End(Steady(base), c, run);
            s.written == base + x + y && s.lost == 0 && s.inFlight == {0, 1}
  {
    var back := BothBack(c, base, x, y);
    var s4 := End(Steady(base), c, back);
    SameTest(c, base + x + y);
    var s5 := Next(s4, c, Handle(true));
    assert s5.inFlight == {0};
    var s6 := Next(s5, c, Handle(true));
    assert s6.inFlight == {0, 1};
    var tail := Then(s4, c, Handle(true), Then(s5, c, Handle(true), []));
    OrderlyConcat(Steady(base), c, back, tail);
    run := back + tail;
  }

  /** Both reads complete and report before the buffer thread runs. */
  lemma BothBack(c: Config, base: nat, x: nat, y: nat) returns (run: seq<Step>)
    requires ConfigOk(c) && base < WORD && x <= c.size && y <= c.size
    ensures Orderly(Steady(base), c, run)
    ensures End(Steady(base), c, run) ==
            Steady(base).(recorded := Wrap(base + x + y), written := base + x + y,
                          free := [0, 1], inFlight := {}, events := [true, true])
  {
    var d0, d1 := Deliver(0, true, x, x), Deliver(1, true, y, y);
    var s1 := Next(Steady(base), c, d0);
    assert s1.inFlight == {1};
    var s2 := Next(s1, c, d1);
    assert s2.inFlight == {};
    WrapAdds(base + x, y);
    var s3 := Next(s2, c, Report);
    var s4 := Next(s3, c, Report);
    run := Then(Steady(base), c, d0, Then(s1, c, d1, Then(s2, c, Report, Then(s3, c, Report, []))));
  }

  lemma InitialOk(c: Config)
    ensures Conserved(INITIAL) && NoNullEvent(INITIAL) && Bounded(INITIAL, c)
  {
  }

  /** All orderly runs stay within the limit. */
  ghost predicate AlwaysBounded(c: Config) {
    forall run | Orderly(INITIAL, c, run) :: Bounded(End(INITIAL, c, run), c)
  }

  lemma SoundIsBounded(c: Config)
    requires ConfigOk(c) && Sound(c)
    ensures AlwaysBounded(c)
  {
    forall run | Orderly(INITIAL, c, run) ensures Bounded(End(INITIAL, c, run), c) {
      InitialOk(c);
      OrderlyRunInvariant(INITIAL, c, run);
    }
  }

  lemma UnsoundOverruns(c: Config)
    requires ConfigOk(c) && !Sound(c)
    ensures !AlwaysBounded(c)
  {
    var r: nat :| HEADER + r <= FileLimit(c) && !LimitReached(c, r) && HEADER + r + 2 * c.size > FileLimit(c);
    var run := Overrun(c, r);
  }

  /** All orderly runs obey the limit exactly when the size test is sound. */
  lemma BoundIff(c: Config)
    requires ConfigOk(c)
    ensures Sound(c) <==> AlwaysBounded(c)
  {
    if Sound(c) {
      SoundIsBounded(c);
    } else {
      UnsoundOverruns(c);
    }
  }

  /** A recording that has just reached its limit: stopped, with the file still open. */
  lemma StoppedBySize(c: Config) returns (run: seq<Step>)
    requires ConfigOk(c) && NoWrap(c)
    ensures Orderly(INITIAL, c, run)
    ensures var s := End(INITIAL, c, run);
            s.fileOpen && !s.recording && s.starts == 1 && s.finalised == 0 && s.inFlight == {1}
  {
    var most := c.maxFileBytes - 1 - HEADER - 2 * c.size;
    var r := if most > 0 then most else 0;
    var fill := Fill(c, 0, r);
    var tail := LastRead(c, r);
    assert Next(INITIAL, c, Start(0, 1)) == Steady(0) by {
      assert {} + {0, 1} == {0, 1};
    }
    OrderlyConcat(Steady(0), c, fill, tail);
    run := Then(INITIAL, c, Start(0, 1), fill + tail);
  }

  lemma LastRead(c: Config, r: nat) returns (run: seq<Step>)
    requires ConfigOk(c) && c.maxFileBytes <= r + 1 + HEADER + 2 * c.size < WORD
    ensures Orderly(Steady(r), c, run)
    ensures End(Steady(r), c, run) ==
            Steady(r + 1).(recording := false, free := [0], inFlight := {1}, events := [true])
  {
    var s1 := Next(Steady(r), c, Deliver(0, true, 1, 1));
    assert s1.inFlight == {1};
    var s2 := Next(s1, c, Report);
    var s3 := Next(s2, c, Handle(true));
    run := Then(Steady(r), c, Deliver(0, true, 1, 1), Then(s1, c, Report, Then(s2, c, Handle(true), [])));
  }
}
