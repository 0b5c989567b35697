/** What goes wrong in the recorder's pump, over all runs: recordings that are never finalised
    and events that carry a null stream. */
module PumpFaults {
  import opened Pump

  // ----- Lost finalisations -----

  /** How many recordings start while a file is still open. */
  function Restarts(s: State, c: Config, run: seq<Step>): nat
    requires IsRun(s, c, run)
    decreases |run|
  {
    if run == [] then 0
    else (if run[0].Start? && s.fileOpen then 1 else 0) + Restarts(Next(s, c, run[0]), c, run[1..])
  }

  function Open(s: State): nat { if s.fileOpen then 1 else 0 }

  lemma AccountStep(s: State, c: Config, a: Step)
    requires Enabled(s, c, a) && (s.finalising ==> s.fileOpen)
    ensures var t := Next(s, c, a);
            && t.starts + s.finalised + Open(s)
               == s.starts + t.finalised + Open(t) + (if a.Start? && s.fileOpen then 1 else 0)
            && (t.finalising ==> t.fileOpen)
  {
    if a.Handle? {
      HandleCounts(s, c, a.captureOk);
    }
  }

  lemma HandleCounts(s: State, c: Config, ok: bool)
    requires s.events != []
    ensures var t := Handled(s, c, ok);
            t.starts == s.starts && t.finalised == s.finalised && t.fileOpen == s.fileOpen
            && (t.finalising ==> s.finalising || t.fileOpen)
  {
  }

  lemma {:induction false} Account(s: State, c: Config, run: seq<Step>)
    requires IsRun(s, c, run) && (s.finalising ==> s.fileOpen)
    ensures var t := End(s, c, run);
            t.starts + s.finalised + Open(s) == s.starts + t.finalised + Open(t) + Restarts(s, c, run)
    decreases |run|
  {
    if run != [] {
      AccountStep(s, c, run[0]);
      Account(Next(s, c, run[0]), c, run[1..]);
    }
  }

  /** Over every run each recording is finalised, or is the one whose file is open, or was
      lost to a start on an open file: one for each such start. */
  lemma StartsAreAccounted(c: Config, run: seq<Step>)
    requires IsRun(INITIAL, c, run)
    ensures var t := End(INITIAL, c, run);
            t.starts == t.finalised + Open(t) + Restarts(INITIAL, c, run)
  {
    Account(INITIAL, c, run);
  }

  /** When the file is closed, every recording has been finalised exactly if none started on
      an open file. */
  lemma AllFinalisedIff(c: Config, run: seq<Step>)
    requires IsRun(INITIAL, c, run) && !End(INITIAL, c, run).fileOpen
    ensures End(INITIAL, c, run).finalised == End(INITIAL, c, run).starts <==> Orderly(INITIAL, c, run)
  {
    StartsAreAccounted(c, run);
    OrderlyIff(INITIAL, c, run);
  }

  lemma {:induction false} OrderlyIff(s: State, c: Config, run: seq<Step>)
    requires IsRun(s, c, run)
    ensures Orderly(s, c, run) <==> Restarts(s, c, run) == 0
    decreases |run|
  {
    if run != [] {
      OrderlyIff(Next(s, c, run[0]), c, run[1..]);
    }
  }

  lemma {:induction false} RestartsConcat(s: State, c: Config, a: seq<Step>, b: seq<Step>)
    requires IsRun(s, c, a + b)
    ensures IsRun(s, c, a) && IsRun(End(s, c, a), c, b)
    ensures Restarts(s, c, a + b) == Restarts(s, c, a) + Restarts(End(s, c, a), c, b)
    decreases |a|
  {
    if a == [] {
      assert a + b == b;
    } else {
      assert (a + b)[0] == a[0] && (a + b)[1..] == a[1..] + b;
      RestartsConcat(Next(s, c, a[0]), c, a[1..], b);
    }
  }

  /** However a run goes on, a recording lost in it stays lost. */
  lemma LostForGood(c: Config, run: seq<Step>, more: seq<Step>)
    requires IsRun(INITIAL, c, run) && Restarts(INITIAL, c, run) > 0
    requires IsRun(INITIAL, c, run + more)
    ensures End(INITIAL, c, run + more).finalised < End(INITIAL, c, run + more).starts
  {
    RestartsConcat(INITIAL, c, run, more);
    StartsAreAccounted(c, run + more);
  }

  /** The run starts a recording on an open file, and no continuation finalises them all. */
  ghost predicate LosesForGood(c: Config, run: seq<Step>) {
    && IsRun(INITIAL, c, run)
    && forall more | IsRun(INITIAL, c, run + more) ::
         End(INITIAL, c, run + more).finalised < End(INITIAL, c, run + more).starts
  }

  /** A new recording that is accepted between the size stop of the first and its
      finalisation: under every configuration whose size test cannot wrap, there is such a
      run, and however it goes on, fewer recordings are finalised than started. */
  lemma RestartLosesAFinalisation(c: Config)
    requires ConfigOk(c) && NoWrap(c)
    ensures exists run :: LosesForGood(c, run)
  {
    var stopped := StoppedBySize(c);
    var s, last := End(INITIAL, c, stopped), [Start(2, 3)];
    assert last[1..] == [] && IsRun(s, c, last);
    RunConcat(INITIAL, c, stopped, last);
    var run := stopped + last;
    RestartsConcat(INITIAL, c, stopped, last);
    assert Restarts(s, c, last) == 1;
    forall more | IsRun(INITIAL, c, run + more)
      ensures End(INITIAL, c, run + more).finalised < End(INITIAL, c, run + more).starts
    {
      LostForGood(c, run, more);
    }
    assert LosesForGood(c, run);
  }

  // ----- Null streams -----

  /** Some file is closed while a callback is between queuing its buffer and posting its event. */
  predicate Rushed(s: State, c: Config, run: seq<Step>)
    requires IsRun(s, c, run)
    decreases |run|
  {
    run != [] && ((run[0].Finish? && s.reporting > 0) || Rushed(Next(s, c, run[0]), c, run[1..]))
  }

  /** No state of the run has posted a null stream or is about to. */
  ghost predicate NeverNull(s: State, c: Config, run: seq<Step>)
    requires IsRun(s, c, run)
    decreases |run|
  {
    NoNullEvent(s) && (run == [] || NeverNull(Next(s, c, run[0]), c, run[1..]))
  }

  /** Over every orderly run a null stream is posted, or about to be, at some point exactly if
      a file was closed under a callback. */
  lemma {:induction false} NeverNullIff(s: State, c: Config, run: seq<Step>)
    requires Conserved(s) && NoNullEvent(s) && Orderly(s, c, run)
    ensures NeverNull(s, c, run) <==> !Rushed(s, c, run)
    decreases |run|
  {
    if run != [] {
      var t := Next(s, c, run[0]);
      StepConserves(s, c, run[0]);
      NoNullEventIff(s, c, run[0]);
      if run[0].Finish? && s.reporting > 0 {
        assert !NeverNull(t, c, run[1..]);
      } else {
        NeverNullIff(t, c, run[1..]);
      }
    }
  }

  /** A stopped recording whose second read is still out, with the buffer thread waiting for it. */
  ghost function Waiting(): State {
    Steady(0).(recording := false, free := [0], inFlight := {1}, finalising := true)
  }

  lemma StopThenWait(c: Config) returns (run: seq<Step>)
    requires ConfigOk(c)
    ensures IsRun(Steady(0), c, run) && End(Steady(0), c, run) == Waiting()
  {
    var s1 := Next(Steady(0), c, Stop);
    var s2 := Next(s1, c, Deliver(0, true, 0, 0));
    assert s2.inFlight == {1};
    var s3 := Next(s2, c, Report);
    assert Next(s3, c, Handle(true)) == Waiting();
    run := Then(Steady(0), c, Stop, Then(s1, c, Deliver(0, true, 0, 0),
             Then(s2, c, Report, Then(s3, c, Handle(true), []))));
  }

  /** The last read queues its buffer; the file is closed; the read posts its event. */
  lemma CloseUnderCallback(c: Config) returns (run: seq<Step>)
    requires ConfigOk(c)
    ensures IsRun(Waiting(), c, run) && End(Waiting(), c, run).faulted
  {
    var s1 := Next(Waiting(), c, Deliver(1, true, 0, 0));
    assert |s1.free| == BUFFERS;
    var s2 := Next(s1, c, Finish);
    var s3 := Next(s2, c, Report);
    assert s3.events == [false];
    assert Next(s3, c, Handle(true)).faulted;
    run := Then(Waiting(), c, Deliver(1, true, 0, 0), Then(s1, c, Finish,
             Then(s2, c, Report, Then(s3, c, Handle(true), []))));
  }

  /** Under every configuration one recording, stopped by its client, can end with the buffer
      thread handed a null stream. */
  lemma NullIsReached(c: Config)
    requires ConfigOk(c)
    ensures exists run :: IsRun(INITIAL, c, run) && End(INITIAL, c, run).faulted
  {
    var stop := StopThenWait(c);
    var close := CloseUnderCallback(c);
    assert Next(INITIAL, c, Start(0, 1)) == Steady(0) by {
      assert {} + {0, 1} == {0, 1};
    }
    RunConcat(Steady(0), c, stop, close);
    var run := Then(INITIAL, c, Start(0, 1), stop + close);
    assert IsRun(INITIAL, c, run) && End(INITIAL, c, run).faulted;
  }

  // ----- Misleading sizes -----

  /** The usual 4096-byte reads with the largest 32-bit limit: the size test wraps, and some
      orderly run exceeds the limit. */
  lemma LimitIsPassed()
    ensures var c := Config(0x1000, 0xFFFF_FFFF);
            ConfigOk(c) && exists run :: Orderly(INITIAL, c, run) && !Bounded(End(INITIAL, c, run), c)
  {
    var c := Config(0x1000, 0xFFFF_FFFF);
    SoundIffNoWrap(c);
    BoundIff(c);
  }

  /** Under every configuration one byte that the file system did not take is counted all the
      same: the header promises it, and the file does not hold it. */
  lemma ShortWriteMisdescribes(c: Config)
    requires ConfigOk(c)
    ensures exists run ::
              && Orderly(INITIAL, c, run)
              && var t := End(INITIAL, c, run);
              && !t.fileOpen && t.finalised == 1 && t.written == 0 && t.dataSize == 1
  {
    var s1 := Next(INITIAL, c, Start(0, 1));
    assert s1 == Steady(0) by {
      assert {} + {0, 1} == {0, 1};
    }
    var tail := ShortWrite(c);
    var run := Then(INITIAL, c, Start(0, 1), tail);
    assert Orderly(INITIAL, c, run) && End(INITIAL, c, run).dataSize == 1;
  }

  lemma ShortWrite(c: Config) returns (run: seq<Step>)
    requires ConfigOk(c)
    ensures Orderly(Steady(0), c, run)
    ensures var t := End(Steady(0), c, run);
            !t.fileOpen && t.finalised == 1 && t.written == 0 && t.dataSize == 1
  {
    var s1 := Next(Steady(0), c, Stop);
    var s2 := Next(s1, c, Deliver(0, true, 1, 0));
    assert s2.inFlight == {1};
    var s3 := Next(s2, c, Deliver(1, true, 0, 0));
    assert |s3.free| == 2;
    var s4 := Next(s3, c, Report);
    var s5 := Next(s4, c, Handle(true));
    assert s5.finalising && s5.free == s3.free;
    run := Then(Steady(0), c, Stop, Then(s1, c, Deliver(0, true, 1, 0), Then(s2, c, Deliver(1, true, 0, 0),
             Then(s3, c, Report, Then(s4, c, Handle(true), Then(s5, c, Finish, []))))));
  }
}
