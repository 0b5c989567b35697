/** The cached session state of a profile and the notifications its clients get. */
module Sessions {

  datatype ConState = Disconnected | Connecting | Connected | Disconnecting

  datatype Pdp = Ipv4 | Ipv6 | Ipv4v6 | UnknownPdp

  datatype Family = V4 | V6

  datatype Notice = Notice(family: Family, state: ConState)

  /** A platform state change, the timeout of a synchronous start, or another PDP type, set by a
      client or by a platform update. */
  datatype Event = Change(state: ConState, v4: ConState, v6: ConState) | StartTimeout | SetPdp(pdp: Pdp)

  datatype Cache = Cache(pdp: Pdp, state: ConState, v4: ConState, v6: ConState)

  /** The states of a new profile. */
  function Fresh(pdp: Pdp): Cache { Cache(pdp, Disconnected, Disconnected, Disconnected) }

  predicate InPdp(f: Family, pdp: Pdp) {
    match pdp
    case Ipv4 => f == V4
    case Ipv6 => f == V6
    case Ipv4v6 => true
    case UnknownPdp => false
  }

  function Cached(c: Cache, f: Family): ConState { if f == V4 then c.v4 else c.v6 }

  function Reported(e: Event, f: Family): ConState
    requires e.Change?
  {
    if f == V4 then e.v4 else e.v6
  }

  /** What one family's clients see of an event. */
  function NoticeOf(c: Cache, e: Event, f: Family): seq<Notice> {
    if e.Change? && InPdp(f, c.pdp) && Reported(e, f) != Cached(c, f) then [Notice(f, Reported(e, f))] else []
  }

  /** What the clients of both families see of an event. */
  function NoticesOf(c: Cache, e: Event): seq<Notice> { NoticeOf(c, e, V4) + NoticeOf(c, e, V6) }

  function After(c: Cache, e: Event): Cache {
    match e
    case Change(state, v4, v6) => c.(state := state, v4 := v4, v6 := v6)
    case StartTimeout => c.(state := Disconnected, v4 := Disconnected, v6 := Disconnected)
    case SetPdp(pdp) => c.(pdp := pdp)
  }

  // ----- Runs -----

  function CacheAfter(c: Cache, run: seq<Event>): Cache {
    if run == [] then c else After(CacheAfter(c, run[..|run| - 1]), run[|run| - 1])
  }

  /** All notifications of a run. */
  function SentBy(c: Cache, run: seq<Event>): seq<Notice> {
    if run == [] then []
    else
      var before, e := CacheAfter(c, run[..|run| - 1]), run[|run| - 1];
      SentBy(c, run[..|run| - 1]) + NoticesOf(before, e)
  }

  /** The notifications of one family. */
  function Only(sent: seq<Notice>, f: Family): seq<ConState> {
    if sent == [] then []
    else Only(sent[..|sent| - 1], f) + if sent[|sent| - 1].family == f then [sent[|sent| - 1].state] else []
  }

  /** The states a family's clients are sent over a run. */
  function States(c: Cache, run: seq<Event>, f: Family): seq<ConState> { Only(SentBy(c, run), f) }

  /** What a client that starts from "disconnected" and applies each notice believes. */
  function Believed(states: seq<ConState>): ConState {
    if states == [] then Disconnected else states[|states| - 1]
  }

  ghost predicate NoRepeat(states: seq<ConState>) {
    && (states != [] ==> states[0] != Disconnected)
    && forall i | 0 < i < |states| :: states[i - 1] != states[i]
  }

  lemma {:induction false} OnlyAppend(a: seq<Notice>, b: seq<Notice>, f: Family)
    ensures Only(a + b, f) == Only(a, f) + Only(b, f)
  {
    if b == [] {
      assert a + b == a;
    } else {
      assert (a + b)[..|a + b| - 1] == a + b[..|b| - 1];
      OnlyAppend(a, b[..|b| - 1], f);
    }
  }

  /** An event notifies a family once, with the reported state, exactly when it is a change, the
      PDP has the family, and the state differs from the cached one. */
  lemma OnlyOfNotices(c: Cache, e: Event, f: Family)
    ensures Only(NoticesOf(c, e), f) ==
            if e.Change? && InPdp(f, c.pdp) && Reported(e, f) != Cached(c, f) then [Reported(e, f)] else []
    ensures InPdp(V4, c.pdp) <==> c.pdp == Ipv4 || c.pdp == Ipv4v6
    ensures InPdp(V6, c.pdp) <==> c.pdp == Ipv6 || c.pdp == Ipv4v6
  {
    OnlyAppend(NoticeOf(c, e, V4), NoticeOf(c, e, V6), f);
  }

  lemma OnlyOfStep(c: Cache, run: seq<Event>, f: Family)
    requires run != []
    ensures var before, e := CacheAfter(c, run[..|run| - 1]), run[|run| - 1];
            Only(SentBy(c, run), f) == Only(SentBy(c, run[..|run| - 1]), f) + Only(NoticesOf(before, e), f)
  {
    var before, e := CacheAfter(c, run[..|run| - 1]), run[|run| - 1];
    OnlyAppend(SentBy(c, run[..|run| - 1]), NoticesOf(before, e), f);
  }

  /** A notice that differs from what a client believes is the next belief. */
  lemma BelievedAppend(states: seq<ConState>, next: ConState)
    requires NoRepeat(states) && next != Believed(states)
    ensures NoRepeat(states + [next]) && Believed(states + [next]) == next
  {
  }

  /** Whether the last event of a run is told to the family's clients. */
  predicate Tells(c: Cache, run: seq<Event>, f: Family)
    requires run != []
  {
    var before, e := CacheAfter(c, run[..|run| - 1]), run[|run| - 1];
    e.Change? && InPdp(f, before.pdp) && Reported(e, f) != Cached(before, f)
  }

  /** One event: the family's clients are told a reported state exactly when the family is in the
      PDP and the state differs from the cached one. */
  lemma StatesStep(c: Cache, run: seq<Event>, f: Family)
    requires run != []
    ensures var before, e := run[..|run| - 1], run[|run| - 1];
            && States(c, run, f) == (if Tells(c, run, f) then States(c, before, f) + [Reported(e, f)]
                                     else States(c, before, f))
            && Cached(CacheAfter(c, run), f) == (if e.Change? then Reported(e, f)
                                                 else if e.StartTimeout? then Disconnected
                                                 else Cached(CacheAfter(c, before), f))
  {
    var before, e := run[..|run| - 1], run[|run| - 1];
    OnlyOfStep(c, run, f);
    OnlyOfNotices(CacheAfter(c, before), e, f);
    assert States(c, before, f) + [] == States(c, before, f);
  }

  /** The family is in the PDP before every event and at the end. */
  predicate InPdpThroughout(c: Cache, run: seq<Event>, f: Family) {
    InPdp(f, CacheAfter(c, run).pdp) && (run == [] || InPdpThroughout(c, run[..|run| - 1], f))
  }

  /** While a family stays in the PDP and no start times out, its notices are a lossless
      de-duplication: folding them gives the cached state, and none repeats the one before. */
  lemma {:induction false} LosslessDeduplication(c: Cache, run: seq<Event>, f: Family)
    requires c.v4 == c.v6 == Disconnected && InPdpThroughout(c, run, f)
    requires forall e <- run :: !e.StartTimeout?
    ensures Believed(States(c, run, f)) == Cached(CacheAfter(c, run), f)
    ensures NoRepeat(States(c, run, f))
  {
    if run != [] {
      var before, e := run[..|run| - 1], run[|run| - 1];
      assert e in run && forall d <- before :: d in run;
      LosslessDeduplication(c, before, f);
      StatesStep(c, run, f);
      if Tells(c, run, f) {
        BelievedAppend(States(c, before, f), Reported(e, f));
      }
    }
  }

  ghost function Told(c: Cache, run: seq<Event>, f: Family): ConState { Believed(States(c, run, f)) }

  /** What the clients of a family believe is the cached state. */
  ghost predicate Right(c: Cache, run: seq<Event>, f: Family) {
    Told(c, run, f) == Cached(CacheAfter(c, run), f)
  }

  // ----- Every run -----

  ghost predicate TellsAt(c: Cache, run: seq<Event>, f: Family, j: nat) {
    j < |run| && Tells(c, run[..j + 1], f)
  }

  ghost predicate LastTelling(c: Cache, run: seq<Event>, f: Family, j: nat) {
    TellsAt(c, run, f, j) && forall k: nat | j < k < |run| :: !TellsAt(c, run, f, k)
  }

  lemma TellsBefore(c: Cache, run: seq<Event>, f: Family, j: nat)
    requires run != [] && j < |run| - 1
    ensures TellsAt(c, run, f, j) == TellsAt(c, run[..|run| - 1], f, j)
  {
    assert run[..|run| - 1][..j + 1] == run[..j + 1];
  }

  /** What clients believe is what the last telling event reported. */
  lemma {:induction false} ToldByLast(c: Cache, run: seq<Event>, f: Family, j: nat)
    requires LastTelling(c, run, f, j)
    ensures run[j].Change? && Told(c, run, f) == Reported(run[j], f)
    decreases |run|
  {
    var before := run[..|run| - 1];
    StatesStep(c, run, f);
    assert run[..|run|] == run;
    if j < |run| - 1 {
      forall k: nat | j <= k < |run| - 1 ensures TellsAt(c, run, f, k) == TellsAt(c, before, f, k) {
        TellsBefore(c, run, f, k);
      }
      assert !TellsAt(c, run, f, |run| - 1);
      ToldByLast(c, before, f, j);
    }
  }

  /** An event that does not tell leaves the last telling one as it was. */
  lemma NotTelling(c: Cache, run: seq<Event>, f: Family)
    requires run != [] && !Tells(c, run, f)
    ensures var before := run[..|run| - 1];
            && Told(c, run, f) == Told(c, before, f)
            && forall k: nat :: TellsAt(c, run, f, k) == TellsAt(c, before, f, k)
  {
    var before, n := run[..|run| - 1], |run| - 1;
    assert run[..|run|] == run;
    StatesStep(c, run, f);
    forall k: nat ensures TellsAt(c, run, f, k) == TellsAt(c, before, f, k) {
      if k < n {
        TellsBefore(c, run, f, k);
      }
    }
  }

  /** Some event of a run is the last that tells, or none tells and nothing is believed but
      "disconnected". */
  lemma {:induction false} FindLastTelling(c: Cache, run: seq<Event>, f: Family) returns (found: bool, j: nat)
    ensures found ==> LastTelling(c, run, f, j)
    ensures !found ==> Told(c, run, f) == Disconnected && forall k: nat :: !TellsAt(c, run, f, k)
    decreases |run|
  {
    if run == [] {
      found, j := false, 0;
    } else {
      var before, n := run[..|run| - 1], |run| - 1;
      assert run[..|run|] == run;
      if Tells(c, run, f) {
        found, j := true, n;
      } else {
        found, j := FindLastTelling(c, before, f);
        NotTelling(c, run, f);
      }
    }
  }

  /** After any run, with timeouts and changes of the PDP type, the clients of a family believe
      the cached state exactly when it is the one reported by the last change that found the
      family in the PDP and differing from the cache; or "disconnected" if there was none. */
  lemma BeliefIff(c: Cache, run: seq<Event>, f: Family)
    ensures Right(c, run, f) <==>
            if exists j: nat :: TellsAt(c, run, f, j)
            then exists j: nat :: LastTelling(c, run, f, j) && run[j].Change?
                                  && Cached(CacheAfter(c, run), f) == Reported(run[j], f)
            else Cached(CacheAfter(c, run), f) == Disconnected
  {
    var found, j := FindLastTelling(c, run, f);
    if found {
      ToldByLast(c, run, f, j);
      forall k: nat | LastTelling(c, run, f, k) ensures k == j {
      }
    }
  }

  /** One more event, and what clients believe after it. */
  lemma OneMore(c: Cache, run: seq<Event>, e: Event, f: Family)
    ensures var before := CacheAfter(c, run);
            && CacheAfter(c, run + [e]) == After(before, e)
            && Told(c, run + [e], f) ==
               if e.Change? && InPdp(f, before.pdp) && Reported(e, f) != Cached(before, f) then Reported(e, f)
               else Told(c, run, f)
  {
    assert (run + [e])[..|run + [e]| - 1] == run;
    StatesStep(c, run + [e], f);
  }

  /** A family that drops out of the PDP while connected and comes back later, disconnected in
      between: its clients go on believing it is connected. */
  lemma PdpHidesAChange()
    ensures var run := [Change(Connected, Connected, Connected), SetPdp(Ipv4),
                        Change(Disconnected, Disconnected, Disconnected), SetPdp(Ipv4v6)];
            InPdp(V6, CacheAfter(Fresh(Ipv4v6), run).pdp) && !Right(Fresh(Ipv4v6), run, V6)
  {
    var c := Fresh(Ipv4v6);
    var on, off := Change(Connected, Connected, Connected), Change(Disconnected, Disconnected, Disconnected);
    OneMore(c, [], on, V6);
    OneMore(c, [] + [on], SetPdp(Ipv4), V6);
    OneMore(c, [] + [on] + [SetPdp(Ipv4)], off, V6);
    OneMore(c, [] + [on] + [SetPdp(Ipv4)] + [off], SetPdp(Ipv4v6), V6);
    assert [] + [on] + [SetPdp(Ipv4)] + [off] + [SetPdp(Ipv4v6)] == [on, SetPdp(Ipv4), off, SetPdp(Ipv4v6)];
  }

  // ----- Runs with a fixed PDP type -----

  ghost predicate FixedPdp(run: seq<Event>) { forall e <- run :: !e.SetPdp? }

  lemma {:induction false} PdpStays(c: Cache, run: seq<Event>)
    requires FixedPdp(run)
    ensures CacheAfter(c, run).pdp == c.pdp
  {
    if run != [] {
      assert forall e <- run[..|run| - 1] :: e in run;
      assert run[|run| - 1] in run;
      PdpStays(c, run[..|run| - 1]);
    }
  }

  /** A start timed out right after a report of another state than "disconnected", and every
      report since says "disconnected". */
  ghost predicate LeftBehind(run: seq<Event>, f: Family, j: nat) {
    && j + 1 < |run| && run[j].Change? && Reported(run[j], f) != Disconnected && run[j + 1] == StartTimeout
    && forall k | j + 1 < k < |run| :: run[k].Change? ==> Reported(run[k], f) == Disconnected
  }

  /** A family that is not cached as disconnected is what its clients were told last. */
  lemma {:induction false} CachedWasTold(c: Cache, run: seq<Event>, f: Family)
    requires c.v4 == c.v6 == Disconnected && InPdp(f, c.pdp) && FixedPdp(run)
    ensures Cached(CacheAfter(c, run), f) != Disconnected ==> Right(c, run, f)
    ensures Cached(CacheAfter(c, run), f) != Disconnected ==>
              run != [] && run[|run| - 1].Change? && Reported(run[|run| - 1], f) != Disconnected
    decreases |run|
  {
    if run != [] {
      assert run[|run| - 1] in run && forall e <- run[..|run| - 1] :: e in run;
      StatesStep(c, run, f);
      PdpStays(c, run[..|run| - 1]);
      CachedWasTold(c, run[..|run| - 1], f);
    }
  }

  ghost predicate NoneLeftBehind(run: seq<Event>, f: Family) { forall j: nat :: !LeftBehind(run, f, j) }

  predicate ReportsOther(run: seq<Event>, f: Family) {
    run != [] && run[|run| - 1].Change? && Reported(run[|run| - 1], f) != Disconnected
  }

  /** A timeout or one more "disconnected" leaves the same clients behind, and a timeout right
      after another report leaves them behind anew. */
  lemma LeftBehindStep(run: seq<Event>, f: Family)
    requires run != [] && !ReportsOther(run, f)
    ensures var before := run[..|run| - 1];
            NoneLeftBehind(run, f) <==>
              NoneLeftBehind(before, f) && !(run[|run| - 1] == StartTimeout && ReportsOther(before, f))
  {
    var before, last := run[..|run| - 1], run[|run| - 1];
    forall j: nat
      ensures LeftBehind(run, f, j) <==>
              LeftBehind(before, f, j) || (j + 2 == |run| && last == StartTimeout && ReportsOther(before, f))
    {
      assert forall k | 0 <= k < |run| :: run[k] == if k < |before| then before[k] else last;
      if LeftBehind(before, f, j) {
        assert forall k | j + 1 < k < |run| :: run[k].Change? ==> Reported(run[k], f) == Disconnected;
      }
      if LeftBehind(run, f, j) && j + 2 < |run| {
        assert forall k | j + 1 < k < |before| :: before[k].Change? ==> Reported(before[k], f) == Disconnected;
      }
    }
    if last == StartTimeout && ReportsOther(before, f) {
      assert LeftBehind(run, f, |run| - 2);
    } else {
      assert NoneLeftBehind(before, f) ==> forall j: nat :: !LeftBehind(before, f, j);
      if j: nat :| LeftBehind(before, f, j) {
        assert LeftBehind(run, f, j);
      }
    }
  }

  /** One event that does not report another state than "disconnected". */
  lemma QuietStep(c: Cache, run: seq<Event>, f: Family)
    requires c.v4 == c.v6 == Disconnected && InPdp(f, c.pdp) && FixedPdp(run)
    requires run != [] && !ReportsOther(run, f)
    requires var before := run[..|run| - 1]; Right(c, before, f) <==> NoneLeftBehind(before, f)
    ensures Right(c, run, f) <==> NoneLeftBehind(run, f)
  {
    var before, last := run[..|run| - 1], run[|run| - 1];
    assert last in run && forall e <- before :: e in run;
    StatesStep(c, run, f);
    PdpStays(c, before);
    CachedWasTold(c, before, f);
    LeftBehindStep(run, f);
    if before != [] {
      StatesStep(c, before, f);
      assert before[|before| - 1] in before;
    }
  }

  /** With a fixed PDP type, after any run, with timeouts or without, clients believe the cached
      state exactly when no timeout left them behind. */
  lemma {:induction false} FixedPdpBeliefIff(c: Cache, run: seq<Event>, f: Family)
    requires c.v4 == c.v6 == Disconnected && InPdp(f, c.pdp) && FixedPdp(run)
    ensures Right(c, run, f) <==> NoneLeftBehind(run, f)
    decreases |run|
  {
    if run != [] {
      var before, last := run[..|run| - 1], run[|run| - 1];
      assert last in run && forall e <- before :: e in run;
      if ReportsOther(run, f) {
        StatesStep(c, run, f);
        CachedWasTold(c, run, f);
        assert forall j: nat | LeftBehind(run, f, j) :: j + 1 < |run| - 1 && run[|run| - 1] == last;
      } else {
        FixedPdpBeliefIff(c, before, f);
        QuietStep(c, run, f);
      }
    }
  }

  /** A start that times out while the session is still connecting. */
  lemma TimeoutLeavesBehind()
    ensures !Right(Fresh(Ipv4), [Change(Connecting, Connecting, Disconnected), StartTimeout], V4)
  {
    var c, on := Fresh(Ipv4), Change(Connecting, Connecting, Disconnected);
    OneMore(c, [], on, V4);
    OneMore(c, [] + [on], StartTimeout, V4);
    assert [] + [on] + [StartTimeout] == [on, StartTimeout];
  }
}
