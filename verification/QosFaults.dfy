/** The creation counter of QoS flows does wrap: runs of the service after which the eviction
    scan no longer picks the first deleted flow. */
module QosFaults {
  import opened Listeners
  import opened Options
  import opened Qos

  const EMPTY := State(Table(map[], map[], 0), map[], map[])
  const KEY := Key(1, Id(5))

  lemma {:induction false} RunConcat(s: State, a: seq<Event>, b: seq<Event>)
    requires IsRun(s, a) && IsRun(End(s, a), b)
    ensures IsRun(s, a + b) && End(s, a + b) == End(End(s, a), b)
    decreases |a|
  {
    if a == [] {
      assert a + b == b;
    } else {
      RunConcat(Next(s, a[0]), a[1..], b);
      assert (a + b)[0] == a[0] && (a + b)[1..] == a[1..] + b;
    }
  }

  /** Prefixing one event to a run. */
  ghost function Then(s: State, v: Event, run: seq<Event>): (r: seq<Event>)
    requires Enabled(s, v) && IsRun(Next(s, v), run)
    ensures IsRun(s, r) && End(s, r) == End(Next(s, v), run)
  {
    assert ([v] + run)[1..] == run;
    [v] + run
  }

  /** One profile without flows or listeners, after `n` creations. */
  ghost function Idle(n: nat): State {
    State(Table(map[], map[KEY := []], n), map[0 := KEY], map[])
  }

  ghost function Activation(id: nat, r: FlowRef): Event {
    PaEvent(FlowEvent(KEY, id, Activated, 0), r)
  }

  /** A new flow below the cap is added. */
  lemma FlowAdded(s: State, id: nat, r: FlowRef)
    requires KEY in s.table.lists && |s.table.lists[KEY]| < MAX_FLOWS
    requires r !in s.table.flows && forall q :: !Is(s.table, q, KEY, id)
    ensures Enabled(s, Activation(id, r))
    ensures Next(s, Activation(id, r)) == s.(table := Add(s.table, FlowEvent(KEY, id, Activated, 0), r))
  {
    assert Find(s.table, KEY, id) == None;
  }

  /** A client listens, a flow comes, and the client's leaving frees it: one more creation. */
  lemma Churn(n: nat) returns (run: seq<Event>)
    ensures IsRun(Idle(n), run) && End(Idle(n), run) == Idle(n + 1)
  {
    var s1 := Next(Idle(n), AddListener(0, 1, 2));
    FlowAdded(s1, 1, 10);
    var s2 := Next(s1, Activation(1, 10));
    assert Next(s2, RemoveListener(2)) == Idle(n + 1) by {
      assert s2.handlers - {2} == map[];
      assert LosesLast(s2.handlers, {2}, 0) by {
        assert 2 in s2.handlers && s2.handlers[2].profile == 0;
      }
      assert LostKeys(s2, {2}) == {KEY};
      assert Release(s2.table, {KEY}) == Idle(n + 1).table;
    }
    run := Then(Idle(n), AddListener(0, 1, 2), Then(s1, Activation(1, 10), Then(s2, RemoveListener(2), [])));
  }

  /** Any number of creations can be reached with nothing tracked. */
  lemma {:induction false} ReachIdle(n: nat) returns (run: seq<Event>)
    ensures IsRun(EMPTY, run) && End(EMPTY, run) == Idle(n)
  {
    if n == 0 {
      assert Next(EMPTY, NewProfile(KEY, 0)) == Idle(0);
      run := Then(EMPTY, NewProfile(KEY, 0), []);
    } else {
      var before := ReachIdle(n - 1);
      var churn := Churn(n - 1);
      RunConcat(EMPTY, before, churn);
      run := before + churn;
    }
  }

  /** Three deleted flows created around the wrap of the counter. */
  ghost function Wrapped(): Table {
    Table(map[10 := Flow(KEY, 1, Deleted, 0, UINT32_MAX - 1), 11 := Flow(KEY, 2, Deleted, 0, UINT32_MAX),
              12 := Flow(KEY, 3, Deleted, 0, 0)],
          map[KEY := [10, 11, 12]], UINT32_MAX + 2)
  }

  /** The same flows while they are still active. */
  ghost function Active(): State {
    var flows := map[10 := Flow(KEY, 1, Activated, 0, UINT32_MAX - 1), 11 := Flow(KEY, 2, Activated, 0, UINT32_MAX),
                     12 := Flow(KEY, 3, Activated, 0, 0)];
    State(Table(flows, map[KEY := [10, 11, 12]], UINT32_MAX + 2), map[0 := KEY], map[])
  }

  lemma AroundTheWrap() returns (run: seq<Event>)
    ensures IsRun(Idle(UINT32_MAX - 1), run) && End(Idle(UINT32_MAX - 1), run) == Active()
  {
    var s0 := Idle(UINT32_MAX - 1);
    FlowAdded(s0, 1, 10);
    var s1 := Next(s0, Activation(1, 10));
    assert [] + [10] == [10] && s1.table.lists == map[KEY := [10]];
    FlowAdded(s1, 2, 11);
    var s2 := Next(s1, Activation(2, 11));
    assert [10] + [11] == [10, 11] && s2.table.lists == map[KEY := [10, 11]];
    FlowAdded(s2, 3, 12);
    assert [10, 11] + [12] == [10, 11, 12] && Next(s2, Activation(3, 12)) == Active();
    run := Then(s0, Activation(1, 10), Then(s1, Activation(2, 11), Then(s2, Activation(3, 12), [])));
  }

  lemma CallDownWraps() returns (run: seq<Event>)
    ensures IsRun(Active(), run) && End(Active(), run).table == Wrapped()
  {
    assert Next(Active(), CallDown(KEY)).table == Wrapped();
    run := Then(Active(), CallDown(KEY), []);
  }

  lemma ScanOfWrapped()
    ensures Oldest(Wrapped(), [10, 11, 12]) == Some(12) && FirstDeleted(Wrapped(), [10, 11, 12]) == Some(10)
  {
    var t := Wrapped();
    assert [10, 11, 12][..2] == [10, 11] && [10, 11][..1] == [10] && [10][..0] == [];
    assert Oldest(t, []) == None && Oldest(t, [10]) == Some(10);
    assert Oldest(t, [10, 11]) == Some(10);
  }

  /** The service reaches a state in which the scan, over three deleted flows in creation
      order, picks the last of them instead of the first. */
  lemma WrapIsReached()
    ensures exists run ::
              && IsRun(EMPTY, run)
              && var t := End(EMPTY, run).table;
              && t.lists == map[KEY := [10, 11, 12]]
              && Oldest(t, t.lists[KEY]) == Some(12) && FirstDeleted(t, t.lists[KEY]) == Some(10)
  {
    var before := ReachIdle(UINT32_MAX - 1);
    var after := AroundTheWrap();
    var down := CallDownWraps();
    RunConcat(Idle(UINT32_MAX - 1), after, down);
    RunConcat(EMPTY, before, after + down);
    ScanOfWrapped();
    assert End(EMPTY, before + (after + down)).table == Wrapped();
  }

  /** And one in which it passes over the only deleted flow, numbered with the 32-bit maximum. */
  lemma MaximumIsPassedOver()
    ensures exists run ::
              && IsRun(EMPTY, run)
              && var t := End(EMPTY, run).table;
              && t.lists == map[KEY := [10]]
              && Oldest(t, t.lists[KEY]) == None && FirstDeleted(t, t.lists[KEY]) == Some(10)
  {
    var before := ReachIdle(UINT32_MAX);
    var s0 := Idle(UINT32_MAX);
    FlowAdded(s0, 1, 10);
    var s1 := Next(s0, Activation(1, 10));
    assert [] + [10] == [10];
    assert s1.table.lists == map[KEY := [10]];
    var s2 := Next(s1, CallDown(KEY));
    assert s2.table.lists == map[KEY := [10]] && s2.table.flows[10].number == UINT32_MAX;
    var after := Then(s0, Activation(1, 10), Then(s1, CallDown(KEY), []));
    RunConcat(EMPTY, before, after);
    assert [10][..0] == [] && Oldest(s2.table, []) == None;
    assert IsRun(EMPTY, before + after) && End(EMPTY, before + after) == s2;
  }
}
