/** Whole runs of the audio service's connector and stream calls, from the empty service on. */
module AudioRuns {
  import opened AudioGraph
  import opened AudioKeeps
  import opened AudioLoops
  import opened AudioSessions

  /** The calls, with the objects and maps that their allocations return. */
  datatype Call =
    | OpenConnector(c: ConnPtr, session: Session, inMap: MapId, outMap: MapId)
    | CloseConnector(c: ConnPtr)
    | Link(c: ConnPtr, s: StreamPtr)
    | Unlink(c: ConnPtr, s: StreamPtr)
    | OpenStream(s: StreamPtr, i: Interface, d: Direction, session: Session, created: MapId)
    | ShareStream(s: StreamPtr, session: Session)
    | CloseStream(s: StreamPtr, session: Session, all: bool)

  const EMPTY := Graph([], map[], map[], map[])

  predicate Enabled(g: Graph, a: Call) {
    match a
    case OpenConnector(c, _, inMap, outMap) =>
      c !in g.conns && inMap !in g.contents && outMap !in Acquire(g, inMap).contents
    case CloseConnector(c) => c in g.conns
    case Link(c, s) => c in g.conns && s in g.streams
    case Unlink(c, s) => c in g.conns && s in g.streams
    case OpenStream(s, _, _, _, created) => s !in g.streams && created !in g.contents
    case ShareStream(s, _) => s in g.streams
    case CloseStream(s, _, _) => s in g.streams
  }

  function Apply(g: Graph, a: Call): Graph
    requires Enabled(g, a)
  {
    match a
    case OpenConnector(c, session, inMap, outMap) => CreateConnector(g, c, session, inMap, outMap)
    case CloseConnector(c) => DeleteConnector(g, c)
    case Link(c, s) => Connect(g, c, s)
    case Unlink(c, s) => Disconnect(g, c, s)
    case OpenStream(s, i, d, session, created) => NewStream(g, s, i, d, session, created)
    case ShareStream(s, session) => AddReference(g, s, session)
    case CloseStream(s, session, all) => Release(g, s, session, all)
  }

  lemma ApplyKeeps(g: Graph, a: Call)
    requires Inv(g) && Enabled(g, a)
    ensures Inv(Apply(g, a))
  {
    match a
    case OpenConnector(c, session, inMap, outMap) => CreateConnectorKeeps(g, c, session, inMap, outMap);
    case CloseConnector(c) => DeleteConnectorKeeps(g, c);
    case Link(c, s) => ConnectKeeps(g, c, s);
    case Unlink(c, s) => DisconnectKeeps(g, c, s);
    case OpenStream(s, i, d, session, created) => NewStreamKeeps(g, s, i, d, session, created);
    case ShareStream(s, session) => AddReferenceKeeps(g, s, session);
    case CloseStream(s, session, all) => ReleaseKeeps(g, s, session, all);
  }

  predicate IsRun(run: seq<Call>): (ok: bool)
    decreases |run|, 0
  {
    run == [] || (IsRun(run[..|run| - 1]) && Enabled(After(run[..|run| - 1]), run[|run| - 1]))
  }

  /** The graph after a run. */
  function After(run: seq<Call>): Graph
    requires IsRun(run)
    decreases |run|, 1
  {
    if run == [] then EMPTY else Apply(After(run[..|run| - 1]), run[|run| - 1])
  }

  /** After any run the pool, the two sides of the links and the reference counts agree. */
  lemma {:induction false} RunKeeps(run: seq<Call>)
    requires IsRun(run)
    ensures Inv(After(run))
    decreases |run|
  {
    if run != [] {
      RunKeeps(run[..|run| - 1]);
      ApplyKeeps(After(run[..|run| - 1]), run[|run| - 1]);
    }
  }

  // ----- What a link means -----

  /** The call makes the connector or the stream. */
  predicate Opens(a: Call, c: ConnPtr, s: StreamPtr) {
    (a.OpenConnector? && a.c == c) || (a.OpenStream? && a.s == s)
  }

  /** One link touches the list of no other pair. */
  ghost predicate Apart(g: Graph, c: ConnPtr, s: StreamPtr, d: ConnPtr, r: StreamPtr) {
    && c in g.conns && s in g.streams && d in g.conns && r in g.streams
    && var side, other := Side(g, c, g.streams[s].input), Side(g, d, g.streams[r].input);
       && side in g.contents && other in g.contents && g.streams[s].connList in g.contents
       && side != g.streams[s].connList && other != g.streams[s].connList
       && (other == side <==> d == c && g.streams[r].input == g.streams[s].input)
  }

  lemma PairsApart(g: Graph, c: ConnPtr, s: StreamPtr, d: ConnPtr, r: StreamPtr)
    requires PoolInv(g) && c in g.conns && s in g.streams && d in g.conns && r in g.streams
    ensures Apart(g, c, s, d, r)
  {
    LinkPlaces(g, c, s);
  }

  lemma ConnectLinksOne(g: Graph, c: ConnPtr, s: StreamPtr, d: ConnPtr, r: StreamPtr)
    requires Apart(g, c, s, d, r)
    ensures Linked(Connect(g, c, s), d, r) <==> Linked(g, d, r) || (d == c && r == s)
  {
  }

  lemma DisconnectUnlinksOne(g: Graph, c: ConnPtr, s: StreamPtr, d: ConnPtr, r: StreamPtr)
    requires Apart(g, c, s, d, r)
    ensures Linked(Disconnect(g, c, s), d, r) <==> Linked(g, d, r) && !(d == c && r == s)
  {
  }

  lemma LinkStep(g: Graph, a: Call, d: ConnPtr, r: StreamPtr)
    requires Inv(g) && Enabled(g, a) && (a.Link? || a.Unlink?) && d in g.conns && r in g.streams
    ensures Linked(Apply(g, a), d, r) <==> a == Link(d, r) || (a != Unlink(d, r) && Linked(g, d, r))
  {
    PairsApart(g, a.c, a.s, d, r);
    if a.Link? {
      ConnectLinksOne(g, a.c, a.s, d, r);
    } else {
      DisconnectUnlinksOne(g, a.c, a.s, d, r);
    }
  }

  lemma NewConnectorIsBare(g: Graph, a: Call, d: ConnPtr, r: StreamPtr)
    requires Inv(g) && a.OpenConnector? && Enabled(g, a)
    requires d in Apply(g, a).conns && r in Apply(g, a).streams
    ensures Linked(Apply(g, a), d, r) <==> d != a.c && Linked(g, d, r)
  {
    ConnectorMaps(g, a.c, a.session, a.inMap, a.outMap);
    var t := Apply(g, a);
    UsedMapsCarry(g, t);
    if d != a.c {
      assert At(t, Side(g, d, g.streams[r].input)) == At(g, Side(g, d, g.streams[r].input));
    }
  }

  lemma NewStreamIsBare(g: Graph, a: Call, d: ConnPtr, r: StreamPtr)
    requires Inv(g) && a.OpenStream? && Enabled(g, a)
    requires d in Apply(g, a).conns && r in Apply(g, a).streams
    ensures Linked(Apply(g, a), d, r) <==> r != a.s && Linked(g, d, r)
  {
  }

  /** A call links or unlinks only the pair it names; closing anything leaves the links of
      what remains; and what is opened starts without links. */
  lemma LinkedStep(g: Graph, a: Call, c: ConnPtr, s: StreamPtr)
    requires Inv(g) && Enabled(g, a) && c in Apply(g, a).conns && s in Apply(g, a).streams
    ensures Linked(Apply(g, a), c, s) <==>
            if Opens(a, c, s) then false
            else if a == Link(c, s) then true
            else a != Unlink(c, s) && c in g.conns && s in g.streams && Linked(g, c, s)
    ensures !Opens(a, c, s) ==> c in g.conns && s in g.streams
  {
    match a
    case OpenConnector(_, _, _, _) => NewConnectorIsBare(g, a, c, s);
    case OpenStream(_, _, _, _, _) => NewStreamIsBare(g, a, c, s);
    case CloseConnector(d) => DeleteWithin(g, d);
    case Link(_, _) => LinkStep(g, a, c, s);
    case Unlink(_, _) => LinkStep(g, a, c, s);
    case ShareStream(_, _) =>
    case CloseStream(r, session, all) => ReleaseWithin(g, r, session, all);
  }

  /** The last call about this connector and stream linked them. */
  predicate LastLinked(run: seq<Call>, c: ConnPtr, s: StreamPtr) {
    if run == [] then false
    else
      var a := run[|run| - 1];
      if Opens(a, c, s) then false
      else a == Link(c, s) || (a != Unlink(c, s) && LastLinked(run[..|run| - 1], c, s))
  }

  /** After any run, a live connector and a live stream are linked exactly when they were
      linked, and not unlinked, since the younger of them was opened. */
  lemma {:induction false} LinkedIffLastLinked(run: seq<Call>, c: ConnPtr, s: StreamPtr)
    requires IsRun(run) && c in After(run).conns && s in After(run).streams
    ensures Linked(After(run), c, s) <==> LastLinked(run, c, s)
    decreases |run|
  {
    if run != [] {
      var before, a := run[..|run| - 1], run[|run| - 1];
      RunKeeps(before);
      LinkedStep(After(before), a, c, s);
      if !Opens(a, c, s) {
        LinkedIffLastLinked(before, c, s);
      }
    }
  }

  // ----- Who holds a stream -----

  /** How many nodes a call leaves a session that had `n` on the stream. */
  function HeldAfter(n: nat, a: Call, s: StreamPtr, x: Session): nat {
    match a
    case OpenStream(r, _, _, session, _) => if r != s then n else if session == x then 1 else 0
    case ShareStream(r, session) => if r == s && session == x then n + 1 else n
    case CloseStream(r, session, all) =>
      if r != s || session != x then n else if all || n == 0 then 0 else n - 1
    case _ => n
  }

  /** A session's nodes on a stream, from the calls alone: an opening or sharing adds one, a
      release takes one or all. */
  function Held(run: seq<Call>, s: StreamPtr, x: Session): nat {
    if run == [] then 0 else HeldAfter(Held(run[..|run| - 1], s, x), run[|run| - 1], s, x)
  }

  /** The session nodes of a stream; a stream that is not open has none. */
  function Nodes(g: Graph, s: StreamPtr): multiset<Session> {
    if s in g.streams then multiset(g.streams[s].sessions) else multiset{}
  }

  /** What a call makes of a stream's nodes `m`. */
  function Changed(m: multiset<Session>, a: Call, s: StreamPtr): multiset<Session> {
    match a
    case OpenStream(r, _, _, session, _) => if r == s then multiset{session} else m
    case ShareStream(r, session) => if r == s then m + multiset{session} else m
    case CloseStream(r, session, all) =>
      if r != s then m else if all then m[session := 0] else m - multiset{session}
    case _ => m
  }

  lemma ChangedCount(m: multiset<Session>, a: Call, s: StreamPtr, x: Session)
    ensures Changed(m, a, s)[x] == HeldAfter(m[x], a, s, x)
  {
  }

  lemma NodesElsewhere(g: Graph, r: StreamPtr, session: Session, all: bool, s: StreamPtr)
    requires r in g.streams && s != r
    ensures Nodes(Release(g, r, session, all), s) == Nodes(g, s)
  {
  }

  lemma NodesHere(g: Graph, s: StreamPtr, session: Session, all: bool)
    requires s in g.streams
    ensures Nodes(Release(g, s, session, all), s) ==
            if all then Nodes(g, s)[session := 0] else Nodes(g, s) - multiset{session}
  {
    ReleaseLeaves(g, s, session, all);
  }

  lemma NodesAfterClose(g: Graph, r: StreamPtr, session: Session, all: bool, s: StreamPtr)
    requires r in g.streams
    ensures Nodes(Release(g, r, session, all), s) == Changed(Nodes(g, s), CloseStream(r, session, all), s)
  {
    if s == r {
      NodesHere(g, s, session, all);
    } else {
      NodesElsewhere(g, r, session, all, s);
    }
  }

  lemma NodesAfter(g: Graph, a: Call, s: StreamPtr)
    requires Inv(g) && Enabled(g, a)
    ensures Nodes(Apply(g, a), s) == Changed(Nodes(g, s), a, s)
  {
    match a
    case OpenConnector(c, session, inMap, outMap) => NewConnectorFields(g, c, session, inMap, outMap);
    case OpenStream(r, i, d, session, created) => NewStreamFields(g, r, i, d, session, created);
    case ShareStream(r, session) => AddReferenceKeeps(g, r, session);
    case CloseStream(r, session, all) => NodesAfterClose(g, r, session, all, s);
    case _ =>
  }

  lemma {:induction false} NodesAreHeld(run: seq<Call>, s: StreamPtr, x: Session)
    requires IsRun(run)
    ensures Nodes(After(run), s)[x] == Held(run, s, x)
    decreases |run|
  {
    if run != [] {
      var before := run[..|run| - 1];
      RunKeeps(before);
      NodesAreHeld(before, s, x);
      NodesAfter(After(before), run[|run| - 1], s);
      ChangedCount(Nodes(After(before), s), run[|run| - 1], s, x);
    }
  }

  /** After any run each session has as many nodes on a stream as its calls left it with, and a
      stream is open exactly while some session has one. */
  lemma OpenWhileHeld(run: seq<Call>, s: StreamPtr)
    requires IsRun(run)
    ensures forall x :: Nodes(After(run), s)[x] == Held(run, s, x)
    ensures s in After(run).streams <==> exists x :: Held(run, s, x) > 0
  {
    forall x ensures Nodes(After(run), s)[x] == Held(run, s, x) {
      NodesAreHeld(run, s, x);
    }
    RunKeeps(run);
    var g := After(run);
    if s in g.streams {
      assert RefInvOf(g, s) && g.streams[s].sessions[0] in Nodes(g, s);
      assert Held(run, s, g.streams[s].sessions[0]) > 0;
    }
  }

  // ----- What two clients can run into -----

  /** Two clients, each with one stream of its own. */
  function TwoOpen(i: Interface, d: Direction, j: Interface, e: Direction): seq<Call> {
    [OpenStream(0, i, d, 7, 100), OpenStream(1, j, e, 8, 101)]
  }

  /** Opening a stream when every map of the pool is in use makes a new map. */
  lemma OpenWithoutFree(g: Graph, s: StreamPtr, i: Interface, d: Direction, session: Session, created: MapId)
    requires forall k | 0 <= k < |g.pool| :: g.pool[k].used
    ensures NewStream(g, s, i, d, session, created) ==
            Graph(g.pool + [PoolEntry(created, true)], g.contents[created := {}],
                  g.streams[s := Opening(i, d, session, created)], g.conns)
  {
    assert FirstFree(g.pool) == |g.pool|;
  }

  function Opening(i: Interface, d: Direction, session: Session, list: MapId): Stream {
    Stream(i, if IsFile(i) then d else Rx, !IsOutput(i), list, [session], 1)
  }

  lemma OneMoreCall(before: seq<Call>, a: Call)
    requires IsRun(before) && Enabled(After(before), a)
    ensures IsRun(before + [a]) && After(before + [a]) == Apply(After(before), a)
  {
    assert (before + [a])[..|before|] == before;
  }

  lemma TwoOpenGraph(i: Interface, d: Direction, j: Interface, e: Direction)
    ensures IsRun(TwoOpen(i, d, j, e))
    ensures var g := After(TwoOpen(i, d, j, e));
            g.streams == map[0 := Opening(i, d, 7, 100), 1 := Opening(j, e, 8, 101)]
  {
    var first, second := OpenStream(0, i, d, 7, 100), OpenStream(1, j, e, 8, 101);
    var g1 := Graph([PoolEntry(100, true)], map[100 := {}], map[0 := Opening(i, d, 7, 100)], map[]);
    OpenWithoutFree(EMPTY, 0, i, d, 7, 100);
    OneMoreCall([], first);
    assert [] + [first] == [first] && After([first]) == g1;
    OpenWithoutFree(g1, 1, j, e, 8, 101);
    OneMoreCall([first], second);
    assert [first] + [second] == TwoOpen(i, d, j, e);
  }

  /** Session 7 closes with a speaker stream open: the pass also stops the player of session 8. */
  lemma StopsForeignFile()
    ensures exists run, order ::
              && IsRun(run) && Live(After(run), order)
              && 1 in StoppedFrom(After(run), order, 0, 7, false) && !Own(After(run), 1, 7)
  {
    var run, order := TwoOpen(Speaker(1), Rx, FilePlay, Tx), [0, 1];
    TwoOpenGraph(Speaker(1), Rx, FilePlay, Tx);
    var g := After(run);
    assert Live(g, order);
    assert StoppedFrom(g, order, 2, 7, true) == [] && StoppedFrom(g, order, 1, 7, true) == [1];
    assert StoppedFrom(g, order, 0, 7, false) == [] + [1];
    assert 1 in [1];
  }
}
