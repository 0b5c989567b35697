/** The connector/stream graph of the audio service, as values. Both sides of every link
    are stored; the hash maps that store them are recycled through a pool. */
module AudioGraph {

  type MapId = nat
  type StreamPtr = nat
  type ConnPtr = nat
  type Session = nat

  datatype Interface = Speaker(n: nat) | Mic(n: nat) | ModemVoiceRx | ModemVoiceTx | FilePlay | FileCapture

  datatype Direction = Rx | Tx

  predicate IsOutput(i: Interface) { i.Speaker? || i.ModemVoiceTx? || i.FileCapture? }

  predicate IsFile(i: Interface) { i.FilePlay? || i.FileCapture? }

  datatype Node = StreamNode(s: StreamPtr) | ConnNode(c: ConnPtr)

  datatype PoolEntry = PoolEntry(mapRef: MapId, used: bool)

  /** `sessions` is the list of session nodes, `refs` the memory reference count. */
  datatype Stream = Stream(iface: Interface, direction: Direction, input: bool, connList: MapId,
                           sessions: seq<Session>, refs: nat)

  datatype Connector = Connector(inList: MapId, outList: MapId, session: Session)

  datatype Graph = Graph(pool: seq<PoolEntry>, contents: map<MapId, set<Node>>,
                         streams: map<StreamPtr, Stream>, conns: map<ConnPtr, Connector>)

  // ----- The pool -----

  function AllMaps(pool: seq<PoolEntry>): set<MapId> {
    set i | 0 <= i < |pool| :: pool[i].mapRef
  }

  function UsedMaps(pool: seq<PoolEntry>): set<MapId> {
    set i | 0 <= i < |pool| && pool[i].used :: pool[i].mapRef
  }

  ghost predicate DistinctMaps(pool: seq<PoolEntry>) {
    forall i, j | 0 <= i < j < |pool| :: pool[i].mapRef != pool[j].mapRef
  }

  /** Marks a map used or free. */
  function Mark(pool: seq<PoolEntry>, m: MapId, used: bool): (p: seq<PoolEntry>)
    ensures |p| == |pool|
  {
    seq(|pool|, i requires 0 <= i < |pool| =>
      if pool[i].mapRef == m then PoolEntry(m, used) else pool[i])
  }

  lemma MarkMaps(pool: seq<PoolEntry>, m: MapId, used: bool)
    requires DistinctMaps(pool)
    ensures DistinctMaps(Mark(pool, m, used)) && AllMaps(Mark(pool, m, used)) == AllMaps(pool)
    ensures UsedMaps(Mark(pool, m, used)) ==
            if used && m in AllMaps(pool) then UsedMaps(pool) + {m} else UsedMaps(pool) - {m}
  {
    var p := Mark(pool, m, used);
    forall x ensures x in AllMaps(p) <==> x in AllMaps(pool) {
      if x in AllMaps(pool) {
        var i :| 0 <= i < |pool| && pool[i].mapRef == x;
        assert p[i].mapRef == x;
      }
    }
    forall x ensures x in UsedMaps(p) <==>
                     x in if used && m in AllMaps(pool) then UsedMaps(pool) + {m} else UsedMaps(pool) - {m}
    {
      if x in UsedMaps(pool) && x != m {
        var i :| 0 <= i < |pool| && pool[i].used && pool[i].mapRef == x;
        assert p[i].used && p[i].mapRef == x;
      }
      if used && m in AllMaps(pool) {
        var i :| 0 <= i < |pool| && pool[i].mapRef == m;
        assert p[i].used && p[i].mapRef == m;
      }
    }
  }

  // ----- The invariant -----

  /** A map's entries; no entries for a map that does not exist. */
  function At(g: Graph, m: MapId): set<Node> {
    if m in g.contents then g.contents[m] else {}
  }

  datatype Owner = OfStream(s: StreamPtr) | InOf(c: ConnPtr) | OutOf(c: ConnPtr)

  ghost predicate LiveOwner(g: Graph, o: Owner) {
    match o
    case OfStream(s) => s in g.streams
    case InOf(c) => c in g.conns
    case OutOf(c) => c in g.conns
  }

  ghost function MapOf(g: Graph, o: Owner): MapId
    requires LiveOwner(g, o)
  {
    match o
    case OfStream(s) => g.streams[s].connList
    case InOf(c) => g.conns[c].inList
    case OutOf(c) => g.conns[c].outList
  }

  ghost predicate Owned(g: Graph, m: MapId) {
    exists o :: LiveOwner(g, o) && MapOf(g, o) == m
  }

  /** The pool lists every map once, and maps in the free list are empty. */
  ghost predicate PoolBase(g: Graph) {
    && DistinctMaps(g.pool)
    && g.contents.Keys == AllMaps(g.pool)
    && (forall m <- g.contents :: m !in UsedMaps(g.pool) ==> g.contents[m] == {})
  }

  /** The maps marked used are exactly those owned, each by one live connector side or stream. */
  ghost predicate PoolInv(g: Graph) {
    && PoolBase(g)
    && (forall o | LiveOwner(g, o) :: MapOf(g, o) in UsedMaps(g.pool))
    && (forall o, p | LiveOwner(g, o) && LiveOwner(g, p) && MapOf(g, o) == MapOf(g, p) :: o == p)
    && (forall m <- UsedMaps(g.pool) :: Owned(g, m))
  }

  /** The map of connector `c` that a stream of this kind belongs in. */
  function Side(g: Graph, c: ConnPtr, input: bool): MapId
    requires c in g.conns
  {
    if input then g.conns[c].inList else g.conns[c].outList
  }

  /** A connector's list holds only live streams of its kind that list the connector. */
  ghost predicate SideOk(g: Graph, c: ConnPtr, input: bool)
    requires c in g.conns
  {
    forall n <- At(g, Side(g, c, input)) ::
      && n.StreamNode? && n.s in g.streams && g.streams[n.s].input == input
      && ConnNode(c) in At(g, g.streams[n.s].connList)
  }

  /** A stream's list holds only live connectors that list the stream on its side. */
  ghost predicate ListOk(g: Graph, s: StreamPtr)
    requires s in g.streams
  {
    forall n <- At(g, g.streams[s].connList) ::
      && n.ConnNode? && n.c in g.conns
      && StreamNode(s) in At(g, Side(g, n.c, g.streams[s].input))
  }

  ghost predicate LinkInv(g: Graph) {
    && (forall c <- g.conns :: SideOk(g, c, true) && SideOk(g, c, false))
    && (forall s <- g.streams :: ListOk(g, s))
  }

  /** Each stream holds one memory reference per session node, and at least one. */
  ghost predicate RefInvOf(g: Graph, s: StreamPtr)
    requires s in g.streams
  {
    && g.streams[s].refs == |g.streams[s].sessions| > 0
    && g.streams[s].input == !IsOutput(g.streams[s].iface)
  }

  ghost predicate RefInv(g: Graph) { forall s <- g.streams :: RefInvOf(g, s) }

  ghost predicate Inv(g: Graph) { PoolInv(g) && LinkInv(g) && RefInv(g) }

  /** The two sides of the graph are the same relation. */
  lemma Symmetric(g: Graph, c: ConnPtr, s: StreamPtr)
    requires Inv(g) && c in g.conns && s in g.streams
    ensures ConnNode(c) in At(g, g.streams[s].connList) <==>
            StreamNode(s) in At(g, g.conns[c].inList) || StreamNode(s) in At(g, g.conns[c].outList)
    ensures StreamNode(s) in At(g, g.conns[c].inList) ==> g.streams[s].input
    ensures StreamNode(s) in At(g, g.conns[c].outList) ==> !g.streams[s].input
  {
  }

  /** No map anywhere refers to a stream or connector that is gone. */
  lemma GoneIsUnreferenced(g: Graph, n: Node, m: MapId)
    requires Inv(g) && n in At(g, m)
    ensures n.StreamNode? ==> n.s in g.streams
    ensures n.ConnNode? ==> n.c in g.conns
  {
  }

  // ----- Operations -----

  ghost function SideOwner(c: ConnPtr, input: bool): Owner {
    if input then InOf(c) else OutOf(c)
  }

  /** A map from the pool: the first free one, or else a new one. */
  function FirstFree(pool: seq<PoolEntry>): (i: nat)
    ensures i <= |pool| && (i < |pool| ==> !pool[i].used)
    ensures forall j | 0 <= j < i :: pool[j].used
  {
    if pool == [] then 0 else if !pool[0].used then 0 else 1 + FirstFree(pool[1..])
  }

  function Acquired(g: Graph, created: MapId): MapId {
    var i := FirstFree(g.pool);
    if i < |g.pool| then g.pool[i].mapRef else created
  }

  function Acquire(g: Graph, created: MapId): Graph {
    var i := FirstFree(g.pool);
    if i < |g.pool| then g.(pool := Mark(g.pool, g.pool[i].mapRef, true))
    else g.(pool := g.pool + [PoolEntry(created, true)], contents := g.contents[created := {}])
  }

  lemma AppendMaps(pool: seq<PoolEntry>, m: MapId)
    requires DistinctMaps(pool) && m !in AllMaps(pool)
    ensures var p := pool + [PoolEntry(m, true)];
            DistinctMaps(p) && AllMaps(p) == AllMaps(pool) + {m} && UsedMaps(p) == UsedMaps(pool) + {m}
  {
    var p := pool + [PoolEntry(m, true)];
    assert p[|pool|] == PoolEntry(m, true);
    forall i | 0 <= i < |pool| ensures p[i].mapRef != m {
      assert pool[i].mapRef in AllMaps(pool);
    }
    forall x | x in AllMaps(pool) ensures x in AllMaps(p) {
      var i :| 0 <= i < |pool| && pool[i].mapRef == x;
      assert p[i].mapRef == x;
    }
    forall x | x in UsedMaps(pool) ensures x in UsedMaps(p) {
      var i :| 0 <= i < |pool| && pool[i].used && pool[i].mapRef == x;
      assert p[i].used && p[i].mapRef == x;
    }
  }

  /** Every map handed out, recycled or new, is empty and was nobody's. */
  lemma AcquiredIsEmpty(g: Graph, created: MapId)
    requires PoolBase(g) && created !in g.contents
    ensures var m, h := Acquired(g, created), Acquire(g, created);
            && PoolBase(h)
            && m !in UsedMaps(g.pool) && At(g, m) == {}
            && UsedMaps(h.pool) == UsedMaps(g.pool) + {m}
            && h.contents == g.contents[m := {}]
            && h.streams == g.streams && h.conns == g.conns
  {
    var i := FirstFree(g.pool);
    if i < |g.pool| {
      var m := g.pool[i].mapRef;
      assert m in AllMaps(g.pool);
      assert m !in UsedMaps(g.pool);
      MarkMaps(g.pool, m, true);
      assert g.contents == g.contents[m := {}];
    } else {
      AppendMaps(g.pool, created);
      assert created !in UsedMaps(g.pool);
    }
  }

  function CreateConnector(g: Graph, c: ConnPtr, session: Session, f1: MapId, f2: MapId): Graph {
    var h := Acquire(g, f1);
    var k := Acquire(h, f2);
    k.(conns := k.conns[c := Connector(Acquired(g, f1), Acquired(h, f2), session)])
  }

  function Linked(g: Graph, c: ConnPtr, s: StreamPtr): bool
    requires c in g.conns && s in g.streams
  {
    StreamNode(s) in At(g, Side(g, c, g.streams[s].input))
  }

  /** Adds `n` to map `m`. */
  function Put(contents: map<MapId, set<Node>>, m: MapId, n: Node): map<MapId, set<Node>> {
    contents[m := (if m in contents then contents[m] else {}) + {n}]
  }

  function Remove(contents: map<MapId, set<Node>>, m: MapId, n: Node): map<MapId, set<Node>> {
    contents[m := (if m in contents then contents[m] else {}) - {n}]
  }

  function Connect(g: Graph, c: ConnPtr, s: StreamPtr): Graph
    requires c in g.conns && s in g.streams
  {
    if Linked(g, c, s) then g
    else g.(contents := Put(Put(g.contents, Side(g, c, g.streams[s].input), StreamNode(s)),
                            g.streams[s].connList, ConnNode(c)))
  }

  function Disconnect(g: Graph, c: ConnPtr, s: StreamPtr): Graph
    requires c in g.conns && s in g.streams
  {
    if !Linked(g, c, s) then g
    else g.(contents := Remove(Remove(g.contents, Side(g, c, g.streams[s].input), StreamNode(s)),
                               g.streams[s].connList, ConnNode(c)))
  }

  /** Drops a connector: its maps are emptied and freed, and nobody lists it any more. */
  function DeleteConnector(g: Graph, c: ConnPtr): Graph
    requires c in g.conns
  {
    var k := g.conns[c];
    g.(contents := map m | m in g.contents ::
                     if m == k.inList || m == k.outList then {} else g.contents[m] - {ConnNode(c)},
       pool := Mark(Mark(g.pool, k.inList, false), k.outList, false),
       conns := g.conns - {c})
  }

  /** Drops a stream: its map is emptied and freed, and no connector lists it any more. */
  function Destruct(g: Graph, s: StreamPtr): Graph
    requires s in g.streams
  {
    var k := g.streams[s].connList;
    g.(contents := map m | m in g.contents :: if m == k then {} else g.contents[m] - {StreamNode(s)},
       pool := Mark(g.pool, k, false),
       streams := g.streams - {s})
  }

  function NewStream(g: Graph, s: StreamPtr, i: Interface, d: Direction, session: Session, created: MapId): Graph {
    var h := Acquire(g, created);
    h.(streams := h.streams[s :=
         Stream(i, if IsFile(i) then d else Rx, !IsOutput(i), Acquired(g, created), [session], 1)])
  }

  function AddReference(g: Graph, s: StreamPtr, session: Session): Graph
    requires s in g.streams
  {
    var x := g.streams[s];
    g.(streams := g.streams[s := x.(sessions := x.sessions + [session], refs := x.refs + 1)])
  }

  /** The session nodes left after a release: all of the session's go, or the first. */
  function Kept(nodes: seq<Session>, session: Session, all: bool): seq<Session> {
    if nodes == [] then []
    else if nodes[0] != session then [nodes[0]] + Kept(nodes[1..], session, all)
    else if all then Kept(nodes[1..], session, all)
    else nodes[1..]
  }

  /** A release gives back one reference per removed node and destroys the stream with the last. */
  function Release(g: Graph, s: StreamPtr, session: Session, all: bool): Graph
    requires s in g.streams
  {
    var left := Kept(g.streams[s].sessions, session, all);
    if left == [] then Destruct(g, s) else WithSessions(g, s, left)
  }

  /** The stream with other session nodes, and a reference for each. */
  function WithSessions(g: Graph, s: StreamPtr, nodes: seq<Session>): Graph
    requires s in g.streams
  {
    g.(streams := g.streams[s := g.streams[s].(sessions := nodes, refs := |nodes|)])
  }
}
