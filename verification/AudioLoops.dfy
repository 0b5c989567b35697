/** What the audio service's loops over nodes, links and session lists compute. */
module AudioLoops {
  import opened AudioGraph
  import opened AudioKeeps

  predicate Matches(x: Stream, i: Interface, d: Direction) { x.iface == i && x.direction == d }

  /** Opening a stream shares a hardware stream that matches, or else creates `s`. */
  ghost predicate Opened(g: Graph, t: Graph, hwDevice: bool, i: Interface, d: Direction, session: Session,
                         s: StreamPtr, created: MapId, found: StreamPtr)
  {
    if hwDevice && exists r :: r in g.streams && Matches(g.streams[r], i, d)
    then found in g.streams && Matches(g.streams[found], i, d) && t == AddReference(g, found, session)
    else found == s && t == NewStream(g, s, i, d, session, created)
  }

  /** `node` taken out of the given maps. */
  ghost function Dropped(contents: map<MapId, set<Node>>, maps: set<MapId>, node: Node): map<MapId, set<Node>> {
    map m | m in contents :: if m in maps then contents[m] - {node} else contents[m]
  }

  ghost function ListsOf(streams: map<StreamPtr, Stream>, nodes: set<Node>): set<MapId> {
    set n | n in nodes && n.StreamNode? && n.s in streams :: streams[n.s].connList
  }

  lemma InLists(streams: map<StreamPtr, Stream>, nodes: set<Node>, s: StreamPtr)
    requires s in streams && StreamNode(s) in nodes
    ensures streams[s].connList in ListsOf(streams, nodes)
  {
  }

  lemma InSides(g: Graph, input: bool, done: set<Node>, c: ConnPtr)
    requires c in g.conns && ConnNode(c) in done
    ensures Side(g, c, input) in SidesOf(g, input, done)
  {
  }

  lemma MapInContents(g: Graph, o: Owner)
    requires PoolInv(g) && LiveOwner(g, o)
    ensures MapOf(g, o) in g.contents
  {
  }

  predicate Listable(g: Graph, nodes: set<Node>) {
    forall n <- nodes :: n.StreamNode? && n.s in g.streams && g.streams[n.s].connList in g.contents
  }

  lemma ConnectorLists(g: Graph, c: ConnPtr)
    requires Inv(g) && c in g.conns
    ensures var k := g.conns[c];
            && k.inList in g.contents && k.outList in g.contents && k.inList != k.outList
            && Listable(g, At(g, k.inList)) && Listable(g, At(g, k.outList))
            && k.outList !in ListsOf(g.streams, At(g, k.inList))
  {
    var k := g.conns[c];
    MapInContents(g, InOf(c));
    MapInContents(g, OutOf(c));
    DistinctOwners(g, InOf(c), OutOf(c));
    assert SideOk(g, c, true) && SideOk(g, c, false);
    NotTheirs(g, OutOf(c));
    forall s | s in g.streams ensures g.streams[s].connList in g.contents {
      MapInContents(g, OfStream(s));
    }
  }

  /** Only the streams a connector lists list it: unlisting it there drops it everywhere. */
  lemma DroppedEverywhere(g: Graph, c: ConnPtr)
    requires Inv(g) && c in g.conns
    ensures var k := g.conns[c];
            forall m <- g.contents :: m !in {k.inList, k.outList} && ConnNode(c) in g.contents[m] ==>
              m in ListsOf(g.streams, At(g, k.inList)) + ListsOf(g.streams, At(g, k.outList))
  {
    var k := g.conns[c];
    forall m | m in g.contents && ConnNode(c) in g.contents[m]
      ensures m in ListsOf(g.streams, At(g, k.inList)) + ListsOf(g.streams, At(g, k.outList))
    {
      var o :| LiveOwner(g, o) && MapOf(g, o) == m;
      match o
      case OfStream(s) =>
        assert ListOk(g, s);
        InLists(g.streams, At(g, Side(g, c, g.streams[s].input)), s);
      case InOf(d) => SidesHoldStreams(g, d, true, ConnNode(c));
      case OutOf(d) => SidesHoldStreams(g, d, false, ConnNode(c));
    }
  }

  lemma SidesHoldStreams(g: Graph, d: ConnPtr, i: bool, n: Node)
    requires LinkInv(g) && d in g.conns && n.ConnNode?
    ensures n !in At(g, Side(g, d, i))
  {
  }

  lemma ListsHoldConnectors(g: Graph, r: StreamPtr, n: Node)
    requires LinkInv(g) && r in g.streams && n.StreamNode?
    ensures n !in At(g, g.streams[r].connList)
  {
  }

  lemma TwoDrops(contents: map<MapId, set<Node>>, a: set<MapId>, b: set<MapId>, node: Node, p: MapId, q: MapId)
    requires p in contents && q in contents
    requires forall m <- contents :: m !in {p, q} && node in contents[m] ==> m in a + b
    ensures Dropped(Dropped(contents, a, node), b, node)[p := {}][q := {}] ==
            map m | m in contents :: if m == p || m == q then {} else contents[m] - {node}
  {
    var d := Dropped(Dropped(contents, a, node), b, node)[p := {}][q := {}];
    forall m | m in contents && m !in {p, q} ensures d[m] == contents[m] - {node} {
    }
  }

  /** What deleting a connector leaves, as the two unlisting loops compute it. */
  lemma DeleteContents(g: Graph, c: ConnPtr)
    requires Inv(g) && c in g.conns
    ensures var k := g.conns[c];
            && k.inList in g.contents && k.outList in g.contents
            && var ins, outs := ListsOf(g.streams, At(g, k.inList)), ListsOf(g.streams, At(g, k.outList));
            Dropped(Dropped(g.contents, ins, ConnNode(c)), outs, ConnNode(c))[k.inList := {}][k.outList := {}]
              == DeleteConnector(g, c).contents
  {
    MapInContents(g, InOf(c));
    MapInContents(g, OutOf(c));
    DroppedEverywhere(g, c);
    var k := g.conns[c];
    TwoDrops(g.contents, ListsOf(g.streams, At(g, k.inList)), ListsOf(g.streams, At(g, k.outList)),
             ConnNode(c), k.inList, k.outList);
  }

  /** Stream `s` disconnected from the connectors in `done`. */
  ghost function Detached(g: Graph, s: StreamPtr, done: set<Node>): map<MapId, set<Node>>
    requires s in g.streams
  {
    map m | m in g.contents ::
      if m == g.streams[s].connList then g.contents[m] - done
      else if m in SidesOf(g, g.streams[s].input, done) then g.contents[m] - {StreamNode(s)}
      else g.contents[m]
  }

  ghost function SidesOf(g: Graph, input: bool, done: set<Node>): set<MapId> {
    set n | n in done && n.ConnNode? && n.c in g.conns :: Side(g, n.c, input)
  }

  lemma StreamLists(g: Graph, s: StreamPtr)
    requires PoolInv(g) && LinkInv(g) && s in g.streams
    ensures var k := g.streams[s].connList;
            && k in g.contents && Detached(g, s, {}) == g.contents
            && (forall n <- g.contents[k] :: n.ConnNode? && n.c in g.conns)
  {
    assert LiveOwner(g, OfStream(s)) && MapOf(g, OfStream(s)) == g.streams[s].connList;
    assert ListOk(g, s);
    assert SidesOf(g, g.streams[s].input, {}) == {};
    forall m | m in g.contents ensures Detached(g, s, {})[m] == g.contents[m] {
    }
  }

  lemma SideNotYet(g: Graph, s: StreamPtr, done: set<Node>, c: ConnPtr)
    requires PoolInv(g) && s in g.streams && c in g.conns && ConnNode(c) !in done
    ensures Side(g, c, g.streams[s].input) !in SidesOf(g, g.streams[s].input, done)
  {
    LinkPlaces(g, c, s);
  }

  lemma DetachStep(g: Graph, s: StreamPtr, done: set<Node>, n: Node)
    requires s in g.streams && n.ConnNode? && n.c in g.conns && n !in done
    requires var side, k := Side(g, n.c, g.streams[s].input), g.streams[s].connList;
             && side in g.contents && k in g.contents && side != k
             && StreamNode(s) in g.contents[side] && n in g.contents[k]
             && side !in SidesOf(g, g.streams[s].input, done)
    ensures var h := g.(contents := Detached(g, s, done));
            Disconnect(h, n.c, s).contents == Detached(g, s, done + {n})
  {
    var input := g.streams[s].input;
    var h, side, k := g.(contents := Detached(g, s, done)), Side(g, n.c, input), g.streams[s].connList;
    assert SidesOf(g, input, done + {n}) == SidesOf(g, input, done) + {side};
    var d, spec := Disconnect(h, n.c, s).contents, Detached(g, s, done + {n});
    assert d == Remove(Remove(h.contents, side, StreamNode(s)), k, n);
    forall m | m in g.contents ensures d[m] == spec[m] {
    }
  }

  /** Each disconnect of the sweep finds its link and takes exactly it out. */
  lemma DetachOne(g: Graph, s: StreamPtr, done: set<Node>, n: Node)
    requires PoolInv(g) && LinkInv(g) && s in g.streams
    requires n in At(g, g.streams[s].connList) && n !in done
    ensures n.ConnNode? && n.c in g.conns
    ensures var h := g.(contents := Detached(g, s, done));
            && Side(h, n.c, g.streams[s].input) in h.contents && g.streams[s].connList in h.contents
            && Disconnect(h, n.c, s).contents == Detached(g, s, done + {n})
  {
    assert ListOk(g, s);
    SideMaps(g, n.c, s);
    SideNotYet(g, s, done, n.c);
    DetachStep(g, s, done, n);
  }

  /** Only the connectors a stream lists list it. */
  lemma DetachedEverywhere(g: Graph, s: StreamPtr)
    requires PoolInv(g) && LinkInv(g) && s in g.streams
    ensures var k := g.streams[s].connList;
            forall m <- g.contents :: m != k && StreamNode(s) in g.contents[m] ==>
              m in SidesOf(g, g.streams[s].input, At(g, k))
  {
    var k := g.streams[s].connList;
    forall m | m in g.contents && m != k && StreamNode(s) in g.contents[m]
      ensures m in SidesOf(g, g.streams[s].input, At(g, k))
    {
      var o :| LiveOwner(g, o) && MapOf(g, o) == m;
      match o
      case OfStream(r) => ListsHoldConnectors(g, r, StreamNode(s));
      case InOf(d) => assert SideOk(g, d, true); InSides(g, g.streams[s].input, At(g, k), d);
      case OutOf(d) => assert SideOk(g, d, false); InSides(g, g.streams[s].input, At(g, k), d);
    }
  }

  /** What destroying a stream leaves, as the disconnecting sweep computes it. */
  lemma DestructContents(g: Graph, s: StreamPtr)
    requires PoolInv(g) && LinkInv(g) && s in g.streams
    ensures var k := g.streams[s].connList;
            Detached(g, s, At(g, k))[k := {}] == Destruct(g, s).contents
  {
    MapInContents(g, OfStream(s));
    DetachedEverywhere(g, s);
    DetachedThenEmptied(g, s);
  }

  lemma DetachedThenEmptied(g: Graph, s: StreamPtr)
    requires s in g.streams && g.streams[s].connList in g.contents
    requires var k := g.streams[s].connList;
             forall m <- g.contents :: m != k && StreamNode(s) in g.contents[m] ==>
               m in SidesOf(g, g.streams[s].input, At(g, k))
    ensures var k := g.streams[s].connList;
            Detached(g, s, At(g, k))[k := {}] == Destruct(g, s).contents
  {
    var k := g.streams[s].connList;
    var d := Detached(g, s, At(g, k))[k := {}];
    forall m | m in g.contents ensures d[m] == Destruct(g, s).contents[m] {
      if m != k && StreamNode(s) !in g.contents[m] {
        assert g.contents[m] - {StreamNode(s)} == g.contents[m];
      }
    }
  }

  /** A stream's session nodes and count do not matter to the pool and the links, nor to
      what its destruction leaves. */
  lemma SessionsOnly(g: Graph, s: StreamPtr, nodes: seq<Session>)
    requires PoolInv(g) && LinkInv(g) && s in g.streams
    ensures var t := WithSessions(g, s, nodes);
            PoolInv(t) && LinkInv(t) && Destruct(t, s) == Destruct(g, s)
  {
    var t := WithSessions(g, s, nodes);
    SameOwners(g, t);
    SameLinks(g, t);
    assert t.streams - {s} == g.streams - {s};
  }

  /** One node of the release loop: nodes before `i` are kept, node `i` is decided. */
  lemma KeptStep(all: seq<Session>, xs: seq<Session>, i: nat, session: Session, every: bool)
    requires i < |xs| && Kept(all, session, every) == xs[..i] + Kept(xs[i..], session, every)
    ensures var left := xs[..i] + xs[i + 1..];
            if xs[i] != session then Kept(all, session, every) == xs[..i + 1] + Kept(xs[i + 1..], session, every)
            else if every then Kept(all, session, every) == left[..i] + Kept(left[i..], session, every)
            else Kept(all, session, every) == left
  {
  }

  /** The release loop at node `i`: nodes before it are kept, those from it on are undecided,
      and each node that went has given back its reference. */
  ghost predicate Releasing(g: Graph, t: Graph, s: StreamPtr, session: Session, all: bool, i: nat) {
    && s in g.streams && s in t.streams
    && var xs := t.streams[s].sessions;
       && i <= |xs| && xs != [] && t == WithSessions(g, s, xs)
       && Kept(g.streams[s].sessions, session, all) == xs[..i] + Kept(xs[i..], session, all)
  }

  lemma ReleasingSkip(g: Graph, t: Graph, s: StreamPtr, session: Session, all: bool, i: nat)
    requires Releasing(g, t, s, session, all, i)
    requires i < |t.streams[s].sessions| && t.streams[s].sessions[i] != session
    ensures Releasing(g, t, s, session, all, i + 1)
  {
    KeptStep(g.streams[s].sessions, t.streams[s].sessions, i, session, all);
  }

  lemma ReleasingDrop(g: Graph, t: Graph, s: StreamPtr, session: Session, all: bool, i: nat)
    requires Releasing(g, t, s, session, all, i)
    requires i < |t.streams[s].sessions| && t.streams[s].sessions[i] == session
    ensures var xs := t.streams[s].sessions;
            var left := xs[..i] + xs[i + 1..];
            var u := if left == [] then Destruct(g, s) else WithSessions(g, s, left);
            if left == [] || !all then u == Release(g, s, session, all)
            else Releasing(g, u, s, session, all, i)
  {
    KeptStep(g.streams[s].sessions, t.streams[s].sessions, i, session, all);
  }

  lemma ReleasingDone(g: Graph, t: Graph, s: StreamPtr, session: Session, all: bool, i: nat)
    requires Releasing(g, t, s, session, all, i) && i == |t.streams[s].sessions|
    ensures t == Release(g, s, session, all)
  {
    var xs := t.streams[s].sessions;
    assert xs[..i] == xs && xs[i..] == [] && Kept([], session, all) == [];
    assert xs + [] == xs;
    assert Kept(g.streams[s].sessions, session, all) == xs;
  }
}
