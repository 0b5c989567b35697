/** Every operation on the connector/stream graph keeps its invariant. */
module AudioKeeps {
  import opened AudioGraph

  /** New owners of newly used maps. */
  lemma OwnersAfterNew(g: Graph, t: Graph, added: set<Owner>)
    requires PoolInv(g) && PoolBase(t)
    requires forall o :: LiveOwner(t, o) <==> LiveOwner(g, o) || o in added
    requires forall o | LiveOwner(g, o) :: o !in added && MapOf(t, o) == MapOf(g, o)
    requires forall o <- added :: MapOf(t, o) !in UsedMaps(g.pool)
    requires forall o, p | o in added && p in added && o != p :: MapOf(t, o) != MapOf(t, p)
    requires UsedMaps(t.pool) == UsedMaps(g.pool) + set o | o in added :: MapOf(t, o)
    ensures PoolInv(t)
  {
  }

  /** The nodes of `g` are nodes of `t`, with the same lists. */
  ghost predicate Carried(g: Graph, t: Graph) {
    && (forall c <- g.conns :: c in t.conns && t.conns[c] == g.conns[c])
    && (forall s <- g.streams :: s in t.streams && t.streams[s] == g.streams[s])
    && (forall c, i | c in g.conns :: At(t, Side(g, c, i)) == At(g, Side(g, c, i)))
    && (forall s <- g.streams :: At(t, g.streams[s].connList) == At(g, g.streams[s].connList))
  }

  /** New nodes with empty maps bring no links. */
  lemma LinksAfterNew(g: Graph, t: Graph)
    requires LinkInv(g) && Carried(g, t)
    requires forall c <- t.conns :: c !in g.conns ==> At(t, t.conns[c].inList) == At(t, t.conns[c].outList) == {}
    requires forall s <- t.streams :: s !in g.streams ==> At(t, t.streams[s].connList) == {}
    ensures LinkInv(t)
  {
    forall c | c in t.conns ensures SideOk(t, c, true) && SideOk(t, c, false) {
      if c in g.conns {
        SideCarried(g, t, c, true);
        SideCarried(g, t, c, false);
      }
    }
    forall s | s in t.streams ensures ListOk(t, s) {
      if s in g.streams {
        ListCarried(g, t, s);
      }
    }
  }

  lemma SideCarried(g: Graph, t: Graph, c: ConnPtr, i: bool)
    requires LinkInv(g) && Carried(g, t) && c in g.conns
    ensures SideOk(t, c, i)
  {
  }

  lemma ListCarried(g: Graph, t: Graph, s: StreamPtr)
    requires LinkInv(g) && Carried(g, t) && s in g.streams
    ensures ListOk(t, s)
  {
  }

  /** Used maps that are left alone carry the nodes over. */
  lemma UsedMapsCarry(g: Graph, t: Graph)
    requires PoolInv(g)
    requires forall m <- UsedMaps(g.pool) :: At(t, m) == At(g, m)
    requires forall c <- g.conns :: c in t.conns && t.conns[c] == g.conns[c]
    requires forall s <- g.streams :: s in t.streams && t.streams[s] == g.streams[s]
    ensures Carried(g, t)
  {
    forall s | s in g.streams ensures At(t, g.streams[s].connList) == At(g, g.streams[s].connList) {
      assert MapOf(g, OfStream(s)) in UsedMaps(g.pool);
    }
    forall c, i | c in g.conns ensures At(t, Side(g, c, i)) == At(g, Side(g, c, i)) {
      assert MapOf(g, SideOwner(c, i)) in UsedMaps(g.pool);
    }
  }

  /** A new connector gets two different maps that nobody used. */
  lemma ConnectorMaps(g: Graph, c: ConnPtr, session: Session, f1: MapId, f2: MapId)
    requires PoolBase(g) && f1 !in g.contents && f2 !in Acquire(g, f1).contents
    ensures var t := CreateConnector(g, c, session, f1, f2);
            var k := t.conns[c];
            && PoolBase(t) && UsedMaps(t.pool) == UsedMaps(g.pool) + {k.inList, k.outList}
            && k.inList !in UsedMaps(g.pool) && k.outList !in UsedMaps(g.pool) && k.inList != k.outList
            && t.contents == g.contents[k.inList := {}][k.outList := {}]
            && t.conns == g.conns[c := k] && t.streams == g.streams
  {
    AcquiredIsEmpty(g, f1);
    AcquiredIsEmpty(Acquire(g, f1), f2);
  }

  lemma ConnectorOwners(g: Graph, t: Graph, c: ConnPtr)
    requires PoolInv(g) && PoolBase(t) && c !in g.conns && c in t.conns
    requires t.conns == g.conns[c := t.conns[c]] && t.streams == g.streams
    requires var k := t.conns[c];
             && UsedMaps(t.pool) == UsedMaps(g.pool) + {k.inList, k.outList}
             && k.inList !in UsedMaps(g.pool) && k.outList !in UsedMaps(g.pool) && k.inList != k.outList
    ensures PoolInv(t)
  {
    var added := {InOf(c), OutOf(c)};
    assert MapOf(t, InOf(c)) == t.conns[c].inList && MapOf(t, OutOf(c)) == t.conns[c].outList;
    assert (set o | o in added :: MapOf(t, o)) == {t.conns[c].inList, t.conns[c].outList};
    OwnersAfterNew(g, t, added);
  }

  lemma ConnectorLinks(g: Graph, t: Graph, c: ConnPtr)
    requires PoolInv(g) && LinkInv(g) && c !in g.conns && c in t.conns
    requires t.conns == g.conns[c := t.conns[c]] && t.streams == g.streams
    requires t.contents == g.contents[t.conns[c].inList := {}][t.conns[c].outList := {}]
    requires t.conns[c].inList !in UsedMaps(g.pool) && t.conns[c].outList !in UsedMaps(g.pool)
    ensures LinkInv(t)
  {
    UsedMapsCarry(g, t);
    LinksAfterNew(g, t);
  }

  lemma CreateConnectorKeeps(g: Graph, c: ConnPtr, session: Session, f1: MapId, f2: MapId)
    requires Inv(g) && c !in g.conns && f1 !in g.contents && f2 !in Acquire(g, f1).contents
    ensures Inv(CreateConnector(g, c, session, f1, f2))
  {
    var t := CreateConnector(g, c, session, f1, f2);
    ConnectorMaps(g, c, session, f1, f2);
    ConnectorOwners(g, t, c);
    ConnectorLinks(g, t, c);
    assert forall s <- t.streams :: RefInvOf(g, s);
  }

  /** The creating session is the one stored. */
  lemma NewConnectorFields(g: Graph, c: ConnPtr, session: Session, f1: MapId, f2: MapId)
    ensures var t := CreateConnector(g, c, session, f1, f2);
            && t.conns == g.conns[c := Connector(t.conns[c].inList, t.conns[c].outList, session)]
            && t.streams == g.streams
  {
  }

  lemma NewStreamKeeps(g: Graph, s: StreamPtr, i: Interface, d: Direction, session: Session, created: MapId)
    requires Inv(g) && s !in g.streams && created !in g.contents
    ensures Inv(NewStream(g, s, i, d, session, created))
  {
    var t := NewStream(g, s, i, d, session, created);
    AcquiredIsEmpty(g, created);
    assert MapOf(t, OfStream(s)) == Acquired(g, created);
    OwnersAfterNew(g, t, {OfStream(s)});
    UsedMapsCarry(g, t);
    LinksAfterNew(g, t);
    assert forall r <- g.streams :: RefInvOf(g, r);
  }

  /** A new stream: input or output by its interface, a direction for files only, and one node,
      the opening session's, with one reference. */
  lemma NewStreamFields(g: Graph, s: StreamPtr, i: Interface, d: Direction, session: Session, created: MapId)
    ensures var t := NewStream(g, s, i, d, session, created);
            && s in t.streams && t.streams == g.streams[s := t.streams[s]] && t.conns == g.conns
            && var x := t.streams[s];
               && x.iface == i && x.direction == (if i.FilePlay? || i.FileCapture? then d else Rx)
               && x.input == (i.Mic? || i.ModemVoiceRx? || i.FilePlay?) && x.sessions == [session] && x.refs == 1
  {
  }

  /** Distinct owners hold distinct maps; in particular no stream's map is a connector's. */
  lemma DistinctOwners(g: Graph, o: Owner, p: Owner)
    requires PoolInv(g) && LiveOwner(g, o) && LiveOwner(g, p) && o != p
    ensures MapOf(g, o) != MapOf(g, p)
  {
  }

  /** Changing only what used maps hold, or a stream's sessions, leaves the pool as it was. */
  lemma SameOwners(g: Graph, t: Graph)
    requires PoolInv(g) && t.pool == g.pool && t.contents.Keys == g.contents.Keys
    requires t.conns == g.conns && t.streams.Keys == g.streams.Keys
    requires forall s <- g.streams :: t.streams[s].connList == g.streams[s].connList
    requires forall m <- g.contents :: m !in UsedMaps(g.pool) ==> t.contents[m] == {}
    ensures PoolInv(t)
  {
    forall o ensures LiveOwner(t, o) == LiveOwner(g, o) && (LiveOwner(g, o) ==> MapOf(t, o) == MapOf(g, o)) {
    }
    forall m <- UsedMaps(t.pool) ensures Owned(t, m) {
      var o :| LiveOwner(g, o) && MapOf(g, o) == m;
      assert LiveOwner(t, o) && MapOf(t, o) == m;
    }
  }

  /** Which lists a link of `c` and `s` is stored in. */
  lemma LinkPlaces(g: Graph, c: ConnPtr, s: StreamPtr)
    requires PoolInv(g) && c in g.conns && s in g.streams
    ensures var side, k := Side(g, c, g.streams[s].input), g.streams[s].connList;
            && (forall d, i | d in g.conns ::
                  && Side(g, d, i) in g.contents && Side(g, d, i) != k
                  && (Side(g, d, i) == side <==> d == c && i == g.streams[s].input))
            && (forall r <- g.streams ::
                  && g.streams[r].connList in g.contents && g.streams[r].connList != side
                  && (g.streams[r].connList == k <==> r == s))
  {
    var o := SideOwner(c, g.streams[s].input);
    assert LiveOwner(g, OfStream(s)) && LiveOwner(g, o) && MapOf(g, o) == Side(g, c, g.streams[s].input);
    NotTheirs(g, o);
    NotTheirs(g, OfStream(s));
    forall d, i | d in g.conns ensures Side(g, d, i) in UsedMaps(g.pool) {
      assert LiveOwner(g, SideOwner(d, i)) && MapOf(g, SideOwner(d, i)) == Side(g, d, i);
    }
    forall r | r in g.streams ensures g.streams[r].connList in UsedMaps(g.pool) {
      assert LiveOwner(g, OfStream(r)) && MapOf(g, OfStream(r)) == g.streams[r].connList;
    }
  }

  /** `t` is `g` with one link added or taken out on both of its sides. */
  ghost predicate OneLink(g: Graph, t: Graph, c: ConnPtr, s: StreamPtr, add: bool)
    requires c in g.conns && s in g.streams
  {
    && t.pool == g.pool && t.conns == g.conns && t.streams == g.streams && t.contents.Keys == g.contents.Keys
    && var side, k := Side(g, c, g.streams[s].input), g.streams[s].connList;
       forall m <- g.contents ::
         t.contents[m] ==
           var n := if m == side then {StreamNode(s)} else if m == k then {ConnNode(c)} else {};
           if add then g.contents[m] + n else g.contents[m] - n
  }

  /** Adding or removing one link on both of its sides keeps the sides agreeing. */
  lemma LinkChanged(g: Graph, t: Graph, c: ConnPtr, s: StreamPtr, add: bool)
    requires PoolInv(g) && LinkInv(g) && c in g.conns && s in g.streams
    requires OneLink(g, t, c, s, add)
    ensures LinkInv(t)
  {
    LinkPlaces(g, c, s);
    forall d | d in t.conns ensures SideOk(t, d, true) && SideOk(t, d, false) {
      SideAfterChange(g, t, c, s, add, d, true);
      SideAfterChange(g, t, c, s, add, d, false);
    }
    forall r | r in t.streams ensures ListOk(t, r) {
      ListAfterChange(g, t, c, s, add, r);
    }
  }

  lemma SideAfterChange(g: Graph, t: Graph, c: ConnPtr, s: StreamPtr, add: bool, d: ConnPtr, i: bool)
    requires LinkInv(g) && c in g.conns && s in g.streams && d in g.conns
    requires OneLink(g, t, c, s, add)
    requires var side, k := Side(g, c, g.streams[s].input), g.streams[s].connList;
             && Side(g, d, i) in g.contents && Side(g, d, i) != k
             && (Side(g, d, i) == side <==> d == c && i == g.streams[s].input)
             && (forall r <- g.streams ::
                   && g.streams[r].connList in g.contents && g.streams[r].connList != side
                   && (g.streams[r].connList == k <==> r == s))
    ensures SideOk(t, d, i)
  {
  }

  lemma ListAfterChange(g: Graph, t: Graph, c: ConnPtr, s: StreamPtr, add: bool, r: StreamPtr)
    requires LinkInv(g) && c in g.conns && s in g.streams && r in g.streams
    requires OneLink(g, t, c, s, add)
    requires var side, k := Side(g, c, g.streams[s].input), g.streams[s].connList;
             && g.streams[r].connList in g.contents && g.streams[r].connList != side
             && (g.streams[r].connList == k <==> r == s)
             && (forall d, i | d in g.conns ::
                  && Side(g, d, i) in g.contents && Side(g, d, i) != k
                  && (Side(g, d, i) == side <==> d == c && i == g.streams[s].input))
    ensures ListOk(t, r)
  {
    assert ListOk(g, r);
    forall n | n in At(t, t.streams[r].connList)
      ensures n.ConnNode? && n.c in t.conns
      ensures StreamNode(r) in At(t, Side(t, n.c, t.streams[r].input))
    {
      assert n in At(g, g.streams[r].connList) || n == ConnNode(c);
      assert Side(g, n.c, g.streams[r].input) in g.contents;
    }
  }

  lemma SideMaps(g: Graph, c: ConnPtr, s: StreamPtr)
    requires PoolInv(g) && c in g.conns && s in g.streams
    ensures var side, k := Side(g, c, g.streams[s].input), g.streams[s].connList;
            side != k && side in UsedMaps(g.pool) && k in UsedMaps(g.pool)
            && side in g.contents && k in g.contents
  {
    var o := SideOwner(c, g.streams[s].input);
    assert LiveOwner(g, OfStream(s)) && LiveOwner(g, o);
    assert MapOf(g, o) == Side(g, c, g.streams[s].input);
  }

  lemma ConnectIsOneLink(g: Graph, c: ConnPtr, s: StreamPtr)
    requires c in g.conns && s in g.streams && !Linked(g, c, s)
    requires var side, k := Side(g, c, g.streams[s].input), g.streams[s].connList;
             side != k && side in g.contents && k in g.contents
    ensures OneLink(g, Connect(g, c, s), c, s, true)
  {
  }

  lemma DisconnectIsOneLink(g: Graph, c: ConnPtr, s: StreamPtr)
    requires c in g.conns && s in g.streams && Linked(g, c, s)
    requires var side, k := Side(g, c, g.streams[s].input), g.streams[s].connList;
             side != k && side in g.contents && k in g.contents
    ensures OneLink(g, Disconnect(g, c, s), c, s, false)
  {
  }

  lemma OneLinkKeeps(g: Graph, t: Graph, c: ConnPtr, s: StreamPtr, add: bool)
    requires Inv(g) && c in g.conns && s in g.streams && OneLink(g, t, c, s, add)
    ensures Inv(t)
  {
    SideMaps(g, c, s);
    SameOwners(g, t);
    LinkChanged(g, t, c, s, add);
  }

  lemma BothSides(g: Graph, c: ConnPtr)
    requires PoolInv(g) && c in g.conns
    ensures g.conns[c].inList in g.contents && g.conns[c].outList in g.contents
  {
    assert MapOf(g, InOf(c)) in UsedMaps(g.pool) && MapOf(g, OutOf(c)) in UsedMaps(g.pool);
  }

  lemma ConnectKeeps(g: Graph, c: ConnPtr, s: StreamPtr)
    requires Inv(g) && c in g.conns && s in g.streams
    ensures Inv(Connect(g, c, s))
  {
    SideMaps(g, c, s);
    if !Linked(g, c, s) {
      ConnectIsOneLink(g, c, s);
      OneLinkKeeps(g, Connect(g, c, s), c, s, true);
    }
  }

  lemma DisconnectKeeps(g: Graph, c: ConnPtr, s: StreamPtr)
    requires Inv(g) && c in g.conns && s in g.streams
    ensures Inv(Disconnect(g, c, s))
  {
    SideMaps(g, c, s);
    if Linked(g, c, s) {
      DisconnectIsOneLink(g, c, s);
      OneLinkKeeps(g, Disconnect(g, c, s), c, s, false);
    }
  }

  lemma PutThenRemove(contents: map<MapId, set<Node>>, a: MapId, b: MapId, x: Node, y: Node)
    requires a in contents && b in contents && a != b && x !in contents[a] && y !in contents[b]
    ensures Remove(Remove(Put(Put(contents, a, x), b, y), a, x), b, y) == contents
  {
  }

  /** Disconnecting undoes connecting. */
  lemma ConnectThenDisconnect(g: Graph, c: ConnPtr, s: StreamPtr)
    requires Inv(g) && c in g.conns && s in g.streams && !Linked(g, c, s)
    ensures Disconnect(Connect(g, c, s), c, s) == g
  {
    SideMaps(g, c, s);
    var side, k := Side(g, c, g.streams[s].input), g.streams[s].connList;
    assert ConnNode(c) !in At(g, k) by {
      assert ListOk(g, s);
    }
    PutThenRemove(g.contents, side, k, StreamNode(s), ConnNode(c));
  }

  /** Freeing exactly the maps of the owners that are gone. */
  lemma OwnersAfterFree(g: Graph, t: Graph, gone: set<Owner>, freed: set<MapId>)
    requires PoolInv(g) && PoolBase(t)
    requires forall o :: LiveOwner(t, o) <==> LiveOwner(g, o) && o !in gone
    requires forall o | LiveOwner(t, o) :: MapOf(t, o) == MapOf(g, o)
    requires forall o | LiveOwner(g, o) :: o in gone <==> MapOf(g, o) in freed
    requires UsedMaps(t.pool) == UsedMaps(g.pool) - freed
    ensures PoolInv(t)
  {
  }

  /** `t` is `g` without `node`: the maps in `gone` are emptied, the others no longer hold it. */
  ghost predicate Shed(g: Graph, t: Graph, gone: set<MapId>, node: Node) {
    && t.contents.Keys == g.contents.Keys
    && (forall m <- g.contents :: t.contents[m] == if m in gone then {} else g.contents[m] - {node})
    && (forall c :: c in t.conns <==> c in g.conns && node != ConnNode(c))
    && (forall s :: s in t.streams <==> s in g.streams && node != StreamNode(s))
    && (forall c <- t.conns :: t.conns[c] == g.conns[c])
    && (forall s <- t.streams :: t.streams[s] == g.streams[s])
  }

  /** Losing a node leaves the links among the rest. */
  lemma LinksAfterGone(g: Graph, t: Graph, gone: set<MapId>, node: Node)
    requires LinkInv(g) && Shed(g, t, gone, node)
    requires forall c <- t.conns :: Side(g, c, true) !in gone && Side(g, c, false) !in gone
    requires forall s <- t.streams :: g.streams[s].connList !in gone
    ensures LinkInv(t)
  {
    forall c | c in t.conns ensures SideOk(t, c, true) && SideOk(t, c, false) {
      SideAfterGone(g, t, gone, node, c, true);
      SideAfterGone(g, t, gone, node, c, false);
    }
    forall s | s in t.streams ensures ListOk(t, s) {
      ListAfterGone(g, t, gone, node, s);
    }
  }

  lemma SideAfterGone(g: Graph, t: Graph, gone: set<MapId>, node: Node, c: ConnPtr, i: bool)
    requires LinkInv(g) && Shed(g, t, gone, node) && c in t.conns && Side(g, c, i) !in gone
    requires forall s <- t.streams :: g.streams[s].connList !in gone
    ensures SideOk(t, c, i)
  {
    assert SideOk(g, c, true) && SideOk(g, c, false);
    assert At(t, Side(t, c, i)) == At(g, Side(g, c, i)) - {node};
  }

  lemma ListAfterGone(g: Graph, t: Graph, gone: set<MapId>, node: Node, s: StreamPtr)
    requires LinkInv(g) && Shed(g, t, gone, node) && s in t.streams && g.streams[s].connList !in gone
    requires forall c <- t.conns :: Side(g, c, true) !in gone && Side(g, c, false) !in gone
    ensures ListOk(t, s)
  {
    assert ListOk(g, s);
    assert At(t, t.streams[s].connList) == At(g, g.streams[s].connList) - {node};
  }

  lemma TwoFreed(pool: seq<PoolEntry>, a: MapId, b: MapId)
    requires DistinctMaps(pool)
    ensures var p := Mark(Mark(pool, a, false), b, false);
            DistinctMaps(p) && AllMaps(p) == AllMaps(pool) && UsedMaps(p) == UsedMaps(pool) - {a, b}
  {
    MarkMaps(pool, a, false);
    MarkMaps(Mark(pool, a, false), b, false);
  }

  lemma MapsFreed(g: Graph, c: ConnPtr)
    requires PoolBase(g) && c in g.conns
    ensures var t, k := DeleteConnector(g, c), g.conns[c];
            PoolBase(t) && UsedMaps(t.pool) == UsedMaps(g.pool) - {k.inList, k.outList}
  {
    TwoFreed(g.pool, g.conns[c].inList, g.conns[c].outList);
  }

  /** Exactly the two sides of a deleted connector lose their owner. */
  lemma OwnersLeft(g: Graph, c: ConnPtr)
    requires PoolInv(g) && c in g.conns
    ensures var t, k := DeleteConnector(g, c), g.conns[c];
            forall o :: && (LiveOwner(t, o) <==> LiveOwner(g, o) && o !in {InOf(c), OutOf(c)})
                        && (LiveOwner(t, o) ==> MapOf(t, o) == MapOf(g, o))
                        && (LiveOwner(g, o) ==> (o in {InOf(c), OutOf(c)} <==> MapOf(g, o) in {k.inList, k.outList}))
  {
    var t, k := DeleteConnector(g, c), g.conns[c];
    assert LiveOwner(g, InOf(c)) && LiveOwner(g, OutOf(c));
    forall o | LiveOwner(g, o) ensures o in {InOf(c), OutOf(c)} <==> MapOf(g, o) in {k.inList, k.outList} {
      if o !in {InOf(c), OutOf(c)} {
        DistinctOwners(g, o, InOf(c));
        DistinctOwners(g, o, OutOf(c));
      }
    }
  }

  lemma ConnectorGone(g: Graph, c: ConnPtr)
    requires PoolInv(g) && c in g.conns
    ensures PoolInv(DeleteConnector(g, c))
  {
    MapsFreed(g, c);
    OwnersLeft(g, c);
    OwnersAfterFree(g, DeleteConnector(g, c), {InOf(c), OutOf(c)}, {g.conns[c].inList, g.conns[c].outList});
  }

  lemma ConnectorShed(g: Graph, c: ConnPtr)
    requires c in g.conns
    ensures Shed(g, DeleteConnector(g, c), {g.conns[c].inList, g.conns[c].outList}, ConnNode(c))
  {
  }

  /** No other node uses the maps of a connector. */
  lemma NotItsSides(g: Graph, c: ConnPtr)
    requires PoolInv(g) && c in g.conns
    ensures var sides := {g.conns[c].inList, g.conns[c].outList};
            && (forall d, i | d in g.conns && d != c :: Side(g, d, i) !in sides)
            && (forall s <- g.streams :: g.streams[s].connList !in sides)
  {
    NotTheirs(g, InOf(c));
    NotTheirs(g, OutOf(c));
  }

  lemma ConnectorUnlinked(g: Graph, c: ConnPtr)
    requires LinkInv(g) && c in g.conns
    requires var sides := {g.conns[c].inList, g.conns[c].outList};
             && (forall d, i | d in g.conns && d != c :: Side(g, d, i) !in sides)
             && (forall s <- g.streams :: g.streams[s].connList !in sides)
    ensures LinkInv(DeleteConnector(g, c))
  {
    ConnectorShed(g, c);
    LinksAfterGone(g, DeleteConnector(g, c), {g.conns[c].inList, g.conns[c].outList}, ConnNode(c));
  }

  lemma DeleteConnectorKeeps(g: Graph, c: ConnPtr)
    requires Inv(g) && c in g.conns
    ensures Inv(DeleteConnector(g, c))
  {
    ConnectorGone(g, c);
    NotItsSides(g, c);
    ConnectorUnlinked(g, c);
    assert forall s <- DeleteConnector(g, c).streams :: RefInvOf(g, s);
  }

  /** A map has no other owner. */
  lemma NotTheirs(g: Graph, o: Owner)
    requires PoolInv(g) && LiveOwner(g, o)
    ensures forall s <- g.streams :: o != OfStream(s) ==> g.streams[s].connList != MapOf(g, o)
    ensures forall d <- g.conns :: o != InOf(d) ==> g.conns[d].inList != MapOf(g, o)
    ensures forall d <- g.conns :: o != OutOf(d) ==> g.conns[d].outList != MapOf(g, o)
  {
    forall s | s in g.streams && o != OfStream(s) ensures g.streams[s].connList != MapOf(g, o) {
      DistinctOwners(g, OfStream(s), o);
    }
    forall d | d in g.conns && o != InOf(d) ensures g.conns[d].inList != MapOf(g, o) {
      DistinctOwners(g, InOf(d), o);
    }
    forall d | d in g.conns && o != OutOf(d) ensures g.conns[d].outList != MapOf(g, o) {
      DistinctOwners(g, OutOf(d), o);
    }
  }

  /** Exactly the destroyed stream loses its map. */
  lemma StreamOwnersLeft(g: Graph, s: StreamPtr)
    requires PoolInv(g) && s in g.streams
    ensures var t, k := Destruct(g, s), g.streams[s].connList;
            forall o :: && (LiveOwner(t, o) <==> LiveOwner(g, o) && o !in {OfStream(s)})
                        && (LiveOwner(t, o) ==> MapOf(t, o) == MapOf(g, o))
                        && (LiveOwner(g, o) ==> (o in {OfStream(s)} <==> MapOf(g, o) in {k}))
  {
    assert LiveOwner(g, OfStream(s));
    forall o | LiveOwner(g, o) && o != OfStream(s) ensures MapOf(g, o) != g.streams[s].connList {
      DistinctOwners(g, o, OfStream(s));
    }
  }

  lemma StreamMapFreed(g: Graph, s: StreamPtr)
    requires PoolBase(g) && s in g.streams
    ensures PoolBase(Destruct(g, s)) && UsedMaps(Destruct(g, s).pool) == UsedMaps(g.pool) - {g.streams[s].connList}
  {
    MarkMaps(g.pool, g.streams[s].connList, false);
  }

  lemma StreamGone(g: Graph, s: StreamPtr)
    requires PoolInv(g) && s in g.streams
    ensures PoolInv(Destruct(g, s))
  {
    StreamMapFreed(g, s);
    StreamOwnersLeft(g, s);
    OwnersAfterFree(g, Destruct(g, s), {OfStream(s)}, {g.streams[s].connList});
  }

  lemma StreamShed(g: Graph, s: StreamPtr)
    requires s in g.streams
    ensures Shed(g, Destruct(g, s), {g.streams[s].connList}, StreamNode(s))
  {
  }

  lemma StreamUnlinked(g: Graph, s: StreamPtr)
    requires PoolInv(g) && LinkInv(g) && s in g.streams
    ensures LinkInv(Destruct(g, s))
  {
    NotTheirs(g, OfStream(s));
    StreamShed(g, s);
    LinksAfterGone(g, Destruct(g, s), {g.streams[s].connList}, StreamNode(s));
  }

  lemma DestructKeeps(g: Graph, s: StreamPtr)
    requires Inv(g) && s in g.streams
    ensures Inv(Destruct(g, s))
  {
    StreamGone(g, s);
    StreamUnlinked(g, s);
    assert forall r <- Destruct(g, s).streams :: RefInvOf(g, r);
  }

  /** A release keeps the invariant: the destructor runs exactly when the last node goes. */
  lemma ReleaseKeeps(g: Graph, s: StreamPtr, session: Session, all: bool)
    requires Inv(g) && s in g.streams
    ensures Inv(Release(g, s, session, all))
    ensures s in Release(g, s, session, all).streams <==> Kept(g.streams[s].sessions, session, all) != []
  {
    if Kept(g.streams[s].sessions, session, all) == [] {
      DestructKeeps(g, s);
    } else {
      var t := Release(g, s, session, all);
      SameOwners(g, t);
      SameLinks(g, t);
    }
  }

  /** Sharing adds one node of the opening session, and one reference. */
  lemma AddReferenceKeeps(g: Graph, s: StreamPtr, session: Session)
    requires Inv(g) && s in g.streams
    ensures Inv(AddReference(g, s, session))
    ensures var t, x := AddReference(g, s, session), g.streams[s];
            && s in t.streams && t == g.(streams := g.streams[s := t.streams[s]])
            && t.streams[s] == x.(sessions := t.streams[s].sessions, refs := x.refs + 1)
            && multiset(t.streams[s].sessions) == multiset(x.sessions) + multiset{session}
  {
    SameOwners(g, AddReference(g, s, session));
    SameLinks(g, AddReference(g, s, session));
  }

  lemma {:induction false} KeptButOne(nodes: seq<Session>, session: Session)
    ensures multiset(Kept(nodes, session, false)) == multiset(nodes) - multiset{session}
  {
    if nodes != [] {
      assert multiset(nodes) == multiset{nodes[0]} + multiset(nodes[1..]) by {
        assert nodes == [nodes[0]] + nodes[1..];
      }
      if nodes[0] != session {
        KeptButOne(nodes[1..], session);
      }
    }
  }

  lemma {:induction false} KeptButAll(nodes: seq<Session>, session: Session)
    ensures multiset(Kept(nodes, session, true)) == multiset(nodes)[session := 0]
  {
    if nodes != [] {
      assert multiset(nodes) == multiset{nodes[0]} + multiset(nodes[1..]) by {
        assert nodes == [nodes[0]] + nodes[1..];
      }
      KeptButAll(nodes[1..], session);
      if nodes[0] == session {
        assert multiset(nodes)[session := 0] == multiset(nodes[1..])[session := 0];
      }
    }
  }

  /** The nodes that a release leaves: one of the session's goes, or all of them. */
  lemma KeptNodes(nodes: seq<Session>, session: Session, all: bool)
    ensures multiset(Kept(nodes, session, all)) ==
            if all then multiset(nodes)[session := 0] else multiset(nodes) - multiset{session}
    ensures Kept(nodes, session, all) == [] <==> multiset(Kept(nodes, session, all)) == multiset{}
  {
    if all {
      KeptButAll(nodes, session);
    } else {
      KeptButOne(nodes, session);
    }
    if Kept(nodes, session, all) != [] {
      assert Kept(nodes, session, all)[0] in multiset(Kept(nodes, session, all));
    }
  }

  lemma {:induction false} KeptAppend(nodes: seq<Session>, session: Session, all: bool)
    requires session !in nodes
    ensures Kept(nodes + [session], session, all) == nodes
  {
    if nodes != [] {
      KeptAppend(nodes[1..], session, all);
      assert (nodes + [session])[1..] == nodes[1..] + [session];
    }
  }

  /** Opening a shared stream and releasing it again, by a session that held no reference on it,
      restores the whole graph. */
  lemma ShareThenRelease(g: Graph, s: StreamPtr, session: Session, all: bool)
    requires Inv(g) && s in g.streams && session !in g.streams[s].sessions
    ensures Release(AddReference(g, s, session), s, session, all) == g
  {
    assert RefInvOf(g, s);
    KeptAppend(g.streams[s].sessions, session, all);
  }

  lemma ReleaseShape(g: Graph, s: StreamPtr, session: Session, all: bool)
    requires s in g.streams
    ensures var t, kept := Release(g, s, session, all), Kept(g.streams[s].sessions, session, all);
            && t.conns == g.conns && t.streams - {s} == g.streams - {s}
            && (s in t.streams <==> kept != [])
            && (s in t.streams ==> t.streams[s] == g.streams[s].(sessions := kept, refs := |kept|))
  {
  }

  /** What a release leaves: the session's nodes go, one or all, and the references with them;
      without a node left the stream goes. Nothing else does. */
  lemma ReleaseLeaves(g: Graph, s: StreamPtr, session: Session, all: bool)
    requires s in g.streams
    ensures var t := Release(g, s, session, all);
            var left := if all then multiset(g.streams[s].sessions)[session := 0]
                        else multiset(g.streams[s].sessions) - multiset{session};
            && t.conns == g.conns && t.streams - {s} == g.streams - {s}
            && (s in t.streams <==> left != multiset{})
            && (s in t.streams ==>
                  && multiset(t.streams[s].sessions) == left
                  && t.streams[s] == g.streams[s].(sessions := t.streams[s].sessions, refs := |t.streams[s].sessions|))
  {
    KeptNodes(g.streams[s].sessions, session, all);
    ReleaseShape(g, s, session, all);
  }

  lemma SameLinks(g: Graph, t: Graph)
    requires LinkInv(g) && t.contents == g.contents && t.conns == g.conns
    requires t.streams.Keys == g.streams.Keys
    requires forall s <- g.streams ::
               t.streams[s].connList == g.streams[s].connList && t.streams[s].input == g.streams[s].input
    ensures LinkInv(t)
  {
  }
}
