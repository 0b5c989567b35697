/** The audio service's handlers over its connector, stream and hash-map tables,
    each proved to perform the graph operation of the same name. */
module AudioManager {
  import opened AudioGraph
  import opened AudioKeeps
  import opened AudioLoops
  import opened AudioSessions

  datatype Result = Ok | Busy | BadParameter | PathError

  class AudioManager {
    var hashMapList: seq<PoolEntry>
    var contents: map<MapId, set<Node>>
    var streams: map<StreamPtr, Stream>
    var conns: map<ConnPtr, Connector>

    ghost function View(): Graph
      reads this`hashMapList, this`contents, this`streams, this`conns
    {
      Graph(hashMapList, contents, streams, conns)
    }

    constructor ()
      ensures Inv(View()) && View() == Graph([], map[], map[], map[])
    {
      hashMapList, contents, streams, conns := [], map[], map[], map[];
    }

    /** The first unused map of the list, or a new one (`created`) queued at its end. */
    method GetHashMap(created: MapId) returns (m: MapId)
      requires PoolBase(View()) && created !in contents
      modifies this`hashMapList, this`contents
      ensures m == Acquired(old(View()), created) && View() == Acquire(old(View()), created)
      ensures forall i | 0 <= i < |old(hashMapList)| && !old(hashMapList)[i].used ::
                (exists j | 0 <= j < i :: !old(hashMapList)[j].used)
                || (m == old(hashMapList)[i].mapRef && hashMapList == old(hashMapList)[i := PoolEntry(m, true)])
      ensures (forall i | 0 <= i < |old(hashMapList)| :: old(hashMapList)[i].used) ==>
                m == created && hashMapList == old(hashMapList) + [PoolEntry(m, true)]
    {
      var i := 0;
      while i < |hashMapList|
        invariant i <= |hashMapList| && hashMapList == old(hashMapList) && contents == old(contents)
        invariant forall j | 0 <= j < i :: hashMapList[j].used
      {
        if !hashMapList[i].used {
          m := hashMapList[i].mapRef;
          hashMapList := hashMapList[i := PoolEntry(m, true)];
          assert i == FirstFree(old(hashMapList));
          assert hashMapList == Mark(old(hashMapList), m, true);
          return;
        }
        i := i + 1;
      }
      assert FirstFree(hashMapList) == |hashMapList|;
      m := created;
      contents := contents[m := {}];
      hashMapList := hashMapList + [PoolEntry(m, true)];
    }

    /** Gives a map back to the list. */
    method ClearHashMap(m: MapId)
      requires DistinctMaps(hashMapList)
      modifies this`hashMapList
      ensures hashMapList == Mark(old(hashMapList), m, false)
    {
      var i := 0;
      while i < |hashMapList|
        invariant i <= |hashMapList| && hashMapList == old(hashMapList)
        invariant forall j | 0 <= j < i :: hashMapList[j].mapRef != m
      {
        if hashMapList[i].mapRef == m {
          hashMapList := hashMapList[i := PoolEntry(m, false)];
          return;
        }
        i := i + 1;
      }
    }

    /** The maps of a new connector. */
    method GetTwoMaps(f1: MapId, f2: MapId) returns (inList: MapId, outList: MapId)
      requires PoolBase(View()) && f1 !in contents && f2 !in Acquire(View(), f1).contents
      modifies this`hashMapList, this`contents
      ensures var h := Acquire(old(View()), f1);
              inList == Acquired(old(View()), f1) && outList == Acquired(h, f2) && View() == Acquire(h, f2)
    {
      AcquiredIsEmpty(View(), f1);
      inList := GetHashMap(f1);
      outList := GetHashMap(f2);
    }

    method CreateConnector(c: ConnPtr, session: Session, f1: MapId, f2: MapId)
      requires Inv(View()) && c !in conns
      requires f1 !in contents && f2 !in Acquire(View(), f1).contents
      modifies this
      ensures Inv(View()) && View() == AudioGraph.CreateConnector(old(View()), c, session, f1, f2)
      ensures c in conns && conns[c].session == session && streams == old(streams)
      ensures forall b <- old(conns) :: b in conns && conns[b] == old(conns)[b]
    {
      CreateConnectorKeeps(View(), c, session, f1, f2);
      NewConnectorFields(View(), c, session, f1, f2);
      var inList, outList := GetTwoMaps(f1, f2);
      conns := conns[c := Connector(inList, outList, session)];
    }

    /** Stores a new link in the connector's list and in the stream's. */
    method StoreLink(c: ConnPtr, s: StreamPtr)
      requires Inv(View()) && c in conns && s in streams && !Linked(View(), c, s)
      modifies this`contents
      ensures Inv(View()) && View() == AudioGraph.Connect(old(View()), c, s)
    {
      SideMaps(View(), c, s);
      ConnectKeeps(View(), c, s);
      var side := if streams[s].input then conns[c].inList else conns[c].outList;
      contents := contents[side := contents[side] + {StreamNode(s)}];
      var list := streams[s].connList;
      contents := contents[list := contents[list] + {ConnNode(c)}];
    }

    /** Refuses unknown references and a link that exists; stores a new link on both sides. With
        streams on the other side their paths are opened then, and a failure of that (`pathsOk`)
        is returned with the link in place. */
    method Connect(c: ConnPtr, s: StreamPtr, pathsOk: bool) returns (result: Result)
      requires Inv(View())
      modifies this`contents
      ensures Inv(View())
      ensures result == if c !in conns || s !in streams then BadParameter
                        else if Linked(old(View()), c, s) then Busy
                        else if At(old(View()), Side(View(), c, !streams[s].input)) != {} && !pathsOk then PathError
                        else Ok
      ensures View() == if result == BadParameter then old(View()) else AudioGraph.Connect(old(View()), c, s)
    {
      if c !in conns || s !in streams {
        return BadParameter;
      }
      BothSides(View(), c);
      var side := if streams[s].input then conns[c].inList else conns[c].outList;
      var other := if streams[s].input then conns[c].outList else conns[c].inList;
      if StreamNode(s) in contents[side] {
        return Busy;
      }
      var peers := contents[other];
      StoreLink(c, s);
      return if peers != {} && !pathsOk then PathError else Ok;
    }

    /** Removes a link from both sides; unknown references and a link that does not exist are
        left alone. */
    method Disconnect(c: ConnPtr, s: StreamPtr)
      requires c in conns && s in streams ==>
                 Side(View(), c, streams[s].input) in contents && streams[s].connList in contents
      modifies this`contents
      ensures View() == if c in conns && s in streams then AudioGraph.Disconnect(old(View()), c, s) else old(View())
    {
      if c !in conns || s !in streams {
        return;
      }
      var side := if streams[s].input then conns[c].inList else conns[c].outList;
      if StreamNode(s) in contents[side] {
        contents := contents[side := contents[side] - {StreamNode(s)}];
        var list := streams[s].connList;
        contents := contents[list := contents[list] - {ConnNode(c)}];
      }
    }

    /** Takes connector `c` out of the list of every given stream. */
    method Unlist(c: ConnPtr, nodes: set<Node>)
      requires Listable(View(), nodes)
      modifies this`contents
      ensures contents == Dropped(old(contents), ListsOf(streams, nodes), ConnNode(c))
    {
      var todo := nodes;
      assert ListsOf(streams, nodes - todo) == {};
      while todo != {}
        invariant todo <= nodes && contents.Keys == old(contents).Keys
        invariant contents == Dropped(old(contents), ListsOf(streams, nodes - todo), ConnNode(c))
      {
        var n :| n in todo;
        var list := streams[n.s].connList;
        assert ListsOf(streams, nodes - (todo - {n})) == ListsOf(streams, nodes - todo) + {list};
        ghost var before := ListsOf(streams, nodes - todo);
        contents := contents[list := contents[list] - {ConnNode(c)}];
        todo := todo - {n};
        forall m | m in contents ensures contents[m] == Dropped(old(contents), before + {list}, ConnNode(c))[m] {
        }
      }
      assert nodes - todo == nodes;
    }

    /** Unlists the connector from every stream of both its lists, then empties them. */
    method EmptyLists(c: ConnPtr)
      requires Inv(View()) && c in conns
      modifies this`contents
      ensures contents == AudioGraph.DeleteConnector(old(View()), c).contents
    {
      ghost var g := View();
      var k := conns[c];
      ConnectorLists(g, c);
      DeleteContents(g, c);
      Unlist(c, contents[k.inList]);
      Unlist(c, contents[k.outList]);
      contents := contents[k.inList := {}];
      contents := contents[k.outList := {}];
    }

    /** Empties the connector's maps and frees them. */
    method DeleteHashMap(c: ConnPtr)
      requires Inv(View()) && c in conns
      modifies this`contents, this`hashMapList
      ensures View() == AudioGraph.DeleteConnector(old(View()), c).(conns := conns)
    {
      MarkMaps(hashMapList, conns[c].inList, false);
      EmptyLists(c);
      ClearHashMap(conns[c].inList);
      ClearHashMap(conns[c].outList);
    }

    /** Deletes a live connector; an unknown reference is refused. */
    method DeleteConnector(c: ConnPtr) returns (ok: bool)
      requires Inv(View())
      modifies this
      ensures Inv(View()) && (ok <==> c in old(conns))
      ensures View() == if ok then AudioGraph.DeleteConnector(old(View()), c) else old(View())
      ensures conns == old(conns) - {c} && streams == old(streams)
    {
      ok := c in conns;
      if ok {
        DeleteConnectorKeeps(View(), c);
        DeleteHashMap(c);
        conns := conns - {c};
      }
    }

    /** One more node and reference on an open stream. */
    method ShareStream(s: StreamPtr, session: Session)
      requires Inv(View()) && s in streams
      modifies this`streams
      ensures Inv(View()) && View() == AddReference(old(View()), s, session)
      ensures s in streams && streams == old(streams)[s := streams[s]]
      ensures var x := streams[s];
              && x == old(streams)[s].(sessions := x.sessions, refs := old(streams)[s].refs + 1)
              && multiset(x.sessions) == multiset(old(streams)[s].sessions) + multiset{session}
    {
      AddReferenceKeeps(View(), s, session);
      var x := streams[s];
      streams := streams[s := x.(sessions := x.sessions + [session], refs := x.refs + 1)];
    }

    /** A stream of its own, with one node and one reference. */
    method AllocateStream(s: StreamPtr, i: Interface, d: Direction, session: Session, created: MapId)
      requires Inv(View()) && s !in streams && created !in contents
      modifies this
      ensures Inv(View()) && View() == NewStream(old(View()), s, i, d, session, created)
      ensures s in streams && streams == old(streams)[s := streams[s]] && conns == old(conns)
      ensures var x := streams[s];
              && x.iface == i && x.direction == (if i.FilePlay? || i.FileCapture? then d else Rx)
              && x.input == (i.Mic? || i.ModemVoiceRx? || i.FilePlay?) && x.sessions == [session] && x.refs == 1
    {
      NewStreamKeeps(View(), s, i, d, session, created);
      NewStreamFields(View(), s, i, d, session, created);
      var list := GetHashMap(created);
      streams := streams[s := Stream(i, if IsFile(i) then d else Rx, !IsOutput(i), list, [session], 1)];
    }

    /** Shares a hardware stream that is already open, or creates one (`s`). Either way one node
        of the opening session is added. */
    method CreateStream(hwDevice: bool, i: Interface, d: Direction, session: Session, s: StreamPtr, created: MapId)
      returns (found: StreamPtr)
      requires Inv(View()) && s !in streams && created !in contents
      modifies this
      ensures Inv(View())
      ensures Opened(old(View()), View(), hwDevice, i, d, session, s, created, found)
      ensures found in streams && streams == old(streams)[found := streams[found]] && conns == old(conns)
      ensures streams[found].iface == i
      ensures multiset(streams[found].sessions) ==
              (if found in old(streams) then multiset(old(streams)[found].sessions) else multiset{}) + multiset{session}
      ensures found in old(streams) ==> streams[found].refs == old(streams)[found].refs + 1
    {
      var todo := streams.Keys;
      while hwDevice && todo != {}
        invariant todo <= streams.Keys && View() == old(View())
        invariant hwDevice ==> forall r <- streams :: r !in todo ==> !Matches(streams[r], i, d)
      {
        var r :| r in todo;
        if Matches(streams[r], i, d) {
          ShareStream(r, session);
          return r;
        }
        todo := todo - {r};
      }
      AllocateStream(s, i, d, session, created);
      found := s;
    }

    /** One disconnect of the sweep. */
    method DetachFrom(s: StreamPtr, n: Node, ghost g: Graph, ghost done: set<Node>)
      requires PoolInv(g) && LinkInv(g) && s in streams && s in g.streams
      requires View() == g.(contents := Detached(g, s, done))
      requires n in At(g, g.streams[s].connList) && n !in done
      modifies this`contents
      ensures contents == Detached(g, s, done + {n})
    {
      DetachOne(g, s, done, n);
      Disconnect(n.c, s);
    }

    /** Disconnects the stream from every connector it lists. */
    method DisconnectConnectors(s: StreamPtr)
      requires PoolInv(View()) && LinkInv(View()) && s in streams
      modifies this`contents
      ensures contents == Detached(old(View()), s, At(old(View()), streams[s].connList))
    {
      ghost var g := View();
      StreamLists(g, s);
      var todo := contents[streams[s].connList];
      ghost var done: set<Node> := {};
      while todo != {}
        invariant done + todo == At(g, g.streams[s].connList) && done !! todo
        invariant contents == Detached(g, s, done)
      {
        var n :| n in todo;
        DetachFrom(s, n, g, done);
        todo, done := todo - {n}, done + {n};
      }
    }

    /** The destructor: leaves every connector, then empties and frees the stream's map. */
    method DestructStream(s: StreamPtr)
      requires PoolInv(View()) && LinkInv(View()) && s in streams
      modifies this
      ensures View() == Destruct(old(View()), s)
      ensures streams == old(streams) - {s} && conns == old(conns)
    {
      DestructContents(View(), s);
      DisconnectConnectors(s);
      var k := streams[s].connList;
      contents := contents[k := {}];
      ClearHashMap(k);
      streams := streams - {s};
    }

    /** Takes out one session node and gives back its reference; the last destroys the stream. */
    method ReleaseNode(s: StreamPtr, i: nat, ghost g: Graph)
      requires PoolInv(g) && LinkInv(g) && s in g.streams && s in streams
      requires i < |streams[s].sessions| && View() == WithSessions(g, s, streams[s].sessions)
      modifies this
      ensures var xs := old(streams[s].sessions);
              var left := xs[..i] + xs[i + 1..];
              View() == if left == [] then Destruct(g, s) else WithSessions(g, s, left)
    {
      var x := streams[s];
      var left := x.sessions[..i] + x.sessions[i + 1..];
      streams := streams[s := x.(sessions := left, refs := x.refs - 1)];
      assert View() == WithSessions(g, s, left);
      if x.refs == 1 {
        SessionsOnly(g, s, left);
        DestructStream(s);
      }
    }

    /** Removes the matching node `i` and gives back its reference. */
    method ReleaseMatch(s: StreamPtr, i: nat, session: Session, allReferences: bool, ghost g: Graph)
      requires PoolInv(g) && LinkInv(g) && Releasing(g, View(), s, session, allReferences, i)
      requires i < |streams[s].sessions| && streams[s].sessions[i] == session
      modifies this
      ensures s in streams <==> |old(streams)[s].sessions| > 1
      ensures if s in streams && allReferences
              then Releasing(g, View(), s, session, allReferences, i)
                   && |streams[s].sessions| == |old(streams)[s].sessions| - 1
              else View() == Release(g, s, session, allReferences)
    {
      ReleasingDrop(g, View(), s, session, allReferences, i);
      ReleaseNode(s, i, g);
    }

    /** Gives back session nodes and, with each, one reference. The last one destroys
        the stream; the loop ends there, since it reads the next node beforehand. */
    method ReleaseNodes(s: StreamPtr, session: Session, allReferences: bool)
      requires Inv(View()) && s in streams
      modifies this
      ensures Inv(View()) && View() == Release(old(View()), s, session, allReferences)
    {
      ghost var g := View();
      ReleaseKeeps(g, s, session, allReferences);
      assert RefInvOf(g, s);
      var i := 0;
      var hasNext := true;
      while hasNext
        invariant if s in streams
                  then Releasing(g, View(), s, session, allReferences, i) && (hasNext <==> i < |streams[s].sessions|)
                  else !hasNext && View() == Release(g, s, session, allReferences)
        decreases if s in streams then |streams[s].sessions| - i else 0
      {
        hasNext := i + 1 < |streams[s].sessions|;
        if streams[s].sessions[i] == session {
          ReleaseMatch(s, i, session, allReferences, g);
          if !allReferences {
            return;
          }
        } else {
          ReleasingSkip(g, View(), s, session, allReferences, i);
          i := i + 1;
        }
      }
      if s in streams {
        ReleasingDone(g, View(), s, session, allReferences, i);
      }
    }

    /** Releases one or all of the session's nodes on a stream. Without a node left the stream
        goes; no other stream and no connector does. */
    method ReleaseStream(s: StreamPtr, session: Session, allReferences: bool)
      requires Inv(View()) && s in streams
      modifies this
      ensures Inv(View()) && View() == Release(old(View()), s, session, allReferences)
      ensures conns == old(conns) && streams - {s} == old(streams) - {s}
      ensures var left := if allReferences then multiset(old(streams)[s].sessions)[session := 0]
                          else multiset(old(streams)[s].sessions) - multiset{session};
              && (s in streams <==> left != multiset{})
              && (s in streams ==>
                    multiset(streams[s].sessions) == left && streams[s].refs == |streams[s].sessions|)
    {
      ReleaseLeaves(View(), s, session, allReferences);
      ReleaseNodes(s, session, allReferences);
    }

    /** First pass of the close handler: which file streams it stops. */
    method FilesToStop(order: seq<StreamPtr>, session: Session) returns (stopped: seq<StreamPtr>)
      requires Live(View(), order)
      ensures stopped == StoppedFrom(View(), order, 0, session, false)
      ensures forall s :: s in stopped <==> exists j: nat :: StopsAt(View(), order, 0, session, false, s, j)
    {
      ghost var g := View();
      WholePass(g, order, session);
      stopped := [];
      var matched := false;
      for i := 0 to |order|
        invariant stopped + StoppedFrom(g, order, i, session, matched) == StoppedFrom(g, order, 0, session, false)
      {
        var x := streams[order[i]];
        if session in x.sessions {
          matched := true;
        }
        if matched && IsFile(x.iface) {
          stopped := stopped + [order[i]];
        }
      }
    }

    /** Gives back every reference the session holds on any stream. */
    method ReleaseSession(session: Session)
      requires Inv(View())
      modifies this
      ensures Inv(View()) && Released(old(View()), View(), session, {})
    {
      ghost var g := View();
      var todo := streams.Keys;
      while todo != {}
        invariant Inv(View()) && Released(g, View(), session, todo)
      {
        var s :| s in todo;
        ReleasedStep(g, View(), session, todo, s);
        ReleaseStream(s, session, true);
        todo := todo - {s};
      }
    }

    /** Deletes the session's connectors. */
    method DeleteSession(session: Session)
      requires Inv(View())
      modifies this
      ensures Inv(View()) && Within(old(View()), View()) && streams == old(streams)
      ensures forall c <- old(conns) :: c in conns <==> old(conns)[c].session != session
    {
      ghost var g := View();
      var rest := conns.Keys;
      while rest != {}
        invariant Inv(View()) && Within(g, View()) && streams == g.streams && rest <= conns.Keys
        invariant forall c <- g.conns :: c !in rest ==> (c in conns <==> g.conns[c].session != session)
      {
        var c :| c in rest;
        if conns[c].session == session {
          ghost var h := View();
          DeleteWithin(h, c);
          var ok := DeleteConnector(c);
          WithinTrans(g, h, View());
        }
        rest := rest - {c};
      }
    }

    /** Streams with other sessions, connectors of other sessions and the links among them
        stay; everything else of the closing session goes. */
    method CloseSession(session: Session)
      requires Inv(View())
      modifies this
      ensures Inv(View()) && Within(old(View()), View())
      ensures forall s <- old(streams) ::
                s in streams <==> exists x :: x in old(streams)[s].sessions && x != session
      ensures forall s <- streams ::
                multiset(streams[s].sessions) == multiset(old(streams)[s].sessions)[session := 0]
      ensures forall c <- old(conns) :: c in conns <==> old(conns)[c].session != session
    {
      ghost var g := View();
      ReleaseSession(session);
      ghost var h := View();
      DeleteSession(session);
      WithinTrans(g, h, View());
      forall s | s in g.streams
        ensures Kept(g.streams[s].sessions, session, true) != [] <==>
                exists x :: x in g.streams[s].sessions && x != session
        ensures multiset(Kept(g.streams[s].sessions, session, true)) == multiset(g.streams[s].sessions)[session := 0]
      {
        KeptAll(g.streams[s].sessions, session);
        KeptNodes(g.streams[s].sessions, session, true);
        if Kept(g.streams[s].sessions, session, true) != [] {
          assert Kept(g.streams[s].sessions, session, true)[0] in g.streams[s].sessions;
        }
      }
    }
  }
}
