/** What is left of the graph when a client session closes, and which streams that stops. */
module AudioSessions {
  import opened AudioGraph
  import opened AudioKeeps
  import opened AudioLoops

  /** `t` is what is left of `g`: fewer nodes, the same links among them. */
  ghost predicate Within(g: Graph, t: Graph) {
    && (forall s <- t.streams :: s in g.streams && t.streams[s].connList == g.streams[s].connList
                                 && t.streams[s].input == g.streams[s].input)
    && (forall c <- t.conns :: c in g.conns && t.conns[c] == g.conns[c])
    && (forall c, s | c in t.conns && s in t.streams :: Linked(t, c, s) == Linked(g, c, s))
  }

  lemma DestructWithin(g: Graph, s: StreamPtr)
    requires Inv(g) && s in g.streams
    ensures Within(g, Destruct(g, s))
  {
  }

  lemma ReleaseWithin(g: Graph, s: StreamPtr, session: Session, all: bool)
    requires Inv(g) && s in g.streams
    ensures Within(g, Release(g, s, session, all))
  {
    if Kept(g.streams[s].sessions, session, all) == [] {
      DestructWithin(g, s);
    }
  }

  lemma DeleteWithin(g: Graph, c: ConnPtr)
    requires Inv(g) && c in g.conns
    ensures Within(g, DeleteConnector(g, c))
  {
    var t := DeleteConnector(g, c);
    NotItsSides(g, c);
    forall d, r | d in t.conns && r in t.streams ensures Linked(t, d, r) == Linked(g, d, r) {
      MapInContents(g, SideOwner(d, g.streams[r].input));
    }
  }

  lemma WithinTrans(g: Graph, h: Graph, t: Graph)
    requires Within(g, h) && Within(h, t)
    ensures Within(g, t)
  {
  }

  /** The session's references are given back on every stream of `g` but those in `todo`. */
  ghost predicate Released(g: Graph, t: Graph, session: Session, todo: set<StreamPtr>) {
    && Within(g, t) && t.conns == g.conns && todo <= t.streams.Keys
    && (forall s <- todo :: s in g.streams && t.streams[s] == g.streams[s])
    && (forall s <- g.streams :: s !in todo ==>
          && (s in t.streams <==> Kept(g.streams[s].sessions, session, true) != [])
          && (s in t.streams ==> t.streams[s].sessions == Kept(g.streams[s].sessions, session, true)))
  }

  lemma ReleasedStep(g: Graph, h: Graph, session: Session, todo: set<StreamPtr>, s: StreamPtr)
    requires Inv(h) && Released(g, h, session, todo) && s in todo
    ensures Released(g, Release(h, s, session, true), session, todo - {s})
  {
    ReleaseWithin(h, s, session, true);
    WithinTrans(g, h, Release(h, s, session, true));
  }

  lemma {:induction false} KeptAll(nodes: seq<Session>, session: Session)
    ensures session !in Kept(nodes, session, true)
    ensures session !in nodes ==> Kept(nodes, session, true) == nodes
    ensures forall x :: x in Kept(nodes, session, true) <==> x in nodes && x != session
  {
    if nodes != [] {
      KeptAll(nodes[1..], session);
      assert nodes == [nodes[0]] + nodes[1..];
    }
  }

  ghost predicate Own(g: Graph, s: StreamPtr, session: Session) {
    s in g.streams && session in g.streams[s].sessions
  }

  ghost predicate Live(g: Graph, order: seq<StreamPtr>) {
    forall k | 0 <= k < |order| :: order[k] in g.streams
  }

  /** The file streams the close handler stops in its first pass, from position `i` of its
      walk on: once one stream of the session was seen, every later file stream. */
  ghost function StoppedFrom(g: Graph, order: seq<StreamPtr>, i: nat, session: Session, seen: bool): seq<StreamPtr>
    requires i <= |order| && Live(g, order)
    decreases |order| - i
  {
    if i == |order| then []
    else
      var now := seen || Own(g, order[i], session);
      (if now && IsFile(g.streams[order[i]].iface) then [order[i]] else [])
      + StoppedFrom(g, order, i + 1, session, now)
  }

  /** Position `j` is a file stream of other clients, met after one of the session's. */
  ghost predicate ForeignAfterOwn(g: Graph, order: seq<StreamPtr>, i: nat, session: Session, seen: bool, j: nat)
    requires Live(g, order)
  {
    && i <= j < |order| && IsFile(g.streams[order[j]].iface) && !Own(g, order[j], session)
    && (seen || exists k | i <= k < j :: Own(g, order[k], session))
  }

  ghost predicate NoForeign(g: Graph, order: seq<StreamPtr>, i: nat, session: Session, seen: bool)
    requires Live(g, order)
  {
    forall j: nat :: !ForeignAfterOwn(g, order, i, session, seen, j)
  }

  lemma NoForeignStep(g: Graph, order: seq<StreamPtr>, i: nat, session: Session, seen: bool)
    requires i < |order| && Live(g, order)
    ensures var own := Own(g, order[i], session);
            NoForeign(g, order, i, session, seen) <==>
              NoForeign(g, order, i + 1, session, seen || own) && !(seen && IsFile(g.streams[order[i]].iface) && !own)
  {
    var own := Own(g, order[i], session);
    var next, now := i + 1, seen || own;
    forall j: nat
      ensures ForeignAfterOwn(g, order, i, session, seen, j) <==>
              ForeignAfterOwn(g, order, next, session, now, j)
              || (j == i && seen && IsFile(g.streams[order[i]].iface) && !own)
    {
    }
    if NoForeign(g, order, i, session, seen) {
      assert !ForeignAfterOwn(g, order, i, session, seen, i);
      forall j: nat ensures !ForeignAfterOwn(g, order, next, session, now, j) {
        assert !ForeignAfterOwn(g, order, i, session, seen, j);
      }
    }
  }

  ghost predicate OnlyOwn(g: Graph, stopped: seq<StreamPtr>, session: Session) {
    forall s <- stopped :: Own(g, s, session)
  }

  lemma OnlyOwnConcat(g: Graph, a: seq<StreamPtr>, b: seq<StreamPtr>, session: Session)
    ensures OnlyOwn(g, a + b, session) <==> OnlyOwn(g, a, session) && OnlyOwn(g, b, session)
  {
    assert forall s :: s in a + b <==> s in a || s in b;
  }

  /** The pass is meant to stop the session's own file streams. It stops only those exactly
      when no other client's file stream comes after one of the session's streams. */
  lemma {:induction false} StopsOnlyOwnIff(g: Graph, order: seq<StreamPtr>, i: nat, session: Session, seen: bool)
    requires i <= |order| && Live(g, order)
    ensures OnlyOwn(g, StoppedFrom(g, order, i, session, seen), session) <==> NoForeign(g, order, i, session, seen)
    decreases |order| - i
  {
    if i < |order| {
      var now := seen || Own(g, order[i], session);
      var head := if now && IsFile(g.streams[order[i]].iface) then [order[i]] else [];
      OnlyOwnConcat(g, head, StoppedFrom(g, order, i + 1, session, now), session);
      StopsOnlyOwnIff(g, order, i + 1, session, now);
      NoForeignStep(g, order, i, session, seen);
      assert head != [] ==> head[0] == order[i] && order[i] in head;
    }
  }

  /** Position `j` holds the file stream `s`, and one of the session's streams was met by then. */
  ghost predicate StopsAt(g: Graph, order: seq<StreamPtr>, i: nat, session: Session, seen: bool, s: StreamPtr, j: nat)
    requires Live(g, order)
  {
    && i <= j < |order| && order[j] == s && (g.streams[s].iface.FilePlay? || g.streams[s].iface.FileCapture?)
    && (seen || exists k | i <= k <= j :: session in g.streams[order[k]].sessions)
  }

  lemma StopsAtStep(g: Graph, order: seq<StreamPtr>, i: nat, session: Session, seen: bool, s: StreamPtr, j: nat)
    requires i < |order| && Live(g, order)
    ensures var now := seen || Own(g, order[i], session);
            StopsAt(g, order, i, session, seen, s, j) <==>
              StopsAt(g, order, i + 1, session, now, s, j)
              || (j == i && now && IsFile(g.streams[order[i]].iface) && order[i] == s)
  {
  }

  /** The pass stops exactly the file streams from the first of the session's streams on. */
  lemma {:induction false} StoppedExactly(g: Graph, order: seq<StreamPtr>, i: nat,
                                          session: Session, seen: bool, s: StreamPtr)
    requires i <= |order| && Live(g, order)
    ensures s in StoppedFrom(g, order, i, session, seen) <==>
            exists j: nat :: StopsAt(g, order, i, session, seen, s, j)
    decreases |order| - i
  {
    if i < |order| {
      var next, now := i + 1, seen || Own(g, order[i], session);
      StoppedExactly(g, order, next, session, now, s);
      forall j: nat
        ensures StopsAt(g, order, i, session, seen, s, j) <==>
                StopsAt(g, order, next, session, now, s, j)
                || (j == i && now && IsFile(g.streams[order[i]].iface) && order[i] == s)
      {
        StopsAtStep(g, order, i, session, seen, s, j);
      }
      assert StopsAt(g, order, i, session, seen, s, i) <==> now && IsFile(g.streams[order[i]].iface) && order[i] == s;
      if j: nat :| StopsAt(g, order, next, session, now, s, j) {
        assert StopsAt(g, order, i, session, seen, s, j);
      }
    }
  }

  lemma WholePass(g: Graph, order: seq<StreamPtr>, session: Session)
    requires Live(g, order)
    ensures forall s :: s in StoppedFrom(g, order, 0, session, false) <==>
                        exists j: nat :: StopsAt(g, order, 0, session, false, s, j)
  {
    forall s ensures s in StoppedFrom(g, order, 0, session, false) <==>
                     exists j: nat :: StopsAt(g, order, 0, session, false, s, j)
    {
      StoppedExactly(g, order, 0, session, false, s);
    }
  }

  /** None of the session's own file streams is passed over. */
  lemma {:induction false} OwnFilesAreStopped(g: Graph, order: seq<StreamPtr>, i: nat,
                                              session: Session, seen: bool, j: nat)
    requires i <= j < |order| && Live(g, order)
    requires Own(g, order[j], session) && IsFile(g.streams[order[j]].iface)
    ensures order[j] in StoppedFrom(g, order, i, session, seen)
    decreases |order| - i
  {
    var now := seen || Own(g, order[i], session);
    var head := if now && IsFile(g.streams[order[i]].iface) then [order[i]] else [];
    assert StoppedFrom(g, order, i, session, seen) == head + StoppedFrom(g, order, i + 1, session, now);
    if i == j {
      assert head[0] == order[j];
    } else {
      OwnFilesAreStopped(g, order, i + 1, session, now, j);
    }
  }
}
