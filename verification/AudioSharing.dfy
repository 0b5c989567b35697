/** Opening a stream that is open already is meant to share it: one stream for each interface,
    and for files one for each direction. */
module AudioSharing {
  import opened AudioGraph
  import opened AudioLoops
  import opened AudioRuns

  /** Two streams that a client cannot tell apart when opening: only file interfaces are
      opened with a direction. */
  predicate SameKind(x: Stream, y: Stream) {
    x.iface == y.iface && (IsFile(x.iface) ==> x.direction == y.direction)
  }

  ghost predicate OneOfEach(g: Graph) {
    forall s, r | s in g.streams && r in g.streams && SameKind(g.streams[s], g.streams[r]) :: s == r
  }

  /** Only file streams store the direction they were opened with; the others keep the zero
      that allocation left. */
  ghost predicate ZeroDirections(g: Graph) {
    forall s <- g.streams :: !IsFile(g.streams[s].iface) ==> g.streams[s].direction == Rx
  }

  lemma SharedKeeps(g: Graph, s: StreamPtr, session: Session)
    requires OneOfEach(g) && ZeroDirections(g) && s in g.streams
    ensures OneOfEach(AddReference(g, s, session)) && ZeroDirections(AddReference(g, s, session))
  {
    var t := AddReference(g, s, session);
    forall r, q | r in t.streams && q in t.streams && SameKind(t.streams[r], t.streams[q]) ensures r == q {
      assert SameKind(g.streams[r], g.streams[q]);
    }
  }

  lemma NewKeepsIff(g: Graph, i: Interface, d: Direction, session: Session, s: StreamPtr, created: MapId)
    requires OneOfEach(g) && ZeroDirections(g) && s !in g.streams
    ensures ZeroDirections(NewStream(g, s, i, d, session, created))
    ensures OneOfEach(NewStream(g, s, i, d, session, created)) <==>
            forall r <- g.streams :: !(g.streams[r].iface == i && (IsFile(i) ==> g.streams[r].direction == d))
  {
    var t := NewStream(g, s, i, d, session, created);
    var x := t.streams[s];
    assert forall r <- g.streams :: t.streams[r] == g.streams[r];
    if r :| r in g.streams && g.streams[r].iface == i && (IsFile(i) ==> g.streams[r].direction == d) {
      assert SameKind(t.streams[r], x) && r != s;
    }
  }

  /** Opening keeps one stream of each kind exactly when the direction compared is the stored
      one: always for files, but for hardware only if it happens to be zero or no stream of the
      interface is open. The hardware paths leave it unset. */
  lemma SharesIff(g: Graph, t: Graph, i: Interface, d: Direction, session: Session,
                  s: StreamPtr, created: MapId, found: StreamPtr)
    requires OneOfEach(g) && ZeroDirections(g) && s !in g.streams
    requires Opened(g, t, true, i, d, session, s, created, found)
    ensures ZeroDirections(t)
    ensures OneOfEach(t) <==> IsFile(i) || d == Rx || forall r <- g.streams :: g.streams[r].iface != i
  {
    if exists r :: r in g.streams && Matches(g.streams[r], i, d) {
      SharedKeeps(g, found, session);
    } else {
      NewKeepsIff(g, i, d, session, s, created);
    }
  }

  /** A voice stream opened twice: with a stray direction the second opening makes a second
      stream of the same interface. */
  lemma OpensTwice(session: Session)
    ensures exists run, t, found ::
              && IsRun(run) && OneOfEach(After(run)) && ZeroDirections(After(run))
              && Opened(After(run), t, true, ModemVoiceRx, Tx, session, 2, 102, found) && !OneOfEach(t)
  {
    var run := TwoOpen(ModemVoiceRx, Tx, FilePlay, Tx);
    TwoOpenGraph(ModemVoiceRx, Tx, FilePlay, Tx);
    var g := After(run);
    var t := NewStream(g, 2, ModemVoiceRx, Tx, session, 102);
    assert g.streams.Keys == {0, 1} && g.streams[0].iface == ModemVoiceRx && g.streams[1].iface == FilePlay;
    assert OneOfEach(g) && ZeroDirections(g);
    assert Opened(g, t, true, ModemVoiceRx, Tx, session, 2, 102, 2);
    SharesIff(g, t, ModemVoiceRx, Tx, session, 2, 102, 2);
  }
}
