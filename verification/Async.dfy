/** Asynchronous session requests of one profile: the main thread files them, the event
    thread walks over a copy and calls back, erases and enrolls entry by entry, with the
    main thread free to act between any two of those steps. */
module Async {
  import DataClients
  import opened Options
  import opened Qos

  datatype Kind = Start | Stop

  /** One accepted call, with its callback. */
  type Request = nat

  datatype Entry = Entry(client: Client, request: Request)

  datatype Stage = Call | Erase | Enroll

  /** A response under way: `rest` of the copied `entries`, the first of them at `stage`. */
  datatype Walk = Walk(kind: Kind, ok: bool, entries: seq<Entry>, rest: seq<Entry>, stage: Stage)

  /** `filed` are the requests of all calls so far, `accepted` those that got an entry;
      `called`, `cancelled` and `dropped` record what became of these. Once `deleted`, the
      profile object and its entries are gone. */
  datatype State = State(starting: map<Client, Request>, stopping: map<Client, Request>,
                         clients: set<Client>, walk: Option<Walk>,
                         filed: set<Request>, accepted: set<Request>,
                         called: multiset<Request>, cancelled: set<Request>, dropped: set<Request>,
                         deleted: bool)

  datatype Step =
    | File(kind: Kind, client: Client, request: Request)
    | SetClients(clients: set<Client>)
    | Begin(kind: Kind, ok: bool, entries: seq<Entry>)
    | CallNext
    | EraseNext
    | EnrollNext
    | End
    | Disconnect(client: Client)
    | Delete

  function Pending(s: State, k: Kind): map<Client, Request> { if k == Start then s.starting else s.stopping }

  function WithPending(s: State, k: Kind, m: map<Client, Request>): State {
    if k == Start then s.(starting := m) else s.(stopping := m)
  }

  /** A copy of the map, in some order. */
  ghost predicate Copies(entries: seq<Entry>, m: map<Client, Request>) {
    && (forall i, j | 0 <= i < j < |entries| :: entries[i].client != entries[j].client)
    && (forall e <- entries :: e.client in m && m[e.client] == e.request)
    && (forall c <- m :: Entry(c, m[c]) in entries)
  }

  /** Disconnects are handled on the event thread too, and so never within a response. */
  ghost predicate Enabled(s: State, a: Step) {
    match a
    case File(_, _, r) => r !in s.filed
    case SetClients(_) => true
    case Begin(k, _, entries) => s.walk.None? && !s.deleted && Copies(entries, Pending(s, k))
    case CallNext => s.walk.Some? && s.walk.value.rest != [] && s.walk.value.stage == Call
    case EraseNext => s.walk.Some? && s.walk.value.rest != [] && s.walk.value.stage == Erase
    case EnrollNext => s.walk.Some? && s.walk.value.rest != [] && s.walk.value.stage == Enroll
    case End => s.walk.Some? && s.walk.value.rest == []
    case Disconnect(_) => s.walk.None?
    case Delete => s.walk.None? && !s.deleted
  }

  /** A start answered with OK enrolls its client; a stop takes its client out. */
  function Enrolled(s: State, w: Walk, c: Client): set<Client> {
    if w.kind == Stop then s.clients - {c} else if w.ok then s.clients + {c} else s.clients
  }

  function RequestsOf(s: State, c: Client): set<Request> {
    (if c in s.starting then {s.starting[c]} else {}) + (if c in s.stopping then {s.stopping[c]} else {})
  }

  ghost function Next(s: State, a: Step): State
    requires Enabled(s, a)
  {
    match a
    case File(k, c, r) =>
      // A client with an entry of this kind keeps it. The service only warns and starts or
      // stops the session all the same; the new call's callback is stored nowhere.
      // A call on a deleted profile is answered at once: not found.
      var t := s.(filed := s.filed + {r});
      if s.deleted then t.(accepted := s.accepted + {r}, called := s.called + multiset{r})
      else if c in Pending(s, k) then t
      else WithPending(t, k, Pending(s, k)[c := r]).(accepted := s.accepted + {r})
    case SetClients(cs) => s.(clients := cs)
    case Begin(k, ok, entries) => s.(walk := Some(Walk(k, ok, entries, entries, Call)))
    case CallNext =>
      var w := s.walk.value;
      s.(called := s.called + multiset{w.rest[0].request}, walk := Some(w.(stage := Erase)))
    case EraseNext =>
      var w := s.walk.value;
      WithPending(s, w.kind, Pending(s, w.kind) - {w.rest[0].client}).(walk := Some(w.(stage := Enroll)))
    case EnrollNext =>
      var w := s.walk.value;
      s.(clients := Enrolled(s, w, w.rest[0].client), walk := Some(w.(rest := w.rest[1..], stage := Call)))
    case End => s.(walk := None)
    case Disconnect(c) =>
      s.(starting := s.starting - {c}, stopping := s.stopping - {c}, clients := s.clients - {c},
         cancelled := s.cancelled + RequestsOf(s, c))
    case Delete =>
      // The service looks at the session state only, which an accepted asynchronous start
      // has not changed yet.
      s.(starting := map[], stopping := map[], clients := {}, deleted := true,
         dropped := s.dropped + s.starting.Values + s.stopping.Values)
  }

  /** A disconnect leaves the client no requester and with nothing waiting, cancels what waited,
      and touches nobody else. */
  lemma DisconnectLeaves(s: State, c: Client)
    requires Enabled(s, Disconnect(c))
    ensures var t := Next(s, Disconnect(c));
            && c !in t.clients && c !in t.starting && c !in t.stopping
            && (forall d | d != c ::
                  && (d in t.clients <==> d in s.clients)
                  && (d in t.starting <==> d in s.starting) && (d in t.stopping <==> d in s.stopping)
                  && (d in t.starting ==> t.starting[d] == s.starting[d])
                  && (d in t.stopping ==> t.stopping[d] == s.stopping[d]))
            && (c in s.starting ==> s.starting[c] in t.cancelled) && (c in s.stopping ==> s.stopping[c] in t.cancelled)
    ensures var t, r := Next(s, Disconnect(c)), DataClients.Requesters(s.clients, s.starting, s.stopping);
            DataClients.Swept(r, c) == DataClients.Requesters(t.clients, t.starting, t.stopping)
  {
  }

  const INITIAL := State(map[], map[], {}, None, {}, {}, multiset{}, {}, {}, false)

  // ----- Conservation -----

  /** Called back, but its entry not erased yet. */
  predicate Called(s: State, k: Kind, c: Client) {
    s.walk.Some? && s.walk.value.kind == k && s.walk.value.stage == Erase
    && s.walk.value.rest != [] && s.walk.value.rest[0].client == c
  }

  ghost predicate Has(s: State, k: Kind, c: Client, r: Request) {
    c in Pending(s, k) && Pending(s, k)[c] == r
  }

  ghost predicate Waiting(s: State, r: Request) {
    exists k, c :: Has(s, k, c, r) && !Called(s, k, c)
  }

  /** In how many ways a request has been dealt with or still waits. */
  ghost function Tally(s: State, r: Request): nat {
    s.called[r] + (if r in s.cancelled then 1 else 0) + (if Waiting(s, r) then 1 else 0)
  }

  ghost predicate WalkOk(s: State) {
    s.walk.Some? ==>
      var w := s.walk.value;
      var done := |w.entries| - |w.rest|;
      && 0 <= done && w.rest == w.entries[done..]
      && (w.stage != Call ==> w.rest != [])
      && (forall i, j | 0 <= i < j < |w.rest| :: w.rest[i].client != w.rest[j].client)
      && (forall i | 0 <= i < |w.rest| && (i > 0 || w.stage != Enroll) ::
            Has(s, w.kind, w.rest[i].client, w.rest[i].request))
      && (forall i | 0 <= i < done :: s.called[w.entries[i].request] == 1)
      && (w.stage != Call ==> s.called[w.rest[0].request] == 1)
  }

  /** Every accepted request that no deletion dropped is in exactly one of three places, every
      other in none. */
  ghost predicate Balanced(s: State) { forall r :: Even(s, r) }

  ghost predicate Even(s: State, r: Request) {
    Tally(s, r) == if r in s.accepted && r !in s.dropped then 1 else 0
  }

  /** No two entries hold the same request, and entries hold accepted ones. */
  ghost predicate Separate(s: State) {
    && (forall k, c, j, d, r | Has(s, k, c, r) && Has(s, j, d, r) :: k == j && c == d)
    && (forall k, c, r | Has(s, k, c, r) :: r in s.accepted)
  }

  ghost predicate Inv(s: State) {
    && Balanced(s) && Separate(s) && WalkOk(s)
    && s.dropped <= s.accepted <= s.filed
    && (s.deleted ==> s.walk.None? && s.starting == map[] == s.stopping)
  }

  /** Fewer entries stay separate. */
  lemma StillSeparate(s: State, t: State)
    requires Separate(s) && s.accepted <= t.accepted
    requires forall k, c, r :: Has(t, k, c, r) ==> Has(s, k, c, r)
    ensures Separate(t)
  {
  }

  /** A request whose entries are the same waits the same. */
  lemma SameTally(s: State, t: State, r: Request)
    requires Even(s, r)
    requires s.called[r] == t.called[r] && (r in s.cancelled <==> r in t.cancelled)
    requires (r in s.accepted <==> r in t.accepted) && (r in s.dropped <==> r in t.dropped)
    requires forall k, c :: (Has(s, k, c, r) && !Called(s, k, c)) == (Has(t, k, c, r) && !Called(t, k, c))
    ensures Even(t, r)
  {
  }

  lemma SameRequests(s: State, t: State)
    requires Inv(s) && t.(filed := s.filed) == s && s.filed <= t.filed
    ensures Inv(t)
  {
    assert forall j, d, q :: Has(t, j, d, q) <==> Has(s, j, d, q);
    StillSeparate(s, t);
    forall q ensures Even(t, q) {
      assert Even(s, q);
      SameTally(s, t, q);
    }
  }

  lemma AnsweredAtOnce(s: State, t: State, r: Request)
    requires Inv(s) && s.deleted && r !in s.filed
    requires t == s.(filed := s.filed + {r}, accepted := s.accepted + {r}, called := s.called + multiset{r})
    ensures Inv(t)
  {
    assert forall j, d, q :: !Has(t, j, d, q) && !Has(s, j, d, q);
    forall q ensures Even(t, q) {
      assert Even(s, q);
    }
  }

  /** One more entry, with a request of its own. */
  lemma EntryAdded(s: State, t: State, k: Kind, c: Client, r: Request)
    requires Inv(s) && !s.deleted && c !in Pending(s, k) && r !in s.filed
    requires t == WithPending(s, k, Pending(s, k)[c := r]).(filed := s.filed + {r}, accepted := s.accepted + {r})
    ensures Balanced(t) && Separate(t)
  {
    assert forall j, d, q :: Has(t, j, d, q) <==> Has(s, j, d, q) || (j == k && d == c && q == r);
    assert Has(t, k, c, r) && !Called(t, k, c);
    assert Even(s, r) && Tally(s, r) == 0;
    assert Tally(t, r) == 1;
    forall q ensures Even(t, q) {
      assert Even(s, q);
      if q != r {
        SameTally(s, t, q);
      }
    }
  }

  lemma WalkAfterAdding(s: State, t: State, k: Kind, c: Client, r: Request)
    requires WalkOk(s) && c !in Pending(s, k)
    requires t == WithPending(s, k, Pending(s, k)[c := r]).(filed := s.filed + {r}, accepted := s.accepted + {r})
    ensures WalkOk(t)
  {
    assert forall j, d, q :: Has(s, j, d, q) ==> Has(t, j, d, q);
  }

  lemma FileKeeps(s: State, k: Kind, c: Client, r: Request)
    requires Inv(s) && r !in s.filed
    ensures Inv(Next(s, File(k, c, r)))
  {
    var t := Next(s, File(k, c, r));
    if s.deleted {
      AnsweredAtOnce(s, t, r);
    } else if c in Pending(s, k) {
      SameRequests(s, t);
    } else {
      EntryAdded(s, t, k, c, r);
      WalkAfterAdding(s, t, k, c, r);
    }
  }

  lemma CallKeeps(s: State)
    requires Inv(s) && Enabled(s, CallNext)
    ensures Inv(Next(s, CallNext))
  {
    var t, w := Next(s, CallNext), s.walk.value;
    var e := w.rest[0];
    assert Has(s, w.kind, e.client, e.request) && !Called(s, w.kind, e.client);
    assert Even(s, e.request) && Waiting(s, e.request);
    assert forall j, d, q :: Has(t, j, d, q) <==> Has(s, j, d, q);
    forall q ensures Even(t, q) {
      assert Even(s, q);
      if q != e.request {
        SameTally(s, t, q);
      }
    }
    WalkAfterCall(s);
  }

  lemma WalkAfterCall(s: State)
    requires WalkOk(s) && Enabled(s, CallNext)
    requires s.called[s.walk.value.rest[0].request] == 0
    ensures WalkOk(Next(s, CallNext))
  {
    var t := Next(s, CallNext);
    assert forall j, d, q :: Has(t, j, d, q) <==> Has(s, j, d, q);
  }

  lemma EraseKeeps(s: State)
    requires Inv(s) && Enabled(s, EraseNext)
    ensures Inv(Next(s, EraseNext))
  {
    var t, w := Next(s, EraseNext), s.walk.value;
    assert forall j, d, q :: Has(t, j, d, q) <==> Has(s, j, d, q) && !(j == w.kind && d == w.rest[0].client);
    StillSeparate(s, t);
    forall q ensures Even(t, q) {
      assert Even(s, q);
      SameTally(s, t, q);
    }
  }

  lemma DisconnectKeeps(s: State, c: Client)
    requires Inv(s) && s.walk.None?
    ensures Inv(Next(s, Disconnect(c)))
  {
    var t := Next(s, Disconnect(c));
    assert forall j, d, q :: Has(t, j, d, q) <==> Has(s, j, d, q) && d != c;
    StillSeparate(s, t);
    forall q ensures Even(t, q) {
      assert Even(s, q);
      if q in RequestsOf(s, c) {
        var k := if c in s.starting && s.starting[c] == q then Start else Stop;
        assert Has(s, k, c, q) && !Called(s, k, c);
        assert Waiting(s, q) && !Waiting(t, q);
      } else {
        SameTally(s, t, q);
      }
    }
  }

  /** Outside a response the requests with an entry are those that wait. */
  lemma EntriesWait(s: State, r: Request)
    requires s.walk.None?
    ensures Waiting(s, r) <==> r in s.starting.Values + s.stopping.Values
  {
    if Waiting(s, r) {
      var k, c :| Has(s, k, c, r);
    }
    if r in s.starting.Values {
      var c :| c in s.starting && s.starting[c] == r;
      assert Has(s, Start, c, r) && !Called(s, Start, c);
    } else if r in s.stopping.Values {
      var c :| c in s.stopping && s.stopping[c] == r;
      assert Has(s, Stop, c, r) && !Called(s, Stop, c);
    }
  }

  lemma DeleteKeeps(s: State)
    requires Inv(s) && Enabled(s, Delete)
    ensures Inv(Next(s, Delete))
  {
    var t := Next(s, Delete);
    assert forall j, d, q :: !Has(t, j, d, q);
    forall q ensures Even(t, q) && (q in t.dropped ==> q in t.accepted) {
      assert Even(s, q);
      EntriesWait(s, q);
    }
  }

  lemma WalkAfterBegin(s: State, k: Kind, ok: bool, entries: seq<Entry>)
    requires Enabled(s, Begin(k, ok, entries))
    ensures WalkOk(Next(s, Begin(k, ok, entries)))
  {
    var t := Next(s, Begin(k, ok, entries));
    forall i | 0 <= i < |entries| ensures Has(t, k, entries[i].client, entries[i].request) {
      assert entries[i] in entries;
    }
    assert t.walk.value.rest == t.walk.value.entries[0..];
  }

  lemma WalkAfterEnroll(s: State)
    requires WalkOk(s) && Enabled(s, EnrollNext)
    ensures WalkOk(Next(s, EnrollNext))
  {
    var t := Next(s, EnrollNext);
    assert forall j, d, q :: Has(t, j, d, q) <==> Has(s, j, d, q);
  }

  lemma OtherKeeps(s: State, a: Step)
    requires Inv(s) && Enabled(s, a) && (a.SetClients? || a.Begin? || a.End? || a.EnrollNext?)
    ensures Balanced(Next(s, a)) && Separate(Next(s, a))
  {
    var t := Next(s, a);
    assert forall j, d, q :: Has(t, j, d, q) <==> Has(s, j, d, q);
    StillSeparate(s, t);
    forall q ensures Even(t, q) {
      assert Even(s, q);
      SameTally(s, t, q);
    }
  }

  /** Every step of either thread keeps the account balanced. */
  lemma NextKeeps(s: State, a: Step)
    requires Inv(s) && Enabled(s, a)
    ensures Inv(Next(s, a))
  {
    match a
    case File(k, c, r) => FileKeeps(s, k, c, r);
    case CallNext => CallKeeps(s);
    case EraseNext => EraseKeeps(s);
    case Disconnect(c) => DisconnectKeeps(s, c);
    case Delete => DeleteKeeps(s);
    case Begin(k, ok, entries) =>
      OtherKeeps(s, a);
      WalkAfterBegin(s, k, ok, entries);
    case EnrollNext =>
      OtherKeeps(s, a);
      WalkAfterEnroll(s);
    case SetClients(_) =>
      OtherKeeps(s, a);
      assert forall j, d, q :: Has(Next(s, a), j, d, q) <==> Has(s, j, d, q);
    case End => OtherKeeps(s, a);
  }

  ghost predicate IsRun(s: State, run: seq<Step>)
    decreases |run|
  {
    run == [] || (Enabled(s, run[0]) && IsRun(Next(s, run[0]), run[1..]))
  }

  ghost function After(s: State, run: seq<Step>): State
    requires IsRun(s, run)
    decreases |run|
  {
    if run == [] then s else After(Next(s, run[0]), run[1..])
  }

  /** The run files `r` when its client has no entry of that kind. */
  ghost predicate FiledFree(s: State, run: seq<Step>, r: Request)
    requires IsRun(s, run)
    decreases |run|
  {
    && run != []
    && ((run[0].File? && run[0].request == r && run[0].client !in Pending(s, run[0].kind))
        || FiledFree(Next(s, run[0]), run[1..], r))
  }

  /** The profile is deleted while `r` waits. */
  ghost predicate DeletedUnder(s: State, run: seq<Step>, r: Request)
    requires IsRun(s, run)
    decreases |run|
  {
    run != [] && ((run[0].Delete? && Waiting(s, r)) || DeletedUnder(Next(s, run[0]), run[1..], r))
  }

  /** Over every interleaving a request is called back exactly once, cancelled by a disconnect,
      or still waiting, and never two of these, exactly if its client had no entry of that
      kind when it was filed and the profile was not deleted while it waited; otherwise it is
      dealt with never. */
  lemma {:induction false} RequestsAreConserved(s: State, run: seq<Step>, r: Request)
    requires Inv(s) && IsRun(s, run)
    ensures Inv(After(s, run))
    ensures Tally(After(s, run), r) ==
            if (r in s.accepted || FiledFree(s, run, r)) && r !in s.dropped && !DeletedUnder(s, run, r) then 1 else 0
    decreases |run|
  {
    assert Even(s, r);
    if run != [] {
      NextKeeps(s, run[0]);
      if run[0].Delete? {
        EntriesWait(s, r);
      }
      RequestsAreConserved(Next(s, run[0]), run[1..], r);
    }
  }

  lemma {:induction false} FiledOnce(s: State, run: seq<Step>, r: Request)
    requires IsRun(s, run) && r in s.filed
    ensures !FiledFree(s, run, r)
    decreases |run|
  {
    if run != [] {
      FiledOnce(Next(s, run[0]), run[1..], r);
    }
  }

  /** Nothing that happens later deals with a request that was filed over an entry, or that
      was dropped with its profile. */
  lemma NeverDealtWith(s: State, run: seq<Step>, r: Request)
    requires Inv(s) && IsRun(s, run) && r in s.filed && (r !in s.accepted || r in s.dropped)
    ensures Tally(After(s, run), r) == 0
  {
    FiledOnce(s, run, r);
    RequestsAreConserved(s, run, r);
  }

  lemma {:induction false} RunConcat(s: State, a: seq<Step>, b: seq<Step>)
    requires IsRun(s, a) && IsRun(After(s, a), b)
    ensures IsRun(s, a + b) && After(s, a + b) == After(After(s, a), b)
    decreases |a|
  {
    if a == [] {
      assert a + b == b;
    } else {
      RunConcat(Next(s, a[0]), a[1..], b);
      assert (a + b)[0] == a[0] && (a + b)[1..] == a[1..] + b;
    }
  }

  /** Prefixing one step to a run. */
  ghost function Then(s: State, a: Step, run: seq<Step>): (r: seq<Step>)
    requires Enabled(s, a) && IsRun(Next(s, a), run)
    ensures IsRun(s, r) && After(s, r) == After(Next(s, a), run)
  {
    assert ([a] + run)[1..] == run;
    [a] + run
  }

  /** A start is filed, and the profile, not connected yet, deleted: the request is gone. */
  lemma DroppedWithItsProfile(c: Client, r: Request)
    ensures exists run ::
              && IsRun(INITIAL, run)
              && var s := After(INITIAL, run);
              Inv(s) && s.filed == {r} == s.dropped && Tally(s, r) == 0
  {
    var s1 := INITIAL.(starting := map[c := r], filed := {r}, accepted := {r});
    assert Next(INITIAL, File(Start, c, r)) == s1;
    var s2 := Next(s1, Delete);
    assert s1.starting.Values == {r} by {
      assert s1.starting[c] == r;
    }
    var run := Then(INITIAL, File(Start, c, r), Then(s1, Delete, []));
    InitialBalanced();
    NextKeeps(INITIAL, File(Start, c, r));
    NextKeeps(s1, Delete);
    assert After(INITIAL, run) == s2 && Even(s2, r);
  }

  /** The entry is still there between its callback and its erasure: a call filed in that
      window is lost although nothing is pending any more. */
  lemma LostInTheWindow(c: Client, first: Request, second: Request)
    requires first != second
    ensures exists run ::
              && IsRun(INITIAL, run)
              && var s := After(INITIAL, run);
              && s.walk == None && s.starting == map[] == s.stopping
              && s.called == multiset{first} && s.filed == {first, second} && Tally(s, second) == 0
  {
    var before := CalledNotErased(c, first);
    var after := FiledInTheWindow(c, first, second);
    RunConcat(INITIAL, before, after);
    var s := After(INITIAL, before + after);
    forall k, d ensures !Has(s, k, d, second) {
    }
    assert Tally(s, second) == 0;
  }

  /** A start has been answered, and its entry is about to be erased. */
  ghost function Answered(c: Client, r: Request): State {
    INITIAL.(starting := map[c := r], filed := {r}, accepted := {r}, called := multiset{r},
             walk := Some(Walk(Start, true, [Entry(c, r)], [Entry(c, r)], Erase)))
  }

  lemma CalledNotErased(c: Client, r: Request) returns (run: seq<Step>)
    ensures IsRun(INITIAL, run) && After(INITIAL, run) == Answered(c, r)
  {
    var e := Entry(c, r);
    var s1 := INITIAL.(starting := map[c := r], filed := {r}, accepted := {r});
    assert Next(INITIAL, File(Start, c, r)) == s1;
    assert Copies([e], s1.starting) by { assert e in [e]; }
    var s2 := Next(s1, Begin(Start, true, [e]));
    assert Next(s2, CallNext) == Answered(c, r) by {
      assert multiset{} + multiset{r} == multiset{r};
    }
    run := Then(INITIAL, File(Start, c, r), Then(s1, Begin(Start, true, [e]), Then(s2, CallNext, [])));
  }

  lemma FiledInTheWindow(c: Client, first: Request, second: Request) returns (run: seq<Step>)
    requires first != second
    ensures IsRun(Answered(c, first), run)
    ensures After(Answered(c, first), run) ==
            INITIAL.(filed := {first, second}, accepted := {first}, called := multiset{first}, clients := {c})
  {
    var s3, e := Answered(c, first), Entry(c, first);
    var s4 := s3.(filed := {first, second});
    assert Next(s3, File(Start, c, second)) == s4 by {
      assert {first} + {second} == {first, second};
    }
    var s5 := s4.(starting := map[], walk := Some(Walk(Start, true, [e], [e], Enroll)));
    assert Next(s4, EraseNext) == s5 by {
      assert map[c := first] - {c} == map[];
    }
    var s6 := s5.(clients := {c}, walk := Some(Walk(Start, true, [e], [], Call)));
    assert Next(s5, EnrollNext) == s6 by {
      assert {} + {c} == {c} && [e][1..] == [];
    }
    run := Then(s3, File(Start, c, second), Then(s4, EraseNext, Then(s5, EnrollNext, Then(s6, End, []))));
  }

  lemma InitialBalanced()
    ensures Inv(INITIAL)
  {
  }

  /** A response that has ended called back every request that was pending when it began. */
  lemma EndedWalkCalledAll(s: State, i: nat)
    requires Inv(s) && Enabled(s, End) && i < |s.walk.value.entries|
    ensures s.called[s.walk.value.entries[i].request] == 1
    ensures s.walk.value.entries[i].request !in s.cancelled && !Waiting(s, s.walk.value.entries[i].request)
  {
    var r := s.walk.value.entries[i].request;
    assert Even(s, r);
  }

  // ----- Enrolment -----

  /** How many of the copied entries a response has finished with. */
  ghost function Finished(s: State): int
    requires s.walk.Some?
  {
    |s.walk.value.entries| - |s.walk.value.rest|
  }

  /** The client stands as the response left it. */
  ghost predicate Settled(s: State, kind: Kind, ok: bool, c: Client) {
    && (kind == Start && ok ==> c in s.clients)
    && (kind == Stop ==> c !in s.clients)
  }

  /** From `s` to `t` one response goes on: it undoes no enrolment, and settles the clients
      it finishes with. */
  ghost predicate Settles(s: State, t: State) {
    && s.walk.Some? && t.walk.Some?
    && var v, w := s.walk.value, t.walk.value;
       && w.kind == v.kind && w.ok == v.ok && w.entries == v.entries
       && 0 <= Finished(s) <= Finished(t) <= |v.entries|
       && (forall c :: Settled(s, v.kind, v.ok, c) && c in Clients(v.entries) ==> Settled(t, v.kind, v.ok, c))
       && (forall i | Finished(s) <= i < Finished(t) :: Settled(t, v.kind, v.ok, v.entries[i].client))
  }

  ghost function Clients(entries: seq<Entry>): set<Client> { set e | e in entries :: e.client }

  lemma WalkStep(s: State, a: Step)
    requires Inv(s) && s.walk.Some? && Enabled(s, a) && !a.SetClients? && !a.End?
    ensures Settles(s, Next(s, a))
  {
    if a.EnrollNext? {
      assert s.walk.value.rest[0] == s.walk.value.entries[Finished(s)];
    }
  }

  lemma SettlesTrans(s: State, t: State, u: State)
    requires Settles(s, t) && Settles(t, u)
    ensures Settles(s, u)
  {
    var v := s.walk.value;
    forall i | Finished(s) <= i < Finished(u) ensures Settled(u, v.kind, v.ok, v.entries[i].client) {
      assert v.entries[i].client in Clients(v.entries);
    }
  }

  /** Every client that a response has finished with since the main thread last changed the
      client set stands as it was called back: enrolled by a start with OK, out by a stop.
      With no such change, that is every copied client when the response ends. */
  lemma {:induction false} EnrollmentFollowsCallback(s: State, run: seq<Step>)
    requires Inv(s) && s.walk.Some? && IsRun(s, run)
    requires forall a <- run :: !a.SetClients? && !a.End?
    ensures Settles(s, After(s, run))
    decreases |run|
  {
    if run != [] {
      assert run[0] in run && forall a <- run[1..] :: a in run;
      WalkStep(s, run[0]);
      NextKeeps(s, run[0]);
      EnrollmentFollowsCallback(Next(s, run[0]), run[1..]);
      SettlesTrans(s, Next(s, run[0]), After(s, run));
    }
  }

  /** A whole response without such a change settles every copied client. */
  lemma WholeResponse(s: State, k: Kind, ok: bool, entries: seq<Entry>, run: seq<Step>, i: nat)
    requires Inv(s) && Enabled(s, Begin(k, ok, entries)) && IsRun(Next(s, Begin(k, ok, entries)), run)
    requires forall a <- run :: !a.SetClients? && !a.End?
    requires i < |entries| && Enabled(After(Next(s, Begin(k, ok, entries)), run), End)
    ensures Settled(After(Next(s, Begin(k, ok, entries)), run), k, ok, entries[i].client)
  {
    NextKeeps(s, Begin(k, ok, entries));
    EnrollmentFollowsCallback(Next(s, Begin(k, ok, entries)), run);
  }

  // ----- Who is a requester once the session is up -----

  lemma {:induction false} RefusalKeepsClients(s: State, run: seq<Step>)
    requires s.walk.Some? && s.walk.value.kind == Start && !s.walk.value.ok && IsRun(s, run)
    requires forall a <- run :: !a.SetClients? && !a.End?
    ensures After(s, run).clients == s.clients
    decreases |run|
  {
    if run != [] {
      assert run[0] in run && forall a <- run[1..] :: a in run;
      RefusalKeepsClients(Next(s, run[0]), run[1..]);
    }
  }

  /** A response to starts carries one result to every client with an entry. A client that it
      calls back is a requester afterwards exactly if the result is OK or the main thread had
      enrolled the client already. */
  lemma EnrolledIff(s: State, ok: bool, entries: seq<Entry>, run: seq<Step>, i: nat)
    requires Inv(s) && Enabled(s, Begin(Start, ok, entries)) && IsRun(Next(s, Begin(Start, ok, entries)), run)
    requires forall a <- run :: !a.SetClients? && !a.End?
    requires i < |entries| && Enabled(After(Next(s, Begin(Start, ok, entries)), run), End)
    ensures entries[i].client in After(Next(s, Begin(Start, ok, entries)), run).clients <==>
            ok || entries[i].client in s.clients
  {
    if ok {
      WholeResponse(s, Start, ok, entries, run, i);
    } else {
      RefusalKeepsClients(Next(s, Begin(Start, ok, entries)), run);
    }
  }

  /** A second start while the session comes up answers both clients "in progress" and enrolls
      only the second: the first, whose start brought the session up, is no requester. */
  lemma EarlierStarterLeftOut(a: Client, b: Client, first: Request, second: Request)
    requires a != b && first != second
    ensures exists run ::
              && IsRun(INITIAL, run)
              && var s := After(INITIAL, run);
              && s.walk == None && s.starting == map[] && s.clients == {b}
              && s.called[first] == 1 && s.called[second] == 1
  {
    var begin := TwoStarts(a, b, first, second);
    var both := BothRefused(a, b, first, second);
    RunConcat(INITIAL, begin, both);
    assert After(INITIAL, begin + both).called == multiset{first, second};
  }

  /** Two starts are filed, the second by a client that was enrolled at once, and answered. */
  ghost function TwoPending(a: Client, b: Client, first: Request, second: Request): State {
    var entries := [Entry(a, first), Entry(b, second)];
    INITIAL.(starting := map[a := first, b := second], filed := {first, second}, accepted := {first, second},
             clients := {b}, walk := Some(Walk(Start, false, entries, entries, Call)))
  }

  lemma TwoStarts(a: Client, b: Client, first: Request, second: Request) returns (run: seq<Step>)
    requires a != b && first != second
    ensures IsRun(INITIAL, run) && After(INITIAL, run) == TwoPending(a, b, first, second)
  {
    var entries := [Entry(a, first), Entry(b, second)];
    var s1 := INITIAL.(starting := map[a := first], filed := {first}, accepted := {first});
    assert Next(INITIAL, File(Start, a, first)) == s1;
    var s2 := s1.(starting := map[a := first, b := second], filed := {first, second}, accepted := {first, second});
    assert Next(s1, File(Start, b, second)) == s2;
    var s3 := Next(s2, SetClients({b}));
    assert Copies(entries, s3.starting) by {
      assert entries[0] in entries && entries[1] in entries;
    }
    run := Then(INITIAL, File(Start, a, first), Then(s1, File(Start, b, second), Then(s2, SetClients({b}),
             Then(s3, Begin(Start, false, entries), []))));
  }

  lemma BothRefused(a: Client, b: Client, first: Request, second: Request) returns (run: seq<Step>)
    requires a != b && first != second
    ensures IsRun(TwoPending(a, b, first, second), run)
    ensures After(TwoPending(a, b, first, second), run) ==
            TwoPending(a, b, first, second).(starting := map[], called := multiset{first, second}, walk := None)
  {
    var s4 := TwoPending(a, b, first, second);
    var one := FinishEntry(s4);
    var s5 := After(s4, one);
    assert s5.walk.value.rest == [Entry(b, second)] && s5.starting == map[b := second];
    var two := FinishEntry(s5);
    var s6 := After(s5, two);
    assert s6.walk.value.rest == [] && s6.starting == map[];
    assert s6.called == multiset{first, second};
    RunConcat(s4, one, two);
    var close := Then(s6, End, []);
    RunConcat(s4, one + two, close);
    run := one + two + close;
  }

  /** One entry of a refused start: called back, erased, not enrolled. */
  lemma FinishEntry(s: State) returns (run: seq<Step>)
    requires s.walk.Some? && s.walk.value.kind == Start && !s.walk.value.ok
    requires s.walk.value.rest != [] && s.walk.value.stage == Call
    ensures IsRun(s, run)
    ensures var w := s.walk.value;
            After(s, run) == s.(called := s.called + multiset{w.rest[0].request},
                                starting := s.starting - {w.rest[0].client},
                                walk := Some(w.(rest := w.rest[1..])))
  {
    var s1 := Next(s, CallNext);
    var s2 := Next(s1, EraseNext);
    run := Then(s, CallNext, Then(s1, EraseNext, Then(s2, EnrollNext, [])));
  }
}
