/** QoS listeners over the flow table: when a profile loses its last listener its flows
    are freed. Whole runs of events, listeners, disconnects and profile changes. */
module Listeners {
  import opened Options
  import opened Qos

  datatype Registration = Registration(profile: ProfileRef, client: Client)

  /** `keyOf` names the live profiles by reference. */
  datatype State = State(table: Table, keyOf: map<ProfileRef, Key>, handlers: map<Handler, Registration>)

  ghost predicate Listened(handlers: map<Handler, Registration>, p: ProfileRef) {
    exists h :: h in handlers && handlers[h].profile == p
  }

  ghost function Naming(handlers: map<Handler, Registration>, p: ProfileRef): set<Handler> {
    set h | h in handlers && handlers[h].profile == p
  }

  /** How many registered handlers name the profile. */
  ghost function Count(handlers: map<Handler, Registration>, p: ProfileRef): (n: nat)
    ensures n > 0 <==> Listened(handlers, p)
  {
    assert forall h :: h in handlers && handlers[h].profile == p <==> h in Naming(handlers, p);
    assert Naming(handlers, p) != {} ==> exists h :: h in Naming(handlers, p);
    |Naming(handlers, p)|
  }

  /** The profile had a listener among `gone` and has none left. */
  ghost predicate LosesLast(handlers: map<Handler, Registration>, gone: set<Handler>, p: ProfileRef) {
    && (exists h :: h in gone && h in handlers && handlers[h].profile == p)
    && !Listened(handlers - gone, p)
  }

  ghost function LostKeys(s: State, gone: set<Handler>): set<Key> {
    set p | p in s.keyOf && LosesLast(s.handlers, gone, p) :: s.keyOf[p]
  }

  ghost function DropHandlers(s: State, gone: set<Handler>): State {
    s.(handlers := s.handlers - gone, table := Release(s.table, LostKeys(s, gone)))
  }

  ghost function HandlersOf(s: State, c: Client): set<Handler> {
    set h | h in s.handlers && s.handlers[h].client == c
  }

  /** Every profile key has one reference and every reference its own key. */
  ghost predicate Named(s: State) {
    && (forall p <- s.keyOf :: s.keyOf[p] in s.table.lists)
    && (forall p, q | p in s.keyOf && q in s.keyOf && s.keyOf[p] == s.keyOf[q] :: p == q)
    && (forall k <- s.table.lists :: exists p :: p in s.keyOf && s.keyOf[p] == k)
  }

  ghost predicate StateInv(s: State) { Inv(s.table) && Named(s) }

  // ----- The sweep, one handler at a time -----

  lemma ReleaseTwice(t: Table, a: set<Key>, b: set<Key>)
    ensures Release(Release(t, a), b) == Release(t, a + b)
    ensures Release(t, {}) == t
  {
  }

  lemma LosesLastStep(handlers: map<Handler, Registration>, done: set<Handler>, h: Handler, p: ProfileRef)
    requires h in handlers && h !in done
    ensures LosesLast(handlers, done + {h}, p) <==>
            LosesLast(handlers, done, p) || LosesLast(handlers - done, {h}, p)
  {
    assert handlers - (done + {h}) == handlers - done - {h};
    if LosesLast(handlers, done, p) {
      assert h in handlers - done;
    }
    if LosesLast(handlers - done, {h}, p) {
      assert handlers[h].profile == p;
    }
    if LosesLast(handlers, done + {h}, p) && handlers[h].profile != p {
      assert forall g :: g in handlers - done && (handlers - done)[g].profile == p ==> g in handlers - done - {h};
    }
  }

  /** Dropping handlers one after another is dropping them together. */
  lemma DropOneMore(s: State, done: set<Handler>, h: Handler)
    requires h in s.handlers && h !in done
    ensures DropHandlers(DropHandlers(s, done), {h}) == DropHandlers(s, done + {h})
  {
    var d := DropHandlers(s, done);
    assert s.handlers - (done + {h}) == d.handlers - {h};
    forall p ensures LosesLast(s.handlers, done + {h}, p) <==>
                     LosesLast(s.handlers, done, p) || LosesLast(d.handlers, {h}, p)
    {
      LosesLastStep(s.handlers, done, h, p);
    }
    assert LostKeys(s, done + {h}) == LostKeys(s, done) + LostKeys(d, {h});
    ReleaseTwice(s.table, LostKeys(s, done), LostKeys(d, {h}));
  }

  lemma DropNothing(s: State, gone: set<Handler>)
    requires forall h <- gone :: h !in s.handlers
    ensures DropHandlers(s, gone) == s
  {
    assert LostKeys(s, gone) == {};
    ReleaseTwice(s.table, {}, {});
  }

  /** A sweep frees every flow of the live profiles that lost their last listener, and
      leaves every other profile's list and flows as they were. */
  lemma SweepEffect(s: State, gone: set<Handler>, p: ProfileRef)
    requires StateInv(s) && p in s.keyOf
    ensures var k, t := s.keyOf[p], DropHandlers(s, gone).table;
            && k in t.lists
            && if LosesLast(s.handlers, gone, p)
               then t.lists[k] == [] && forall r <- t.flows :: t.flows[r].key != k
               else t.lists[k] == s.table.lists[k] &&
                    forall r :: (r in t.flows && t.flows[r].key == k <==>
                                 r in s.table.flows && s.table.flows[r].key == k)
                             && (r in t.flows && t.flows[r].key == k ==> t.flows[r] == s.table.flows[r])
  {
    var k := s.keyOf[p];
    assert k in LostKeys(s, gone) <==> LosesLast(s.handlers, gone, p);
  }

  // ----- Runs -----

  datatype Event =
    | PaEvent(e: FlowEvent, created: FlowRef)
    | CallDown(key: Key)
    | AddListener(p: ProfileRef, client: Client, h: Handler)
    | RemoveListener(h: Handler)
    | Disconnect(client: Client)
    | NewProfile(key: Key, p: ProfileRef)
    | NameProfile(p: ProfileRef, id: nat)
    | DeleteProfile(p: ProfileRef)

  ghost predicate Enabled(s: State, v: Event) {
    match v
    case PaEvent(e, r) => MayCreate(s.table, e, r)
    case CallDown(_) => true
    case AddListener(p, _, h) => p in s.keyOf && s.keyOf[p].profile != Undefined && h !in s.handlers
    case RemoveListener(_) => true
    case Disconnect(_) => true
    case NewProfile(k, p) => k !in s.table.lists && p !in s.keyOf
    case NameProfile(p, id) =>
      && p in s.keyOf && s.keyOf[p].profile == Undefined && s.keyOf[p] in s.table.lists
      && Key(s.keyOf[p].phone, Id(id)) !in s.table.lists && s.table.lists[s.keyOf[p]] == []
    case DeleteProfile(p) => p in s.keyOf && s.keyOf[p] in s.table.lists && s.table.lists[s.keyOf[p]] == []
  }

  ghost function Next(s: State, v: Event): State
    requires Enabled(s, v)
  {
    match v
    case PaEvent(e, r) => s.(table := OnEvent(s.table, e, r).0)
    case CallDown(k) => s.(table := MarkDeleted(s.table, k))
    case AddListener(p, c, h) => s.(handlers := s.handlers[h := Registration(p, c)])
    case RemoveListener(h) => DropHandlers(s, {h})
    case Disconnect(c) => DropHandlers(s, HandlersOf(s, c))
    case NewProfile(k, p) => s.(keyOf := s.keyOf[p := k], table := s.table.(lists := s.table.lists[k := []]))
    case NameProfile(p, id) => Rekeyed(s, p, Key(s.keyOf[p].phone, Id(id)))
    case DeleteProfile(p) => Removed(s, p)
  }

  function Removed(s: State, p: ProfileRef): State
    requires p in s.keyOf
  {
    s.(keyOf := s.keyOf - {p}, table := s.table.(lists := s.table.lists - {s.keyOf[p]}))
  }

  /** The profile's entry moves to another key. */
  function Rekeyed(s: State, p: ProfileRef, k: Key): State
    requires p in s.keyOf && s.keyOf[p] in s.table.lists
  {
    s.(keyOf := s.keyOf[p := k],
       table := s.table.(lists := (s.table.lists - {s.keyOf[p]})[k := s.table.lists[s.keyOf[p]]]))
  }

  /** Lists that come, go or move without flows do not disturb the index. */
  lemma EmptyLists(t: Table, d: Table)
    requires Inv(t) && d.flows == t.flows && d.created == t.created
    requires forall k <- d.lists :: d.lists[k] == [] || (k in t.lists && d.lists[k] == t.lists[k])
    requires forall k <- t.lists :: t.lists[k] == [] || (k in d.lists && d.lists[k] == t.lists[k])
    ensures Inv(d)
  {
    forall k | k in d.lists ensures ListOk(d, k) {
      assert d.lists[k] != [] ==> ListOk(t, k);
    }
    forall r | r in d.flows ensures Listed(d, r) {
      assert Listed(t, r);
    }
    assert forall k, id, r :: Is(d, r, k, id) ==> Is(t, r, k, id);
    if t.created <= UINT32_MAX {
      forall k | k in d.lists ensures InOrder(d, k) {
        assert d.lists[k] != [] ==> InOrder(t, k);
      }
    }
  }

  lemma NamedAfterDrop(s: State, gone: set<Handler>)
    requires StateInv(s)
    ensures StateInv(DropHandlers(s, gone))
  {
    Qos.ReleaseKeeps(s.table, LostKeys(s, gone));
  }

  lemma OnEventLists(t: Table, e: FlowEvent, r: FlowRef)
    ensures OnEvent(t, e, r).0.lists.Keys == t.lists.Keys
  {
  }

  lemma TableEventKeeps(s: State, v: Event)
    requires StateInv(s) && Enabled(s, v) && (v.PaEvent? || v.CallDown?)
    ensures StateInv(Next(s, v))
  {
    if v.PaEvent? {
      OnEventKeeps(s.table, v.e, v.created);
      OnEventLists(s.table, v.e, v.created);
    } else {
      SameIndex(s.table, MarkDeleted(s.table, v.key));
    }
  }

  lemma NewProfileKeeps(s: State, k: Key, p: ProfileRef)
    requires StateInv(s) && Enabled(s, NewProfile(k, p))
    ensures StateInv(Next(s, NewProfile(k, p)))
  {
    var t := Next(s, NewProfile(k, p));
    EmptyLists(s.table, t.table);
    assert t.keyOf[p] == k;
    forall j | j in s.table.lists ensures exists q :: q in t.keyOf && t.keyOf[q] == j {
      var q :| q in s.keyOf && s.keyOf[q] == j;
      assert q in t.keyOf && t.keyOf[q] == j;
    }
  }

  lemma RekeyedEmpty(s: State, p: ProfileRef, k: Key)
    requires StateInv(s) && p in s.keyOf && k !in s.table.lists && s.table.lists[s.keyOf[p]] == []
    ensures StateInv(Rekeyed(s, p, k))
  {
    var t := Rekeyed(s, p, k);
    EmptyLists(s.table, t.table);
    assert t.keyOf[p] == k;
    forall j | j in t.table.lists && j != k ensures exists q :: q in t.keyOf && t.keyOf[q] == j {
      var q :| q in s.keyOf && s.keyOf[q] == j;
      assert q in t.keyOf && t.keyOf[q] == j;
    }
  }

  /** Moving a profile to a free key keeps the index exactly when it tracks no flows: the
      flows would still name the old key. */
  lemma RekeyedKeepsIff(s: State, p: ProfileRef, k: Key)
    requires StateInv(s) && p in s.keyOf && k !in s.table.lists
    ensures StateInv(Rekeyed(s, p, k)) <==> s.table.lists[s.keyOf[p]] == []
  {
    var t, l := Rekeyed(s, p, k), s.table.lists[s.keyOf[p]];
    if l == [] {
      RekeyedEmpty(s, p, k);
    } else {
      assert ListOk(s.table, s.keyOf[p]) && l[0] in l && t.table.lists[k] == l;
      assert !ListOk(t.table, k);
    }
  }

  lemma RemovedEmpty(s: State, p: ProfileRef)
    requires StateInv(s) && p in s.keyOf && s.table.lists[s.keyOf[p]] == []
    ensures StateInv(Removed(s, p))
  {
    var t := Removed(s, p);
    EmptyLists(s.table, t.table);
    forall j | j in t.table.lists ensures exists q :: q in t.keyOf && t.keyOf[q] == j {
      var q :| q in s.keyOf && s.keyOf[q] == j;
      assert q in t.keyOf && t.keyOf[q] == j;
    }
  }

  /** Deleting a profile keeps the index exactly when it tracks no flows: the service does
      not touch the flow table. */
  lemma DeleteProfileKeepsIff(s: State, p: ProfileRef)
    requires StateInv(s) && p in s.keyOf
    ensures StateInv(Removed(s, p)) <==> s.table.lists[s.keyOf[p]] == []
  {
    var k := s.keyOf[p];
    if s.table.lists[k] == [] {
      RemovedEmpty(s, p);
    } else {
      var r := s.table.lists[k][0];
      assert ListOk(s.table, k) && r in s.table.lists[k];
      assert !Listed(Removed(s, p).table, r);
    }
  }

  /** Every event keeps the index and the profile names consistent. */
  lemma NextKeeps(s: State, v: Event)
    requires StateInv(s) && Enabled(s, v)
    ensures StateInv(Next(s, v))
  {
    match v
    case PaEvent(_, _) => TableEventKeeps(s, v);
    case CallDown(_) => TableEventKeeps(s, v);
    case AddListener(_, _, _) =>
    case RemoveListener(h) => NamedAfterDrop(s, {h});
    case Disconnect(c) => NamedAfterDrop(s, HandlersOf(s, c));
    case NewProfile(k, p) => NewProfileKeeps(s, k, p);
    case NameProfile(p, id) => RekeyedKeepsIff(s, p, Key(s.keyOf[p].phone, Id(id)));
    case DeleteProfile(p) => DeleteProfileKeepsIff(s, p);
  }

  ghost predicate IsRun(s: State, run: seq<Event>)
    decreases |run|
  {
    run == [] || (Enabled(s, run[0]) && IsRun(Next(s, run[0]), run[1..]))
  }

  ghost function End(s: State, run: seq<Event>): State
    requires IsRun(s, run)
    decreases |run|
  {
    if run == [] then s else End(Next(s, run[0]), run[1..])
  }

  /** Over any run, from the empty service on, the map and the lists stay one index. */
  lemma {:induction false} RunKeeps(s: State, run: seq<Event>)
    requires StateInv(s) && IsRun(s, run)
    ensures StateInv(End(s, run))
    decreases |run|
  {
    if run != [] {
      NextKeeps(s, run[0]);
      RunKeeps(Next(s, run[0]), run[1..]);
    }
  }

  // ----- Reference stability -----

  ghost predicate Evicts(s: State, v: Event, r: FlowRef) {
    v.PaEvent? && Evicted(s.table, v.e, r)
  }

  ghost predicate ListenedThrough(s: State, run: seq<Event>, p: ProfileRef)
    requires IsRun(s, run)
    decreases |run|
  {
    Listened(s.handlers, p) && (run == [] || ListenedThrough(Next(s, run[0]), run[1..], p))
  }

  /** `r` resolves to the flow in every state, until an eviction takes it. */
  ghost predicate ResolvesUntilEvicted(s: State, run: seq<Event>, r: FlowRef, k: Key, id: nat)
    requires IsRun(s, run)
    decreases |run|
  {
    && Is(s.table, r, k, id)
    && (run == [] || Evicts(s, run[0], r) || ResolvesUntilEvicted(Next(s, run[0]), run[1..], r, k, id))
  }

  lemma FlowStepStable(s: State, v: Event, r: FlowRef, k: Key, id: nat)
    requires StateInv(s) && Enabled(s, v) && v.PaEvent? && Is(s.table, r, k, id)
    ensures Is(Next(s, v).table, r, k, id) || Evicts(s, v, r)
  {
  }

  lemma DropStepStable(s: State, gone: set<Handler>, p: ProfileRef, r: FlowRef, id: nat)
    requires StateInv(s) && p in s.keyOf && Is(s.table, r, s.keyOf[p], id)
    requires Listened(DropHandlers(s, gone).handlers, p)
    ensures Is(DropHandlers(s, gone).table, r, s.keyOf[p], id)
  {
  }

  lemma StepStable(s: State, v: Event, p: ProfileRef, r: FlowRef, id: nat)
    requires StateInv(s) && Enabled(s, v) && p in s.keyOf && Is(s.table, r, s.keyOf[p], id)
    requires Listened(Next(s, v).handlers, p)
    ensures p in Next(s, v).keyOf && Next(s, v).keyOf[p] == s.keyOf[p]
    ensures Is(Next(s, v).table, r, s.keyOf[p], id) || Evicts(s, v, r)
  {
    assert Listed(s.table, r);
    match v
    case PaEvent(_, _) => FlowStepStable(s, v, r, s.keyOf[p], id);
    case RemoveListener(h) => DropStepStable(s, {h}, p, r, id);
    case Disconnect(c) => DropStepStable(s, HandlersOf(s, c), p, r, id);
    case _ =>
  }

  /** While a profile keeps a listener, each of its flow references goes on resolving to the
      same flow, and can vanish only by an eviction at the cap while that flow is deleted. */
  lemma {:induction false} ReferencesAreStable(s: State, run: seq<Event>, p: ProfileRef, r: FlowRef, id: nat)
    requires StateInv(s) && IsRun(s, run) && ListenedThrough(s, run, p)
    requires p in s.keyOf && Is(s.table, r, s.keyOf[p], id)
    ensures ResolvesUntilEvicted(s, run, r, s.keyOf[p], id)
    decreases |run|
  {
    if run != [] && !Evicts(s, run[0], r) {
      var t := Next(s, run[0]);
      NextKeeps(s, run[0]);
      assert IsRun(t, run[1..]) && ListenedThrough(t, run[1..], p);
      StepStable(s, run[0], p, r, id);
      ReferencesAreStable(t, run[1..], p, r, id);
    }
  }
}
