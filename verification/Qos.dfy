/** The QoS flow table of the data call service: one global reference map mirrored by a
    list per profile, reclaimed by listener counts, capped with oldest-deleted eviction. */
module Qos {
  import opened Options
  import opened Sequences

  const MAX_FLOWS := 64
  const UINT32_MAX := 0xFFFF_FFFF

  /** A profile not yet created has no id. */
  datatype ProfileId = Undefined | Id(n: nat)

  datatype Key = Key(phone: nat, profile: ProfileId)

  type FlowRef = nat
  type ProfileRef = nat
  type Handler = nat
  type Client = nat

  datatype FlowState = Unknown | Activated | Modified | Deleted

  /** `number` is the 32-bit creation sequence. */
  datatype Flow = Flow(key: Key, flowId: nat, state: FlowState, mask: nat, number: nat)

  /** `created` counts all creations; the service keeps it modulo 2^32. */
  datatype Table = Table(flows: map<FlowRef, Flow>, lists: map<Key, seq<FlowRef>>, created: nat)

  datatype FlowEvent = FlowEvent(key: Key, flowId: nat, state: FlowState, mask: nat)

  /** What a profile's QoS clients are sent. */
  datatype Notice = Notice(ref: Option<FlowRef>, state: FlowState)

  // ----- The invariant -----

  /** A profile's list: its own live flows, without repetition, at most the cap. */
  ghost predicate ListOk(t: Table, k: Key)
    requires k in t.lists
  {
    && Distinct(t.lists[k])
    && |t.lists[k]| <= MAX_FLOWS
    && forall r <- t.lists[k] :: r in t.flows && t.flows[r].key == k
  }

  ghost predicate Listed(t: Table, r: FlowRef)
    requires r in t.flows
  {
    t.flows[r].key in t.lists && r in t.lists[t.flows[r].key]
  }

  ghost predicate Is(t: Table, r: FlowRef, k: Key, id: nat) {
    r in t.flows && t.flows[r].key == k && t.flows[r].flowId == id
  }

  /** The map and the lists are the same index, and a flow id names one flow. */
  ghost predicate Mirror(t: Table) {
    && (forall k <- t.lists :: ListOk(t, k))
    && (forall r <- t.flows :: Listed(t, r))
    && (forall k, id, r, q | Is(t, r, k, id) && Is(t, q, k, id) :: r == q)
  }

  /** The list is in creation order. */
  ghost predicate InOrder(t: Table, k: Key)
    requires k in t.lists
  {
    forall i, j | 0 <= i < j < |t.lists[k]| ::
      && t.lists[k][i] in t.flows && t.lists[k][j] in t.flows
      && t.flows[t.lists[k][i]].number < t.flows[t.lists[k][j]].number
  }

  /** Until the creation counter wraps, lists are in creation order. */
  ghost predicate Ordered(t: Table) {
    t.created <= UINT32_MAX ==>
      && (forall k <- t.lists :: InOrder(t, k))
      && (forall r <- t.flows :: t.flows[r].number < t.created)
  }

  ghost predicate Inv(t: Table) { Mirror(t) && Ordered(t) }

  // ----- Operations -----

  ghost function Find(t: Table, k: Key, id: nat): (r: Option<FlowRef>)
    ensures r.Some? ==> Is(t, r.value, k, id)
    ensures r.None? ==> forall q :: !Is(t, q, k, id)
  {
    if q :| Is(t, q, k, id) then Some(q) else None
  }

  function NumberOf(t: Table, r: Option<FlowRef>): nat {
    if r.Some? && r.value in t.flows then t.flows[r.value].number else UINT32_MAX
  }

  predicate IsDeleted(t: Table, r: FlowRef) { r in t.flows && t.flows[r].state == Deleted }

  /** The eviction scan: the deleted entry with the least number below UINT32_MAX. */
  function Oldest(t: Table, refs: seq<FlowRef>): (best: Option<FlowRef>)
    ensures best.Some? ==> best.value in refs && IsDeleted(t, best.value) && t.flows[best.value].number < UINT32_MAX
    ensures forall r <- refs :: IsDeleted(t, r) ==>
              NumberOf(t, best) <= t.flows[r].number || t.flows[r].number >= UINT32_MAX
  {
    if refs == [] then None
    else
      var best, r := Oldest(t, refs[..|refs| - 1]), refs[|refs| - 1];
      if IsDeleted(t, r) && t.flows[r].number < NumberOf(t, best) then Some(r) else best
  }

  /** What the scan is for. */
  ghost function FirstDeleted(t: Table, refs: seq<FlowRef>): (d: Option<FlowRef>)
    ensures d.Some? ==> d.value in refs && IsDeleted(t, d.value)
    ensures d.None? ==> forall r <- refs :: !IsDeleted(t, r)
  {
    if refs == [] then None
    else if IsDeleted(t, refs[0]) then Some(refs[0])
    else FirstDeleted(t, refs[1..])
  }

  function Without(refs: seq<FlowRef>, r: FlowRef): (s: seq<FlowRef>)
    ensures |s| <= |refs|
    ensures r !in refs ==> s == refs
    ensures forall x :: x in s <==> x in refs && x != r
  {
    if refs == [] then []
    else if refs[0] == r then Without(refs[1..], r)
    else [refs[0]] + Without(refs[1..], r)
  }

  function Drop(t: Table, k: Key, r: FlowRef): Table
    requires k in t.lists
  {
    t.(flows := t.flows - {r}, lists := t.lists[k := Without(t.lists[k], r)])
  }

  function Add(t: Table, e: FlowEvent, r: FlowRef): Table
    requires e.key in t.lists
  {
    t.(flows := t.flows[r := Flow(e.key, e.flowId, Activated, e.mask, t.created % 0x1_0000_0000)],
       lists := t.lists[e.key := t.lists[e.key] + [r]],
       created := t.created + 1)
  }

  function Update(t: Table, r: FlowRef, mask: nat, state: FlowState): Table
    requires r in t.flows
  {
    t.(flows := t.flows[r := t.flows[r].(mask := mask, state := state)])
  }

  /** Room for one more flow of the profile: nothing to do below the cap, else evict one
      deleted flow; none if there is none. */
  function MakeRoom(t: Table, k: Key): Option<Table>
    requires k in t.lists
  {
    if |t.lists[k]| < MAX_FLOWS then Some(t)
    else
      var victim := Oldest(t, t.lists[k]);
      if victim.Some? then Some(Drop(t, k, victim.value)) else None
  }

  /** A platform flow event; `r` is the reference a new flow gets. */
  ghost function OnEvent(t: Table, e: FlowEvent, r: FlowRef): (Table, Option<Notice>) {
    if e.key !in t.lists then (t, None)
    else
      var found := Find(t, e.key, e.flowId);
      match e.state
      case Activated =>
        if found.Some? then
          (Update(t, found.value, e.mask, Activated),
           if t.flows[found.value].state == Deleted then Some(Notice(found, Activated)) else None)
        else
          var room := MakeRoom(t, e.key);
          if room.None? then (t, None) else (Add(room.value, e, r), Some(Notice(Some(r), Activated)))
      case Modified =>
        (if found.Some? then Update(t, found.value, e.mask, Modified) else t, Some(Notice(found, Modified)))
      case Deleted =>
        (if found.Some? then Update(t, found.value, t.flows[found.value].mask, Deleted) else t,
         Some(Notice(found, Deleted)))
      case Unknown => (t, Some(Notice(found, Unknown)))
  }

  /** A reference the map may hand out: not live once room is made. */
  ghost predicate MayCreate(t: Table, e: FlowEvent, r: FlowRef) {
    e.key in t.lists && MakeRoom(t, e.key).Some? ==> r !in MakeRoom(t, e.key).value.flows
  }

  /** A call teardown marks the profile's flows deleted and keeps them. */
  function MarkDeleted(t: Table, k: Key): Table {
    t.(flows := map r | r in t.flows ::
         if t.flows[r].key == k then t.flows[r].(state := Deleted) else t.flows[r])
  }

  /** All flows of some profiles are freed. */
  function Release(t: Table, ks: set<Key>): Table {
    t.(flows := map r | r in t.flows && t.flows[r].key !in ks :: t.flows[r],
       lists := map k | k in t.lists :: if k in ks then [] else t.lists[k])
  }

  // ----- The scan refines the first deleted entry -----

  lemma {:induction false} FirstDeletedAppend(t: Table, refs: seq<FlowRef>, r: FlowRef)
    ensures FirstDeleted(t, refs + [r]) ==
            if FirstDeleted(t, refs).Some? then FirstDeleted(t, refs)
            else if IsDeleted(t, r) then Some(r) else None
  {
    if refs != [] {
      assert (refs + [r])[1..] == refs[1..] + [r];
      FirstDeletedAppend(t, refs[1..], r);
    }
  }

  /** The scan finds the first deleted entry if that has a least number, below the initial bound. */
  lemma {:induction false} OldestIfLeast(t: Table, refs: seq<FlowRef>, d: FlowRef)
    requires FirstDeleted(t, refs) == Some(d) && t.flows[d].number < UINT32_MAX
    requires forall q <- refs :: IsDeleted(t, q) ==> t.flows[d].number <= t.flows[q].number
    ensures Oldest(t, refs) == Some(d)
  {
    var front, r := refs[..|refs| - 1], refs[|refs| - 1];
    assert refs == front + [r] && forall q <- front :: q in refs;
    FirstDeletedAppend(t, front, r);
    if FirstDeleted(t, front).Some? {
      OldestIfLeast(t, front, d);
    } else {
      assert Oldest(t, front) == None;
    }
  }

  /** The scan picks the first deleted entry exactly when no later deleted entry has a smaller
      number and its own number is below the scan's initial bound. */
  lemma EvictsFirstDeletedIff(t: Table, refs: seq<FlowRef>)
    ensures Oldest(t, refs) == FirstDeleted(t, refs) <==>
            (FirstDeleted(t, refs).Some? ==>
               var n := t.flows[FirstDeleted(t, refs).value].number;
               n < UINT32_MAX && forall q <- refs :: IsDeleted(t, q) ==> n <= t.flows[q].number)
  {
    var first := FirstDeleted(t, refs);
    if first.Some? {
      var n := t.flows[first.value].number;
      if n < UINT32_MAX && forall q <- refs :: IsDeleted(t, q) ==> n <= t.flows[q].number {
        OldestIfLeast(t, refs, first.value);
      }
    }
  }

  lemma {:induction false} FirstDeletedIndex(t: Table, refs: seq<FlowRef>) returns (i: nat)
    requires FirstDeleted(t, refs).Some?
    ensures i < |refs| && refs[i] == FirstDeleted(t, refs).value
    ensures forall j | 0 <= j < i :: !IsDeleted(t, refs[j])
  {
    if IsDeleted(t, refs[0]) {
      i := 0;
    } else {
      var k := FirstDeletedIndex(t, refs[1..]);
      i := k + 1;
      forall j | 0 <= j < i ensures !IsDeleted(t, refs[j]) {
        assert j > 0 ==> refs[j] == refs[1..][j - 1];
      }
    }
  }

  /** Before the counter wraps the scan evicts exactly the first deleted entry, and so
      finds one whenever there is one. */
  lemma EvictsFirstDeleted(t: Table, k: Key)
    requires Inv(t) && k in t.lists && t.created <= UINT32_MAX
    ensures Oldest(t, t.lists[k]) == FirstDeleted(t, t.lists[k])
    ensures Oldest(t, t.lists[k]).Some? <==> exists r :: r in t.lists[k] && IsDeleted(t, r)
  {
    var l := t.lists[k];
    assert ListOk(t, k) && InOrder(t, k);
    if FirstDeleted(t, l).Some? {
      var i := FirstDeletedIndex(t, l);
      forall q | q in l && IsDeleted(t, q) ensures t.flows[l[i]].number <= t.flows[q].number {
        var j :| 0 <= j < |l| && l[j] == q;
      }
    }
    EvictsFirstDeletedIff(t, l);
  }

  /** After the counter wraps a newer flow can be evicted first, and a flow numbered
      UINT32_MAX is never evicted. */
  lemma WrapEvictsWrongFlow(k: Key)
    ensures var a, b := Flow(k, 1, Deleted, 0, UINT32_MAX - 1), Flow(k, 2, Deleted, 0, 0);
            var t := Table(map[10 := a, 11 := b], map[k := [10, 11]], UINT32_MAX + 2);
            Inv(t) && Oldest(t, [10, 11]) == Some(11) && FirstDeleted(t, [10, 11]) == Some(10)
    ensures var a := Flow(k, 1, Deleted, 0, UINT32_MAX);
            var t := Table(map[10 := a], map[k := [10]], UINT32_MAX + 1);
            Inv(t) && Oldest(t, [10]) == None && FirstDeleted(t, [10]) == Some(10)
  {
  }

  // ----- Every operation keeps the invariant -----

  /** `c` is `l` without its entry `i`. */
  ghost predicate Cut(l: seq<FlowRef>, i: nat, c: seq<FlowRef>)
    requires i < |l|
  {
    |c| == |l| - 1 && forall j | 0 <= j < |c| :: c[j] == l[if j < i then j else j + 1]
  }

  lemma CutCons(l: seq<FlowRef>, i: nat, c: seq<FlowRef>)
    requires 0 < i < |l| && Cut(l[1..], i - 1, c)
    ensures Cut(l, i, [l[0]] + c)
  {
    var d := [l[0]] + c;
    forall j | 0 <= j < |d| ensures d[j] == l[if j < i then j else j + 1] {
      assert j > 0 ==> d[j] == c[j - 1] == l[1..][if j < i then j - 1 else j];
    }
  }

  lemma WithoutAbsent(l: seq<FlowRef>)
    requires l != [] && Distinct(l)
    ensures Without(l, l[0]) == l[1..]
  {
    assert l[0] !in l[1..];
  }

  /** Taking one reference out of a list without repetition cuts it at one place. */
  lemma {:induction false} WithoutIsCut(refs: seq<FlowRef>, i: nat)
    requires Distinct(refs) && i < |refs|
    ensures Cut(refs, i, Without(refs, refs[i]))
  {
    if i == 0 {
      WithoutAbsent(refs);
    } else {
      var tail := refs[1..];
      assert Distinct(tail) && tail[i - 1] == refs[i] && refs[0] != refs[i];
      WithoutIsCut(tail, i - 1);
      CutCons(refs, i, Without(tail, refs[i]));
    }
  }

  lemma CutAt(l: seq<FlowRef>, r: FlowRef) returns (i: nat)
    requires Distinct(l) && r in l
    ensures i < |l| && l[i] == r && Cut(l, i, Without(l, r))
  {
    i :| 0 <= i < |l| && l[i] == r;
    WithoutIsCut(l, i);
  }

  lemma CutListOk(t: Table, k: Key, r: FlowRef)
    requires k in t.lists && ListOk(t, k) && r in t.lists[k]
    ensures ListOk(Drop(t, k, r), k) && |Drop(t, k, r).lists[k]| == |t.lists[k]| - 1
  {
    var i := CutAt(t.lists[k], r);
    var c := Drop(t, k, r).lists[k];
    forall a, b | 0 <= a < b < |c| ensures c[a] != c[b] {
    }
  }

  lemma CutInOrder(t: Table, k: Key, r: FlowRef)
    requires k in t.lists && ListOk(t, k) && r in t.lists[k] && InOrder(t, k)
    ensures InOrder(Drop(t, k, r), k)
  {
    var i := CutAt(t.lists[k], r);
    var d := Drop(t, k, r);
    forall a, b | 0 <= a < b < |d.lists[k]|
      ensures d.lists[k][a] in d.flows && d.lists[k][b] in d.flows
      ensures d.flows[d.lists[k][a]].number < d.flows[d.lists[k][b]].number
    {
      assert d.lists[k][a] in d.lists[k] && d.lists[k][b] in d.lists[k];
    }
  }

  lemma DropKeeps(t: Table, k: Key, r: FlowRef)
    requires Inv(t) && k in t.lists && r in t.lists[k]
    ensures Inv(Drop(t, k, r)) && |Drop(t, k, r).lists[k]| == |t.lists[k]| - 1
  {
    var d := Drop(t, k, r);
    assert ListOk(t, k);
    CutListOk(t, k, r);
    forall j | j in d.lists ensures ListOk(d, j) && (InOrder(t, j) ==> InOrder(d, j)) {
      assert ListOk(t, j);
      if j == k && InOrder(t, k) {
        CutInOrder(t, k, r);
      }
    }
    forall q | q in d.flows ensures Listed(d, q) {
      assert Listed(t, q);
    }
    assert forall j, id, q :: Is(d, q, j, id) ==> Is(t, q, j, id);
  }

  lemma AddMirrors(t: Table, e: FlowEvent, r: FlowRef)
    requires Mirror(t) && e.key in t.lists && |t.lists[e.key]| < MAX_FLOWS
    requires r !in t.flows && forall q :: !Is(t, q, e.key, e.flowId)
    ensures Mirror(Add(t, e, r))
  {
    var d := Add(t, e, r);
    forall j | j in d.lists ensures ListOk(d, j) {
      assert ListOk(t, j);
    }
    forall q | q in d.flows ensures Listed(d, q) {
      assert q != r ==> Listed(t, q);
    }
    forall j, id, p, q | Is(d, p, j, id) && Is(d, q, j, id) ensures p == q {
      assert p != r ==> Is(t, p, j, id);
      assert q != r ==> Is(t, q, j, id);
    }
  }

  lemma AddOrders(t: Table, e: FlowEvent, r: FlowRef)
    requires Inv(t) && e.key in t.lists && r !in t.flows
    ensures Ordered(Add(t, e, r))
  {
    var d := Add(t, e, r);
    if d.created <= UINT32_MAX {
      assert d.flows[r].number == t.created;
      forall j | j in d.lists ensures InOrder(d, j) {
        assert InOrder(t, j) && ListOk(t, j);
      }
    }
  }

  lemma AddKeeps(t: Table, e: FlowEvent, r: FlowRef)
    requires Inv(t) && e.key in t.lists && |t.lists[e.key]| < MAX_FLOWS
    requires r !in t.flows && forall q :: !Is(t, q, e.key, e.flowId)
    ensures Inv(Add(t, e, r))
  {
    AddMirrors(t, e, r);
    AddOrders(t, e, r);
  }

  lemma UpdateKeeps(t: Table, r: FlowRef, mask: nat, state: FlowState)
    requires Inv(t) && r in t.flows
    ensures Inv(Update(t, r, mask, state))
  {
    SameIndex(t, Update(t, r, mask, state));
  }

  /** States and masks do not matter to the index. */
  lemma SameIndex(t: Table, d: Table)
    requires Inv(t) && d.lists == t.lists && d.created == t.created && d.flows.Keys == t.flows.Keys
    requires forall r <- t.flows :: d.flows[r].key == t.flows[r].key && d.flows[r].flowId == t.flows[r].flowId
                                    && d.flows[r].number == t.flows[r].number
    ensures Inv(d)
  {
    forall k | k in d.lists ensures ListOk(d, k) {
      assert ListOk(t, k);
    }
    forall r | r in d.flows ensures Listed(d, r) {
      assert Listed(t, r);
    }
    assert forall k, id, r :: Is(d, r, k, id) ==> Is(t, r, k, id);
    if t.created <= UINT32_MAX {
      forall k | k in d.lists ensures InOrder(d, k) {
        assert InOrder(t, k);
      }
    }
  }

  lemma ReleaseMirrors(t: Table, ks: set<Key>)
    requires Mirror(t)
    ensures Mirror(Release(t, ks))
  {
    var d := Release(t, ks);
    forall k | k in d.lists ensures ListOk(d, k) {
      assert ListOk(t, k);
    }
    forall r | r in d.flows ensures Listed(d, r) {
      assert Listed(t, r);
    }
    assert forall k, id, r :: Is(d, r, k, id) ==> Is(t, r, k, id);
  }

  lemma ReleaseKeeps(t: Table, ks: set<Key>)
    requires Inv(t)
    ensures Inv(Release(t, ks))
  {
    var d := Release(t, ks);
    ReleaseMirrors(t, ks);
    if t.created <= UINT32_MAX {
      forall k | k in d.lists ensures InOrder(d, k) {
        assert InOrder(t, k) && ListOk(t, k);
      }
    }
  }

  lemma MakeRoomKeeps(t: Table, k: Key)
    requires Inv(t) && k in t.lists
    ensures MakeRoom(t, k).Some? ==>
              var d := MakeRoom(t, k).value;
              && Inv(d) && k in d.lists && |d.lists[k]| < MAX_FLOWS
              && (forall r <- d.flows :: r in t.flows && d.flows[r] == t.flows[r])
              && |t.flows| - |d.flows| <= 1
              && d.created == t.created
  {
    assert ListOk(t, k);
    if |t.lists[k]| == MAX_FLOWS && Oldest(t, t.lists[k]).Some? {
      var r := Oldest(t, t.lists[k]).value;
      DropKeeps(t, k, r);
      assert (t.flows - {r}).Keys == t.flows.Keys - {r};
    }
  }

  lemma OnEventKeeps(t: Table, e: FlowEvent, r: FlowRef)
    requires Inv(t) && MayCreate(t, e, r)
    ensures Inv(OnEvent(t, e, r).0)
  {
    if e.key in t.lists {
      var found := Find(t, e.key, e.flowId);
      if found.Some? {
        UpdateKeeps(t, found.value, if e.state == Deleted then t.flows[found.value].mask else e.mask, e.state);
      } else if e.state == Activated {
        NewFlowKeeps(t, e, r);
      }
    }
  }

  lemma NewFlowKeeps(t: Table, e: FlowEvent, r: FlowRef)
    requires Inv(t) && MayCreate(t, e, r) && e.key in t.lists
    requires forall q :: !Is(t, q, e.key, e.flowId)
    ensures MakeRoom(t, e.key).Some? ==> Inv(Add(MakeRoom(t, e.key).value, e, r))
  {
    MakeRoomKeeps(t, e.key);
    if MakeRoom(t, e.key).Some? {
      var d := MakeRoom(t, e.key).value;
      assert forall q :: Is(d, q, e.key, e.flowId) ==> Is(t, q, e.key, e.flowId);
      AddKeeps(d, e, r);
    }
  }

  // ----- What an event means to clients -----

  /** The event evicts `q`: a new flow at the cap, with `q` deleted and chosen. */
  ghost predicate Evicted(t: Table, e: FlowEvent, q: FlowRef) {
    && e.state == Activated && e.key in t.lists && Find(t, e.key, e.flowId) == None
    && |t.lists[e.key]| == MAX_FLOWS
    && Oldest(t, t.lists[e.key]) == Some(q)
    && IsDeleted(t, q)
  }

  /** An event changes no flow but the one it names and, at the cap, the one it evicts; and
      no list but its own profile's. */
  lemma OnlyItsFlowChanges(t: Table, e: FlowEvent, r: FlowRef)
    requires Inv(t) && MayCreate(t, e, r)
    ensures var d := OnEvent(t, e, r).0;
            && (forall q <- t.flows :: !Is(t, q, e.key, e.flowId) && !Evicted(t, e, q) ==>
                  q in d.flows && d.flows[q] == t.flows[q])
            && (forall q <- d.flows :: q !in t.flows ==> Is(d, q, e.key, e.flowId))
            && d.lists.Keys == t.lists.Keys
            && (forall k <- t.lists :: k != e.key ==> d.lists[k] == t.lists[k])
  {
    if e.key in t.lists && e.state == Activated && Find(t, e.key, e.flowId) == None {
      RoomChanges(t, e);
    }
  }

  lemma RoomChanges(t: Table, e: FlowEvent)
    requires Inv(t) && e.key in t.lists && e.state == Activated && Find(t, e.key, e.flowId) == None
    ensures MakeRoom(t, e.key).Some? ==>
              var d := MakeRoom(t, e.key).value;
              && (forall q <- t.flows :: !Evicted(t, e, q) ==> q in d.flows && d.flows[q] == t.flows[q])
              && (forall q <- d.flows :: q in t.flows)
              && d.lists.Keys == t.lists.Keys
              && (forall k <- t.lists :: k != e.key ==> d.lists[k] == t.lists[k])
  {
  }

  /** A reference sent to clients resolves to the flow the event names, in the state it
      reports; only events about unknown flows are sent without one. */
  lemma NoticeResolves(t: Table, e: FlowEvent, r: FlowRef)
    requires Inv(t)
    ensures var (d, n) := OnEvent(t, e, r);
            && (n.Some? && n.value.ref.Some? ==>
                  && Is(d, n.value.ref.value, e.key, e.flowId) && n.value.state == e.state
                  && (e.state != Unknown ==> d.flows[n.value.ref.value].state == e.state)
                  && (e.state in {Activated, Modified} ==> d.flows[n.value.ref.value].mask == e.mask))
            && (n.Some? && n.value.ref.None? ==> e.state != Activated && Find(t, e.key, e.flowId) == None)
  {
  }

  /** What table and notice an event calls for (`d` and `n`), case by case. */
  ghost predicate Answered(t: Table, e: FlowEvent, r: FlowRef, d: Table, n: Option<Notice>) {
    if e.key !in t.lists then d == t && n == None
    else if forall q :: !Is(t, q, e.key, e.flowId) then
      if e.state != Activated then d == t && n == Some(Notice(None, e.state))
      else if n == None then d == t
      else
        && n == Some(Notice(Some(r), Activated)) && r in d.flows
        && d.flows[r] == Flow(e.key, e.flowId, Activated, e.mask, t.created % 0x1_0000_0000)
    else forall q | Is(t, q, e.key, e.flowId) ::
      && d == t.(flows := t.flows[q := t.flows[q].(
                   state := if e.state == Unknown then t.flows[q].state else e.state,
                   mask := if e.state in {Activated, Modified} then e.mask else t.flows[q].mask)])
      && n == if e.state == Activated && t.flows[q].state != Deleted then None else Some(Notice(Some(q), e.state))
  }

  lemma EventEffect(t: Table, e: FlowEvent, r: FlowRef)
    requires Inv(t) && MayCreate(t, e, r)
    ensures Answered(t, e, r, OnEvent(t, e, r).0, OnEvent(t, e, r).1)
  {
    UnknownFlowEffect(t, e, r);
    if e.key in t.lists {
      if q :| Is(t, q, e.key, e.flowId) {
        KnownFlowEffect(t, e, r, q);
        assert forall p | Is(t, p, e.key, e.flowId) :: p == q;
      } else if e.state == Activated {
        NewFlowEffect(t, e, r);
      }
    }
  }

  /** A known flow takes the event's state, and its mask if the flow is active then; an unknown
      state leaves it alone. Clients hear of it unless it was active and is activated again. */
  lemma KnownFlowEffect(t: Table, e: FlowEvent, r: FlowRef, q: FlowRef)
    requires Inv(t) && e.key in t.lists && Is(t, q, e.key, e.flowId)
    ensures var (d, n) := OnEvent(t, e, r);
            && d == t.(flows := t.flows[q := t.flows[q].(
                         state := if e.state == Unknown then t.flows[q].state else e.state,
                         mask := if e.state in {Activated, Modified} then e.mask else t.flows[q].mask)])
            && n == if e.state == Activated && t.flows[q].state != Deleted then None
                    else Some(Notice(Some(q), e.state))
  {
    assert Find(t, e.key, e.flowId) == Some(q);
    assert t.flows == t.flows[q := t.flows[q]];
  }

  /** An event about an unknown profile is ignored; about an unknown flow it changes nothing
      unless it activates it, and clients hear of it without a reference. */
  lemma UnknownFlowEffect(t: Table, e: FlowEvent, r: FlowRef)
    ensures e.key !in t.lists ==> OnEvent(t, e, r) == (t, None)
    ensures e.key in t.lists && e.state != Activated && (forall q :: !Is(t, q, e.key, e.flowId)) ==>
              OnEvent(t, e, r) == (t, Some(Notice(None, e.state)))
  {
  }

  /** A new flow that is not dropped is activated under the next number and listed last, and
      clients hear of it; at 64 flows one that was deleted has gone. */
  lemma NewFlowEffect(t: Table, e: FlowEvent, r: FlowRef)
    requires Inv(t) && MayCreate(t, e, r)
    requires e.key in t.lists && e.state == Activated && forall q :: !Is(t, q, e.key, e.flowId)
    ensures var (d, n), l := OnEvent(t, e, r), t.lists[e.key];
            if n.None? then d == t
            else
              && n == Some(Notice(Some(r), Activated)) && d.created == t.created + 1
              && r in d.flows && d.flows[r] == Flow(e.key, e.flowId, Activated, e.mask, t.created % 0x1_0000_0000)
              && if |l| < 64 then d.lists[e.key] == l + [r]
                 else exists q :: Evicted(t, e, q) && d.flows.Keys == t.flows.Keys - {q} + {r}
                                  && d.lists[e.key] == Without(l, q) + [r]
  {
    var d := OnEvent(t, e, r).0;
    assert ListOk(t, e.key) && Find(t, e.key, e.flowId) == None;
    if |t.lists[e.key]| == 64 && Oldest(t, t.lists[e.key]).Some? {
      var q := Oldest(t, t.lists[e.key]).value;
      assert Evicted(t, e, q) && d.flows.Keys == t.flows.Keys - {q} + {r};
    }
  }

  /** A new flow is dropped, without any change, exactly when the profile is full of flows
      that are not deleted, or numbered beyond the scan's reach; before the counter wraps
      there are none of the latter. */
  lemma DroppedIff(t: Table, e: FlowEvent, r: FlowRef)
    requires Inv(t) && MayCreate(t, e, r)
    requires e.key in t.lists && e.state == Activated && Find(t, e.key, e.flowId) == None
    ensures OnEvent(t, e, r) == (t, None) <==>
            && |t.lists[e.key]| == 64
            && forall q <- t.lists[e.key] :: t.flows[q].state != Deleted || t.flows[q].number >= 0xFFFF_FFFF
    ensures t.created <= UINT32_MAX ==> forall q <- t.flows :: t.flows[q].number < UINT32_MAX
    ensures !Is(OnEvent(t, e, r).0, r, e.key, e.flowId) <==> OnEvent(t, e, r) == (t, None)
  {
    assert ListOk(t, e.key);
    assert Oldest(t, t.lists[e.key]).None? <==>
           forall q <- t.lists[e.key] :: t.flows[q].state != Deleted || t.flows[q].number >= UINT32_MAX;
  }
}
