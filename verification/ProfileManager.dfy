/** The data call service's profile manager: two maps over the same profile objects, the
    QoS flow table, and the listener bookkeeping, updated in place. */
module ProfileManager {
  import opened DataClients
  import opened Listeners
  import opened Options
  import opened Profile
  import opened Qos
  import opened Sequences
  import Sessions

  /** What follows a session change to connected or disconnected: the waiting synchronous call's
      promise is fulfilled, or else both asynchronous responses are reported. */
  datatype Answer = Promise | Responses(startOk: bool, stopOk: bool)

  datatype Result = Ok | NotFound | NotPossible | Duplicate | Busy | PlatformError | Fault

  class ProfileManager {
    const phoneIds: seq<nat>
    var profilesMap: map<Key, TafDcsProfile>
    var profilesRefMap: map<ProfileRef, TafDcsProfile>
    var qosStatusRefMap: map<FlowRef, Flow>
    var qosHandlerMap: map<Handler, Registration>
    var qosListenerCountMap: map<ProfileRef, int>
    var qosFlowSeq: nat
    var isSyncCmdPromiseWaiting: bool
    ghost var created: nat

    ghost function Lists(): map<Key, seq<FlowRef>>
      reads this`profilesMap, profilesMap.Values`qosFlowRefs
    {
      map k | k in profilesMap :: profilesMap[k].qosFlowRefs
    }

    ghost function Flows(): Table
      reads this`profilesMap, this`qosStatusRefMap, this`created, profilesMap.Values`qosFlowRefs
    {
      Table(qosStatusRefMap, Lists(), created)
    }

    ghost function Names(): map<ProfileRef, Key>
      reads this`profilesRefMap, profilesRefMap.Values`profileId
    {
      map r | r in profilesRefMap :: profilesRefMap[r].KeyOf()
    }

    ghost function View(): State
      reads this`profilesMap, this`profilesRefMap, this`qosStatusRefMap, this`created, this`qosHandlerMap
      reads profilesMap.Values`qosFlowRefs, profilesRefMap.Values`profileId
    {
      State(Flows(), Names(), qosHandlerMap)
    }

    /** The two maps hold the same objects, each under its own key and its own reference. */
    ghost predicate IndexOk()
      reads this`profilesMap, this`profilesRefMap
      reads profilesMap.Values`profileId, profilesRefMap.Values`profileId
    {
      && (forall k <- profilesMap :: profilesMap[k].KeyOf() == k && Home(profilesMap[k]))
      && (forall r <- profilesRefMap :: profilesRefMap[r].reference == r && Home(profilesRefMap[r]))
    }

    /** The object is the entry of its own key and of its own reference. */
    ghost predicate Home(p: TafDcsProfile)
      reads this`profilesMap, this`profilesRefMap, p`profileId
    {
      && p.KeyOf() in profilesMap && profilesMap[p.KeyOf()] == p
      && p.reference in profilesRefMap && profilesRefMap[p.reference] == p
    }

    /** Each profile's listener count is the number of handlers that name it, and absent at zero. */
    ghost predicate CountsOk()
      reads this`qosHandlerMap, this`qosListenerCountMap
    {
      forall p :: CountOk(p)
    }

    ghost predicate CountOk(p: ProfileRef)
      reads this`qosHandlerMap, this`qosListenerCountMap
    {
      if p in qosListenerCountMap then qosListenerCountMap[p] == Count(qosHandlerMap, p) > 0
      else Count(qosHandlerMap, p) == 0
    }

    ghost predicate Valid()
      reads this, profilesMap.Values, profilesRefMap.Values
    {
      IndexOk() && Inv(Flows()) && CountsOk() && qosFlowSeq == created % 0x1_0000_0000
    }

    constructor (phoneIds: seq<nat>)
      ensures Valid() && View() == State(Table(map[], map[], 0), map[], map[])
      ensures this.phoneIds == phoneIds && profilesMap == map[] && profilesRefMap == map[]
    {
      this.phoneIds, isSyncCmdPromiseWaiting := phoneIds, false;
      profilesMap, profilesRefMap, qosStatusRefMap := map[], map[], map[];
      qosHandlerMap, qosListenerCountMap, qosFlowSeq, created := map[], map[], 0, 0;
    }

    /** Who has requested a data call on each profile. */
    ghost function Requested(): map<Key, Requesters>
      reads this`profilesMap
      reads profilesMap.Values`dataReqClients, profilesMap.Values`startRequestors, profilesMap.Values`stopRequestors
    {
      map k | k in profilesMap :: profilesMap[k].Requests()
    }

    /** The flow of a profile with an id, by a walk over the whole reference map. */
    method FindQosRef(k: Key, id: nat) returns (r: Option<FlowRef>)
      requires Mirror(Flows())
      ensures r == Find(Flows(), k, id)
    {
      var todo := qosStatusRefMap.Keys;
      while todo != {}
        invariant todo <= qosStatusRefMap.Keys
        invariant forall q :: q !in todo ==> !Is(Flows(), q, k, id)
      {
        var q :| q in todo;
        if qosStatusRefMap[q].key == k && qosStatusRefMap[q].flowId == id {
          assert Is(Flows(), q, k, id);
          return Some(q);
        }
        todo := todo - {q};
      }
      return None;
    }

    /** Only `k`'s object was changed. */
    twostate lemma OneListChanged(k: Key)
      requires old(IndexOk()) && k in profilesMap
      requires unchanged(`profilesMap)
      requires forall j <- profilesMap :: profilesMap[j] != profilesMap[k] ==>
                 profilesMap[j].qosFlowRefs == old(profilesMap[j].qosFlowRefs)
      ensures Lists() == old(Lists())[k := profilesMap[k].qosFlowRefs]
    {
      forall j | j in profilesMap && j != k ensures profilesMap[j] != profilesMap[k] {
        assert old(profilesMap[j].KeyOf()) == j && old(profilesMap[k].KeyOf()) == k;
      }
    }

    /** Deletes a reference from the map, then from the profile's list. */
    method FreeFlow(p: TafDcsProfile, r: FlowRef)
      modifies this`qosStatusRefMap, p`qosFlowRefs
      ensures qosStatusRefMap == old(qosStatusRefMap) - {r}
      ensures p.qosFlowRefs == Without(old(p.qosFlowRefs), r)
    {
      qosStatusRefMap := qosStatusRefMap - {r};
      p.RemoveQosFlowRef(r);
    }

    /** Frees the listed flows one by one, over a copy of the list. */
    method FreeAll(p: TafDcsProfile)
      requires Distinct(p.qosFlowRefs)
      modifies this`qosStatusRefMap, p`qosFlowRefs
      ensures qosStatusRefMap == old(qosStatusRefMap) - set r | r in old(p.qosFlowRefs)
      ensures p.qosFlowRefs == []
    {
      var refs := p.qosFlowRefs;
      var i := 0;
      while i < |refs|
        invariant 0 <= i <= |refs| && p.qosFlowRefs == refs[i..]
        invariant qosStatusRefMap == old(qosStatusRefMap) - set r | r in refs[..i]
      {
        WithoutAbsent(refs[i..]);
        FreeFlow(p, refs[i]);
        assert refs[i..][1..] == refs[i + 1..];
        assert refs[..i + 1] == refs[..i] + [refs[i]];
        i := i + 1;
      }
      assert refs[..i] == refs;
    }

    /** Frees every flow of the profile and empties its list. */
    method ReleaseAllQosFlowsForProfile(k: Key)
      requires IndexOk() && Inv(Flows())
      modifies this`qosStatusRefMap, profilesMap.Values`qosFlowRefs
      ensures Flows() == Release(old(Flows()), {k})
      ensures qosStatusRefMap == map r | r in old(qosStatusRefMap) && old(qosStatusRefMap)[r].key != k ::
                old(qosStatusRefMap)[r]
    {
      ghost var t := Flows();
      if k !in profilesMap {
        ReleaseUnknown(t, k);
        return;
      }
      assert ListOk(t, k);
      ReleaseIsDropAll(t, k);
      FreeAll(profilesMap[k]);
      OneListChanged(k);
    }

    /** A call teardown: every listed flow is marked deleted and kept. */
    method MarkAllQosFlowsDeletedForProfile(k: Key)
      requires Inv(Flows())
      modifies this`qosStatusRefMap
      ensures Flows() == MarkDeleted(old(Flows()), k)
      ensures qosStatusRefMap == map r | r in old(qosStatusRefMap) ::
                if old(qosStatusRefMap)[r].key == k then old(qosStatusRefMap)[r].(state := Deleted)
                else old(qosStatusRefMap)[r]
    {
      MarkedIsMarkDeleted(Flows(), k);
      var refs := if k in profilesMap then profilesMap[k].qosFlowRefs else [];
      for i := 0 to |refs|
        invariant qosStatusRefMap == Marked(old(qosStatusRefMap), refs[..i])
      {
        if refs[i] in qosStatusRefMap {
          qosStatusRefMap := qosStatusRefMap[refs[i] := qosStatusRefMap[refs[i]].(state := Deleted)];
        }
        MarkOneMore(old(qosStatusRefMap), refs, i);
      }
      assert refs[..|refs|] == refs;
    }

    /** The session of a profile goes down. */
    method SessionDown(k: Key)
      requires Valid()
      modifies this`qosStatusRefMap
      ensures Valid() && View() == old(View()).(table := MarkDeleted(old(Flows()), k))
      ensures qosStatusRefMap == map r | r in old(qosStatusRefMap) ::
                if old(qosStatusRefMap)[r].key == k then old(qosStatusRefMap)[r].(state := Deleted)
                else old(qosStatusRefMap)[r]
    {
      SameIndex(Flows(), MarkDeleted(Flows(), k));
      MarkAllQosFlowsDeletedForProfile(k);
    }

    /** The scan: the listed deleted flow with the least number. */
    method FindOldestDeleted(refs: seq<FlowRef>) returns (oldestRef: Option<FlowRef>)
      ensures oldestRef == Oldest(Flows(), refs)
    {
      ghost var t := Flows();
      oldestRef := None;
      var oldestSeq := UINT32_MAX;
      for i := 0 to |refs|
        invariant oldestRef == Oldest(t, refs[..i]) && oldestSeq == NumberOf(t, oldestRef)
      {
        assert refs[..i + 1][..i] == refs[..i];
        var r := refs[i];
        if r in qosStatusRefMap && qosStatusRefMap[r].state == Deleted && qosStatusRefMap[r].number < oldestSeq {
          oldestSeq := qosStatusRefMap[r].number;
          oldestRef := Some(r);
        }
      }
      assert refs[..|refs|] == refs;
    }

    /** At the cap, frees the oldest deleted flow; an unknown profile has none. */
    method EvictOldestDeletedQosFlow(k: Key) returns (evicted: bool)
      requires IndexOk() && Inv(Flows())
      modifies this`qosStatusRefMap, profilesMap.Values`qosFlowRefs
      ensures evicted <==> k in profilesMap && Oldest(old(Flows()), old(Lists())[k]).Some?
      ensures Flows() == if evicted then Drop(old(Flows()), k, Oldest(old(Flows()), old(Lists())[k]).value)
                         else old(Flows())
    {
      if k !in profilesMap {
        return false;
      }
      var p := profilesMap[k];
      var oldestRef := FindOldestDeleted(p.qosFlowRefs);
      if oldestRef.None? {
        return false;
      }
      FreeFlow(p, oldestRef.value);
      OneListChanged(k);
      return true;
    }

    /** Creates the context of a flow and lists its reference. */
    method CreateFlow(e: FlowEvent, r: FlowRef)
      requires IndexOk() && e.key in profilesMap && r !in profilesMap[e.key].qosFlowRefs
      requires qosFlowSeq == created % 0x1_0000_0000
      modifies this`qosStatusRefMap, this`qosFlowSeq, this`created, profilesMap.Values`qosFlowRefs
      ensures Flows() == Add(old(Flows()), e, r)
      ensures qosFlowSeq == created % 0x1_0000_0000
    {
      AllocateContext(e, r);
      profilesMap[e.key].AddQosFlowRef(r);
      OneListChanged(e.key);
    }

    /** The new flow's context, numbered by the 32-bit creation counter. */
    method AllocateContext(e: FlowEvent, r: FlowRef)
      requires qosFlowSeq == created % 0x1_0000_0000
      modifies this`qosStatusRefMap, this`qosFlowSeq, this`created
      ensures created == old(created) + 1 && qosFlowSeq == created % 0x1_0000_0000
      ensures qosStatusRefMap == old(qosStatusRefMap)[r :=
                Flow(e.key, e.flowId, Activated, e.mask, old(created) % 0x1_0000_0000)]
    {
      qosStatusRefMap := qosStatusRefMap[r := Flow(e.key, e.flowId, Activated, e.mask, qosFlowSeq)];
      qosFlowSeq := (qosFlowSeq + 1) % 0x1_0000_0000;
      created := created + 1;
    }

    /** At the cap one deleted flow goes, if there is one. */
    method EnsureRoom(k: Key) returns (room: bool)
      requires IndexOk() && Inv(Flows()) && k in profilesMap
      modifies this`qosStatusRefMap, profilesMap.Values`qosFlowRefs
      ensures IndexOk() && (room <==> MakeRoom(old(Flows()), k).Some?)
      ensures Flows() == if room then MakeRoom(old(Flows()), k).value else old(Flows())
    {
      if |profilesMap[k].qosFlowRefs| < MAX_FLOWS {
        return true;
      }
      room := EvictOldestDeletedQosFlow(k);
    }

    /** A new flow: room is made, and the flow created; it is dropped when there is no room. */
    method NewFlow(e: FlowEvent, r: FlowRef) returns (added: bool)
      requires IndexOk() && Inv(Flows()) && qosFlowSeq == created % 0x1_0000_0000
      requires e.key in profilesMap && MayCreate(Flows(), e, r)
      modifies this`qosStatusRefMap, this`qosFlowSeq, this`created, profilesMap.Values`qosFlowRefs
      ensures added <==> MakeRoom(old(Flows()), e.key).Some?
      ensures Flows() == if added then Add(MakeRoom(old(Flows()), e.key).value, e, r) else old(Flows())
      ensures qosFlowSeq == created % 0x1_0000_0000
    {
      MakeRoomKeeps(Flows(), e.key);
      added := EnsureRoom(e.key);
      if added {
        NotListed(Flows(), e.key, r);
        CreateFlow(e, r);
      }
    }

    /** Refreshes a flow's context in place. */
    method UpdateFlow(r: FlowRef, mask: nat, state: FlowState)
      requires r in qosStatusRefMap
      modifies this`qosStatusRefMap
      ensures Flows() == Update(old(Flows()), r, mask, state)
    {
      qosStatusRefMap := qosStatusRefMap[r := qosStatusRefMap[r].(mask := mask, state := state)];
    }

    /** The event on a known profile. */
    method HandleFlowEvent(e: FlowEvent, r: FlowRef) returns (notice: Option<Notice>)
      requires IndexOk() && Inv(Flows()) && qosFlowSeq == created % 0x1_0000_0000
      requires e.key in profilesMap && MayCreate(Flows(), e, r)
      modifies this`qosStatusRefMap, this`qosFlowSeq, this`created, profilesMap.Values`qosFlowRefs
      ensures (Flows(), notice) == OnEvent(old(Flows()), e, r)
      ensures qosFlowSeq == created % 0x1_0000_0000
    {
      var found := FindQosRef(e.key, e.flowId);
      notice := Some(Notice(found, e.state));
      if e.state == Activated {
        if found.Some? {
          var wasDeleted := qosStatusRefMap[found.value].state == Deleted;
          UpdateFlow(found.value, e.mask, Activated);
          if !wasDeleted {
            return None;
          }
        } else {
          var added := NewFlow(e, r);
          return if added then Some(Notice(Some(r), Activated)) else None;
        }
      } else if e.state == Modified {
        if found.Some? {
          UpdateFlow(found.value, e.mask, Modified);
        }
      } else if e.state == Deleted {
        if found.Some? {
          UpdateFlow(found.value, qosStatusRefMap[found.value].mask, Deleted);
        }
      }
    }

    /** An event about a known profile is handled, any other ignored. */
    method HandleIfKnown(e: FlowEvent, r: FlowRef) returns (notice: Option<Notice>)
      requires Valid() && MayCreate(Flows(), e, r)
      modifies this`qosStatusRefMap, this`qosFlowSeq, this`created, profilesMap.Values`qosFlowRefs
      ensures Valid()
      ensures (Flows(), notice) == OnEvent(old(Flows()), e, r)
    {
      OnEventKeeps(Flows(), e, r);
      if e.key !in profilesMap {
        return None;
      }
      notice := HandleFlowEvent(e, r);
    }

    /** A platform QoS event; `r` is the reference a new flow gets. The notice is what the
        profile's clients are sent. */
    method PaQosTftEvent(e: FlowEvent, r: FlowRef) returns (notice: Option<Notice>)
      requires Valid() && MayCreate(Flows(), e, r)
      modifies this`qosStatusRefMap, this`qosFlowSeq, this`created, profilesMap.Values`qosFlowRefs
      ensures Valid()
      ensures (Flows(), notice) == OnEvent(old(Flows()), e, r)
      ensures Answered(old(Flows()), e, r, Flows(), notice)
    {
      EventEffect(Flows(), e, r);
      notice := HandleIfKnown(e, r);
    }

    // ----- Listeners -----

    /** Registers a handler of a created profile and counts it. */
    method AddQosStatusHandler(p: ProfileRef, client: Client, h: Handler) returns (ok: bool)
      requires Valid() && h !in qosHandlerMap
      modifies this`qosHandlerMap, this`qosListenerCountMap
      ensures Valid()
      ensures ok <==> p in profilesRefMap && profilesRefMap[p].profileId != Undefined
      ensures View() == if ok then old(View()).(handlers := old(qosHandlerMap)[h := Registration(p, client)])
                        else old(View())
      ensures qosHandlerMap == if ok then old(qosHandlerMap)[h := Registration(p, client)] else old(qosHandlerMap)
    {
      if p !in profilesRefMap || profilesRefMap[p].profileId == Undefined {
        return false;
      }
      CountAfterAdd(qosHandlerMap, h, Registration(p, client));
      qosHandlerMap := qosHandlerMap[h := Registration(p, client)];
      var n := if p in qosListenerCountMap then qosListenerCountMap[p] else 0;
      qosListenerCountMap := qosListenerCountMap[p := n + 1];
      assert Flows() == old(Flows());
      forall q ensures CountOk(q) {
        assert old(CountOk(q));
      }
      return true;
    }

    /** Frees the flows of the profile behind a reference, if it is still there. */
    method ReleaseByReference(p: ProfileRef)
      requires IndexOk() && Inv(Flows())
      modifies this`qosStatusRefMap, profilesMap.Values`qosFlowRefs
      ensures Flows() == if p in profilesRefMap then Release(old(Flows()), {profilesRefMap[p].KeyOf()})
                         else old(Flows())
    {
      if p in profilesRefMap {
        var profile := profilesRefMap[p];
        ReleaseAllQosFlowsForProfile(Key(profile.phoneId, profile.profileId));
      }
    }

    /** Counts a profile's listener off; the entry goes at zero. */
    method CountDown(p: ProfileRef) returns (none: bool)
      requires p in qosListenerCountMap && qosListenerCountMap[p] == Count(qosHandlerMap, p) + 1
      requires forall q | q != p :: CountOk(q)
      modifies this`qosListenerCountMap
      ensures CountsOk() && (none <==> !Listened(qosHandlerMap, p))
    {
      var n := qosListenerCountMap[p] - 1;
      none := n <= 0;
      qosListenerCountMap := if none then qosListenerCountMap - {p} else qosListenerCountMap[p := n];
      forall q ensures CountOk(q) {
        assert q != p ==> old(CountOk(q));
      }
    }

    /** One handler of `p` is gone: count down, and free the profile's flows at zero. A profile
        without a count is left alone. */
    method DecrementQosListener(p: ProfileRef)
      requires IndexOk() && Inv(Flows())
      requires if p in qosListenerCountMap then qosListenerCountMap[p] == Count(qosHandlerMap, p) + 1
               else Count(qosHandlerMap, p) == 0
      requires forall q | q != p :: CountOk(q)
      modifies this`qosStatusRefMap, this`qosListenerCountMap, profilesMap.Values`qosFlowRefs
      ensures CountsOk() && IndexOk() && Names() == old(Names())
      ensures Flows() == if p in old(qosListenerCountMap) && p in profilesRefMap && !Listened(qosHandlerMap, p)
                         then Release(old(Flows()), {profilesRefMap[p].KeyOf()}) else old(Flows())
    {
      if p !in qosListenerCountMap {
        assert CountOk(p);
        return;
      }
      var none := CountDown(p);
      if none {
        ReleaseByReference(p);
      }
    }

    /** Takes one registered handler out. */
    method EraseHandler(h: Handler)
      requires Valid() && h in qosHandlerMap
      modifies this`qosStatusRefMap, this`qosHandlerMap, this`qosListenerCountMap, profilesMap.Values`qosFlowRefs
      ensures Valid() && View() == DropHandlers(old(View()), {h})
    {
      ghost var s := View();
      LostByOne(s, h);
      ReleaseKeeps(s.table, LostKeys(s, {h}));
      var p := qosHandlerMap[h].profile;
      ForgetHandler(h);
      assert Flows() == s.table && Names() == s.keyOf;
      DecrementQosListener(p);
    }

    /** The handler's entry goes; its profile's count is one too high until it is counted off. */
    method ForgetHandler(h: Handler)
      requires CountsOk() && h in qosHandlerMap
      modifies this`qosHandlerMap
      ensures qosHandlerMap == old(qosHandlerMap) - {h}
      ensures var p := old(qosHandlerMap)[h].profile;
              && p in qosListenerCountMap && qosListenerCountMap[p] == Count(qosHandlerMap, p) + 1
              && forall q | q != p :: CountOk(q)
    {
      CountAfterErase(qosHandlerMap, h);
      var p := qosHandlerMap[h].profile;
      assert CountOk(p);
      qosHandlerMap := qosHandlerMap - {h};
      forall q | q != p ensures CountOk(q) {
        assert old(CountOk(q));
      }
    }

    /** Removes a handler by reference; an unknown one is ignored. */
    method RemoveQosStatusHandler(h: Handler)
      requires Valid()
      modifies this`qosStatusRefMap, this`qosHandlerMap, this`qosListenerCountMap, profilesMap.Values`qosFlowRefs
      ensures Valid() && View() == DropHandlers(old(View()), {h})
      ensures qosHandlerMap == old(qosHandlerMap) - {h}
    {
      if h in qosHandlerMap {
        EraseHandler(h);
      } else {
        DropNothing(View(), {h});
      }
    }

    /** The walk over the handler map erases the client's entries as it meets them, in any order. */
    method SweepHandlers(client: Client)
      requires Valid()
      modifies this`qosStatusRefMap, this`qosHandlerMap, this`qosListenerCountMap, profilesMap.Values`qosFlowRefs
      ensures Valid() && View() == DropHandlers(old(View()), HandlersOf(old(View()), client))
    {
      ghost var s := View();
      ghost var mine := HandlersOf(s, client);
      var todo := qosHandlerMap.Keys;
      assert mine - todo == {};
      DropNothing(s, {});
      while todo != {}
        invariant Valid() && View() == DropHandlers(s, mine - todo)
        invariant todo <= s.handlers.Keys
      {
        var h :| h in todo;
        if qosHandlerMap[h].client == client {
          DropOneMore(s, mine - todo, h);
          EraseHandler(h);
          assert mine - (todo - {h}) == mine - todo + {h};
        } else {
          assert mine - (todo - {h}) == mine - todo;
        }
        todo := todo - {h};
      }
      assert mine - todo == mine;
    }

    // ----- Requesters -----

    /** The client leaves one profile. */
    method ForgetAt(k: Key, client: Client) returns (last: bool)
      requires IndexOk() && k in profilesMap
      modifies profilesMap.Values`dataReqClients, profilesMap.Values`startRequestors, profilesMap.Values`stopRequestors
      ensures Requested() == old(Requested())[k := Swept(old(Requested())[k], client)]
      ensures last <==> old(Requested())[k].clients == {client}
    {
      OwnObject(k);
      ghost var m := Requested();
      last := profilesMap[k].Forget(client);
      assert forall j <- profilesMap :: j != k ==> profilesMap[j].Requests() == m[j];
    }

    /** The profiles of one phone. */
    method SweepPhone(phone: nat, client: Client) returns (stops: seq<Key>)
      requires IndexOk()
      modifies profilesMap.Values`dataReqClients, profilesMap.Values`startRequestors, profilesMap.Values`stopRequestors
      ensures Requested() == SweepKeys(old(Requested()), OfPhones(profilesMap.Keys, [phone]), client)
      ensures forall k :: k in stops <==> StopDue(old(Requested()), k, [phone], client)
      ensures Distinct(stops)
    {
      stops := [];
      var todo := OfPhones(profilesMap.Keys, [phone]);
      ghost var m, done := Requested(), {};
      assert SweepKeys(m, {}, client) == m;
      while todo != {}
        invariant done !! todo && done + todo == OfPhones(profilesMap.Keys, [phone])
        invariant Requested() == SweepKeys(m, done, client)
        invariant forall k :: k in stops <==> k in done && StopDue(m, k, [phone], client)
        invariant Distinct(stops)
      {
        var k :| k in todo;
        var last := ForgetAt(k, client);
        if last {
          stops := stops + [k];
        }
        todo, done := todo - {k}, done + {k};
      }
    }

    /** No other key has this key's object. */
    lemma OwnObject(k: Key)
      requires IndexOk() && k in profilesMap
      ensures forall j <- profilesMap :: j != k ==> profilesMap[j] != profilesMap[k]
    {
      forall j | j in profilesMap && j != k ensures profilesMap[j] != profilesMap[k] {
        assert profilesMap[j].KeyOf() == j && profilesMap[k].KeyOf() == k;
      }
    }

    /** Phones in order, each phone's profiles in any order. One stop is queued per profile
        that loses its sole requester, and none besides. */
    method SweepRequesters(client: Client) returns (stops: seq<Key>)
      requires IndexOk()
      modifies profilesMap.Values`dataReqClients, profilesMap.Values`startRequestors, profilesMap.Values`stopRequestors
      ensures Requested() == SweepKeys(old(Requested()), OfPhones(profilesMap.Keys, phoneIds), client)
      ensures forall k :: k in stops <==> StopDue(old(Requested()), k, phoneIds, client)
      ensures Distinct(stops)
    {
      stops := [];
      ghost var m, keys := Requested(), profilesMap.Keys;
      assert SweepKeys(m, {}, client) == m;
      for i := 0 to |phoneIds|
        invariant Requested() == SweepKeys(m, OfPhones(keys, phoneIds[..i]), client)
        invariant forall k :: k in stops <==> StopDue(m, k, phoneIds[..i], client)
        invariant Distinct(stops)
      {
        PhoneStep(m, keys, phoneIds, i, client);
        var more := SweepPhone(phoneIds[i], client);
        DistinctConcat(stops, more);
        stops := stops + more;
      }
      assert phoneIds[..|phoneIds|] == phoneIds;
    }

    twostate lemma RequestedStays()
      requires unchanged(`profilesMap)
      requires forall k <- profilesMap ::
                 && profilesMap[k].dataReqClients == old(profilesMap[k].dataReqClients)
                 && profilesMap[k].startRequestors == old(profilesMap[k].startRequestors)
                 && profilesMap[k].stopRequestors == old(profilesMap[k].stopRequestors)
      ensures Requested() == old(Requested())
    {
    }

    method SweepClients(client: Client) returns (stops: seq<Key>)
      requires Valid()
      modifies profilesMap.Values`dataReqClients, profilesMap.Values`startRequestors, profilesMap.Values`stopRequestors
      ensures Valid() && View() == old(View())
      ensures Requested() == SweepKeys(old(Requested()), OfPhones(profilesMap.Keys, phoneIds), client)
      ensures forall k :: k in stops <==> StopDue(old(Requested()), k, phoneIds, client)
      ensures Distinct(stops)
    {
      stops := SweepRequesters(client);
      assert Flows() == old(Flows()) && IndexOk();
      CountsStay();
    }

    /** A client disconnects: its handlers go, and then it leaves every profile of the phones. */
    method ClientDisconnected(client: Client) returns (stops: seq<Key>)
      requires Valid()
      modifies this`qosStatusRefMap, this`qosHandlerMap, this`qosListenerCountMap, profilesMap.Values`qosFlowRefs
      modifies profilesMap.Values`dataReqClients, profilesMap.Values`startRequestors, profilesMap.Values`stopRequestors
      ensures Valid() && View() == DropHandlers(old(View()), HandlersOf(old(View()), client))
      ensures Requested() == SweepKeys(old(Requested()), OfPhones(profilesMap.Keys, phoneIds), client)
      ensures forall k :: k in stops <==> StopDue(old(Requested()), k, phoneIds, client)
      ensures Distinct(stops)
      ensures qosHandlerMap == map h | h in old(qosHandlerMap) && old(qosHandlerMap)[h].client != client ::
                old(qosHandlerMap)[h]
      ensures forall k <- profilesMap :: k.phone in phoneIds ==>
                && profilesMap[k].dataReqClients == old(profilesMap[k].dataReqClients) - {client}
                && profilesMap[k].startRequestors == old(profilesMap[k].startRequestors) - {client}
                && profilesMap[k].stopRequestors == old(profilesMap[k].stopRequestors) - {client}
      ensures forall k <- profilesMap :: k.phone !in phoneIds ==>
                && profilesMap[k].dataReqClients == old(profilesMap[k].dataReqClients)
                && profilesMap[k].startRequestors == old(profilesMap[k].startRequestors)
                && profilesMap[k].stopRequestors == old(profilesMap[k].stopRequestors)
      ensures forall k :: k in stops <==>
                k in profilesMap && k.phone in phoneIds && old(profilesMap[k].dataReqClients) == {client}
    {
      SweepHandlers(client);
      RequestedStays();
      stops := SweepClients(client);
      Disconnected(client);
    }

    /** What the sweeps leave of the client, in the profiles' own fields. */
    twostate lemma Disconnected(client: Client)
      requires unchanged(`profilesMap)
      requires Requested() == SweepKeys(old(Requested()), OfPhones(profilesMap.Keys, phoneIds), client)
      ensures forall k <- profilesMap :: k.phone in phoneIds ==>
                && profilesMap[k].dataReqClients == old(profilesMap[k].dataReqClients) - {client}
                && profilesMap[k].startRequestors == old(profilesMap[k].startRequestors) - {client}
                && profilesMap[k].stopRequestors == old(profilesMap[k].stopRequestors) - {client}
      ensures forall k <- profilesMap :: k.phone !in phoneIds ==>
                && profilesMap[k].dataReqClients == old(profilesMap[k].dataReqClients)
                && profilesMap[k].startRequestors == old(profilesMap[k].startRequestors)
                && profilesMap[k].stopRequestors == old(profilesMap[k].stopRequestors)
    {
      forall k | k in profilesMap ensures Requested()[k] == profilesMap[k].Requests()
                                  && old(Requested())[k] == old(profilesMap[k].Requests()) {
      }
    }

    // ----- Session changes -----

    /** The profile's states are stored, and its flows marked when the session is down. */
    method UpdateSessionDetails(k: Key, state: ConState, v4: ConState, v6: ConState)
      returns (sent: seq<Sessions.Notice>)
      requires Valid() && k in profilesMap
      modifies this`qosStatusRefMap
      modifies profilesMap.Values`connState, profilesMap.Values`connStateIPv4, profilesMap.Values`connStateIPv6
      ensures Valid()
      ensures View() == if state == Sessions.Disconnected then old(View()).(table := MarkDeleted(old(Flows()), k))
                        else old(View())
      ensures var e := Sessions.Change(state, v4, v6);
              && profilesMap[k].Session() == Sessions.After(old(profilesMap[k].Session()), e)
              && sent == Sessions.NoticesOf(old(profilesMap[k].Session()), e)
      ensures forall j <- profilesMap :: j != k ==> profilesMap[j].Session() == old(profilesMap[j].Session())
      ensures profilesMap[k].connState == state
      ensures profilesMap[k].connStateIPv4 == v4 && profilesMap[k].connStateIPv6 == v6
      ensures var c := old(profilesMap[k].Session());
              sent == (if c.v4 != v4 && (c.pdp == Sessions.Ipv4 || c.pdp == Sessions.Ipv4v6)
                       then [Sessions.Notice(Sessions.V4, v4)] else [])
                      + (if c.v6 != v6 && (c.pdp == Sessions.Ipv6 || c.pdp == Sessions.Ipv4v6)
                         then [Sessions.Notice(Sessions.V6, v6)] else [])
      ensures qosStatusRefMap == if state != Sessions.Disconnected then old(qosStatusRefMap)
                                 else map r | r in old(qosStatusRefMap) ::
                                        if old(qosStatusRefMap)[r].key == k
                                        then old(qosStatusRefMap)[r].(state := Deleted) else old(qosStatusRefMap)[r]
    {
      sent := StoreStates(k, state, v4, v6);
      if state == Sessions.Disconnected {
        SessionDown(k);
      }
    }

    method StoreStates(k: Key, state: ConState, v4: ConState, v6: ConState) returns (sent: seq<Sessions.Notice>)
      requires Valid() && k in profilesMap
      modifies profilesMap.Values`connState, profilesMap.Values`connStateIPv4, profilesMap.Values`connStateIPv6
      ensures Valid() && View() == old(View())
      ensures var e := Sessions.Change(state, v4, v6);
              && profilesMap[k].Session() == Sessions.After(old(profilesMap[k].Session()), e)
              && sent == Sessions.NoticesOf(old(profilesMap[k].Session()), e)
      ensures forall j <- profilesMap :: j != k ==> profilesMap[j].Session() == old(profilesMap[j].Session())
      ensures profilesMap[k].connState == state
      ensures profilesMap[k].connStateIPv4 == v4 && profilesMap[k].connStateIPv6 == v6
      ensures var c := old(profilesMap[k].Session());
              sent == (if c.v4 != v4 && (c.pdp == Sessions.Ipv4 || c.pdp == Sessions.Ipv4v6)
                       then [Sessions.Notice(Sessions.V4, v4)] else [])
                      + (if c.v6 != v6 && (c.pdp == Sessions.Ipv6 || c.pdp == Sessions.Ipv4v6)
                         then [Sessions.Notice(Sessions.V6, v6)] else [])
    {
      OwnObject(k);
      sent := profilesMap[k].PaSessionStateChange(state, v4, v6);
      CountsStay();
    }

    /** Connected or disconnected fulfils the waiting call's promise, or reports both responses. */
    method AnswerWaiting(state: ConState) returns (answer: Option<Answer>)
      requires Valid()
      modifies this`isSyncCmdPromiseWaiting
      ensures Valid() && View() == old(View())
      ensures answer == if state == Sessions.Connecting || state == Sessions.Disconnecting then None
                        else if old(isSyncCmdPromiseWaiting) then Some(Promise)
                        else Some(Responses(state == Sessions.Connected, state == Sessions.Disconnected))
      ensures isSyncCmdPromiseWaiting == (old(isSyncCmdPromiseWaiting) && answer != Some(Promise))
    {
      if state == Sessions.Connected || state == Sessions.Disconnected {
        if isSyncCmdPromiseWaiting {
          isSyncCmdPromiseWaiting := false;
          return Some(Promise);
        }
        return Some(Responses(state == Sessions.Connected, state == Sessions.Disconnected));
      }
      return None;
    }

    /** A platform session change of a known profile: its cached states and, when it goes down,
        its flows follow; the synchronous call that waits is answered, or else both asynchronous
        responses are reported; and each family whose state changed gets one notice. */
    method PaSessionStateChange(k: Key, state: ConState, v4: ConState, v6: ConState)
      returns (sent: seq<Sessions.Notice>, answer: Option<Answer>)
      requires Valid()
      modifies this`qosStatusRefMap, this`isSyncCmdPromiseWaiting
      modifies profilesMap.Values`connState, profilesMap.Values`connStateIPv4, profilesMap.Values`connStateIPv6
      ensures Valid()
      ensures View() == if k in profilesMap && state == Sessions.Disconnected
                        then old(View()).(table := MarkDeleted(old(Flows()), k)) else old(View())
      ensures forall j <- profilesMap :: j != k ==> profilesMap[j].Session() == old(profilesMap[j].Session())
      ensures if k !in profilesMap then sent == []
              else var e := Sessions.Change(state, v4, v6);
                   && profilesMap[k].Session() == Sessions.After(old(profilesMap[k].Session()), e)
                   && sent == Sessions.NoticesOf(old(profilesMap[k].Session()), e)
      ensures k in profilesMap ==>
                && profilesMap[k].connState == state
                && profilesMap[k].connStateIPv4 == v4 && profilesMap[k].connStateIPv6 == v6
                && var c := old(profilesMap[k].Session());
                   sent == (if c.v4 != v4 && (c.pdp == Sessions.Ipv4 || c.pdp == Sessions.Ipv4v6)
                            then [Sessions.Notice(Sessions.V4, v4)] else [])
                           + (if c.v6 != v6 && (c.pdp == Sessions.Ipv6 || c.pdp == Sessions.Ipv4v6)
                              then [Sessions.Notice(Sessions.V6, v6)] else [])
      ensures qosStatusRefMap == if k !in profilesMap || state != Sessions.Disconnected then old(qosStatusRefMap)
                                 else map r | r in old(qosStatusRefMap) ::
                                        if old(qosStatusRefMap)[r].key == k
                                        then old(qosStatusRefMap)[r].(state := Deleted) else old(qosStatusRefMap)[r]
      ensures answer == if k !in profilesMap || state == Sessions.Connecting || state == Sessions.Disconnecting
                        then None else if old(isSyncCmdPromiseWaiting) then Some(Promise)
                        else Some(Responses(state == Sessions.Connected, state == Sessions.Disconnected))
      ensures isSyncCmdPromiseWaiting == (old(isSyncCmdPromiseWaiting) && answer != Some(Promise))
    {
      sent, answer := [], None;
      if k !in profilesMap {
        return;
      }
      sent := UpdateSessionDetails(k, state, v4, v6);
      answer := AnswerWaiting(state);
    }

    // ----- Profiles -----

    /** The reference of a profile; a profile still to be created is made on request. */
    method GetProfileRef(phone: nat, profile: ProfileId, newRef: ProfileRef) returns (r: Option<ProfileRef>)
      requires Valid() && newRef !in profilesRefMap
      modifies this`profilesMap, this`profilesRefMap
      ensures Valid()
      ensures forall k <- profilesMap ::
                (k in old(profilesMap) && profilesMap[k] == old(profilesMap)[k]) || fresh(profilesMap[k])
      ensures var k := Key(phone, profile);
              if phone != 1 && phone != 2 then r == None && View() == old(View())
              else if k in old(profilesMap) then r == Some(old(profilesMap[k].reference)) && View() == old(View())
              else if profile != Undefined then r == None && View() == old(View())
              else && r == Some(newRef) && View() == WithProfile(old(View()), k, newRef)
                   && k in profilesMap && profilesRefMap == old(profilesRefMap)[newRef := profilesMap[k]]
    {
      if phone != 1 && phone != 2 {
        return None;
      }
      if Key(phone, profile) in profilesMap {
        return Some(profilesMap[Key(phone, profile)].reference);
      }
      if profile != Undefined {
        return None;
      }
      var added := AddProfile(Key(phone, profile), newRef, BLANK);
      return Some(newRef);
    }

    /** A new object under both its key and its reference; a key that is taken is refused. */
    method AddProfile(k: Key, r: ProfileRef, details: Details) returns (added: bool)
      requires Valid() && r !in profilesRefMap
      modifies this`profilesMap, this`profilesRefMap
      ensures Valid() && (added <==> k !in old(profilesMap))
      ensures View() == if added then WithProfile(old(View()), k, r) else old(View())
      ensures !added ==> profilesMap == old(profilesMap) && profilesRefMap == old(profilesRefMap)
      ensures added ==>
                k in profilesMap && profilesMap == old(profilesMap)[k := profilesMap[k]] && fresh(profilesMap[k])
      ensures added ==> profilesMap[k].details == details && profilesMap[k].Session() == Sessions.Fresh(details.pdp)
      ensures added ==> profilesRefMap == old(profilesRefMap)[r := profilesMap[k]]
      ensures forall j <- old(profilesMap) :: j in profilesMap && profilesMap[j] == old(profilesMap[j])
    {
      added := k !in profilesMap;
      if added {
        var profile := new TafDcsProfile(k, r, details);
        RegisterProfile(profile);
      }
    }

    /** A new object without flows keeps the manager consistent. */
    method RegisterProfile(profile: TafDcsProfile)
      requires Valid() && profile.KeyOf() !in profilesMap && profile.reference !in profilesRefMap
      requires profile.qosFlowRefs == []
      modifies this`profilesMap, this`profilesRefMap
      ensures Valid() && View() == WithProfile(old(View()), profile.KeyOf(), profile.reference)
      ensures profilesMap == old(profilesMap)[profile.KeyOf() := profile]
      ensures profilesRefMap == old(profilesRefMap)[profile.reference := profile]
    {
      Listeners.EmptyLists(Flows(), WithProfile(View(), profile.KeyOf(), profile.reference).table);
      InsertProfile(profile);
      CountsStay();
    }

    /** Both maps get the object. */
    method InsertProfile(profile: TafDcsProfile)
      requires IndexOk() && profile.KeyOf() !in profilesMap && profile.reference !in profilesRefMap
      requires profile.qosFlowRefs == []
      modifies this`profilesMap, this`profilesRefMap
      ensures IndexOk() && View() == WithProfile(old(View()), profile.KeyOf(), profile.reference)
      ensures profilesMap == old(profilesMap)[profile.KeyOf() := profile]
      ensures profilesRefMap == old(profilesRefMap)[profile.reference := profile]
    {
      profilesMap := profilesMap[Key(profile.phoneId, profile.profileId) := profile];
      profilesRefMap := profilesRefMap[profile.reference := profile];
      InsertedIndex(profile);
      InsertedView(profile);
    }

    twostate lemma InsertedIndex(profile: TafDcsProfile)
      requires old(IndexOk()) && profile.KeyOf() !in old(profilesMap) && profile.reference !in old(profilesRefMap)
      requires profilesMap == old(profilesMap)[profile.KeyOf() := profile]
      requires profilesRefMap == old(profilesRefMap)[profile.reference := profile]
      requires forall k <- old(profilesMap) :: old(profilesMap)[k].profileId == old(profilesMap[k].profileId)
      requires forall r <- old(profilesRefMap) :: old(profilesRefMap)[r].profileId == old(profilesRefMap[r].profileId)
      ensures IndexOk()
    {
    }

    twostate lemma InsertedView(profile: TafDcsProfile)
      requires profilesMap == old(profilesMap)[profile.KeyOf() := profile] && profile.qosFlowRefs == []
      requires profilesRefMap == old(profilesRefMap)[profile.reference := profile]
      requires forall k <- old(profilesMap) :: old(profilesMap)[k].qosFlowRefs == old(profilesMap[k].qosFlowRefs)
      requires forall r <- old(profilesRefMap) :: old(profilesRefMap)[r].profileId == old(profilesRefMap[r].profileId)
      requires unchanged(`qosStatusRefMap, `created, `qosHandlerMap)
      ensures View() == WithProfile(old(View()), profile.KeyOf(), profile.reference)
    {
      assert Lists() == old(Lists())[profile.KeyOf() := []];
      assert Names() == old(Names())[profile.reference := profile.KeyOf()];
    }

    /** The platform creates the profile under the id it chose; anything else changes nothing. */
    method CreateProfile(p: ProfileRef, platformOk: bool, newId: ProfileId) returns (result: Result)
      requires Valid()
      modifies this`profilesMap, profilesMap.Values`profileId
      ensures result == if p !in profilesRefMap then NotFound
                        else if old(profilesRefMap[p].profileId) != Undefined then Duplicate
                        else if !platformOk then PlatformError else Ok
      ensures result != Ok ==> Valid() && View() == old(View())
      ensures result == Ok ==> profilesRefMap[p].profileId == newId && Renamed(profilesRefMap[p])
      ensures result == Ok ==>
                var x := profilesRefMap[p];
                profilesMap == (if Key(x.phoneId, newId) in old(profilesMap) then old(profilesMap)
                                else old(profilesMap)[Key(x.phoneId, newId) := x]) - {Key(x.phoneId, Undefined)}
      ensures result == Ok ==>
                (Valid() <==> profilesRefMap[p].KeyOf() !in old(profilesMap)
                              && old(profilesRefMap[p].qosFlowRefs) == [])
    {
      if p !in profilesRefMap {
        return NotFound;
      }
      var profile := profilesRefMap[p];
      if profile.profileId != Undefined {
        return Duplicate;
      }
      if !platformOk {
        return PlatformError;
      }
      NameProfile(profile, newId);
      return Ok;
    }

    /** The profile's entry moved to its new key: the index survives exactly when that key was free. */
    twostate predicate Renamed(profile: TafDcsProfile)
      reads this, profile, profilesMap.Values, profilesRefMap.Values
    {
      && (IndexOk() <==> profile.KeyOf() !in old(profilesMap))
      && (IndexOk() ==> profile.reference in old(profilesRefMap)
                        && old(profilesRefMap[profile.reference].KeyOf() in profilesMap)
                        && View() == Rekeyed(old(View()), profile.reference, profile.KeyOf()))
    }

    /** The profile gets its id. The manager stays consistent exactly when the id's key was
        free and the profile tracked no flows. */
    method NameProfile(profile: TafDcsProfile, newId: ProfileId)
      requires Valid() && Home(profile) && profile.profileId == Undefined
      modifies this`profilesMap, profile`profileId
      ensures profile.profileId == newId && Renamed(profile)
      ensures profilesMap == (if Key(profile.phoneId, newId) in old(profilesMap) then old(profilesMap)
                              else old(profilesMap)[Key(profile.phoneId, newId) := profile])
                             - {Key(profile.phoneId, Undefined)}
      ensures Valid() <==> profile.KeyOf() !in old(profilesMap) && old(profile.qosFlowRefs) == []
    {
      var moved := MoveEntry(profile, newId);
      if moved {
        RenamedValidIff(profile);
      }
    }

    /** Moves an entry by a non-overwriting insert and an erase; a missing entry is refused. */
    method UpdateProfilesMapKey(oldKey: Key, newKey: Key) returns (found: bool)
      modifies this`profilesMap
      ensures found <==> oldKey in old(profilesMap)
      ensures profilesMap == if !found then old(profilesMap)
                             else (if newKey in old(profilesMap) then old(profilesMap)
                                   else old(profilesMap)[newKey := old(profilesMap)[oldKey]]) - {oldKey}
    {
      found := oldKey in profilesMap;
      if found {
        if newKey !in profilesMap {
          profilesMap := profilesMap[newKey := profilesMap[oldKey]];
        }
        profilesMap := profilesMap - {oldKey};
      }
    }

    /** The object gets its id, and its entry moves. */
    method MoveEntry(profile: TafDcsProfile, newId: ProfileId) returns (moved: bool)
      requires IndexOk() && Home(profile) && profile.profileId == Undefined
      modifies this`profilesMap, profile`profileId
      ensures profile.profileId == newId
      ensures profilesMap == (if Key(profile.phoneId, newId) in old(profilesMap) then old(profilesMap)
                              else old(profilesMap)[Key(profile.phoneId, newId) := profile])
                             - {Key(profile.phoneId, Undefined)}
      ensures moved <==> profile.KeyOf() !in old(profilesMap)
      ensures moved == IndexOk()
      ensures moved ==> View() == Rekeyed(old(View()), profile.reference, profile.KeyOf())
    {
      moved := Key(profile.phoneId, newId) !in profilesMap;
      profile.profileId := newId;
      var found := UpdateProfilesMapKey(Key(profile.phoneId, Undefined), Key(profile.phoneId, newId));
      if moved {
        MovedIndex(profile);
        MovedView(profile);
      } else {
        LostIndex(profile);
      }
    }

    /** Another object, or none, sits at the profile's key. */
    twostate lemma LostIndex(profile: TafDcsProfile)
      requires old(IndexOk()) && old(profile.profileId) == Undefined && profile.KeyOf() in old(profilesMap)
      requires unchanged(`profilesRefMap)
      requires profile.reference in profilesRefMap && profilesRefMap[profile.reference] == profile
      requires profilesMap == old(profilesMap) - {Key(profile.phoneId, Undefined)}
      ensures !IndexOk()
    {
      var k := profile.KeyOf();
      assert old(profilesMap[k].KeyOf()) == k;
    }

    /** The object sits alone at its new key. */
    twostate predicate Moved(profile: TafDcsProfile)
      reads this, profile, profilesMap.Values
    {
      && old(IndexOk() && Home(profile)) && profilesRefMap == old(profilesRefMap)
      && profile.KeyOf() !in old(profilesMap)
      && profilesMap == old(profilesMap)[profile.KeyOf() := profile] - {old(profile.KeyOf())}
      && forall k | k in profilesMap ::
           profilesMap[k] != profile ==> profilesMap[k].profileId == old(profilesMap[k].profileId)
    }

    twostate lemma MovedIndex(profile: TafDcsProfile)
      requires Moved(profile)
      ensures IndexOk()
    {
      forall k | k in old(profilesMap) && k != old(profile.KeyOf()) ensures old(profilesMap)[k] != profile {
        assert old(profilesMap[k].KeyOf()) == k;
      }
    }

    twostate lemma MovedView(profile: TafDcsProfile)
      requires Moved(profile) && IndexOk()
      requires unchanged(`qosStatusRefMap, `created, `qosHandlerMap)
      requires forall k | k in old(profilesMap) ::
                 old(profilesMap[k]).qosFlowRefs == old(profilesMap[k].qosFlowRefs)
      ensures View() == Rekeyed(old(View()), profile.reference, profile.KeyOf())
    {
      ghost var t := Rekeyed(old(View()), profile.reference, profile.KeyOf());
      assert Lists() == t.table.lists;
      assert Names() == t.keyOf;
    }

    /** After the entry moved to a free key the manager is consistent exactly when the profile
        tracks no flows: its flows still name the old key. */
    twostate lemma RenamedValidIff(profile: TafDcsProfile)
      requires old(Valid() && Home(profile)) && Renamed(profile) && IndexOk()
      requires unchanged(`qosHandlerMap, `qosListenerCountMap, `created, `qosFlowSeq)
      ensures Valid() <==> old(profile.qosFlowRefs) == []
    {
      NamedOld();
      RekeyedKeepsIff(old(View()), profile.reference, profile.KeyOf());
      NamedByIndex();
      CountsStay();
      assert old(Lists())[old(profile.KeyOf())] == old(profile.qosFlowRefs);
    }

    twostate lemma NamedOld()
      requires old(IndexOk())
      ensures Named(old(View()))
    {
      forall k | k in old(profilesMap) ensures exists p :: p in old(Names()) && old(Names())[p] == k {
        var p := old(profilesMap[k].reference);
        assert p in old(Names()) && old(Names())[p] == k;
      }
    }

    twostate lemma CountsStay()
      requires old(CountsOk()) && unchanged(`qosHandlerMap, `qosListenerCountMap)
      ensures CountsOk()
    {
      forall p ensures CountOk(p) {
        assert old(CountOk(p));
      }
    }

    /** Deletes a disconnected profile. The manager stays consistent exactly when the profile
        tracked no flows: nothing here touches the flow table. Its requesters go with it,
        requests still waiting for an answer among them. */
    method DeleteProfile(p: ProfileRef, platformOk: bool) returns (result: Result)
      requires Valid()
      modifies this`profilesMap, this`profilesRefMap
      ensures result == if p !in old(profilesRefMap) then NotFound
                        else if old(profilesRefMap)[p].profileId == Undefined then NotPossible
                        else if old(profilesRefMap[p].connState) != Sessions.Disconnected then Busy
                        else if !platformOk then PlatformError else Ok
      ensures result != Ok ==> Valid() && View() == old(View())
      ensures result == Ok ==>
                && IndexOk() && View() == Removed(old(View()), p)
                && (Valid() <==> old(profilesRefMap[p].qosFlowRefs) == [])
                && profilesMap == old(profilesMap) - {old(profilesRefMap[p].KeyOf())}
                && profilesRefMap == old(profilesRefMap) - {p}
      ensures Requested() == if result == Ok then old(Requested()) - {old(profilesRefMap[p].KeyOf())}
                             else old(Requested())
    {
      if p !in profilesRefMap {
        return NotFound;
      }
      var profile := profilesRefMap[p];
      if profile.profileId == Undefined {
        return NotPossible;
      }
      if profile.connState != Sessions.Disconnected {
        return Busy;
      }
      if !platformOk {
        return PlatformError;
      }
      DropProfile(profile);
      return Ok;
    }

    method DropProfile(profile: TafDcsProfile)
      requires Valid() && Home(profile)
      modifies this`profilesMap, this`profilesRefMap
      ensures IndexOk() && View() == Removed(old(View()), profile.reference)
      ensures Valid() <==> old(profile.qosFlowRefs) == []
      ensures Requested() == old(Requested()) - {profile.KeyOf()}
      ensures profilesMap == old(profilesMap) - {profile.KeyOf()}
      ensures profilesRefMap == old(profilesRefMap) - {profile.reference}
    {
      RemoveEntry(profile);
      RemovedValidIff(profile);
    }

    /** After the entry is gone the manager is consistent exactly when the profile tracked no flows. */
    twostate lemma RemovedValidIff(profile: TafDcsProfile)
      requires old(Valid() && Home(profile)) && IndexOk() && View() == Removed(old(View()), profile.reference)
      requires unchanged(`qosHandlerMap, `qosListenerCountMap, `created, `qosFlowSeq)
      ensures Valid() <==> old(profile.qosFlowRefs) == []
    {
      NamedOld();
      DeleteProfileKeepsIff(old(View()), profile.reference);
      NamedByIndex();
      CountsStay();
      assert old(Lists())[old(profile.KeyOf())] == old(profile.qosFlowRefs);
    }

    /** Both maps forget the object. */
    method RemoveEntry(profile: TafDcsProfile)
      requires IndexOk() && profile.reference in profilesRefMap && profilesRefMap[profile.reference] == profile
      modifies this`profilesMap, this`profilesRefMap
      ensures IndexOk() && View() == Removed(old(View()), profile.reference)
      ensures Requested() == old(Requested()) - {profile.KeyOf()}
      ensures profilesMap == old(profilesMap) - {profile.KeyOf()}
      ensures profilesRefMap == old(profilesRefMap) - {profile.reference}
    {
      ghost var t := Removed(View(), profile.reference);
      profilesMap := profilesMap - {Key(profile.phoneId, profile.profileId)};
      profilesRefMap := profilesRefMap - {profile.reference};
      assert Lists() == t.table.lists;
      assert Names() == t.keyOf;
    }

    /** The index names every key once. */
    lemma NamedByIndex()
      requires IndexOk()
      ensures Named(View())
    {
      forall k | k in profilesMap ensures exists p :: p in Names() && Names()[p] == k {
        var p := profilesMap[k].reference;
        assert p in Names() && Names()[p] == k;
      }
    }

    /** At most one profile of a phone is still to be created. */
    lemma OneUncreated(p: ProfileRef, q: ProfileRef)
      requires IndexOk() && p in profilesRefMap && q in profilesRefMap
      requires profilesRefMap[p].phoneId == profilesRefMap[q].phoneId
      requires profilesRefMap[p].profileId == profilesRefMap[q].profileId == Undefined
      ensures p == q
    {
    }

    /** A client sets the PDP type: of a profile still to be created directly, of another one
        when the platform accepts it. No session state changes and nobody is notified. */
    method SetPdp(p: ProfileRef, pdp: Sessions.Pdp, platformOk: bool) returns (result: Result)
      requires Valid()
      modifies profilesRefMap.Values`details
      ensures Valid() && View() == old(View())
      ensures result == if p !in profilesRefMap then NotFound
                        else if profilesRefMap[p].profileId != Undefined && !platformOk then PlatformError else Ok
      ensures forall q <- profilesRefMap ::
                profilesRefMap[q].Session() ==
                  if q == p && result == Ok
                  then Sessions.After(old(profilesRefMap[q].Session()), Sessions.SetPdp(pdp))
                  else old(profilesRefMap[q].Session())
    {
      if p !in profilesRefMap {
        return NotFound;
      }
      if profilesRefMap[p].profileId != Undefined && !platformOk {
        return PlatformError;
      }
      assert forall q <- profilesRefMap :: q != p ==> profilesRefMap[q] != profilesRefMap[p];
      profilesRefMap[p].SetPdp(pdp);
      return Ok;
    }

    /** A platform profile update. The lookup uses the slot where a phone is meant: it reaches
        the profile of the slot's phone exactly when the two numbers agree or neither key exists. */
    method UpdateProfile(slot: nat, phone: nat, id: ProfileId, details: Details, newRef: ProfileRef)
      returns (updated: Option<Key>)
      requires Valid() && newRef !in profilesRefMap
      modifies this`profilesMap, this`profilesRefMap, profilesMap.Values`details
      ensures Valid()
      ensures updated == if Key(slot, id) in old(profilesMap) then Some(Key(slot, id))
                         else if Key(phone, id) in old(profilesMap) then None else Some(Key(phone, id))
      ensures updated.Some? ==> updated.value in profilesMap && profilesMap[updated.value].details == details
      ensures forall k <- old(profilesMap) :: k in profilesMap && profilesMap[k] == old(profilesMap[k])
                && (updated != Some(k) ==> profilesMap[k].details == old(profilesMap[k].details))
                && (updated == Some(k) ==>
                      profilesMap[k].Session() ==
                        Sessions.After(old(profilesMap[k].Session()), Sessions.SetPdp(details.pdp)))
      ensures forall k <- profilesMap :: k !in old(profilesMap) ==>
                fresh(profilesMap[k]) && profilesMap[k].Session() == Sessions.Fresh(details.pdp)
      ensures updated == Some(Key(phone, id)) <==>
              slot == phone || (Key(slot, id) !in old(profilesMap) && Key(phone, id) !in old(profilesMap))
      ensures View() == if Key(slot, id) in old(profilesMap) || Key(phone, id) in old(profilesMap)
                        then old(View()) else WithProfile(old(View()), Key(phone, id), newRef)
    {
      if Key(slot, id) in profilesMap {
        var profile := profilesMap[Key(slot, id)];
        profile.details := details;
        return Some(Key(slot, id));
      }
      var added := AddProfile(Key(phone, id), newRef, details);
      return if added then Some(Key(phone, id)) else None;
    }
  }

  ghost function WithProfile(s: State, k: Key, r: ProfileRef): State {
    s.(keyOf := s.keyOf[r := k], table := s.table.(lists := s.table.lists[k := []]))
  }

  lemma CountAfterAdd(hs: map<Handler, Registration>, h: Handler, reg: Registration)
    requires h !in hs
    ensures forall p :: Count(hs[h := reg], p) == Count(hs, p) + (if reg.profile == p then 1 else 0)
  {
    var more := hs[h := reg];
    forall p ensures Count(more, p) == Count(hs, p) + (if reg.profile == p then 1 else 0) {
      assert Naming(more, p) == Naming(hs, p) + (if reg.profile == p then {h} else {});
    }
  }

  lemma CountAfterErase(hs: map<Handler, Registration>, h: Handler)
    requires h in hs
    ensures forall p :: Count(hs - {h}, p) == Count(hs, p) - (if hs[h].profile == p then 1 else 0)
  {
    CountAfterAdd(hs - {h}, h, hs[h]);
    assert (hs - {h})[h := hs[h]] == hs;
  }

  /** Dropping one handler frees its profile's flows, if it was the last. */
  lemma LostByOne(s: State, h: Handler)
    requires h in s.handlers
    ensures var p := s.handlers[h].profile;
            DropHandlers(s, {h}) ==
              State(if p in s.keyOf && !Listened(s.handlers - {h}, p) then Release(s.table, {s.keyOf[p]}) else s.table,
                    s.keyOf, s.handlers - {h})
  {
    var p := s.handlers[h].profile;
    assert LosesLast(s.handlers, {h}, p) <==> !Listened(s.handlers - {h}, p);
    assert LostKeys(s, {h}) == if p in s.keyOf && !Listened(s.handlers - {h}, p) then {s.keyOf[p]} else {};
    ReleaseTwice(s.table, {}, {});
  }

  lemma NotListed(t: Table, k: Key, r: FlowRef)
    requires Inv(t) && k in t.lists && r !in t.flows
    ensures r !in t.lists[k]
  {
  }

  /** The listed flows marked deleted. */
  function Marked(flows: map<FlowRef, Flow>, refs: seq<FlowRef>): map<FlowRef, Flow> {
    map r | r in flows :: if r in refs then flows[r].(state := Deleted) else flows[r]
  }

  lemma MarkOneMore(flows: map<FlowRef, Flow>, refs: seq<FlowRef>, i: nat)
    requires i < |refs|
    ensures var m := Marked(flows, refs[..i]);
            Marked(flows, refs[..i + 1]) ==
              if refs[i] in m then m[refs[i] := m[refs[i]].(state := Deleted)] else m
  {
  }

  /** A profile's list holds exactly its flows. */
  lemma MarkedIsMarkDeleted(t: Table, k: Key)
    requires Inv(t)
    ensures MarkDeleted(t, k).flows == Marked(t.flows, if k in t.lists then t.lists[k] else [])
  {
  }

  lemma ReleaseUnknown(t: Table, k: Key)
    requires Inv(t) && k !in t.lists
    ensures Release(t, {k}) == t
  {
  }

  lemma ReleaseIsDropAll(t: Table, k: Key)
    requires Inv(t) && k in t.lists
    ensures Release(t, {k}).flows == t.flows - set r | r in t.lists[k]
    ensures Release(t, {k}).lists == t.lists[k := []]
  {
  }
}
