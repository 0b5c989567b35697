/** Short uses of the profile manager after which it is not consistent, or has updated the
    wrong profile. */
module ProfileFaults {
  import opened Options
  import opened Profile
  import opened ProfileManager
  import opened Qos
  import Sessions

  lemma SameKeys(m: ProfileManager)
    ensures m.Names().Keys == m.profilesRefMap.Keys && m.Lists().Keys == m.profilesMap.Keys
  {
  }

  /** A manager with one created profile of phone 1, disconnected and without flows. */
  method OneProfile() returns (m: ProfileManager)
    ensures fresh(m) && m.Valid() && m.profilesMap.Keys == {Key(1, Id(5))} && m.profilesRefMap.Keys == {0}
    ensures forall k <- m.profilesMap :: fresh(m.profilesMap[k]) && m.profilesMap[k].details == BLANK
    ensures m.qosStatusRefMap == map[] && m.profilesMap[Key(1, Id(5))].qosFlowRefs == []
    ensures m.profilesRefMap[0] == m.profilesMap[Key(1, Id(5))]
    ensures m.profilesRefMap[0].profileId == Id(5) && m.profilesRefMap[0].connState == Sessions.Disconnected
  {
    m := new ProfileManager([1, 2]);
    var updated := m.UpdateProfile(1, 1, Id(5), BLANK, 0);
    SameKeys(m);
    assert m.Flows() == Table(map[], map[Key(1, Id(5)) := []], 0) && m.Lists()[Key(1, Id(5))] == [];
    assert m.Names() == map[0 := Key(1, Id(5))] && m.Names()[0] == m.profilesRefMap[0].KeyOf();
  }

  /** A profile of phone 1 that is still to be created. */
  method RequestProfile(m: ProfileManager, r: ProfileRef)
    requires m.Valid() && r !in m.profilesRefMap && Key(1, Undefined) !in m.profilesMap
    modifies m`profilesMap, m`profilesRefMap
    ensures m.Valid() && r in m.profilesRefMap && m.profilesMap.Keys == old(m.profilesMap.Keys) + {Key(1, Undefined)}
    ensures forall k <- m.profilesMap ::
              fresh(m.profilesMap[k]) || (k in old(m.profilesMap) && m.profilesMap[k] == old(m.profilesMap)[k])
    ensures m.profilesRefMap[r] == m.profilesMap[Key(1, Undefined)] && m.profilesRefMap[r].KeyOf() == Key(1, Undefined)
    ensures m.profilesMap[Key(1, Undefined)].qosFlowRefs == []
  {
    var ref := m.GetProfileRef(1, Undefined, r);
    SameKeys(m);
    assert m.Names()[r] == Key(1, Undefined) && m.Names()[r] == m.profilesRefMap[r].KeyOf();
    assert m.Lists() == old(m.Lists())[Key(1, Undefined) := []];
    assert m.Lists()[Key(1, Undefined)] == [];
  }

  /** Beside the created profile another one of the phone that is still to be created. */
  method OneUncreated() returns (m: ProfileManager)
    ensures fresh(m) && m.Valid() && m.profilesMap.Keys == {Key(1, Id(5)), Key(1, Undefined)} && 1 in m.profilesRefMap
    ensures forall k <- m.profilesMap :: fresh(m.profilesMap[k])
    ensures m.profilesRefMap[1] == m.profilesMap[Key(1, Undefined)]
    ensures m.profilesRefMap[1].phoneId == 1 && m.profilesRefMap[1].profileId == Undefined
    ensures m.qosStatusRefMap == map[] && m.profilesMap[Key(1, Undefined)].qosFlowRefs == []
  {
    m := OneProfile();
    RequestProfile(m, 1);
  }

  /** The platform gives a new profile an id that is taken: the profile is lost. */
  method TakenIdLosesTheProfile() returns (m: ProfileManager, result: Result)
    ensures result == Ok && !m.Valid()
  {
    m := OneUncreated();
    result := m.CreateProfile(1, true, Id(5));
  }

  lemma FirstFlow(t: Table, k: Key, r: FlowRef)
    requires t.flows == map[] && k in t.lists && t.lists[k] == []
    ensures var e := FlowEvent(k, 1, Activated, 0);
            MayCreate(t, e, r) && OnEvent(t, e, r).0.lists == t.lists[k := [r]]
  {
    assert Find(t, k, 1) == None && t.lists[k] + [r] == [r];
  }

  /** The profile of a key gets its first flow. */
  method GiveFlow(m: ProfileManager, k: Key)
    requires m.Valid() && k in m.profilesMap && m.qosStatusRefMap == map[] && m.profilesMap[k].qosFlowRefs == []
    modifies m`qosStatusRefMap, m`qosFlowSeq, m`created, m.profilesMap.Values`qosFlowRefs
    ensures m.Valid() && m.profilesMap[k].qosFlowRefs == [10]
  {
    FirstFlow(m.Flows(), k, 10);
    assert m.Lists()[k] == [];
    var notice := m.PaQosTftEvent(FlowEvent(k, 1, Activated, 0), 10);
    assert m.Lists()[k] == [10];
  }

  /** A flow event that names the undefined id makes a flow of a profile still to be created:
      its creation leaves the flow under the old key. */
  method NamingLeavesAFlow() returns (m: ProfileManager, result: Result)
    ensures result == Ok && !m.Valid()
  {
    m := OneUncreated();
    GiveFlow(m, Key(1, Undefined));
    result := m.CreateProfile(1, true, Id(6));
  }

  /** A profile deleted with a flow leaves the flow behind. */
  method DeletionLeavesAFlow() returns (m: ProfileManager, result: Result)
    ensures result == Ok && !m.Valid()
  {
    m := OneProfile();
    GiveFlow(m, Key(1, Id(5)));
    result := m.DeleteProfile(0, true);
  }

  /** Slot 2 holds phone 1's card: the update for phone 1 changes the profile of phone 2. */
  method UpdateReachesTheOtherPhone(details: Details) returns (m: ProfileManager, updated: Option<Key>)
    ensures updated == Some(Key(2, Id(5))) && Key(1, Id(5)) in m.profilesMap && Key(2, Id(5)) in m.profilesMap
    ensures m.profilesMap[Key(2, Id(5))].details == details && m.profilesMap[Key(1, Id(5))].details == BLANK
  {
    m := TwoProfiles();
    updated := m.UpdateProfile(2, 1, Id(5), details, 2);
  }

  /** A created profile of phone 2, known from the platform. */
  method KnowProfile(m: ProfileManager, r: ProfileRef)
    requires m.Valid() && r !in m.profilesRefMap && Key(2, Id(5)) !in m.profilesMap
    modifies m`profilesMap, m`profilesRefMap
    ensures m.Valid() && m.profilesRefMap.Keys == old(m.profilesRefMap.Keys) + {r}
    ensures m.profilesMap.Keys == old(m.profilesMap.Keys) + {Key(2, Id(5))}
    ensures fresh(m.profilesMap[Key(2, Id(5))]) && m.profilesMap[Key(2, Id(5))].details == BLANK
    ensures forall k <- old(m.profilesMap) :: m.profilesMap[k] == old(m.profilesMap)[k]
  {
    var added := m.AddProfile(Key(2, Id(5)), r, BLANK);
    SameKeys(m);
    assert m.Names() == old(m.Names())[r := Key(2, Id(5))];
  }

  /** A manager with one created profile of each phone, under the same id. */
  method TwoProfiles() returns (m: ProfileManager)
    ensures fresh(m) && m.Valid() && 2 !in m.profilesRefMap
    ensures m.profilesMap.Keys == {Key(1, Id(5)), Key(2, Id(5))}
    ensures forall k <- m.profilesMap :: fresh(m.profilesMap[k]) && m.profilesMap[k].details == BLANK
  {
    m := OneProfile();
    KnowProfile(m, 1);
  }
}
