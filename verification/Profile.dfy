/** A profile of the data call service: what the platform says of it, its cached session
    state, its QoS flows, and who has requested a data call on it. */
module Profile {
  import opened DataClients
  import opened Qos
  import Sessions

  type ConState = Sessions.ConState

  /** What the platform says of a profile; `settings` stands for APN, names, credentials and
      bearer settings. */
  datatype Details = Details(pdp: Sessions.Pdp, settings: nat)

  const BLANK := Details(Sessions.Ipv4, 0)

  class TafDcsProfile {
    var profileId: ProfileId
    const phoneId: nat
    const reference: ProfileRef
    var details: Details
    var qosFlowRefs: seq<FlowRef>
    var connState: ConState
    var connStateIPv4: ConState
    var connStateIPv6: ConState
    var dataReqClients: set<Client>
    var startRequestors: map<Client, Callback>
    var stopRequestors: map<Client, Callback>

    constructor (key: Key, reference: ProfileRef, details: Details)
      ensures phoneId == key.phone && profileId == key.profile && this.reference == reference
      ensures qosFlowRefs == [] && this.details == details
      ensures Session() == Sessions.Fresh(details.pdp)
      ensures connState == connStateIPv4 == connStateIPv6 == Sessions.Disconnected
      ensures Requests() == Requesters({}, map[], map[])
    {
      phoneId, profileId, this.reference := key.phone, key.profile, reference;
      qosFlowRefs, this.details := [], details;
      connState, connStateIPv4, connStateIPv6 := Sessions.Disconnected, Sessions.Disconnected, Sessions.Disconnected;
      dataReqClients, startRequestors, stopRequestors := {}, map[], map[];
    }

    ghost function KeyOf(): Key
      reads this`profileId
    {
      Key(phoneId, profileId)
    }

    ghost function Session(): Sessions.Cache
      reads this`details, this`connState, this`connStateIPv4, this`connStateIPv6
    {
      Sessions.Cache(details.pdp, connState, connStateIPv4, connStateIPv6)
    }

    ghost function Requests(): Requesters
      reads this`dataReqClients, this`startRequestors, this`stopRequestors
    {
      Requesters(dataReqClients, startRequestors, stopRequestors)
    }

    /** Appends a reference that is not listed yet. */
    method AddQosFlowRef(r: FlowRef)
      modifies this`qosFlowRefs
      ensures qosFlowRefs == if r in old(qosFlowRefs) then old(qosFlowRefs) else old(qosFlowRefs) + [r]
    {
      if r !in qosFlowRefs {
        qosFlowRefs := qosFlowRefs + [r];
      }
    }

    /** Takes a reference out, keeping the order of the rest. */
    method RemoveQosFlowRef(r: FlowRef)
      modifies this`qosFlowRefs
      ensures qosFlowRefs == Without(old(qosFlowRefs), r)
    {
      var refs, kept := qosFlowRefs, [];
      for i := 0 to |refs|
        invariant kept + Without(refs[i..], r) == Without(refs, r)
      {
        WithoutStep(refs, i, r);
        Regroup(kept, refs[i], Without(refs[i + 1..], r));
        if refs[i] != r {
          kept := kept + [refs[i]];
        }
      }
      assert refs[|refs|..] == [] && kept + [] == kept;
      qosFlowRefs := kept;
    }

    // ----- Session state -----

    method SetSessionState(state: ConState, v4: ConState, v6: ConState)
      modifies this`connState, this`connStateIPv4, this`connStateIPv6
      ensures connState == state && connStateIPv4 == v4 && connStateIPv6 == v6
    {
      connState, connStateIPv4, connStateIPv6 := state, v4, v6;
    }

    /** Reads the old states, stores the new ones, then notifies by PDP type. */
    method PaSessionStateChange(state: ConState, v4: ConState, v6: ConState) returns (sent: seq<Sessions.Notice>)
      modifies this`connState, this`connStateIPv4, this`connStateIPv6
      ensures Session() == Sessions.After(old(Session()), Sessions.Change(state, v4, v6))
      ensures sent == Sessions.NoticesOf(old(Session()), Sessions.Change(state, v4, v6))
      ensures connState == state && connStateIPv4 == v4 && connStateIPv6 == v6
      ensures sent ==
              (if old(connStateIPv4) != v4 && (details.pdp == Sessions.Ipv4 || details.pdp == Sessions.Ipv4v6)
               then [Sessions.Notice(Sessions.V4, v4)] else [])
              + (if old(connStateIPv6) != v6 && (details.pdp == Sessions.Ipv6 || details.pdp == Sessions.Ipv4v6)
                 then [Sessions.Notice(Sessions.V6, v6)] else [])
    {
      var cur4, cur6 := connStateIPv4, connStateIPv6;
      SetSessionState(state, v4, v6);
      sent := [];
      match details.pdp {
        case Ipv4v6 =>
          if cur4 != v4 {
            sent := sent + [Sessions.Notice(Sessions.V4, v4)];
          }
          if cur6 != v6 {
            sent := sent + [Sessions.Notice(Sessions.V6, v6)];
          }
        case Ipv4 =>
          if cur4 != v4 {
            sent := sent + [Sessions.Notice(Sessions.V4, v4)];
          }
        case Ipv6 =>
          if cur6 != v6 {
            sent := sent + [Sessions.Notice(Sessions.V6, v6)];
          }
        case UnknownPdp =>
      }
    }

    method SetPdp(pdp: Sessions.Pdp)
      modifies this`details
      ensures details == old(details).(pdp := pdp)
      ensures Session() == Sessions.After(old(Session()), Sessions.SetPdp(pdp))
    {
      details := details.(pdp := pdp);
    }

    /** A synchronous start that times out resets the states and notifies nobody. */
    method StartTimedOut()
      modifies this`connState, this`connStateIPv4, this`connStateIPv6
      ensures Session() == Sessions.After(old(Session()), Sessions.StartTimeout)
      ensures connState == connStateIPv4 == connStateIPv6 == Sessions.Disconnected
    {
      SetSessionState(Sessions.Disconnected, Sessions.Disconnected, Sessions.Disconnected);
    }

    // ----- Requesters -----

    /** Takes the client out of everything; `last` when it was the only requester. */
    method Forget(client: Client) returns (last: bool)
      modifies this`dataReqClients, this`startRequestors, this`stopRequestors
      ensures Requests() == Swept(old(Requests()), client)
      ensures dataReqClients == old(dataReqClients) - {client}
      ensures startRequestors == old(startRequestors) - {client} && stopRequestors == old(stopRequestors) - {client}
      ensures last <==> old(dataReqClients) == {client}
    {
      startRequestors := startRequestors - {client};
      stopRequestors := stopRequestors - {client};
      last := false;
      if client in dataReqClients {
        dataReqClients := dataReqClients - {client};
        last := |dataReqClients| == 0;
        assert last ==> old(dataReqClients) == dataReqClients + {client};
      }
    }
  }

  lemma WithoutStep(refs: seq<FlowRef>, i: nat, r: FlowRef)
    requires i < |refs|
    ensures Without(refs[i..], r) == (if refs[i] != r then [refs[i]] else []) + Without(refs[i + 1..], r)
  {
  }

  lemma Regroup(a: seq<FlowRef>, x: FlowRef, b: seq<FlowRef>)
    ensures a + ([x] + b) == a + [x] + b && a + ([] + b) == a + b
  {
  }
}
