/** The throughput store: lists fetched from the platform, and the info references
    handed out from them. */
module Throughput {
  import opened Options
  import opened Sequences

  type ListRef = nat
  type InfoRef = nat
  type Info = nat

  datatype Listing = Listing(infoList: seq<Info>, infoRefs: seq<InfoRef>)

  datatype Store = Store(lists: map<ListRef, Listing>, infos: map<InfoRef, Info>)

  datatype Result = Ok | BadParameter | NotFound | OutOfRange | PlatformError

  ghost predicate Owns(s: Store, l: ListRef, r: InfoRef) {
    l in s.lists && r in s.lists[l].infoRefs
  }

  /** Every info reference belongs to exactly one live list, once, and lists hold no others. */
  ghost predicate Inv(s: Store) {
    && (forall l, r | Owns(s, l, r) :: r in s.infos)
    && (forall r <- s.infos :: exists l :: Owns(s, l, r))
    && (forall l, m, r | Owns(s, l, r) && Owns(s, m, r) :: l == m)
    && (forall l <- s.lists :: Distinct(s.lists[l].infoRefs))
  }

  function Elements(refs: seq<InfoRef>): set<InfoRef> { set r | r in refs }

  /** A deleted list takes the references created from it along, and nothing else. */
  function Deleted(s: Store, l: ListRef): Store
    requires l in s.lists
  {
    Store(s.lists - {l}, s.infos - Elements(s.lists[l].infoRefs))
  }

  function WithInfo(s: Store, l: ListRef, index: nat, r: InfoRef): Store
    requires l in s.lists && index < |s.lists[l].infoList|
  {
    Store(s.lists[l := s.lists[l].(infoRefs := s.lists[l].infoRefs + [r])],
          s.infos[r := s.lists[l].infoList[index]])
  }

  lemma DeletedKeeps(s: Store, l: ListRef)
    requires Inv(s) && l in s.lists
    ensures Inv(Deleted(s, l))
    ensures forall r :: r in Deleted(s, l).infos <==> r in s.infos && !Owns(s, l, r)
  {
    var t := Deleted(s, l);
    assert forall m, r :: Owns(t, m, r) <==> Owns(s, m, r) && m != l;
    forall m, r | Owns(t, m, r) ensures r in t.infos {
      assert Owns(s, m, r) && !Owns(s, l, r);
    }
    forall r | r in t.infos ensures exists m :: Owns(t, m, r) {
      var m :| Owns(s, m, r);
      assert Owns(t, m, r);
    }
  }

  lemma WithInfoKeeps(s: Store, l: ListRef, index: nat, r: InfoRef)
    requires Inv(s) && l in s.lists && index < |s.lists[l].infoList| && r !in s.infos
    ensures Inv(WithInfo(s, l, index, r)) && Owns(WithInfo(s, l, index, r), l, r)
  {
    var t := WithInfo(s, l, index, r);
    assert !Owns(s, l, r);
    assert forall m, q :: Owns(t, m, q) <==> Owns(s, m, q) || (m == l && q == r);
    forall q | q in t.infos ensures exists m :: Owns(t, m, q) {
      if q == r {
        assert Owns(t, l, q);
      } else {
        var m :| Owns(s, m, q);
        assert Owns(t, m, q);
      }
    }
  }

  // ----- Counting -----

  ghost function Total(lists: map<ListRef, Listing>): nat {
    if lists == map[] then 0
    else
      assert lists.Keys != {};
      var l :| l in lists;
      |lists[l].infoRefs| + Total(lists - {l})
  }

  lemma {:induction false} TotalWithout(lists: map<ListRef, Listing>, l: ListRef)
    requires l in lists
    ensures Total(lists) == |lists[l].infoRefs| + Total(lists - {l})
    decreases |lists|
  {
    assert lists.Keys != {};
    var m :| m in lists && Total(lists) == |lists[m].infoRefs| + Total(lists - {m});
    if m != l {
      TotalWithout(lists - {m}, l);
      TotalWithout(lists - {l}, m);
      assert lists - {m} - {l} == lists - {l} - {m};
    }
  }

  lemma {:induction false} DistinctCount(refs: seq<InfoRef>)
    requires Distinct(refs)
    ensures |Elements(refs)| == |refs|
  {
    if refs != [] {
      DistinctCount(refs[1..]);
      assert Elements(refs) == {refs[0]} + Elements(refs[1..]);
    }
  }

  /** A list accounts for as many references as it handed out. */
  lemma CountOfList(s: Store, l: ListRef)
    requires Inv(s) && l in s.lists
    ensures |s.infos| == |Deleted(s, l).infos| + |s.lists[l].infoRefs|
  {
    var mine := Elements(s.lists[l].infoRefs);
    DistinctCount(s.lists[l].infoRefs);
    assert forall r <- mine :: Owns(s, l, r);
    assert s.infos.Keys == Deleted(s, l).infos.Keys + mine;
  }

  /** There are as many info references as the live lists handed out together. */
  lemma {:induction false} CountIsTotal(s: Store)
    requires Inv(s)
    ensures |s.infos| == Total(s.lists)
    decreases |s.lists|
  {
    if s.lists == map[] {
      assert s.infos.Keys == {};
    } else {
      assert s.lists.Keys != {};
      var l :| l in s.lists;
      DeletedKeeps(s, l);
      CountIsTotal(Deleted(s, l));
      TotalWithout(s.lists, l);
      CountOfList(s, l);
    }
  }

  class ThroughputStore {
    var lists: map<ListRef, Listing>
    var infos: map<InfoRef, Info>

    ghost function View(): Store
      reads this
    {
      Store(lists, infos)
    }

    /** Fetches a list from the platform into a new, live list without references. */
    method GetLastThroughputInfoList(phone: nat, platformOk: bool, fetched: seq<Info>, created: ListRef)
      returns (result: Result, l: Option<ListRef>)
      requires Inv(View()) && created !in lists
      modifies this`lists
      ensures Inv(View())
      ensures result == if phone == 0 then BadParameter else if !platformOk then PlatformError else Ok
      ensures l == if result == Ok then Some(created) else None
      ensures lists == if result == Ok then old(lists)[created := Listing(fetched, [])] else old(lists)
    {
      if phone == 0 {
        return BadParameter, None;
      }
      if !platformOk {
        return PlatformError, None;
      }
      lists := lists[created := Listing(fetched, [])];
      assert forall m, r :: Owns(View(), m, r) <==> Owns(old(View()), m, r);
      return Ok, Some(created);
    }

    /** Invalidates each reference of the list in turn, then the list. */
    method DeleteLastThroughputInfoList(l: ListRef) returns (result: Result)
      requires Inv(View())
      modifies this
      ensures Inv(View())
      ensures result == if l in old(lists) then Ok else NotFound
      ensures View() == if result == Ok then Deleted(old(View()), l) else old(View())
      ensures result == Ok ==>
                lists == old(lists) - {l}
                && infos == map r | r in old(infos) && r !in old(lists)[l].infoRefs :: old(infos)[r]
    {
      if l !in lists {
        return NotFound;
      }
      DeletedKeeps(View(), l);
      var refs := lists[l].infoRefs;
      for i := 0 to |refs|
        invariant lists == old(lists) && infos == old(infos) - Elements(refs[..i])
      {
        infos := infos - {refs[i]};
        assert Elements(refs[..i + 1]) == Elements(refs[..i]) + {refs[i]};
      }
      assert refs[..|refs|] == refs;
      lists := lists - {l};
      return Ok;
    }

    /** A new reference to a copy of one entry, kept with its list. */
    method GetThroughputInfo(l: ListRef, index: nat, created: InfoRef) returns (result: Result, r: Option<InfoRef>)
      requires Inv(View()) && created !in infos
      modifies this
      ensures Inv(View())
      ensures result == if l !in old(lists) then NotFound
                        else if index >= |old(lists)[l].infoList| then OutOfRange else Ok
      ensures r == if result == Ok then Some(created) else None
      ensures View() == if result == Ok then WithInfo(old(View()), l, index, created) else old(View())
      ensures result == Ok ==>
                var x := old(lists)[l];
                && infos == old(infos)[created := x.infoList[index]]
                && lists == old(lists)[l := Listing(x.infoList, x.infoRefs + [created])]
    {
      if l !in lists {
        return NotFound, None;
      }
      if index >= |lists[l].infoList| {
        return OutOfRange, None;
      }
      WithInfoKeeps(View(), l, index, created);
      infos := infos[created := lists[l].infoList[index]];
      lists := lists[l := lists[l].(infoRefs := lists[l].infoRefs + [created])];
      return Ok, Some(created);
    }
  }
}
