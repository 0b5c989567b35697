/** Who has requested a data call on each profile, and what a client's disconnect does. */
module DataClients {
  import opened Qos
  import opened Sequences

  type Callback = nat

  /** The service's own client: sessions it starts itself carry no session reference. */
  const NULL_CLIENT: Client := 0

  datatype Requesters = Requesters(clients: set<Client>,
                                   starting: map<Client, Callback>, stopping: map<Client, Callback>)

  function Swept(r: Requesters, c: Client): Requesters {
    Requesters(r.clients - {c}, r.starting - {c}, r.stopping - {c})
  }

  function SweepKeys(m: map<Key, Requesters>, keys: set<Key>, c: Client): map<Key, Requesters> {
    map k | k in m :: if k in keys then Swept(m[k], c) else m[k]
  }

  /** The profiles of some phones. */
  function OfPhones(keys: set<Key>, phones: seq<nat>): set<Key> {
    set k | k in keys && k.phone in phones
  }

  /** A stop is due exactly for the profiles of which the client was the only requester. */
  predicate StopDue(m: map<Key, Requesters>, k: Key, phones: seq<nat>, c: Client) {
    k in m && k.phone in phones && m[k].clients == {c}
  }

  /** What a sweep leaves: on the profiles of the phones the client is no requester and has no
      start or stop waiting, every other client's request is as it was; other phones' profiles
      are not touched. */
  lemma SweepLeaves(m: map<Key, Requesters>, phones: seq<nat>, c: Client, k: Key)
    requires k in m
    ensures var r := SweepKeys(m, OfPhones(m.Keys, phones), c)[k];
            if k.phone in phones then
              && c !in r.clients && c !in r.starting && c !in r.stopping
              && forall d | d != c ::
                   && (d in r.clients <==> d in m[k].clients)
                   && (d in r.starting <==> d in m[k].starting) && (d in r.stopping <==> d in m[k].stopping)
                   && (d in r.starting ==> r.starting[d] == m[k].starting[d])
                   && (d in r.stopping ==> r.stopping[d] == m[k].stopping[d])
            else r == m[k]
  {
  }

  lemma SweepAgain(m: map<Key, Requesters>, a: set<Key>, b: set<Key>, c: Client)
    ensures SweepKeys(SweepKeys(m, a, c), b, c) == SweepKeys(m, a + b, c)
  {
    forall r: Requesters ensures Swept(Swept(r, c), c) == Swept(r, c) {
      var s := Swept(r, c);
      assert s.clients - {c} == s.clients;
      assert s.starting - {c} == s.starting && s.stopping - {c} == s.stopping;
    }
    var l, r := SweepKeys(SweepKeys(m, a, c), b, c), SweepKeys(m, a + b, c);
    forall k | k in m ensures l[k] == r[k] {
    }
  }

  lemma DistinctConcat<T>(a: seq<T>, b: seq<T>)
    requires Distinct(a) && Distinct(b) && forall x <- a :: x !in b
    ensures Distinct(a + b)
  {
    forall i, j | 0 <= i < |a| && 0 <= j < |b| ensures a[i] != b[j] {
      assert a[i] in a && b[j] in b;
    }
  }

  /** The sweep of one more phone. */
  lemma PhoneStep(m: map<Key, Requesters>, keys: set<Key>, phones: seq<nat>, i: nat, c: Client)
    requires i < |phones| && m.Keys == keys
    ensures var before, now := OfPhones(keys, phones[..i]), OfPhones(keys, [phones[i]]);
            var mid := SweepKeys(m, before, c);
            && SweepKeys(mid, now, c) == SweepKeys(m, OfPhones(keys, phones[..i + 1]), c)
            && (forall k :: StopDue(mid, k, [phones[i]], c) <==> StopDue(m, k, [phones[i]], c) && k !in before)
            && (forall k :: StopDue(m, k, phones[..i + 1], c) <==>
                  StopDue(m, k, phones[..i], c) || StopDue(mid, k, [phones[i]], c))
  {
    var before, now := OfPhones(keys, phones[..i]), OfPhones(keys, [phones[i]]);
    assert phones[..i + 1] == phones[..i] + [phones[i]];
    assert OfPhones(keys, phones[..i + 1]) == before + now;
    SweepAgain(m, before, now, c);
  }

  /** The table after a sequence of clients disconnect. */
  function AfterAll(m: map<Key, Requesters>, phones: seq<nat>, cs: seq<Client>): map<Key, Requesters> {
    if cs == [] then m
    else AfterAll(SweepKeys(m, OfPhones(m.Keys, phones), cs[0]), phones, cs[1..])
  }

  /** The disconnect callback drops a null session before it reaches the sweep, so no
      sequence of disconnects stops a profile that the service itself holds. */
  lemma {:induction false} NullHolderIsNeverStopped(m: map<Key, Requesters>, phones: seq<nat>,
                                                    cs: seq<Client>, k: Key, i: nat)
    requires k in m && NULL_CLIENT in m[k].clients && i < |cs|
    requires forall c <- cs :: c != NULL_CLIENT
    ensures k in AfterAll(m, phones, cs) && NULL_CLIENT in AfterAll(m, phones, cs)[k].clients
    ensures !StopDue(AfterAll(m, phones, cs[..i]), k, phones, cs[i])
    decreases |cs|
  {
    var t := SweepKeys(m, OfPhones(m.Keys, phones), cs[0]);
    assert cs[0] in cs && forall c <- cs[1..] :: c in cs;
    if i == 0 {
      assert NULL_CLIENT != cs[0];
    } else {
      assert cs[..i][1..] == cs[1..][..i - 1];
      NullHolderIsNeverStopped(t, phones, cs[1..], k, i - 1);
    }
    if i == 0 && |cs| > 1 {
      NullHolderIsNeverStopped(t, phones, cs[1..], k, 0);
    }
  }
}
