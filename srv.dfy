/** `resolveSrv`: one SRV query, one `resolveHost` per selected record, and a
    `pending` counter that calls back once every one of them has reported. */
module SrvResolution {
  import opened Types
  import opened Grouping
  import opened HostResolution

  /** What `cb` receives: `(error, addrs)`; `addrs` is `undefined` when the SRV
      query itself failed. */
  datatype SrvReply = SrvReply(error: Option<Error>, addrs: Option<seq<Address>>)

  /** How one `resolveSrv` call unfolds: the draws of `groupSrvRecords`, the
      schedule of each selected record's `resolveHost`, and the indices of the
      selected records whose resolution has called back so far, in order. */
  datatype SrvSchedule = SrvSchedule(groupDraws: seq<Draw>, hosts: seq<HostSchedule>, order: seq<nat>)

  ghost predicate ValidSrvSchedule(dns: Resolver, name: string, s: SrvSchedule)
  {
    dns.srv(name).Found? ==>
      var records := dns.srv(name).answers;
      var k := |Grouped(records)|;
      && |s.groupDraws| >= |records|
      && |s.hosts| >= k
      && (forall i :: 0 <= i < k ==> ValidOrder(s.hosts[i].order) && |s.hosts[i].order| == 2)
      && Distinct(s.order)
      && (forall t :: 0 <= t < |s.order| ==> s.order[t] < k)
  }

  /** `a.map(a1 => ({ name: a1, port: addr.port }))`. */
  function WithPort(names: seq<string>, port: int): (addrs: seq<Address>)
    ensures |addrs| == |names|
    ensures forall i :: 0 <= i < |names| ==> addrs[i] == Address(names[i], port)
    ensures forall a :: a in addrs ==> a.port == port && a.name in names
  {
    seq(|names|, i requires 0 <= i < |names| => Address(names[i], port))
  }

  /** For each selected record, the addresses its `resolveHost` hands to `cb1`,
      paired with the record's port. */
  function PerRecord(dns: Resolver, sel: seq<SrvRecord>, hosts: seq<HostSchedule>): seq<seq<Address>>
    requires |sel| <= |hosts|
    requires forall i :: 0 <= i < |sel| ==> ValidOrder(hosts[i].order) && |hosts[i].order| == 2
  {
    seq(|sel|, i requires 0 <= i < |sel| => WithPort(HostOutcome(dns, sel[i].name, hosts[i]).addrs, sel[i].port))
  }

  /** For each selected record, the error its `resolveHost` reports. */
  ghost function PerRecordErrors(dns: Resolver, sel: seq<SrvRecord>, hosts: seq<HostSchedule>): seq<Option<Error>>
    requires |sel| <= |hosts|
    requires forall i :: 0 <= i < |sel| ==> ValidOrder(hosts[i].order) && |hosts[i].order| == 2
  {
    seq(|sel|, i requires 0 <= i < |sel| => HostOutcome(dns, sel[i].name, hosts[i]).error)
  }

  /** `results` after the callbacks listed in `order` have run:
      `results = results.concat(addrs1)`, in callback order. */
  function Gathered(outs: seq<seq<Address>>, order: seq<nat>): (results: seq<Address>)
    requires forall t :: 0 <= t < |order| ==> order[t] < |outs|
    ensures forall a :: a in results ==> exists t :: 0 <= t < |order| && a in outs[order[t]]
    ensures forall t, a :: 0 <= t < |order| && a in outs[order[t]] ==> a in results
  {
    if order == [] then []
    else
      var front := order[..|order| - 1];
      var results := Gathered(outs, front) + outs[order[|order| - 1]];
      assert forall a :: a in Gathered(outs, front) ==> exists t :: 0 <= t < |order| && a in outs[order[t]] by {
        forall a | a in Gathered(outs, front)
          ensures exists t :: 0 <= t < |order| && a in outs[order[t]]
        {
          var t :| 0 <= t < |front| && a in outs[front[t]];
          assert front[t] == order[t];
        }
      }
      assert forall t, a :: 0 <= t < |order| && a in outs[order[t]] ==> a in results by {
        forall t, a | 0 <= t < |order| && a in outs[order[t]]
          ensures a in results
        {
          if t < |front| {
            assert front[t] == order[t];
          }
        }
      }
      results
  }

  /** `error` after the callbacks in `order` have run, starting from `start`:
      the first error any of them reported, in callback order. */
  function Accumulated(start: Option<Error>, errors: seq<Option<Error>>, order: seq<nat>): (e: Option<Error>)
    requires forall t :: 0 <= t < |order| ==> order[t] < |errors|
    ensures e == None <==> start == None && forall t :: 0 <= t < |order| ==> errors[order[t]] == None
  {
    if order == [] then start
    else
      var front := order[..|order| - 1];
      assert forall t :: 0 <= t < |front| ==> front[t] == order[t];
      FirstError(Accumulated(start, errors, front), errors[order[|order| - 1]])
  }

  /** The calls `resolveSrv(name, cb)` makes to `cb`. */
  function SrvOutcome(dns: Resolver, name: string, s: SrvSchedule): (replies: seq<SrvReply>)
    requires ValidSrvSchedule(dns, name, s)
    ensures |replies| <= 1 && (dns.srv(name).Failed? ==> |replies| == 1)
    ensures forall r :: r in replies ==> (r.error.Some? <==> dns.srv(name).Failed?) && (r.addrs.None? <==> dns.srv(name).Failed?)
  {
    match dns.srv(name)
    case Failed(e) => [SrvReply(Some(e), None)]
    case Found(records) =>
      var sel := Grouped(records);
      if 0 < |sel| == |s.order| then [SrvReply(None, Some(Gathered(PerRecord(dns, sel, s.hosts), s.order)))]
      else []
  }

  /** The closure state of the join in `resolveSrv`. */
  class SrvJoin {
    var pending: int
    var error: Option<Error>
    var results: seq<Address>
    var replies: seq<SrvReply>

    constructor ()
      ensures pending == 0 && error == None && results == [] && replies == []
    {
      pending, error, results, replies := 0, None, [], [];
    }

    /** `pending++` after one `resolveHost` is issued. */
    method Issue()
      modifies this
      ensures pending == old(pending) + 1
      ensures error == old(error) && results == old(results) && replies == old(replies)
    {
      pending := pending + 1;
    }

    /** `cb1(e, addrs1)`: one record's host resolution has reported. The
        accumulated `error` never reaches `cb`: `results` is an array, and an
        array is always truthy. */
    method Complete(e: Option<Error>, addrs: seq<Address>)
      modifies this
      ensures error == FirstError(old(error), e)
      ensures results == old(results) + addrs
      ensures pending == old(pending) - 1
      ensures replies == old(replies) + if pending < 1 then [SrvReply(None, Some(results))] else []
    {
      error := FirstError(error, e);
      results := results + addrs;
      pending := pending - 1;
      if pending < 1 {
        replies := replies + [SrvReply(None, Some(results))];
      }
    }
  }

  /** The `forEach` of lines 59-69: one `resolveHost` per selected record,
      each counted in `pending`. `lists[i]` is what the i-th resolution hands
      to `cb1`, once it has reported, and `errors[i]` the error with it. */
  method IssueAll(dns: Resolver, sel: seq<SrvRecord>, hosts: seq<HostSchedule>, join: SrvJoin)
    returns (lists: seq<seq<Address>>, errors: seq<Option<Error>>)
    requires |sel| <= |hosts|
    requires forall i :: 0 <= i < |sel| ==> ValidOrder(hosts[i].order) && |hosts[i].order| == 2
    modifies join
    ensures lists == PerRecord(dns, sel, hosts)
    ensures |errors| == |sel| && forall i :: 0 <= i < |sel| ==> errors[i] == HostOutcome(dns, sel[i].name, hosts[i]).error
    ensures join.pending == old(join.pending) + |sel|
    ensures join.error == old(join.error) && join.results == old(join.results) && join.replies == old(join.replies)
  {
    lists, errors := [], [];
    for i := 0 to |sel|
      invariant lists == PerRecord(dns, sel[..i], hosts)
      invariant errors == PerRecordErrors(dns, sel[..i], hosts)
      invariant join.pending == old(join.pending) + i
      invariant join.error == old(join.error) && join.results == old(join.results) && join.replies == old(join.replies)
    {
      var r := ResolveHost(dns, sel[i].name, hosts[i]);
      lists := lists + [WithPort(r[0].addrs, sel[i].port)];
      errors := errors + [r[0].error];
      join.Issue();
      assert sel[..i + 1][..i] == sel[..i];
    }
    assert sel[..|sel|] == sel;
  }

  /** The callbacks of the issued resolutions firing in `order`, each at
      most once. */
  method CompleteAll(join: SrvJoin, lists: seq<seq<Address>>, errors: seq<Option<Error>>, order: seq<nat>)
    requires join.pending == |lists| == |errors| && join.results == [] && join.replies == []
    requires Distinct(order)
    requires forall t :: 0 <= t < |order| ==> order[t] < |lists|
    modifies join
    ensures join.pending == |lists| - |order|
    ensures join.results == Gathered(lists, order)
    ensures join.error == Accumulated(old(join.error), errors, order)
    ensures join.replies == if 0 < |order| == |lists| then [SrvReply(None, Some(Gathered(lists, order)))] else []
    ensures join.replies != [] ==> forall i :: 0 <= i < |lists| ==> i in order
  {
    DistinctBelow(order, |lists|);
    ghost var start := join.error;
    for t := 0 to |order|
      invariant join.pending == |lists| - t
      invariant join.results == Gathered(lists, order[..t])
      invariant join.error == Accumulated(start, errors, order[..t])
      invariant join.replies == if 0 < t == |lists| then [SrvReply(None, Some(join.results))] else []
    {
      assert order[..t + 1][..t] == order[..t];
      join.Complete(errors[order[t]], lists[order[t]]);
    }
    assert order[..|order|] == order;
    if |order| == |lists| {
      DistinctCovers(order, |lists|);
    }
  }

  /** `resolveSrv(name, cb)`. A failed SRV query passes its error on; a
      successful one calls back exactly once, with a null error, after every
      selected record's resolution has reported, and never when nothing was
      selected. */
  method ResolveSrv(dns: Resolver, name: string, s: SrvSchedule) returns (replies: seq<SrvReply>)
    requires ValidSrvSchedule(dns, name, s)
    ensures replies == SrvOutcome(dns, name, s)
    ensures dns.srv(name).Failed? ==> replies == [SrvReply(Some(dns.srv(name).error), None)]
    ensures dns.srv(name).Found? ==>
      |replies| == (if 0 < |Grouped(dns.srv(name).answers)| == |s.order| then 1 else 0)
    ensures dns.srv(name).Found? ==> forall r :: r in replies ==> r.error == None && r.addrs.Some?
    ensures dns.srv(name).Found? && replies != [] ==>
      forall i :: 0 <= i < |Grouped(dns.srv(name).answers)| ==> i in s.order
  {
    match dns.srv(name) {
      case Failed(err) =>
        replies := [SrvReply(Some(err), None)];
      case Found(records) =>
        var selected := GroupSrvRecords(records, s.groupDraws);
        var join := new SrvJoin();
        var lists, errors := IssueAll(dns, selected, s.hosts, join);
        CompleteAll(join, lists, errors, s.order);
        replies := join.replies;
    }
  }

  /** An SRV answer with no records selects nothing: `pending` stays 0 and
      `cb` is never called. */
  lemma EmptyAnswerNeverCallsBack(dns: Resolver, name: string, s: SrvSchedule)
    requires ValidSrvSchedule(dns, name, s)
    requires dns.srv(name) == Found([])
    ensures SrvOutcome(dns, name, s) == []
  {
    assert |Grouped([])| == 0;
  }

  /** Every address handed back carries the port of the record whose target
      it was resolved from. */
  lemma {:induction false} GatheredCarriesRecordPorts(dns: Resolver, sel: seq<SrvRecord>, hosts: seq<HostSchedule>, order: seq<nat>)
    requires |sel| <= |hosts|
    requires forall i :: 0 <= i < |sel| ==> ValidOrder(hosts[i].order) && |hosts[i].order| == 2
    requires forall t :: 0 <= t < |order| ==> order[t] < |sel|
    ensures forall a :: a in Gathered(PerRecord(dns, sel, hosts), order) ==>
      exists i :: 0 <= i < |sel| && a.port == sel[i].port && a.name in HostOutcome(dns, sel[i].name, hosts[i]).addrs
  {
    var outs := PerRecord(dns, sel, hosts);
    if order != [] {
      var front := order[..|order| - 1];
      var i := order[|order| - 1];
      GatheredCarriesRecordPorts(dns, sel, hosts, front);
      forall a: Address | a in outs[i]
        ensures a.port == sel[i].port && a.name in HostOutcome(dns, sel[i].name, hosts[i]).addrs
      {
        var k :| 0 <= k < |outs[i]| && outs[i][k] == a;
      }
    }
  }

  /** No address is lost on the way to `cb`: every address the target of a
      record that has called back resolved to is handed back, paired with
      that record's port. */
  lemma GatheredKeepsHostAddresses(dns: Resolver, sel: seq<SrvRecord>, hosts: seq<HostSchedule>, order: seq<nat>, t: nat)
    requires |sel| <= |hosts|
    requires forall i :: 0 <= i < |sel| ==> ValidOrder(hosts[i].order) && |hosts[i].order| == 2
    requires forall u :: 0 <= u < |order| ==> order[u] < |sel|
    requires t < |order|
    ensures forall name :: name in HostOutcome(dns, sel[order[t]].name, hosts[order[t]]).addrs ==>
      Address(name, sel[order[t]].port) in Gathered(PerRecord(dns, sel, hosts), order)
  {
    var outs := PerRecord(dns, sel, hosts);
    var i := order[t];
    var names := HostOutcome(dns, sel[i].name, hosts[i]).addrs;
    forall name | name in names
      ensures Address(name, sel[i].port) in Gathered(outs, order)
    {
      var k :| 0 <= k < |names| && names[k] == name;
      assert outs[i][k] == Address(name, sel[i].port);
    }
  }

  /** The concatenation of per-record lists in priority order. */
  function Flatten(outs: seq<seq<Address>>): seq<Address>
  {
    if outs == [] then [] else Flatten(outs[..|outs| - 1]) + outs[|outs| - 1]
  }

  /** The first `n` indices, in order. */
  function Upto(n: nat): (r: seq<nat>)
    ensures |r| == n && forall t :: 0 <= t < n ==> r[t] == t
  {
    if n == 0 then [] else Upto(n - 1) + [n - 1]
  }

  /** Only when the resolutions report in priority order do the addresses come
      out in priority order; in general they follow callback order. */
  lemma {:induction false} GatheredInPriorityOrder(outs: seq<seq<Address>>, n: nat)
    requires n <= |outs|
    ensures Gathered(outs, Upto(n)) == Flatten(outs[..n])
  {
    if n > 0 {
      assert Upto(n)[..n - 1] == Upto(n - 1);
      assert outs[..n][..n - 1] == outs[..n - 1];
      GatheredInPriorityOrder(outs, n - 1);
    }
  }
}
