/** `connect(socket, services, domain, defaultPort)`: shift service labels off
    in order and try `label.domain` by SRV; the first SRV answer goes to
    `tryConnect`; an empty label or the end of the list switches to resolving
    `domain` itself, with every address on `defaultPort`. */
module ServiceConnect {
  import opened Types
  import opened HostResolution
  import opened SrvResolution
  import opened ConnectionCascade

  /** How one `connect` call unfolds: the schedule of the SRV resolution of
      the i-th label, the schedule of the fallback `resolveHost(domain)`, and
      what the socket reports for each connection attempt. */
  datatype ConnectSchedule = ConnectSchedule(srv: seq<SrvSchedule>, fallback: HostSchedule, outcomes: seq<ConnectResult>)

  /** What one `connect` call does: the SRV names it queries, in order;
      whether it resolves `domain` directly; the labels left in the caller's
      `services` array; the addresses handed to `socket.connect`; and the
      events the returned listener emits. */
  datatype Trace = Trace(queries: seq<string>, fellBack: bool, remaining: seq<string>, attempts: seq<Address>, events: seq<Event>)

  ghost predicate ValidConnectSchedule(dns: Resolver, services: seq<string>, domain: string, s: ConnectSchedule)
  {
    && |s.srv| >= |services|
    && (forall i :: 0 <= i < |services| ==> ValidSrvSchedule(dns, QueryName(services[i], domain), s.srv[i]))
    && ValidOrder(s.fallback.order)
  }

  /** The SRV name queried for `service`: `service + '.' + domain`. */
  function QueryName(service: string, domain: string): string
  {
    service + "." + domain
  }

  /** `label.domain` for each label. */
  function QueryNames(labels: seq<string>, domain: string): (names: seq<string>)
    ensures |names| == |labels|
    ensures forall k :: 0 <= k < |labels| ==> names[k] == QueryName(labels[k], domain)
  {
    if labels == [] then [] else [QueryName(labels[0], domain)] + QueryNames(labels[1..], domain)
  }

  /** The trace of `t`, preceded by the SRV queries `names`. */
  function AfterQueries(names: seq<string>, t: Trace): Trace
  {
    t.(queries := names + t.queries)
  }

  /** The `resolveHost(domain, …)` branch, entered with `remaining` left in
      `services`. */
  function FallbackRun(dns: Resolver, domain: string, port: int, s: ConnectSchedule, remaining: seq<string>): (t: Trace)
    requires ValidOrder(s.fallback.order)
    ensures t.fellBack && t.queries == [] && t.remaining == remaining
    ensures |s.fallback.order| < 2 ==> t.attempts == [] && t.events == []
    ensures t.attempts != [] ==> |s.fallback.order| == 2
    ensures t.attempts != [] ==>
      forall a :: a in t.attempts ==> a.port == port && a.name in HostOutcome(dns, domain, s.fallback).addrs
  {
    if |s.fallback.order| < 2 then Trace([], true, remaining, [], [])
    else
      var r := HostOutcome(dns, domain, s.fallback);
      if |r.addrs| > 0 then
        var c := Run(WithPort(r.addrs, port), s.outcomes, None);
        Trace([], true, remaining, c.attempts, c.events)
      else Trace([], true, remaining, [], [ErrorEvent(r.error)])
  }

  /** What one nonempty label leads to: `Next` when its SRV query fails and
      `tryServices` moves on; otherwise `Stop`, with the socket's attempts and
      the listener's events (none at all when `resolveSrv` never calls back). */
  datatype LabelResult = Next | Stop(attempts: seq<Address>, events: seq<Event>)

  function LabelRun(dns: Resolver, name: string, ss: SrvSchedule, outcomes: seq<ConnectResult>): (r: LabelResult)
    requires ValidSrvSchedule(dns, name, ss)
    ensures r == Next <==> dns.srv(name).Failed?
  {
    var replies := SrvOutcome(dns, name, ss);
    if replies == [] then Stop([], [])
    else match replies[0].addrs
      case Some(addrs) =>
        var c := Run(addrs, outcomes, None);
        Stop(c.attempts, c.events)
      case None => Next
  }

  /** The labels left in the array are a suffix of `services` that starts
      after the last label queried from position `i` on. */
  ghost predicate LeftAfterQueries(services: seq<string>, i: nat, t: Trace)
  {
    exists j :: i + |t.queries| <= j <= |services| && t.remaining == services[j..]
  }

  /** `tryServices()` once the first `i` labels have been shifted off, each of
      them nonempty with an SRV query that failed. */
  function ServicesRun(dns: Resolver, services: seq<string>, domain: string, port: int, s: ConnectSchedule, i: nat): (t: Trace)
    requires ValidConnectSchedule(dns, services, domain, s)
    requires i <= |services|
    ensures |t.queries| + |t.remaining| <= |services| - i
    ensures LeftAfterQueries(services, i, t)
    decreases |services| - i
  {
    if i == |services| then
      assert services[|services|..] == [];
      FallbackRun(dns, domain, port, s, [])
    else if services[i] == "" then FallbackRun(dns, domain, port, s, services[i + 1..])
    else
      var name := QueryName(services[i], domain);
      match LabelRun(dns, name, s.srv[i], s.outcomes)
      case Stop(attempts, events) => Trace([name], false, services[i + 1..], attempts, events)
      case Next => AfterQueries([name], ServicesRun(dns, services, domain, port, s, i + 1))
  }

  /** The state `connect` keeps: the caller's `services` array, which it
      consumes, and the listener's emitted events. */
  class Connector {
    var services: seq<string>
    var events: seq<Event>

    constructor (services: seq<string>)
      ensures this.services == services && events == []
    {
      this.services := services;
      events := [];
    }

    /** `services.shift()`; `None` stands for `undefined`. */
    method Shift() returns (service: Option<string>)
      modifies this
      ensures old(services) == [] ==> service == None && services == []
      ensures old(services) != [] ==> service == Some(old(services)[0]) && services == old(services)[1..]
      ensures events == old(events)
    {
      if services == [] {
        service := None;
      } else {
        service := Some(services[0]);
        services := services[1..];
      }
    }

    /** `listener.emit(…)`, directly or from within `tryConnect`. */
    method Emit(es: seq<Event>)
      modifies this
      ensures events == old(events) + es && services == old(services)
    {
      events := events + es;
    }
  }

  /** The fallback branch of `tryServices`. */
  method Fallback(dns: Resolver, domain: string, port: int, s: ConnectSchedule) returns (attempts: seq<Address>, events: seq<Event>)
    requires ValidOrder(s.fallback.order)
    ensures var t := FallbackRun(dns, domain, port, s, []); attempts == t.attempts && events == t.events
  {
    var replies := ResolveHost(dns, domain, s.fallback);
    if replies == [] {
      attempts, events := [], [];
    } else if |replies[0].addrs| > 0 {
      var c := TryConnect(WithPort(replies[0].addrs, port), s.outcomes);
      attempts, events := c.attempts, c.events;
    } else {
      attempts, events := [], [ErrorEvent(replies[0].error)];
    }
  }

  /** The `resolveSrv(service + '.' + domain, …)` branch of `tryServices`,
      up to the point where it either calls `tryServices` again or ends. */
  method TryLabel(dns: Resolver, name: string, ss: SrvSchedule, outcomes: seq<ConnectResult>) returns (r: LabelResult)
    requires ValidSrvSchedule(dns, name, ss)
    ensures r == LabelRun(dns, name, ss, outcomes)
  {
    var replies := ResolveSrv(dns, name, ss);
    if replies == [] {
      r := Stop([], []);
    } else if replies[0].addrs.Some? {
      var cascade := TryConnect(replies[0].addrs.value, outcomes);
      r := Stop(cascade.attempts, cascade.events);
    } else {
      r := Next;
    }
  }

  /** `connect(socket, services, domain, defaultPort)`. */
  method Connect(dns: Resolver, services: seq<string>, domain: string, port: int, s: ConnectSchedule) returns (t: Trace)
    requires ValidConnectSchedule(dns, services, domain, s)
    ensures t == ServicesRun(dns, services, domain, port, s, 0)
  {
    var c := new Connector(services);
    var queries: seq<string> := [];
    var fellBack := false;
    var attempts: seq<Address> := [];
    var i := 0;
    var done := false;
    AfterNoQueries(ServicesRun(dns, services, domain, port, s, 0));
    while !done
      invariant 0 <= i <= |services|
      invariant !done ==> !fellBack && attempts == [] && c.services == services[i..] && c.events == [] && queries == QueryNames(services[..i], domain)
      invariant !done ==> ServicesRun(dns, services, domain, port, s, 0) == AfterQueries(queries, ServicesRun(dns, services, domain, port, s, i))
      invariant done ==> ServicesRun(dns, services, domain, port, s, 0) == Trace(queries, fellBack, c.services, attempts, c.events)
      decreases |services| - i, if done then 0 else 1
    {
      var service := c.Shift();
      if service.Some? && service.value != "" {
        var name := QueryName(service.value, domain);
        var r := TryLabel(dns, name, s.srv[i], s.outcomes);
        if r.Stop? {
          LabelStopped(dns, services, domain, port, s, i, queries);
          queries := queries + [name];
          attempts := r.attempts;
          c.Emit(r.events);
          done := true;
        } else {
          LabelMovedOn(dns, services, domain, port, s, i, queries);
          queries := queries + [name];
          i := i + 1;
        }
      } else {
        var evs;
        attempts, evs := Fallback(dns, domain, port, s);
        FellBack(dns, services, domain, port, s, i, queries);
        fellBack := true;
        c.Emit(evs);
        done := true;
      }
    }
    t := Trace(queries, fellBack, c.services, attempts, c.events);
  }

  /** The loop of `Connect` after a label whose SRV query failed. */
  lemma LabelMovedOn(dns: Resolver, services: seq<string>, domain: string, port: int, s: ConnectSchedule, i: nat, queries: seq<string>)
    requires ValidConnectSchedule(dns, services, domain, s)
    requires i < |services| && services[i] != ""
    requires LabelRun(dns, QueryName(services[i], domain), s.srv[i], s.outcomes) == Next
    requires queries == QueryNames(services[..i], domain)
    requires ServicesRun(dns, services, domain, port, s, 0) == AfterQueries(queries, ServicesRun(dns, services, domain, port, s, i))
    ensures queries + [QueryName(services[i], domain)] == QueryNames(services[..i + 1], domain)
    ensures ServicesRun(dns, services, domain, port, s, 0) ==
      AfterQueries(queries + [QueryName(services[i], domain)], ServicesRun(dns, services, domain, port, s, i + 1))
  {
    LabelStep(dns, services, domain, port, s, i);
    QueryNamesStep(services, domain, i);
    AfterQueriesAppend(queries, [QueryName(services[i], domain)], ServicesRun(dns, services, domain, port, s, i + 1));
  }

  /** The loop of `Connect` after a label whose SRV query decided the run. */
  lemma LabelStopped(dns: Resolver, services: seq<string>, domain: string, port: int, s: ConnectSchedule, i: nat, queries: seq<string>)
    requires ValidConnectSchedule(dns, services, domain, s)
    requires i < |services| && services[i] != ""
    requires LabelRun(dns, QueryName(services[i], domain), s.srv[i], s.outcomes).Stop?
    requires ServicesRun(dns, services, domain, port, s, 0) == AfterQueries(queries, ServicesRun(dns, services, domain, port, s, i))
    ensures var r := LabelRun(dns, QueryName(services[i], domain), s.srv[i], s.outcomes);
      ServicesRun(dns, services, domain, port, s, 0) ==
        Trace(queries + [QueryName(services[i], domain)], false, services[i + 1..], r.attempts, r.events)
  {
    LabelStep(dns, services, domain, port, s, i);
  }

  /** The loop of `Connect` once it turns to `resolveHost(domain)`. */
  lemma FellBack(dns: Resolver, services: seq<string>, domain: string, port: int, s: ConnectSchedule, i: nat, queries: seq<string>)
    requires ValidConnectSchedule(dns, services, domain, s)
    requires i == |services| || (i < |services| && services[i] == "")
    requires ServicesRun(dns, services, domain, port, s, 0) == AfterQueries(queries, ServicesRun(dns, services, domain, port, s, i))
    ensures var f := FallbackRun(dns, domain, port, s, []);
      ServicesRun(dns, services, domain, port, s, 0) ==
        Trace(queries, true, if i == |services| then [] else services[i + 1..], f.attempts, f.events)
  {
    FallbackStep(dns, services, domain, port, s, i);
  }

  lemma LabelStep(dns: Resolver, services: seq<string>, domain: string, port: int, s: ConnectSchedule, i: nat)
    requires ValidConnectSchedule(dns, services, domain, s)
    requires i < |services| && services[i] != ""
    ensures var name := QueryName(services[i], domain);
      ServicesRun(dns, services, domain, port, s, i) ==
        match LabelRun(dns, name, s.srv[i], s.outcomes)
        case Stop(attempts, events) => Trace([name], false, services[i + 1..], attempts, events)
        case Next => AfterQueries([name], ServicesRun(dns, services, domain, port, s, i + 1))
  {
  }

  lemma FallbackStep(dns: Resolver, services: seq<string>, domain: string, port: int, s: ConnectSchedule, i: nat)
    requires ValidConnectSchedule(dns, services, domain, s)
    requires i == |services| || (i < |services| && services[i] == "")
    ensures ServicesRun(dns, services, domain, port, s, i) ==
      FallbackRun(dns, domain, port, s, []).(remaining := if i == |services| then [] else services[i + 1..])
  {
  }

  lemma AfterNoQueries(t: Trace)
    ensures AfterQueries([], t) == t
  {
  }

  lemma AfterQueriesAppend(names: seq<string>, more: seq<string>, t: Trace)
    ensures AfterQueries(names, AfterQueries(more, t)) == AfterQueries(names + more, t)
  {
    assert names + (more + t.queries) == names + more + t.queries;
  }

  lemma QueryNamesStep(services: seq<string>, domain: string, i: nat)
    requires i < |services|
    ensures QueryNames(services[..i + 1], domain) == QueryNames(services[..i], domain) + [QueryName(services[i], domain)]
  {
  }

  /** Labels whose SRV query fails are passed over, in order, each queried
      once. */
  lemma {:induction false} FailedLabelsSkipped(dns: Resolver, services: seq<string>, domain: string, port: int, s: ConnectSchedule, i: nat, j: nat)
    requires ValidConnectSchedule(dns, services, domain, s)
    requires i <= j <= |services|
    requires forall k :: i <= k < j ==> services[k] != "" && dns.srv(QueryName(services[k], domain)).Failed?
    ensures ServicesRun(dns, services, domain, port, s, i) ==
      AfterQueries(QueryNames(services[i..j], domain), ServicesRun(dns, services, domain, port, s, j))
    decreases j - i
  {
    if i < j {
      var name := QueryName(services[i], domain);
      FailedLabelsSkipped(dns, services, domain, port, s, i + 1, j);
      LabelStep(dns, services, domain, port, s, i);
      FailedLabelMovesOn(dns, name, s.srv[i], s.outcomes);
      assert services[i..j][1..] == services[i + 1..j];
      AfterQueriesAppend([name], QueryNames(services[i + 1..j], domain), ServicesRun(dns, services, domain, port, s, j));
    } else {
      AfterNoQueries(ServicesRun(dns, services, domain, port, s, j));
    }
  }

  /** `names` are the SRV names of the labels from position `i` on, in order. */
  ghost predicate NamesFrom(names: seq<string>, services: seq<string>, i: nat, domain: string)
    decreases |names|
  {
    names == [] ||
    (i < |services| && names[0] == QueryName(services[i], domain) && NamesFrom(names[1..], services, i + 1, domain))
  }

  lemma NamesFromCons(names: seq<string>, services: seq<string>, i: nat, domain: string)
    requires i < |services| && NamesFrom(names, services, i + 1, domain)
    ensures NamesFrom([QueryName(services[i], domain)] + names, services, i, domain)
  {
    assert ([QueryName(services[i], domain)] + names)[1..] == names;
  }

  /** The SRV names queried are the labels from position `i` on, in order,
      each followed by a dot and the domain. */
  lemma {:induction false} QueriedInOrder(dns: Resolver, services: seq<string>, domain: string, port: int, s: ConnectSchedule, i: nat)
    requires ValidConnectSchedule(dns, services, domain, s)
    requires i <= |services|
    ensures NamesFrom(ServicesRun(dns, services, domain, port, s, i).queries, services, i, domain)
    decreases |services| - i
  {
    var t := ServicesRun(dns, services, domain, port, s, i);
    if i == |services| || services[i] == "" {
      FallbackStep(dns, services, domain, port, s, i);
    } else {
      var name := QueryName(services[i], domain);
      LabelStep(dns, services, domain, port, s, i);
      if LabelRun(dns, name, s.srv[i], s.outcomes) == Next {
        var rest := ServicesRun(dns, services, domain, port, s, i + 1);
        QueriedInOrder(dns, services, domain, port, s, i + 1);
        NamesFromCons(rest.queries, services, i, domain);
      } else {
        NamesFromCons([], services, i, domain);
      }
    }
  }

  lemma FailedLabelMovesOn(dns: Resolver, name: string, ss: SrvSchedule, outcomes: seq<ConnectResult>)
    requires ValidSrvSchedule(dns, name, ss)
    requires dns.srv(name).Failed?
    ensures LabelRun(dns, name, ss, outcomes) == Next
  {
  }

  /** Whatever happens, the listener emits at most one event, and the only
      addresses dialled are the front of one address list. */
  lemma {:induction false} AtMostOneEvent(dns: Resolver, services: seq<string>, domain: string, port: int, s: ConnectSchedule, i: nat)
    requires ValidConnectSchedule(dns, services, domain, s)
    requires i <= |services|
    ensures |ServicesRun(dns, services, domain, port, s, i).events| <= 1
    decreases |services| - i
  {
    if |s.fallback.order| == 2 {
      var h := HostOutcome(dns, domain, s.fallback);
      RunInOrder(WithPort(h.addrs, port), s.outcomes, None);
    }
    if i < |services| && services[i] != "" {
      var replies := SrvOutcome(dns, QueryName(services[i], domain), s.srv[i]);
      if replies != [] && replies[0].addrs.Some? {
        RunInOrder(replies[0].addrs.value, s.outcomes, None);
      } else if replies != [] {
        AtMostOneEvent(dns, services, domain, port, s, i + 1);
      }
    }
  }

  /** The first label whose SRV query answers with an address list decides:
      its list goes to `tryConnect`, later labels stay in `services`
      unqueried, and `domain` is never resolved directly, even when the list
      is empty, in which case `error` is emitted with no error value. */
  lemma FirstAnswerDecides(dns: Resolver, services: seq<string>, domain: string, port: int, s: ConnectSchedule, k: nat)
    requires ValidConnectSchedule(dns, services, domain, s)
    requires k < |services|
    requires forall j :: 0 <= j < k ==> services[j] != "" && dns.srv(QueryName(services[j], domain)).Failed?
    requires services[k] != "" && dns.srv(QueryName(services[k], domain)).Found?
    requires SrvOutcome(dns, QueryName(services[k], domain), s.srv[k]) != []
    ensures var addrs := SrvOutcome(dns, QueryName(services[k], domain), s.srv[k])[0].addrs;
      var t := ServicesRun(dns, services, domain, port, s, 0);
      && addrs.Some?
      && t.queries == QueryNames(services[..k + 1], domain)
      && !t.fellBack
      && t.remaining == services[k + 1..]
      && t.attempts == Run(addrs.value, s.outcomes, None).attempts
      && t.events == Run(addrs.value, s.outcomes, None).events
      && (addrs.value == [] ==> t.attempts == [] && t.events == [ErrorEvent(None)])
  {
    FailedLabelsSkipped(dns, services, domain, port, s, 0, k);
    LabelStep(dns, services, domain, port, s, k);
    assert services[0..k] == services[..k];
    QueryNamesStep(services, domain, k);
  }

  /** When every label is nonempty and its SRV query fails, each one is
      queried in order, `services` ends up empty, and `domain` is resolved with
      every address on the default port. */
  lemma AllLabelsFail(dns: Resolver, services: seq<string>, domain: string, port: int, s: ConnectSchedule)
    requires ValidConnectSchedule(dns, services, domain, s)
    requires forall j :: 0 <= j < |services| ==> services[j] != "" && dns.srv(QueryName(services[j], domain)).Failed?
    ensures var t := ServicesRun(dns, services, domain, port, s, 0);
      && t.queries == QueryNames(services, domain)
      && t.fellBack
      && t.remaining == []
      && t.attempts == FallbackRun(dns, domain, port, s, []).attempts
      && t.events == FallbackRun(dns, domain, port, s, []).events
      && (|s.fallback.order| == 2 && |HostOutcome(dns, domain, s.fallback).addrs| > 0 ==>
            t.attempts == Run(WithPort(HostOutcome(dns, domain, s.fallback).addrs, port), s.outcomes, None).attempts &&
            t.events == Run(WithPort(HostOutcome(dns, domain, s.fallback).addrs, port), s.outcomes, None).events)
      && (|s.fallback.order| == 2 && |HostOutcome(dns, domain, s.fallback).addrs| == 0 ==>
            t.attempts == [] && t.events == [ErrorEvent(HostOutcome(dns, domain, s.fallback).error)])
  {
    FailedLabelsSkipped(dns, services, domain, port, s, 0, |services|);
    assert services[0..|services|] == services;
    FallbackStep(dns, services, domain, port, s, |services|);
  }

  /** An empty label stops the SRV tier: `domain` is resolved directly and
      its addresses are dialled on the default port, exactly as when the list
      runs out, while the labels after it are left in `services`, never
      queried. */
  lemma EmptyLabelFallsBack(dns: Resolver, services: seq<string>, domain: string, port: int, s: ConnectSchedule, k: nat)
    requires ValidConnectSchedule(dns, services, domain, s)
    requires k < |services| && services[k] == ""
    requires forall j :: 0 <= j < k ==> services[j] != "" && dns.srv(QueryName(services[j], domain)).Failed?
    ensures var t := ServicesRun(dns, services, domain, port, s, 0);
      && t.queries == QueryNames(services[..k], domain)
      && t.fellBack
      && t.remaining == services[k + 1..]
      && t.attempts == FallbackRun(dns, domain, port, s, []).attempts
      && t.events == FallbackRun(dns, domain, port, s, []).events
  {
    FailedLabelsSkipped(dns, services, domain, port, s, 0, k);
    assert services[0..k] == services[..k];
    FallbackStep(dns, services, domain, port, s, k);
  }

  /** An SRV answer with no records leaves `connect` waiting for ever: no
      address is dialled, no event is emitted, and the fallback never runs. */
  lemma EmptySrvAnswerStalls(dns: Resolver, services: seq<string>, domain: string, port: int, s: ConnectSchedule, k: nat)
    requires ValidConnectSchedule(dns, services, domain, s)
    requires k < |services| && services[k] != "" && dns.srv(QueryName(services[k], domain)) == Found([])
    requires forall j :: 0 <= j < k ==> services[j] != "" && dns.srv(QueryName(services[j], domain)).Failed?
    ensures var t := ServicesRun(dns, services, domain, port, s, 0);
      && t.queries == QueryNames(services[..k + 1], domain)
      && !t.fellBack && t.attempts == [] && t.events == []
  {
    FailedLabelsSkipped(dns, services, domain, port, s, 0, k);
    assert services[0..k] == services[..k];
    QueryNamesStep(services, domain, k);
    EmptyAnswerNeverCallsBack(dns, QueryName(services[k], domain), s.srv[k]);
  }

  /** With one label `svcA` whose SRV query fails, a domain whose A lookup
      answers `10.0.0.5` and whose AAAA lookup gives nothing, and default port
      5222, the first address dialled is `10.0.0.5` on port 5222. */
  lemma FallbackExample(dns: Resolver, domain: string, s: ConnectSchedule)
    requires ValidConnectSchedule(dns, ["svcA"], domain, s)
    requires dns.srv("svcA." + domain).Failed?
    requires |s.fallback.order| == 2
    requires dns.v4(domain) == Found(["10.0.0.5"]) && Answers(dns.v6(domain)) == []
    ensures var t := ServicesRun(dns, ["svcA"], domain, 5222, s, 0);
      && t.fellBack
      && t.queries == ["svcA." + domain]
      && t.attempts == [Address("10.0.0.5", 5222)]
      && (s.outcomes != [] && s.outcomes[0] == Connected ==> t.events == [ConnectEvent])
  {
    var services := ["svcA"];
    assert QueryName(services[0], domain) == "svcA." + domain by {
      assert services[0] + "." == "svcA.";
    }
    assert |services[0]| == 4;
    AllLabelsFail(dns, services, domain, 5222, s);
    ExampleHostOutcome(dns, domain, s.fallback);
    ExampleCascade(s.outcomes);
  }

  lemma ExampleCascade(outcomes: seq<ConnectResult>)
    ensures var c := Run(WithPort(["10.0.0.5"], 5222), outcomes, None);
      && c.attempts == [Address("10.0.0.5", 5222)]
      && (outcomes != [] && outcomes[0] == Connected ==> c.events == [ConnectEvent])
  {
    var addrs := WithPort(["10.0.0.5"], 5222);
    assert addrs == [Address("10.0.0.5", 5222)];
    assert addrs[1..] == [];
  }

  lemma ExampleHostOutcome(dns: Resolver, domain: string, hs: HostSchedule)
    requires ValidOrder(hs.order) && |hs.order| == 2
    requires dns.v4(domain) == Found(["10.0.0.5"]) && Answers(dns.v6(domain)) == []
    ensures HostOutcome(dns, domain, hs).addrs == ["10.0.0.5"]
  {
    assert Picked(dns.v4(domain), hs.drawV4) == ["10.0.0.5"];
    assert Picked(dns.v6(domain), hs.drawV6) == [];
    assert {hs.order[0], hs.order[1]} == {V4, V6};
  }
}
