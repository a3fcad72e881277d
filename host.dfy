/** `resolveHost`: look up the A and the AAAA records of a name at the same
    time, keep one address of each family, and call back once both lookups
    have reported. */
module HostResolution {
  import opened Types

  /** The families whose callbacks have fired so far, in firing order. Each
      lookup calls back at most once. */
  predicate ValidOrder(order: seq<Family>)
  {
    |order| <= 2 && (|order| == 2 ==> order[0] != order[1])
  }

  /** How one `resolveHost` call unfolds: which callbacks have fired, in which
      order, and the `Math.random()` value each callback draws. */
  datatype HostSchedule = HostSchedule(order: seq<Family>, drawV4: Draw, drawV6: Draw)

  /** What `cb` receives: `(error, results)`. */
  datatype HostReply = HostReply(error: Option<Error>, addrs: seq<string>)

  function AnswerFor(dns: Resolver, name: string, f: Family): Lookup<string>
  {
    match f
    case V4 => dns.v4(name)
    case V6 => dns.v6(name)
  }

  function DrawFor(s: HostSchedule, f: Family): Draw
  {
    match f
    case V4 => s.drawV4
    case V6 => s.drawV6
  }

  /** The addresses a lookup answered with; none when it failed. */
  function Answers(l: Lookup<string>): seq<string>
  {
    match l
    case Found(xs) => xs
    case Failed(_) => []
  }

  /** What `cb1` adds to `results` for one family:
      `addrs && addrs[Math.floor(Math.random() * addrs.length)]`, kept only
      when it is truthy (present and not the empty string). */
  function Picked(answer: Lookup<string>, draw: Draw): (kept: seq<string>)
    ensures |kept| <= 1
    ensures forall a :: a in kept ==> a in Answers(answer) && a != ""
    ensures answer.Found? && |answer.answers| > 0 && (forall a :: a in answer.answers ==> a != "") ==> |kept| == 1
  {
    match answer
    case Failed(_) => []
    case Found(xs) =>
      if |xs| == 0 then []
      else
        assert xs[Scale(draw, |xs|)] in xs;
        if xs[Scale(draw, |xs|)] != "" then [xs[Scale(draw, |xs|)]]
        else []
  }

  /** The closure state of one `resolveHost` call: the accumulators `error`
      and `results`, the counter `pending`, and the calls made to `cb`. */
  class HostJoin {
    var error: Option<Error>
    var results: seq<string>
    var pending: int
    var replies: seq<HostReply>

    constructor ()
      ensures error == None && results == [] && pending == 2 && replies == []
    {
      error, results, pending, replies := None, [], 2, [];
    }

    /** `cb1(e, addrs)`: one of the two lookups has reported. */
    method Report(answer: Lookup<string>, draw: Draw)
      modifies this
      ensures error == FirstError(old(error), ErrorOf(answer))
      ensures results == old(results) + Picked(answer, draw)
      ensures pending == old(pending) - 1
      ensures replies == old(replies) +
        if pending < 1 then [HostReply(if |results| > 0 then None else error, results)] else []
    {
      error := FirstError(error, ErrorOf(answer));
      match answer {
        case Found(addrs) =>
          if |addrs| > 0 {
            var addr := addrs[Scale(draw, |addrs|)];
            if addr != "" {
              results := results + [addr];
            }
          }
        case Failed(_) =>
      }
      pending := pending - 1;
      if pending < 1 {
        replies := replies + [HostReply(if |results| > 0 then None else error, results)];
      }
    }
  }

  /** The reply `cb` receives once both lookups have reported, `first`
      having called back before `second`. */
  function JoinedReply(first: Lookup<string>, d1: Draw, second: Lookup<string>, d2: Draw): HostReply
  {
    var results := Picked(first, d1) + Picked(second, d2);
    var error := FirstError(FirstError(None, ErrorOf(first)), ErrorOf(second));
    HostReply(if |results| > 0 then None else error, results)
  }

  /** The reply of `resolveHost(name, cb)` once both callbacks have fired. */
  function HostOutcome(dns: Resolver, name: string, s: HostSchedule): (r: HostReply)
    requires ValidOrder(s.order) && |s.order| == 2
    ensures |r.addrs| > 0 ==> r.error == None
    ensures r.error != None ==> r.error == ErrorOf(dns.v4(name)) || r.error == ErrorOf(dns.v6(name))
  {
    assert {s.order[0], s.order[1]} == {V4, V6};
    JoinedReply(
      AnswerFor(dns, name, s.order[0]), DrawFor(s, s.order[0]),
      AnswerFor(dns, name, s.order[1]), DrawFor(s, s.order[1]))
  }

  /** `resolveHost(name, cb)`: both lookups are issued at once; `s.order`
      says which of their callbacks have fired so far. `cb` is called
      exactly once, and only after both have fired. */
  method ResolveHost(dns: Resolver, name: string, s: HostSchedule) returns (replies: seq<HostReply>)
    requires ValidOrder(s.order)
    ensures |replies| == (if |s.order| == 2 then 1 else 0)
    ensures |s.order| == 2 ==> replies[0] == HostOutcome(dns, name, s)
  {
    var join := new HostJoin();
    if |s.order| >= 1 {
      join.Report(AnswerFor(dns, name, s.order[0]), DrawFor(s, s.order[0]));
    }
    if |s.order| == 2 {
      join.Report(AnswerFor(dns, name, s.order[1]), DrawFor(s, s.order[1]));
    }
    replies := join.replies;
  }

  /** At most one address per family, each one of that family's answers:
      when two addresses come back, they come from the two families, in the
      order the callbacks fired. */
  lemma HostOutcomeAddresses(dns: Resolver, name: string, s: HostSchedule)
    requires ValidOrder(s.order) && |s.order| == 2
    ensures var r := HostOutcome(dns, name, s);
      && |r.addrs| <= 2
      && (forall a :: a in r.addrs ==> a != "" && (a in Answers(dns.v4(name)) || a in Answers(dns.v6(name))))
      && (|r.addrs| == 2 ==>
            r.addrs[0] in Answers(AnswerFor(dns, name, s.order[0])) &&
            r.addrs[1] in Answers(AnswerFor(dns, name, s.order[1])))
  {
    var f, g := s.order[0], s.order[1];
    var p1 := Picked(AnswerFor(dns, name, f), DrawFor(s, f));
    var p2 := Picked(AnswerFor(dns, name, g), DrawFor(s, g));
    assert HostOutcome(dns, name, s).addrs == p1 + p2;
    assert {f, g} == {V4, V6};
    if |p1 + p2| == 2 {
      assert p1[0] in p1 && p2[0] in p2;
    }
  }

  /** The error is null whenever an address came back; otherwise it is the
      first non-null error in callback order, which is null only when neither
      lookup failed. */
  lemma HostOutcomeError(dns: Resolver, name: string, s: HostSchedule)
    requires ValidOrder(s.order) && |s.order| == 2
    ensures var r := HostOutcome(dns, name, s);
      var first, second := AnswerFor(dns, name, s.order[0]), AnswerFor(dns, name, s.order[1]);
      && (|r.addrs| > 0 ==> r.error == None)
      && (|r.addrs| == 0 && first.Failed? ==> r.error == Some(first.error))
      && (|r.addrs| == 0 && first.Found? ==> r.error == ErrorOf(second))
      && (r.error == None <==> |r.addrs| > 0 || (dns.v4(name).Found? && dns.v6(name).Found?))
  {
    assert {s.order[0], s.order[1]} == {V4, V6};
  }

  /** A lookup whose answers are all usable always contributes one of them,
      and then the reply carries no error. */
  lemma UsableAnswerIsKept(dns: Resolver, name: string, s: HostSchedule, f: Family)
    requires ValidOrder(s.order) && |s.order| == 2
    requires AnswerFor(dns, name, f).Found? && |AnswerFor(dns, name, f).answers| > 0
    requires forall a :: a in AnswerFor(dns, name, f).answers ==> a != ""
    ensures exists a :: a in AnswerFor(dns, name, f).answers && a in HostOutcome(dns, name, s).addrs
    ensures HostOutcome(dns, name, s).error == None
  {
    var kept := Picked(AnswerFor(dns, name, f), DrawFor(s, f));
    assert |kept| == 1 && kept[0] in kept;
    assert f == s.order[0] || f == s.order[1] by {
      assert {s.order[0], s.order[1]} == {V4, V6};
    }
    assert kept[0] in HostOutcome(dns, name, s).addrs;
  }
}
