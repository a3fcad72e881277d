/** `groupSrvRecords`: group the SRV answers by priority, visit the priorities
    in ascending numeric order, and keep one record of each group with the
    weighted selection loop. */
module Grouping {
  import opened Types
  import opened Decimal

  /** The distinct priority values of the answers. */
  function Priorities(rs: seq<SrvRecord>): set<nat>
  {
    set r | r in rs :: r.priority
  }

  /** The answers of priority `p` in answer order: the array `groups[p]`. */
  function Members(rs: seq<SrvRecord>, p: nat): (g: seq<SrvRecord>)
    ensures |g| > 0 <==> p in Priorities(rs)
    ensures forall r :: r in g ==> r in rs && r.priority == p
    ensures forall r :: r in rs && r.priority == p ==> r in g
  {
    if rs == [] then []
    else
      var last := rs[|rs| - 1];
      assert rs == rs[..|rs| - 1] + [last];
      assert Priorities(rs) == Priorities(rs[..|rs| - 1]) + {last.priority};
      Members(rs[..|rs| - 1], p) + (if last.priority == p then [last] else [])
  }

  /** No answer after position `j` has priority `p`. */
  ghost predicate NoneLater(rs: seq<SrvRecord>, j: nat, p: nat)
  {
    forall k :: j < k < |rs| ==> rs[k].priority != p
  }

  /** No answer before position `j` has priority `p`. */
  ghost predicate NoneEarlier(rs: seq<SrvRecord>, j: nat, p: nat)
  {
    forall k :: 0 <= k < j && k < |rs| ==> rs[k].priority != p
  }

  /** Extending the answers by one of another priority keeps "no later answer has priority `p`". */
  lemma NoneLaterSnoc(rs: seq<SrvRecord>, j: nat, p: nat)
    requires |rs| > 0 && NoneLater(rs[..|rs| - 1], j, p) && rs[|rs| - 1].priority != p
    ensures NoneLater(rs, j, p)
  {
    forall k | j < k < |rs|
      ensures rs[k].priority != p
    {
      if k < |rs| - 1 {
        assert rs[k] == rs[..|rs| - 1][k];
      }
    }
  }

  /** The last member of a bucket is the last answer with that priority. */
  lemma {:induction false} MembersLast(rs: seq<SrvRecord>, p: nat) returns (j: nat)
    requires |Members(rs, p)| > 0
    ensures j < |rs| && rs[j] == Members(rs, p)[|Members(rs, p)| - 1] && NoneLater(rs, j, p)
  {
    var front, last := rs[..|rs| - 1], rs[|rs| - 1];
    var g := Members(front, p);
    assert Members(rs, p) == g + (if last.priority == p then [last] else []);
    if last.priority == p {
      j := |rs| - 1;
    } else {
      j := MembersLast(front, p);
      assert Members(rs, p) == g && rs[j] == front[j];
      NoneLaterSnoc(rs, j, p);
    }
  }

  /** The first member of a bucket is the first answer with that priority. */
  lemma {:induction false} MembersFirst(rs: seq<SrvRecord>, p: nat) returns (j: nat)
    requires |Members(rs, p)| > 0
    ensures j < |rs| && rs[j] == Members(rs, p)[0] && NoneEarlier(rs, j, p)
  {
    var front, last := rs[..|rs| - 1], rs[|rs| - 1];
    var g := Members(front, p);
    assert Members(rs, p) == g + (if last.priority == p then [last] else []);
    if |g| > 0 {
      j := MembersFirst(front, p);
      assert Members(rs, p)[0] == g[0] && rs[j] == front[j];
      forall k | 0 <= k < j
        ensures rs[k].priority != p
      {
        assert rs[k] == front[k];
      }
    } else {
      j := |rs| - 1;
      forall k | 0 <= k < j
        ensures rs[k].priority != p
      {
        assert rs[k] == front[k] && front[k] in front;
      }
    }
  }

  /** The priorities in order of first occurrence: the order in which the
      keys of `groups` are created. */
  function FirstOccurrences(rs: seq<SrvRecord>): (ps: seq<nat>)
    ensures Distinct(ps) && |ps| <= |rs|
    ensures forall p :: p in ps <==> p in Priorities(rs)
  {
    if rs == [] then []
    else
      var last := rs[|rs| - 1];
      assert Priorities(rs) == Priorities(rs[..|rs| - 1]) + {last.priority} by {
        assert rs == rs[..|rs| - 1] + [last];
      }
      var ps := FirstOccurrences(rs[..|rs| - 1]);
      if last.priority in ps then ps else ps + [last.priority]
  }

  /** The dictionary keys `String(p)` of a list of priorities. */
  function Decimals(ps: seq<nat>): seq<string>
  {
    if ps == [] then [] else [ToDecimal(ps[0])] + Decimals(ps[1..])
  }

  lemma {:induction false} DecimalsAppend(ps: seq<nat>, p: nat)
    ensures Decimals(ps + [p]) == Decimals(ps) + [ToDecimal(p)]
  {
    if ps != [] {
      assert (ps + [p])[1..] == ps[1..] + [p];
      DecimalsAppend(ps[1..], p);
    }
  }

  // Array.prototype.sort with `compareNumbers`. The engine's own sorting
  // algorithm is not part of this model; an insertion sort stands for it, and
  // on keys with distinct numeric values every correct sort gives its result.

  function InsertKey(k: string, ks: seq<string>): (r: seq<string>)
    ensures multiset(r) == multiset(ks) + multiset{k}
  {
    if ks == [] then [k]
    else if CompareNumbers(k, ks[0]) <= 0 then [k] + ks
    else
      assert ks == [ks[0]] + ks[1..];
      [ks[0]] + InsertKey(k, ks[1..])
  }

  /** `keys.sort(compareNumbers)`. */
  function SortKeys(ks: seq<string>): (r: seq<string>)
    ensures multiset(r) == multiset(ks)
  {
    if ks == [] then []
    else
      assert ks == [ks[0]] + ks[1..];
      InsertKey(ks[0], SortKeys(ks[1..]))
  }

  ghost predicate Ascending(s: seq<nat>)
  {
    forall i, j :: 0 <= i < j < |s| ==> s[i] < s[j]
  }

  /** The same insertion sort on the numbers the keys stand for. */
  function InsertNat(p: nat, s: seq<nat>): (r: seq<nat>)
    ensures multiset(r) == multiset(s) + multiset{p}
  {
    if s == [] then [p]
    else if p <= s[0] then [p] + s
    else
      assert s == [s[0]] + s[1..];
      [s[0]] + InsertNat(p, s[1..])
  }

  function SortNats(ps: seq<nat>): (r: seq<nat>)
    ensures multiset(r) == multiset(ps)
  {
    if ps == [] then []
    else
      assert ps == [ps[0]] + ps[1..];
      InsertNat(ps[0], SortNats(ps[1..]))
  }

  lemma {:induction false} InsertNatMembers(p: nat, s: seq<nat>)
    ensures forall x :: x in InsertNat(p, s) <==> x == p || x in s
  {
    if s != [] && p > s[0] {
      InsertNatMembers(p, s[1..]);
      assert s == [s[0]] + s[1..];
    }
  }

  lemma ConsAscending(a: nat, t: seq<nat>)
    requires Ascending(t)
    requires forall x :: x in t ==> a < x
    ensures Ascending([a] + t)
  {
    var r := [a] + t;
    forall i, j | 0 <= i < j < |r|
      ensures r[i] < r[j]
    {
      assert r[j] == t[j - 1] && t[j - 1] in t;
      if i > 0 {
        assert r[i] == t[i - 1];
      }
    }
  }

  lemma {:induction false} InsertNatAscending(p: nat, s: seq<nat>)
    requires Ascending(s) && p !in s
    ensures Ascending(InsertNat(p, s))
  {
    if s == [] {
    } else if p > s[0] {
      var tail := InsertNat(p, s[1..]);
      InsertNatAscending(p, s[1..]);
      InsertNatMembers(p, s[1..]);
      forall x | x in tail
        ensures s[0] < x
      {
        if x != p {
          var k :| 0 <= k < |s[1..]| && s[1..][k] == x;
          assert s[k + 1] == x;
        }
      }
      ConsAscending(s[0], tail);
    } else {
      assert p < s[0];
      forall x | x in s
        ensures p < x
      {
        var k :| 0 <= k < |s| && s[k] == x;
        assert k == 0 || s[0] < s[k];
      }
      ConsAscending(p, s);
    }
  }

  /** Sorting distinct numbers leaves them in strictly ascending order. */
  lemma {:induction false} SortNatsAscending(ps: seq<nat>)
    requires Distinct(ps)
    ensures Ascending(SortNats(ps))
  {
    if ps != [] {
      assert Distinct(ps[1..]);
      SortNatsAscending(ps[1..]);
      assert ps == [ps[0]] + ps[1..];
      assert ps[0] !in multiset(SortNats(ps[1..]));
      InsertNatAscending(ps[0], SortNats(ps[1..]));
    }
  }

  lemma {:induction false} InsertKeyOfDecimals(p: nat, s: seq<nat>)
    ensures InsertKey(ToDecimal(p), Decimals(s)) == Decimals(InsertNat(p, s))
  {
    if s != [] {
      CompareNumbersIsNumericOrder(p, s[0]);
      if p > s[0] {
        InsertKeyOfDecimals(p, s[1..]);
      }
    }
  }

  /** Sorting the keys with `compareNumbers` sorts the priorities numerically. */
  lemma {:induction false} SortKeysOfDecimals(ps: seq<nat>)
    ensures SortKeys(Decimals(ps)) == Decimals(SortNats(ps))
  {
    if ps != [] {
      SortKeysOfDecimals(ps[1..]);
      InsertKeyOfDecimals(ps[0], SortNats(ps[1..]));
    }
  }

  /** The priorities in the order the grouping visits them. */
  function SortedPriorities(rs: seq<SrvRecord>): (ps: seq<nat>)
    ensures Ascending(ps) && |ps| <= |rs|
    ensures forall p :: p in ps <==> p in Priorities(rs)
  {
    var first := FirstOccurrences(rs);
    SortNatsAscending(first);
    var ps := SortNats(first);
    assert forall p :: p in ps <==> p in multiset(first);
    assert |ps| == |multiset(ps)| == |first|;
    ps
  }

  /** Sum of the weights of the first `n` members. */
  function PrefixWeight(g: seq<SrvRecord>, n: nat): nat
    requires n <= |g|
  {
    if n == 0 then 0 else PrefixWeight(g, n - 1) + g[n - 1].weight
  }

  function TotalWeight(g: seq<SrvRecord>): nat
  {
    PrefixWeight(g, |g|)
  }

  /** `candidate` after the selection loop has visited the first `n` members
      with draw `w`: each member whose running sum exceeds `w` replaces it,
      and the loop never breaks. */
  function CandidateAfter(g: seq<SrvRecord>, w: nat, n: nat): (c: SrvRecord)
    requires 0 < |g| && n <= |g|
    ensures c == g[0] || exists j :: 0 <= j < n && c == g[j] && w < PrefixWeight(g, j + 1)
  {
    if n == 0 then g[0]
    else if w < PrefixWeight(g, n) then g[n - 1]
    else CandidateAfter(g, w, n - 1)
  }

  /** The record the selection keeps: the first member of a group that weighs
      nothing, and otherwise the last member, whatever the draw. */
  function Pick(g: seq<SrvRecord>): (r: SrvRecord)
    requires |g| > 0
    ensures r in g
  {
    if TotalWeight(g) == 0 then g[0] else g[|g| - 1]
  }

  /** While no running sum exceeds the draw, the first member stays chosen. */
  lemma {:induction false} FirstStaysWhileNoneExceeds(g: seq<SrvRecord>, w: nat, n: nat)
    requires 0 < |g| && n <= |g|
    requires PrefixWeight(g, n) <= w
    ensures CandidateAfter(g, w, n) == g[0]
  {
    if n > 0 {
      FirstStaysWhileNoneExceeds(g, w, n - 1);
    }
  }

  /** With a draw in range (`Math.floor(Math.random() * totalWeight)`), the loop
      keeps the last member when the group has weight and the first member when
      it has none; the draw never changes the outcome. */
  lemma SelectionKeepsLastOrFirst(g: seq<SrvRecord>, w: nat)
    requires |g| > 0
    requires TotalWeight(g) > 0 ==> w < TotalWeight(g)
    requires TotalWeight(g) == 0 ==> w == 0
    ensures CandidateAfter(g, w, |g|) == Pick(g)
  {
    if TotalWeight(g) == 0 {
      FirstStaysWhileNoneExceeds(g, w, |g|);
    }
  }

  /** The one record kept from each priority, in ascending priority: the
      array `groupSrvRecords` returns. */
  function Grouped(rs: seq<SrvRecord>): (out: seq<SrvRecord>)
    ensures |out| == |SortedPriorities(rs)|
    ensures forall i :: 0 <= i < |out| ==> out[i] in rs && out[i].priority == SortedPriorities(rs)[i]
  {
    var ps := SortedPriorities(rs);
    seq(|ps|, i requires 0 <= i < |ps| => Pick(Members(rs, ps[i])))
  }

  /** Exactly one record per distinct priority, in strictly ascending
      priority, each one of the answers. */
  lemma GroupedOnePerPriority(rs: seq<SrvRecord>)
    ensures |Grouped(rs)| <= |rs|
    ensures forall i, j :: 0 <= i < j < |Grouped(rs)| ==> Grouped(rs)[i].priority < Grouped(rs)[j].priority
    ensures forall i :: 0 <= i < |Grouped(rs)| ==> Grouped(rs)[i] in rs
    ensures forall p :: p in Priorities(rs) ==> exists i :: 0 <= i < |Grouped(rs)| && Grouped(rs)[i].priority == p
  {
    var ps := SortedPriorities(rs);
    var out := Grouped(rs);
    forall i | 0 <= i < |out|
      ensures out[i].priority == ps[i] && out[i] in rs
    {
      var g := Members(rs, ps[i]);
      assert Pick(g) in g;
    }
    forall p | p in Priorities(rs)
      ensures exists i :: 0 <= i < |out| && out[i].priority == p
    {
      var i :| 0 <= i < |ps| && ps[i] == p;
      assert out[i].priority == p;
    }
  }

  /** Each kept record is the one the selection rule keeps from its group. */
  lemma GroupedPicks(rs: seq<SrvRecord>, i: nat)
    requires i < |Grouped(rs)|
    ensures var g := Members(rs, Grouped(rs)[i].priority);
      && |g| > 0
      && (TotalWeight(g) == 0 ==> Grouped(rs)[i] == g[0])
      && (TotalWeight(g) > 0 ==> Grouped(rs)[i] == g[|g| - 1])
  {
    var ps := SortedPriorities(rs);
    assert Grouped(rs)[i] == Pick(Members(rs, ps[i]));
  }

  /** In answer order, the kept record is the last answer of its priority
      when the group has weight, and the first one when it has none. */
  lemma GroupedPosition(rs: seq<SrvRecord>, i: nat)
    requires i < |Grouped(rs)|
    ensures var g := Members(rs, Grouped(rs)[i].priority);
      exists j :: 0 <= j < |rs| && rs[j] == Grouped(rs)[i]
        && (TotalWeight(g) > 0 ==> NoneLater(rs, j, rs[j].priority))
        && (TotalWeight(g) == 0 ==> NoneEarlier(rs, j, rs[j].priority))
  {
    var p := Grouped(rs)[i].priority;
    var g := Members(rs, p);
    GroupedPicks(rs, i);
    if TotalWeight(g) > 0 {
      var j := MembersLast(rs, p);
      assert rs[j] == Grouped(rs)[i];
    } else {
      var j := MembersFirst(rs, p);
      assert rs[j] == Grouped(rs)[i];
    }
  }

  /** Lines 25-37: total the group's weight, draw `w`, and run the selection
      loop. */
  method SelectCandidate(group: seq<SrvRecord>, draw: Draw) returns (candidate: SrvRecord)
    requires |group| > 0
    ensures candidate == Pick(group)
  {
    var totalWeight := 0;
    for i := 0 to |group|
      invariant totalWeight == PrefixWeight(group, i)
    {
      totalWeight := totalWeight + group[i].weight;
    }
    var w := Scale(draw, totalWeight);
    totalWeight := 0;
    candidate := group[0];
    for i := 0 to |group|
      invariant totalWeight == PrefixWeight(group, i)
      invariant candidate == CandidateAfter(group, w, i)
    {
      totalWeight := totalWeight + group[i].weight;
      if w < totalWeight {
        candidate := group[i];
      }
    }
    SelectionKeepsLastOrFirst(group, w);
  }

  lemma FirstOccurrencesSnoc(prefix: seq<SrvRecord>, r: SrvRecord)
    ensures FirstOccurrences(prefix + [r]) ==
      var ps := FirstOccurrences(prefix);
      if r.priority in ps then ps else ps + [r.priority]
  {
    assert (prefix + [r])[..|prefix|] == prefix;
  }

  lemma MembersSnoc(prefix: seq<SrvRecord>, r: SrvRecord, p: nat)
    ensures Members(prefix + [r], p) == Members(prefix, p) + (if r.priority == p then [r] else [])
  {
    assert (prefix + [r])[..|prefix|] == prefix;
  }

  lemma {:induction false} DecimalsAt(ps: seq<nat>)
    ensures |Decimals(ps)| == |ps|
    ensures forall i :: 0 <= i < |ps| ==> Decimals(ps)[i] == ToDecimal(ps[i])
  {
    if ps != [] {
      DecimalsAt(ps[1..]);
    }
  }

  lemma GroupedAt(rs: seq<SrvRecord>)
    ensures |Grouped(rs)| == |SortedPriorities(rs)|
    ensures forall i :: 0 <= i < |Grouped(rs)| ==>
      SortedPriorities(rs)[i] in Priorities(rs) && Grouped(rs)[i] == Pick(Members(rs, SortedPriorities(rs)[i]))
  {
  }

  lemma ToDecimalEq(a: nat, b: nat)
    ensures ToDecimal(a) == ToDecimal(b) <==> a == b
  {
    ParseIntOfDecimal(a);
    ParseIntOfDecimal(b);
  }

  /** The dictionary and its keys after one more `push`. */
  function PushRecord(state: (map<string, seq<SrvRecord>>, seq<string>), r: SrvRecord): (map<string, seq<SrvRecord>>, seq<string>)
  {
    var (groups, keys) := state;
    var key := ToDecimal(r.priority);
    var g := if key in groups then groups else groups[key := []];
    (g[key := g[key] + [r]], if key in groups then keys else keys + [key])
  }

  /** The dictionary and its keys after the records of `prefix` are pushed. */
  function Pushed(prefix: seq<SrvRecord>): (map<string, seq<SrvRecord>>, seq<string>)
  {
    if prefix == [] then (map[], [])
    else PushRecord(Pushed(prefix[..|prefix| - 1]), prefix[|prefix| - 1])
  }

  lemma PushedStep(rs: seq<SrvRecord>, i: nat)
    requires i < |rs|
    ensures Pushed(rs[..i + 1]) == PushRecord(Pushed(rs[..i]), rs[i])
  {
    assert rs[..i + 1][..i] == rs[..i];
  }

  /** A key is created exactly when its first record is pushed, and it holds
      the records of its priority in push order. */
  lemma {:induction false} PushedAt(prefix: seq<SrvRecord>, q: nat)
    ensures ToDecimal(q) in Pushed(prefix).0 <==> q in FirstOccurrences(prefix)
    ensures ToDecimal(q) in Pushed(prefix).0 ==> Pushed(prefix).0[ToDecimal(q)] == Members(prefix, q)
  {
    if prefix != [] {
      var front, r := prefix[..|prefix| - 1], prefix[|prefix| - 1];
      assert prefix == front + [r];
      PushedAt(front, q);
      PushedAt(front, r.priority);
      ToDecimalEq(q, r.priority);
      FirstOccurrencesSnoc(front, r);
      MembersSnoc(front, r, q);
    }
  }

  /** The keys are created in order of first appearance of their priorities. */
  lemma {:induction false} PushedKeys(prefix: seq<SrvRecord>)
    ensures Pushed(prefix).1 == Decimals(FirstOccurrences(prefix))
  {
    if prefix == [] {
      assert Decimals([]) == [];
    } else {
      var front, r := prefix[..|prefix| - 1], prefix[|prefix| - 1];
      assert prefix == front + [r];
      PushedKeys(front);
      PushedAt(front, r.priority);
      FirstOccurrencesSnoc(front, r);
      DecimalsAppend(FirstOccurrences(front), r.priority);
    }
  }

  /** The dictionary holds exactly the keys in the key list. */
  lemma {:induction false} PushedDomain(prefix: seq<SrvRecord>, k: string)
    ensures k in Pushed(prefix).0 <==> k in Pushed(prefix).1
  {
    if prefix != [] {
      PushedDomain(prefix[..|prefix| - 1], k);
    }
  }

  /** Once every record is pushed, the j-th key in `compareNumbers` order
      holds the group whose pick is the j-th record of `Grouped`. */
  lemma SortedGroups(rs: seq<SrvRecord>, groups: map<string, seq<SrvRecord>>, keys: seq<string>)
    requires keys == Decimals(FirstOccurrences(rs))
    requires forall q: nat :: ToDecimal(q) in groups <==> q in FirstOccurrences(rs)
    requires forall q: nat :: ToDecimal(q) in groups ==> groups[ToDecimal(q)] == Members(rs, q)
    ensures |SortKeys(keys)| == |Grouped(rs)| <= |rs|
    ensures forall j :: 0 <= j < |SortKeys(keys)| ==>
      SortKeys(keys)[j] in groups && |groups[SortKeys(keys)[j]]| > 0 && Pick(groups[SortKeys(keys)[j]]) == Grouped(rs)[j]
  {
    var first := FirstOccurrences(rs);
    var ps := SortedPriorities(rs);
    SortKeysOfDecimals(first);
    DecimalsAt(ps);
    DecimalsAt(first);
    GroupedAt(rs);
    forall j | 0 <= j < |ps|
      ensures SortKeys(keys)[j] in groups && groups[SortKeys(keys)[j]] == Members(rs, ps[j])
    {
      assert ps[j] in multiset(ps);
      assert ps[j] in first;
      assert SortKeys(keys)[j] == ToDecimal(ps[j]);
    }
  }

  /** Lines 15-21: the `groups` dictionary, keyed by `String(priority)`,
      and its keys in creation order (`Object.keys(groups)`). */
  method BuildGroups(addrs: seq<SrvRecord>) returns (groups: map<string, seq<SrvRecord>>, keys: seq<string>)
    ensures keys == Decimals(FirstOccurrences(addrs))
    ensures forall k :: k in groups <==> k in keys
    ensures forall q: nat :: ToDecimal(q) in groups <==> q in FirstOccurrences(addrs)
    ensures forall q: nat :: ToDecimal(q) in groups ==> groups[ToDecimal(q)] == Members(addrs, q)
  {
    groups := map[];
    keys := [];
    for i := 0 to |addrs|
      invariant (groups, keys) == Pushed(addrs[..i])
    {
      PushedStep(addrs, i);
      var addr := addrs[i];
      var key := ToDecimal(addr.priority);
      if key !in groups {
        groups := groups[key := []];
        keys := keys + [key];
      }
      groups := groups[key := groups[key] + [addr]];
    }
    assert addrs[..|addrs|] == addrs;
    PushedKeys(addrs);
    forall k {
      PushedDomain(addrs, k);
    }
    forall q: nat {
      PushedAt(addrs, q);
    }
  }

  /** Lines 23-40: visit the sorted keys in order and push the record the
      selection keeps from each key's group (a record is always truthy, so
      `if (candidate)` always holds); `draws[j]` is the draw for the j-th key. */
  method SelectEach(groups: map<string, seq<SrvRecord>>, sorted: seq<string>, draws: seq<Draw>) returns (result: seq<SrvRecord>)
    requires |draws| >= |sorted|
    requires forall j :: 0 <= j < |sorted| ==> sorted[j] in groups && |groups[sorted[j]]| > 0
    ensures |result| == |sorted|
    ensures forall j :: 0 <= j < |sorted| ==> result[j] == Pick(groups[sorted[j]])
  {
    result := [];
    for j := 0 to |sorted|
      invariant |result| == j
      invariant forall k :: 0 <= k < j ==> result[k] == Pick(groups[sorted[k]])
    {
      var group := groups[sorted[j]];
      var candidate := SelectCandidate(group, draws[j]);
      result := result + [candidate];
    }
  }

  /** `groupSrvRecords(addrs)`; `draws[j]` is the `Math.random()` value drawn
      for the j-th priority visited. */
  method GroupSrvRecords(addrs: seq<SrvRecord>, draws: seq<Draw>) returns (result: seq<SrvRecord>)
    requires |draws| >= |addrs|
    ensures result == Grouped(addrs)
  {
    var groups, keys := BuildGroups(addrs);
    var sorted := SortKeys(keys);
    SortedGroups(addrs, groups, keys);
    result := SelectEach(groups, sorted, draws);
  }
}
