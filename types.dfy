/** Values shared by every stage of the SRV connection module: DNS records and
    answers, addresses, errors, random draws, and the DNS oracle that stands for
    Node's `dns` module. */
module Types {

  datatype Option<T> = None | Some(value: T)

  /** An error object handed to a callback. In JavaScript every such object is
      truthy; a missing error (`null` or `undefined`) is `None`. */
  datatype Error = Error(code: string)

  /** `error || e`: the accumulator keeps the error it already holds, and
      otherwise takes the new one. */
  function FirstError(held: Option<Error>, e: Option<Error>): Option<Error>
  {
    if held.Some? then held else e
  }

  /** One SRV answer as `dns.resolveSrv` reports it. The four fields are 16-bit
      unsigned numbers on the wire; the model only needs them non-negative. */
  datatype SrvRecord = SrvRecord(name: string, port: nat, priority: nat, weight: nat)

  /** A dialable address: `{ name: <IP literal>, port: <port> }`. */
  datatype Address = Address(name: string, port: int)

  /** The outcome of one DNS query, as its callback sees it: `(null, answers)`
      or `(err, undefined)`. */
  datatype Lookup<T> = Found(answers: seq<T>) | Failed(error: Error)

  /** The `err` argument a DNS callback receives. */
  function ErrorOf<T>(l: Lookup<T>): Option<Error>
  {
    match l
    case Found(_) => None
    case Failed(e) => Some(e)
  }

  /** The DNS answers the environment gives, for every name: SRV, A and AAAA. */
  datatype Resolver = Resolver(
    srv: string -> Lookup<SrvRecord>,
    v4: string -> Lookup<string>,
    v6: string -> Lookup<string>)

  /** The two address families `resolveHost` asks for. */
  datatype Family = V4 | V6

  /** One value of `Math.random()`: a number in [0, 1). */
  type Draw = r: real | 0.0 <= r < 1.0

  /** `Math.floor(r * n)` for a draw `r`: an index into a list of length `n`. */
  function Scale(r: Draw, n: nat): (i: nat)
    ensures n == 0 ==> i == 0
    ensures n > 0 ==> i < n
  {
    ScaleBounds(r, n);
    (r * n as real).Floor
  }

  lemma ScaleBounds(r: Draw, n: nat)
    ensures 0.0 <= r * n as real
    ensures n > 0 ==> r * n as real < n as real
  {
    if n > 0 {
      assert r * n as real < 1.0 * n as real;
    }
  }

  /** No element occurs twice. */
  ghost predicate Distinct<T>(s: seq<T>)
  {
    forall i, j :: 0 <= i < j < |s| ==> s[i] != s[j]
  }

  /** Distinct indices below `k` are at most `k` in number. */
  lemma {:induction false} DistinctBelow(s: seq<nat>, k: nat)
    requires Distinct(s)
    requires forall i :: 0 <= i < |s| ==> s[i] < k
    ensures |s| <= k
  {
    var elems := set i | 0 <= i < |s| :: s[i];
    var below := Below(k);
    assert elems <= below;
    DistinctCard(s);
    SubsetCard(elems, below);
  }

  /** `k` distinct indices below `k` name every index below `k`. */
  lemma DistinctCovers(s: seq<nat>, k: nat)
    requires Distinct(s) && |s| == k
    requires forall i :: 0 <= i < |s| ==> s[i] < k
    ensures forall x :: 0 <= x < k ==> x in s
  {
    forall x | 0 <= x < k
      ensures x in s
    {
      if x !in s {
        var elems := set i | 0 <= i < |s| :: s[i];
        assert elems <= Below(k) - {x};
        DistinctCard(s);
        SubsetCard(elems, Below(k) - {x});
        assert false;
      }
    }
  }

  /** The numbers below `k`. */
  function Below(k: nat): (r: set<nat>)
    ensures |r| == k
    ensures forall x: nat :: x in r <==> x < k
  {
    if k == 0 then {} else Below(k - 1) + {k - 1}
  }

  lemma {:induction false} DistinctCard<T>(s: seq<T>)
    requires Distinct(s)
    ensures |set i | 0 <= i < |s| :: s[i]| == |s|
  {
    if s != [] {
      var n := |s| - 1;
      var t := s[..n];
      assert Distinct(t);
      DistinctCard(t);
      var st := set i | 0 <= i < |t| :: t[i];
      var ss := set i | 0 <= i < |s| :: s[i];
      assert ss == st + {s[n]};
      assert s[n] !in st;
    }
  }

  lemma {:induction false} SubsetCard<T>(a: set<T>, b: set<T>)
    requires a <= b
    ensures |a| <= |b|
  {
    if a != {} {
      var x :| x in a;
      SubsetCard(a - {x}, b - {x});
    }
  }
}
