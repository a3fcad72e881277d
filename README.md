# node-xmpp SRV connection module, modelled in Dafny

This project models `lib/xmpp/srv.js` of node-xmpp 0.2.3: the code that turns
a domain, a list of service labels and a default port into one connected
socket. It works in four stages, and each stage has its own module.

- `Decimal` (`decimal.dfy`) models `compareNumbers`. The comparator receives
  the keys of the `groups` dictionary, which are strings, and it parses them
  with `parseInt(·, 10)`.
- `Grouping` (`grouping.dfy`) models `groupSrvRecords`. It buckets the SRV
  records by priority, sorts the bucket keys with `compareNumbers`, and runs
  the weighted selection loop in each bucket.
- `HostResolution` (`host.dfy`) models `resolveHost`: an A and an AAAA lookup
  that join on a counter `pending` that starts at 2.
- `SrvResolution` (`srv.dfy`) models `resolveSrv`: one SRV query, then one
  `resolveHost` per selected record, joined on a counter `pending` that counts
  up.
- `ConnectionCascade` (`cascade.dfy`) models `tryConnect`, which dials
  addresses one at a time and shifts each one off the front of the list.
- `ServiceConnect` (`connect.dfy`) models `connect` and its inner
  `tryServices`. They shift service labels off the caller's array, and fall
  back to resolving the domain itself on the default port.
- `Types` (`types.dfy`) holds the shared records, the DNS oracle and the
  random draws.

The stateful parts keep the source's shape. Each closure's mutable variables
become the fields of a class: `HostJoin`, `SrvJoin`, `Cascade` and
`Connector`. Each callback becomes a method on that class with `modifies this`.
The loops of `groupSrvRecords` are methods with loop invariants. Every
driver method (`GroupSrvRecords`, `ResolveHost`, `ResolveSrv`, `TryConnect`,
`Connect`) is proved equal to a specification function (`Grouped`,
`HostOutcome`, `SrvOutcome`, `Run`, `ServicesRun`). The lemmas state the
module's promises about those functions.

The outside world enters as parameters:

- DNS is a `Resolver` value, which holds three total functions from a name
  to `Found(answers)` or `Failed(error)`.
- `Math.random()` is a `Draw`, a real number in `[0, 1)`.
- Asynchronous interleaving is a completion order. This is the sequence of
  callbacks that have fired so far. A callback missing from it has not fired
  yet, or never will.
- The socket's reports are a sequence of `Connected` and `Refused(error)`,
  one per connection attempt. An attempt without a report stays in flight.

## Behaviours of the code worth knowing

In each case below the model follows the code.

- **Weighted selection keeps the last member.** The weighted selection of
  RFC 2782 (section "Usage rules") picks the first member whose running sum
  of weights exceeds the draw `w`. The loop
  at lines 33-37 has no `break`, and the running weight never decreases. So
  when the total weight is positive, the last member always wins, whatever
  the draw is. When the total weight is 0, `group[0]` stays. See `Grouping.Pick`
  and `Grouping.SelectionKeepsLastOrFirst`.
- **`resolveSrv` never reports failure once the SRV query has succeeded.**
  At line 56, `results ? null : error` tests an array, and an array is always
  truthy. So the error is null even when every host lookup failed. `connect`
  then calls `tryConnect` with an empty list. That emits `error` with no
  error value, and it does not try the next label or the fallback
  (`ServiceConnect.FirstAnswerDecides`).
- **Addresses come back in completion order, not in priority order.** Line
  53 concatenates the lists in the order the callbacks fire. The order is
  the priority order only when the callbacks fire in that order
  (`SrvResolution.GatheredInPriorityOrder`).
- **An SRV answer with no records never calls back.** `pending` stays 0, and
  `connect` waits forever (`SrvResolution.EmptyAnswerNeverCallsBack`,
  `ServiceConnect.EmptySrvAnswerStalls`).
- **`resolveHost` can report a null error with no addresses.** This happens
  when both lookups succeed with empty or unusable answers. The error is null
  exactly when an address came back or when neither lookup failed
  (`HostResolution.HostOutcomeError`).
- **An empty label ends the SRV tier early.** `if (service)` treats `""` as the
  end of the list. The labels after it stay in the caller's array and are
  never queried (`ServiceConnect.EmptyLabelFallsBack`).
- **The listeners stay attached after the list runs out.** `tryConnect` removes
  its listeners only on success, so `listening` stays true after exhaustion
  (`ConnectionCascade.RunExhausted`).

## Model

| member | source | states |
|---|---|---|
| Decimal.LeadingDigits | node_modules/.npm/node-xmpp/0.2.3/package/lib/xmpp/srv.js:5-6 | the part `parseInt` reads is a prefix made only of digits, and the character after it is not a digit |
| Decimal.ParseInt | node_modules/.npm/node-xmpp/0.2.3/package/lib/xmpp/srv.js:5-6 | `parseInt` gives a number exactly when the string starts with a digit, and that number is not negative |
| Decimal.ToDecimal | node_modules/.npm/node-xmpp/0.2.3/package/lib/xmpp/srv.js:17-18 | the dictionary key of a priority is a nonempty string of digits |
| Decimal.CompareNumbers | node_modules/.npm/node-xmpp/0.2.3/package/lib/xmpp/srv.js:4-12 | the result is -1, 0 or 1, and it is 0 whenever either side parses to NaN |
| Decimal.ParseIntOfDecimal | node_modules/.npm/node-xmpp/0.2.3/package/lib/xmpp/srv.js:5-6 | parsing the key of priority n gives back n |
| Decimal.ToDecimalInjective | node_modules/.npm/node-xmpp/0.2.3/package/lib/xmpp/srv.js:17-20 | distinct priorities get distinct keys, so no two buckets merge |
| Decimal.CompareNumbersIsNumericOrder | node_modules/.npm/node-xmpp/0.2.3/package/lib/xmpp/srv.js:4-12 | on two keys, the comparator is the numeric order of their priorities: -1, 0 or 1 exactly as a < b, a == b or a > b |
| Decimal.NineBeforeTen | node_modules/.npm/node-xmpp/0.2.3/package/lib/xmpp/srv.js:24 | "9" sorts before "10", although the string order would put it after |
| Grouping.Members | node_modules/.npm/node-xmpp/0.2.3/package/lib/xmpp/srv.js:16-21 | a bucket is nonempty exactly when its priority occurs, and it holds every answer with that priority and no other |
| Grouping.MembersFirst | node_modules/.npm/node-xmpp/0.2.3/package/lib/xmpp/srv.js:16-21 | the first member of a bucket is the first answer with that priority |
| Grouping.MembersLast | node_modules/.npm/node-xmpp/0.2.3/package/lib/xmpp/srv.js:16-21 | the last member of a bucket is the last answer with that priority |
| Grouping.FirstOccurrences | node_modules/.npm/node-xmpp/0.2.3/package/lib/xmpp/srv.js:16-21 | the keys created hold no repeats, are no more numerous than the answers, and cover exactly the priorities present |
| Grouping.PushedAt | node_modules/.npm/node-xmpp/0.2.3/package/lib/xmpp/srv.js:16-21 | a key exists exactly when its priority has been seen, and it holds that priority's records in push order |
| Grouping.PushedKeys | node_modules/.npm/node-xmpp/0.2.3/package/lib/xmpp/srv.js:16-21 | the keys are created in order of first appearance of their priorities |
| Grouping.PushedDomain | node_modules/.npm/node-xmpp/0.2.3/package/lib/xmpp/srv.js:16-21 | the dictionary holds exactly the keys in the key list |
| Grouping.BuildGroups | node_modules/.npm/node-xmpp/0.2.3/package/lib/xmpp/srv.js:15-21 | after the loop, each key maps to the answers of its priority in answer order, and the keys are the priorities in order of first appearance |
| Grouping.InsertKey | node_modules/.npm/node-xmpp/0.2.3/package/lib/xmpp/srv.js:24 | one insertion step of the key sort adds its key and loses nothing |
| Grouping.SortKeys | node_modules/.npm/node-xmpp/0.2.3/package/lib/xmpp/srv.js:24 | `keys.sort(compareNumbers)` is a permutation of the keys |
| Grouping.InsertNat | node_modules/.npm/node-xmpp/0.2.3/package/lib/xmpp/srv.js:24 | one insertion step adds its element to the multiset and loses nothing |
| Grouping.SortNats | node_modules/.npm/node-xmpp/0.2.3/package/lib/xmpp/srv.js:24 | the sort is a permutation of the priorities |
| Grouping.SortNatsAscending | node_modules/.npm/node-xmpp/0.2.3/package/lib/xmpp/srv.js:24 | sorting distinct priorities gives a strictly ascending sequence |
| Grouping.SortKeysOfDecimals | node_modules/.npm/node-xmpp/0.2.3/package/lib/xmpp/srv.js:24 | sorting the keys with `compareNumbers` gives the keys of the numerically sorted priorities |
| Grouping.SortedPriorities | node_modules/.npm/node-xmpp/0.2.3/package/lib/xmpp/srv.js:24 | the buckets are visited in strictly ascending priority, each priority present exactly once |
| Grouping.CandidateAfter | node_modules/.npm/node-xmpp/0.2.3/package/lib/xmpp/srv.js:31-37 | after any number of steps, the candidate is `group[0]` or a member whose running sum exceeded the draw |
| Grouping.Pick | node_modules/.npm/node-xmpp/0.2.3/package/lib/xmpp/srv.js:25-39 | the record kept from a group is one of its members |
| Grouping.FirstStaysWhileNoneExceeds | node_modules/.npm/node-xmpp/0.2.3/package/lib/xmpp/srv.js:31-37 | while no running weight exceeds the draw, the candidate stays `group[0]` |
| Grouping.SelectionKeepsLastOrFirst | node_modules/.npm/node-xmpp/0.2.3/package/lib/xmpp/srv.js:26-37 | for any draw in range, the loop ends with the last member when the total weight is positive, and with the first when it is 0 |
| Grouping.SelectCandidate | node_modules/.npm/node-xmpp/0.2.3/package/lib/xmpp/srv.js:25-37 | the two weight loops choose the member that `Pick` names, whatever the draw |
| Grouping.SelectEach | node_modules/.npm/node-xmpp/0.2.3/package/lib/xmpp/srv.js:23-40 | walks the sorted keys in order and keeps, for each, the member of that key's group that `Pick` selects; one record per key |
| Grouping.Grouped | node_modules/.npm/node-xmpp/0.2.3/package/lib/xmpp/srv.js:14-42 | one record per priority, in the sorted priority order, each one of the answers |
| Grouping.GroupedOnePerPriority | node_modules/.npm/node-xmpp/0.2.3/package/lib/xmpp/srv.js:14-42 | the output has one record per distinct priority, in strictly ascending priority, each one of the input records, and is no longer than the input |
| Grouping.GroupedPicks | node_modules/.npm/node-xmpp/0.2.3/package/lib/xmpp/srv.js:25-39 | each output record is its bucket's first member when the bucket weighs 0, and its last member otherwise |
| Grouping.GroupedPosition | node_modules/.npm/node-xmpp/0.2.3/package/lib/xmpp/srv.js:16-39 | in answer order, each kept record is the last answer of its priority when its group has weight, and the first one when the group weighs 0 |
| Grouping.GroupSrvRecords | node_modules/.npm/node-xmpp/0.2.3/package/lib/xmpp/srv.js:14-42 | the imperative grouping, sort and selection return exactly `Grouped(addrs)` |
| Types.Scale | node_modules/.npm/node-xmpp/0.2.3/package/lib/xmpp/srv.js:79 | `Math.floor(Math.random() * n)` is a valid index when n > 0, and 0 when n = 0 |
| HostResolution.Picked | node_modules/.npm/node-xmpp/0.2.3/package/lib/xmpp/srv.js:79-81 | one lookup adds at most one address, which is one of its answers and not empty; a lookup whose answers are all nonempty always adds exactly one |
| HostResolution.HostJoin.constructor | node_modules/.npm/node-xmpp/0.2.3/package/lib/xmpp/srv.js:76 | the join starts with no error, no results and `pending` = 2 |
| HostResolution.HostJoin.Report | node_modules/.npm/node-xmpp/0.2.3/package/lib/xmpp/srv.js:77-86 | one callback keeps the first error, appends the picked address, decrements `pending`, and calls back only when `pending` drops below 1, with a null error when results are nonempty and otherwise the accumulated error |
| HostResolution.HostOutcome | node_modules/.npm/node-xmpp/0.2.3/package/lib/xmpp/srv.js:77-85 | once both lookups have reported, the error is null whenever an address came back, and any error is the one of a failed lookup |
| HostResolution.ResolveHost | node_modules/.npm/node-xmpp/0.2.3/package/lib/xmpp/srv.js:75-90 | the callback fires once when both lookups have reported, never before, and its reply is `HostOutcome` |
| HostResolution.HostOutcomeAddresses | node_modules/.npm/node-xmpp/0.2.3/package/lib/xmpp/srv.js:77-85 | at most two addresses come back, each nonempty and from the answers; two come from the two families, in callback order |
| HostResolution.HostOutcomeError | node_modules/.npm/node-xmpp/0.2.3/package/lib/xmpp/srv.js:77-85 | the error is null when addresses came back, and otherwise the first error in callback order; it is null exactly when addresses came back or neither lookup failed |
| HostResolution.UsableAnswerIsKept | node_modules/.npm/node-xmpp/0.2.3/package/lib/xmpp/srv.js:79-85 | a family whose answers are all usable always contributes one of them, and then the error is null |
| SrvResolution.WithPort | node_modules/.npm/node-xmpp/0.2.3/package/lib/xmpp/srv.js:62-65 | the i-th address is the i-th name paired with the record's port: every name is kept, in order, and nothing else is added |
| SrvResolution.Gathered | node_modules/.npm/node-xmpp/0.2.3/package/lib/xmpp/srv.js:53 | an address is gathered exactly when it is in the list of a resolution that has called back: no address is lost and none is invented |
| SrvResolution.Accumulated | node_modules/.npm/node-xmpp/0.2.3/package/lib/xmpp/srv.js:52 | the accumulated error is null exactly when no callback reported an error |
| SrvResolution.SrvOutcome | node_modules/.npm/node-xmpp/0.2.3/package/lib/xmpp/srv.js:45-70 | at most one reply; it carries an error, and then no list, exactly when the SRV query failed |
| SrvResolution.SrvJoin.constructor | node_modules/.npm/node-xmpp/0.2.3/package/lib/xmpp/srv.js:50 | the join starts with `pending` = 0, no error and no results |
| SrvResolution.SrvJoin.Issue | node_modules/.npm/node-xmpp/0.2.3/package/lib/xmpp/srv.js:68 | issuing one host resolution increments `pending` and changes nothing else |
| SrvResolution.SrvJoin.Complete | node_modules/.npm/node-xmpp/0.2.3/package/lib/xmpp/srv.js:51-58 | one completion keeps the first error, appends its addresses, decrements `pending`, and calls back with a null error when `pending` drops below 1 |
| SrvResolution.IssueAll | node_modules/.npm/node-xmpp/0.2.3/package/lib/xmpp/srv.js:59-69 | one `resolveHost` is issued per selected record, each counted in `pending`; each one's addresses are paired with its record's port |
| SrvResolution.CompleteAll | node_modules/.npm/node-xmpp/0.2.3/package/lib/xmpp/srv.js:51-58 | with each callback firing at most once, in the given order: `pending` drops by one per callback, `results` is the lists concatenated in callback order, `error` keeps the first error reported, and `cb` is called once, exactly when every issued resolution has reported |
| SrvResolution.ResolveSrv | node_modules/.npm/node-xmpp/0.2.3/package/lib/xmpp/srv.js:44-72 | a failed SRV query passes its error and no list; a successful one calls back once with a null error and a list, only after every selected record has reported, and never when nothing was selected |
| SrvResolution.EmptyAnswerNeverCallsBack | node_modules/.npm/node-xmpp/0.2.3/package/lib/xmpp/srv.js:50-69 | an SRV answer with no records never calls back |
| SrvResolution.GatheredCarriesRecordPorts | node_modules/.npm/node-xmpp/0.2.3/package/lib/xmpp/srv.js:59-66 | every address handed back carries the port of the record whose target it came from, and its name is one of that target's addresses |
| SrvResolution.GatheredKeepsHostAddresses | node_modules/.npm/node-xmpp/0.2.3/package/lib/xmpp/srv.js:53-66 | every address a called-back record's target resolved to reaches `results`, paired with that record's port |
| SrvResolution.GatheredInPriorityOrder | node_modules/.npm/node-xmpp/0.2.3/package/lib/xmpp/srv.js:51-59 | when the callbacks fire in priority order, the result is the per-record lists concatenated in priority order |
| ConnectionCascade.Run | node_modules/.npm/node-xmpp/0.2.3/package/lib/xmpp/srv.js:93-115 | the cascade dials only addresses from its list, and no more of them than the list holds |
| ConnectionCascade.Cascade.constructor | node_modules/.npm/node-xmpp/0.2.3/package/lib/xmpp/srv.js:112-113 | both listeners are attached, no error is recorded, and nothing has been dialled |
| ConnectionCascade.Cascade.ConnectNext | node_modules/.npm/node-xmpp/0.2.3/package/lib/xmpp/srv.js:105-111 | shifts the front address off and dials it, or emits `error` with the recorded error when the list is empty |
| ConnectionCascade.Cascade.OnConnect | node_modules/.npm/node-xmpp/0.2.3/package/lib/xmpp/srv.js:94-99 | detaches both listeners and emits `connect` once |
| ConnectionCascade.Cascade.OnError | node_modules/.npm/node-xmpp/0.2.3/package/lib/xmpp/srv.js:101-104 | records the error and moves on to the next address |
| ConnectionCascade.TryConnect | node_modules/.npm/node-xmpp/0.2.3/package/lib/xmpp/srv.js:93-115 | the run of the listeners and the socket, for any sequence of socket reports, is `Run(addrs, outcomes, None)` |
| ConnectionCascade.RunInOrder | node_modules/.npm/node-xmpp/0.2.3/package/lib/xmpp/srv.js:105-111 | the addresses dialled are a prefix of the list, in list order; at most one event is emitted, it is `connect` exactly when the listeners were detached, and there is none exactly when an attempt is still in flight |
| ConnectionCascade.RunFirstSuccess | node_modules/.npm/node-xmpp/0.2.3/package/lib/xmpp/srv.js:94-111 | when attempt k is the first to succeed, exactly k + 1 addresses are dialled and `connect` is emitted with the listeners detached |
| ConnectionCascade.RunExhausted | node_modules/.npm/node-xmpp/0.2.3/package/lib/xmpp/srv.js:100-111 | when every attempt fails, each address is dialled once and `error` carries the last error (no error for an empty list) |
| ServiceConnect.QueryNames | node_modules/.npm/node-xmpp/0.2.3/package/lib/xmpp/srv.js:124 | each SRV query name is its label, a dot and the domain |
| ServiceConnect.FallbackRun | node_modules/.npm/node-xmpp/0.2.3/package/lib/xmpp/srv.js:130-140 | the fallback queries no SRV name and leaves the labels as they are; it dials nothing while `resolveHost` has not called back, and otherwise only the domain's addresses on the default port |
| ServiceConnect.LabelRun | node_modules/.npm/node-xmpp/0.2.3/package/lib/xmpp/srv.js:123-129 | `tryServices` moves on to the next label exactly when the label's SRV query failed |
| ServiceConnect.ServicesRun | node_modules/.npm/node-xmpp/0.2.3/package/lib/xmpp/srv.js:121-140 | the labels left in the array are a suffix of the list that starts after the last label queried, and queried plus leftover labels are at most the labels from position i on |
| ServiceConnect.QueriedInOrder | node_modules/.npm/node-xmpp/0.2.3/package/lib/xmpp/srv.js:122-124 | the SRV names queried are the labels from the current one on, in caller order, each followed by a dot and the domain |
| ServiceConnect.Connector.constructor | node_modules/.npm/node-xmpp/0.2.3/package/lib/xmpp/srv.js:118-119 | the caller's labels are held as given, and the new listener has emitted nothing |
| ServiceConnect.Connector.Shift | node_modules/.npm/node-xmpp/0.2.3/package/lib/xmpp/srv.js:122 | removes and returns the front label, or returns undefined and leaves the array empty |
| ServiceConnect.Connector.Emit | node_modules/.npm/node-xmpp/0.2.3/package/lib/xmpp/srv.js:139 | appends the events to what the listener has emitted, and leaves the labels alone |
| ServiceConnect.TryLabel | node_modules/.npm/node-xmpp/0.2.3/package/lib/xmpp/srv.js:123-129 | one label's SRV resolution either moves on (the SRV query failed) or hands its list to `tryConnect` and stops, as `LabelRun` says |
| ServiceConnect.Fallback | node_modules/.npm/node-xmpp/0.2.3/package/lib/xmpp/srv.js:130-140 | the domain's addresses go to `tryConnect` on the default port; without any, `error` is emitted with `resolveHost`'s error |
| ServiceConnect.Connect | node_modules/.npm/node-xmpp/0.2.3/package/lib/xmpp/srv.js:118-147 | the queries, the fallback, the labels left over, the addresses dialled and the events are exactly `ServicesRun` |
| ServiceConnect.FailedLabelsSkipped | node_modules/.npm/node-xmpp/0.2.3/package/lib/xmpp/srv.js:121-129 | labels whose SRV query fails are each queried once, in caller order, and passed over |
| ServiceConnect.AtMostOneEvent | node_modules/.npm/node-xmpp/0.2.3/package/lib/xmpp/srv.js:118-147 | the listener emits at most one event |
| ServiceConnect.FirstAnswerDecides | node_modules/.npm/node-xmpp/0.2.3/package/lib/xmpp/srv.js:121-129 | the first label whose SRV query answers decides: its list goes to `tryConnect`, later labels stay unqueried, there is no fallback, and an empty list emits `error` with no error value |
| ServiceConnect.AllLabelsFail | node_modules/.npm/node-xmpp/0.2.3/package/lib/xmpp/srv.js:121-140 | when every label fails, all are queried in order, the array ends empty, and what is dialled and emitted is the fallback's: the domain's addresses on the default port, with `tryConnect`'s events; without any, `error` carries `resolveHost`'s error |
| ServiceConnect.EmptyLabelFallsBack | node_modules/.npm/node-xmpp/0.2.3/package/lib/xmpp/srv.js:122-140 | an empty label switches to the fallback, which dials and emits exactly what it does when the list runs out, and leaves the labels after it in the array, unqueried |
| ServiceConnect.EmptySrvAnswerStalls | node_modules/.npm/node-xmpp/0.2.3/package/lib/xmpp/srv.js:124-129 | an SRV answer with no records leaves `connect` waiting: nothing is dialled, nothing is emitted, and there is no fallback |
| ServiceConnect.FallbackExample | node_modules/.npm/node-xmpp/0.2.3/package/lib/xmpp/srv.js:130-140 | a failing label `svcA`, a domain with the single A answer 10.0.0.5 and port 5222 dial 10.0.0.5:5222 first, and emit `connect` when that attempt succeeds |

Some helpers define pieces of `srv.js` without a contract of their own. Their
behaviour is stated by the rows of the members that use them:

- `Types.FirstError` is `error || e`, the first error kept (lines 52 and 78).
  `Accumulated` and `HostOutcomeError` state it.
- `HostResolution.JoinedReply` is the reply `resolveHost` passes on once both
  lookups have reported (lines 77-85). `HostOutcome` and `ResolveHost` state it.
- `Grouping.PushRecord` is one step of the grouping loop (lines 17-20), and
  `Grouping.Pushed` is that step applied over a prefix. `PushedAt`,
  `PushedKeys` and `PushedDomain` state them.
- `Grouping.PrefixWeight` and `Grouping.TotalWeight` are the running weight
  sums (lines 26-29 and 34). `CandidateAfter`, `SelectionKeepsLastOrFirst` and
  `GroupedPicks` state them.
- `SrvResolution.PerRecord` is the per-record lists with ports (lines 59-66).
  `IssueAll`, `GatheredCarriesRecordPorts` and `GatheredKeepsHostAddresses`
  state it.

## Left out

- DNS queries and socket connections are not performed. Their answers and
  reports are oracle parameters (`Resolver`, `ConnectResult`).
- Real asynchronous timing is not modelled. Interleaving is a completion
  order, and no timeout exists in the source or in the model.
- `Types.Scale` uses exact real arithmetic. The floating-point rounding of
  `Math.random() * n` is not modelled.
- `Decimal.ParseInt` reads leading decimal digits only. `parseInt`'s handling
  of leading blanks and signs is not modelled, because the keys it receives
  are always `String(priority)` for a non-negative integer priority.
- `Grouping.SortKeys`: V8's sort algorithm is modelled as insertion sort. On
  distinct numeric keys any correct sort gives the same order, and
  `SortKeysOfDecimals` proves that order.
- `Grouping.BuildGroups` returns its key list in the order the keys were
  first seen, standing for `Object.keys(groups)`. JavaScript's `Object.keys`
  lists integer-like keys in ascending order instead. `GroupSrvRecords` walks
  `SortKeys(keys)`, not the key list itself, and the sort makes both orders
  give the same result.
- SRV records are taken with non-negative integer priority, weight and port.
  Malformed DNS data is not modelled.
- The `EventEmitter` listener machinery is modelled by a `listening` flag and
  a sequence of emitted events.
- ConnectionCascade.Cascade.OnError requires an attempt in flight: the socket
  reports at most once per attempt. After the list runs out, `tryConnect`
  leaves both listeners attached (lines 100-110), so a further socket `error`
  would run `connectNext` again and emit a second `error`. The model excludes
  that report, and `ServiceConnect.AtMostOneEvent` holds only under this
  assumption.
- Types.Resolver answers each name through a fixed function. A name queried
  twice (a repeated label, or two selected records with the same target) gets
  the same answer both times; answers that change between queries are not
  modelled.
- `resolveSrv`'s `resolveHost` calls are required to complete both lookups.
  A host lookup that stalls shows up only as its record missing from the SRV
  completion order.
- The host-resolution calls inside `resolveSrv` all run before any of their
  callbacks. This matches Node's asynchronous DNS, which never calls back
  synchronously.
- `bot.js`, `idle_timeout.js`, the expat binding and the `ltx` element tests
  are not part of this model.
