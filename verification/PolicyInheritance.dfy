/** Named policies, their `inherits` chains, and the effective policy a chain adds up to. */
module PolicyInheritance {
  import opened Prelude

  datatype Policy = Policy(
    id: string,
    inherits: Option<string>,
    allowed: seq<string>,
    requiresApproval: seq<string>,
    forbidden: seq<string>)

  type PolicyTable = map<string, Policy>

  datatype PolicyError = InheritanceCycle(at: string) | UnknownInherited(name: string)

  // ---------------------------------------------------------------- duplicate-free lists

  function AppendNew(target: seq<string>, values: seq<string>): seq<string>
    decreases |values|
  {
    if values == [] then target
    else AppendNew(if values[0] in target then target else target + [values[0]], values[1..])
  }

  method ExtendUnique(target: seq<string>, values: seq<string>) returns (extended: seq<string>)
    ensures extended == AppendNew(target, values)
  {
    extended := target;
    var i := 0;
    while i < |values|
      invariant 0 <= i <= |values|
      invariant AppendNew(extended, values[i..]) == AppendNew(target, values)
    {
      assert values[i..][1..] == values[i + 1..];
      if values[i] !in extended {
        extended := extended + [values[i]];
      }
      i := i + 1;
    }
  }

  function FirstIndex(s: seq<string>, x: string): nat
    requires x in s
    ensures FirstIndex(s, x) < |s| && s[FirstIndex(s, x)] == x
    ensures forall i :: 0 <= i < FirstIndex(s, x) ==> s[i] != x
  {
    if s[0] == x then 0 else 1 + FirstIndex(s[1..], x)
  }

  /** The values of `s`, each once, ordered by first occurrence. */
  ghost predicate ListsOnce(r: seq<string>, s: seq<string>) {
    && (forall x :: x in r <==> x in s)
    && (forall i, j :: 0 <= i < j < |r| ==> r[i] in s && r[j] in s && FirstIndex(s, r[i]) < FirstIndex(s, r[j]))
  }

  lemma FirstIndexAppend(a: seq<string>, v: string, x: string)
    requires x in a + [v]
    ensures FirstIndex(a + [v], x) == if x in a then FirstIndex(a, x) else |a|
  {
    var k' := FirstIndex(a + [v], x);
    if x in a {
      var k := FirstIndex(a, x);
      assert (a + [v])[k] == x && k' <= k;
      assert (a + [v])[k'] == a[k'];
    } else {
      assert forall i :: 0 <= i < |a| ==> (a + [v])[i] != x;
    }
  }

  lemma ListsOnceStep(r: seq<string>, done: seq<string>, v: string)
    requires ListsOnce(r, done)
    ensures ListsOnce(if v in r then r else r + [v], done + [v])
  {
    var r' := if v in r then r else r + [v];
    forall i, j | 0 <= i < j < |r'|
      ensures r'[i] in done + [v] && r'[j] in done + [v]
      ensures FirstIndex(done + [v], r'[i]) < FirstIndex(done + [v], r'[j])
    {
      FirstIndexAppend(done, v, r'[i]);
      FirstIndexAppend(done, v, r'[j]);
      assert r'[i] == r[i];
    }
  }

  lemma {:induction false} AppendNewTwice(r: seq<string>, a: seq<string>, b: seq<string>)
    ensures AppendNew(AppendNew(r, a), b) == AppendNew(r, a + b)
    decreases |a|
  {
    if a == [] {
      assert a + b == b;
    } else {
      assert (a + b)[1..] == a[1..] + b;
      AppendNewTwice(if a[0] in r then r else r + [a[0]], a[1..], b);
    }
  }

  /** Collecting a list into an empty one keeps each of its values once, in order of first occurrence. */
  lemma {:induction false} CollectListsOnce(values: seq<string>)
    ensures ListsOnce(AppendNew([], values), values)
    decreases |values|
  {
    if values != [] {
      var n := |values| - 1;
      var front, v := values[..n], values[n];
      assert front + [v] == values;
      var r := AppendNew([], front);
      AppendNewTwice([], front, [v]);
      assert AppendNew(r, [v]) == if v in r then r else r + [v];
      CollectListsOnce(front);
      ListsOnceStep(r, front, v);
    }
  }

  lemma {:induction false} AppendDistinct(r: seq<string>, s: seq<string>)
    requires Distinct(r + s)
    ensures AppendNew(r, s) == r + s
    decreases |s|
  {
    if s == [] {
      assert r + s == r;
    } else {
      assert (r + s)[|r|] == s[0];
      assert forall i :: 0 <= i < |r| ==> (r + s)[i] == r[i];
      assert s[0] !in r;
      assert r + [s[0]] + s[1..] == r + s;
      AppendDistinct(r + [s[0]], s[1..]);
    }
  }

  lemma ListsOnceDistinct(r: seq<string>, s: seq<string>)
    requires ListsOnce(r, s)
    ensures Distinct(r)
  {
  }

  /** Extending an empty list by an already duplicate-free list, then by more values. */
  lemma AppendNewFresh(a: seq<string>, b: seq<string>)
    ensures AppendNew(AppendNew([], AppendNew([], a)), b) == AppendNew([], a + b)
  {
    CollectListsOnce(a);
    ListsOnceDistinct(AppendNew([], a), a);
    assert [] + AppendNew([], a) == AppendNew([], a);
    AppendDistinct([], AppendNew([], a));
    AppendNewTwice([], a, b);
  }

  // ---------------------------------------------------------------- resolving

  function Resolve(table: PolicyTable, policy: Policy, seen: set<string>): Result<Policy, PolicyError>
    decreases table.Keys - seen
  {
    match policy.inherits
    case None =>
      Ok(policy.(allowed := AppendNew([], policy.allowed),
                 requiresApproval := AppendNew([], policy.requiresApproval),
                 forbidden := AppendNew([], policy.forbidden)))
    case Some(name) =>
      if name in seen then Err(InheritanceCycle(name))
      else if name !in table then Err(UnknownInherited(name))
      else
        assert name in table.Keys - seen;
        match Resolve(table, table[name], seen + {name})
        case Err(e) => Err(e)
        case Ok(parent) =>
          Ok(policy.(allowed := AppendNew(AppendNew([], parent.allowed), policy.allowed),
                     requiresApproval := AppendNew(AppendNew([], parent.requiresApproval), policy.requiresApproval),
                     forbidden := AppendNew(AppendNew([], parent.forbidden), policy.forbidden)))
  }

  method ResolvePolicy(table: PolicyTable, policy: Policy, seen: set<string>)
    returns (result: Result<Policy, PolicyError>)
    ensures result == Resolve(table, policy, seen)
    decreases table.Keys - seen
  {
    var effective := policy.(allowed := [], requiresApproval := [], forbidden := []);
    if policy.inherits.Some? {
      var name := policy.inherits.value;
      if name in seen {
        return Err(InheritanceCycle(name));
      }
      if name !in table {
        return Err(UnknownInherited(name));
      }
      assert name in table.Keys - seen;
      var inherited := ResolvePolicy(table, table[name], seen + {name});
      if inherited.Err? {
        return Err(inherited.error);
      }
      var parent := inherited.value;
      var allowed := ExtendUnique(effective.allowed, parent.allowed);
      var requiresApproval := ExtendUnique(effective.requiresApproval, parent.requiresApproval);
      var forbidden := ExtendUnique(effective.forbidden, parent.forbidden);
      effective := effective.(allowed := allowed, requiresApproval := requiresApproval, forbidden := forbidden);
    }
    var allowed := ExtendUnique(effective.allowed, policy.allowed);
    var requiresApproval := ExtendUnique(effective.requiresApproval, policy.requiresApproval);
    var forbidden := ExtendUnique(effective.forbidden, policy.forbidden);
    result := Ok(effective.(allowed := allowed, requiresApproval := requiresApproval, forbidden := forbidden));
  }

  // ---------------------------------------------------------------- chains

  /** The chain from `policy` reaches a policy that inherits nothing after exactly `n` known links. */
  ghost predicate ChainLength(table: PolicyTable, policy: Policy, n: nat)
    decreases n
  {
    match policy.inherits
    case None => n == 0
    case Some(name) => n > 0 && name in table && ChainLength(table, table[name], n - 1)
  }

  ghost predicate FiniteKnownChain(table: PolicyTable, policy: Policy) {
    exists n: nat :: ChainLength(table, policy, n)
  }

  /** Following `n` known links from `policy` and then one more leads to the name `name`. */
  ghost predicate InheritsName(table: PolicyTable, policy: Policy, name: string, n: nat)
    decreases n
  {
    match policy.inherits
    case None => false
    case Some(first) =>
      if n == 0 then first == name
      else first in table && InheritsName(table, table[first], name, n - 1)
  }

  /** The policies of a chain, the one that inherits nothing first. */
  ghost function Lineage(table: PolicyTable, policy: Policy, n: nat): seq<Policy>
    requires ChainLength(table, policy, n)
    decreases n
  {
    if policy.inherits.None? then [policy]
    else Lineage(table, table[policy.inherits.value], n - 1) + [policy]
  }

  function AllAllowed(ps: seq<Policy>): seq<string> {
    if ps == [] then [] else AllAllowed(ps[..|ps| - 1]) + ps[|ps| - 1].allowed
  }

  function AllRequiresApproval(ps: seq<Policy>): seq<string> {
    if ps == [] then [] else AllRequiresApproval(ps[..|ps| - 1]) + ps[|ps| - 1].requiresApproval
  }

  function AllForbidden(ps: seq<Policy>): seq<string> {
    if ps == [] then [] else AllForbidden(ps[..|ps| - 1]) + ps[|ps| - 1].forbidden
  }

  lemma {:induction false} ChainLengthUnique(table: PolicyTable, policy: Policy, m: nat, n: nat)
    requires ChainLength(table, policy, m) && ChainLength(table, policy, n)
    ensures m == n
    decreases n
  {
    if policy.inherits.Some? {
      ChainLengthUnique(table, table[policy.inherits.value], m - 1, n - 1);
    }
  }

  /** On a finite chain of length `n`, a name met after `k` links is known and has the shorter chain left. */
  lemma {:induction false} ChainTail(table: PolicyTable, policy: Policy, n: nat, name: string, k: nat)
    requires ChainLength(table, policy, n) && InheritsName(table, policy, name, k)
    ensures k < n && name in table && ChainLength(table, table[name], n - 1 - k)
    decreases k
  {
    if k > 0 {
      ChainTail(table, table[policy.inherits.value], n - 1, name, k - 1);
    }
  }

  /** The policies in `seen` are none of those still ahead on a finite chain. */
  ghost predicate Ahead(table: PolicyTable, seen: set<string>, n: nat) {
    forall s, m: nat :: s in seen && s in table && ChainLength(table, table[s], m) ==> m >= n
  }

  ghost function Added(policy: Policy, ps: seq<Policy>): Policy {
    policy.(allowed := AppendNew([], AllAllowed(ps)),
            requiresApproval := AppendNew([], AllRequiresApproval(ps)),
            forbidden := AppendNew([], AllForbidden(ps)))
  }

  lemma {:induction false} ResolveAlongChain(table: PolicyTable, policy: Policy, seen: set<string>, n: nat)
    requires ChainLength(table, policy, n) && Ahead(table, seen, n)
    requires seen <= table.Keys
    ensures Resolve(table, policy, seen) == Ok(Added(policy, Lineage(table, policy, n)))
    decreases n
  {
    var ps := Lineage(table, policy, n);
    if policy.inherits.None? {
      assert ps[..0] == [];
      assert AllAllowed([]) + policy.allowed == policy.allowed;
      assert AllRequiresApproval([]) + policy.requiresApproval == policy.requiresApproval;
      assert AllForbidden([]) + policy.forbidden == policy.forbidden;
    } else {
      var name := policy.inherits.value;
      forall s, m: nat | s in seen + {name} && ChainLength(table, table[s], m) ensures m >= n - 1 {
        if s == name { ChainLengthUnique(table, table[name], m, n - 1); }
      }
      ResolveAlongChain(table, table[name], seen + {name}, n - 1);
      var above := Lineage(table, table[name], n - 1);
      assert ps[..|ps| - 1] == above;
      AppendNewFresh(AllAllowed(above), policy.allowed);
      AppendNewFresh(AllRequiresApproval(above), policy.requiresApproval);
      AppendNewFresh(AllForbidden(above), policy.forbidden);
    }
  }

  /** The chain from the policy `name` comes back to `name`. */
  ghost predicate InheritsItself(table: PolicyTable, name: string) {
    name in table && exists k: nat :: InheritsName(table, table[name], name, k)
  }

  /** What an outcome says about the chain, `n` being how many links were followed. */
  ghost predicate Witnessed(table: PolicyTable, policy: Policy, seen: set<string>, result: Result<Policy, PolicyError>,
                            n: nat)
  {
    match result
    case Ok(_) => ChainLength(table, policy, n)
    case Err(UnknownInherited(name)) => InheritsName(table, policy, name, n) && name !in table
    case Err(InheritanceCycle(name)) =>
      InheritsName(table, policy, name, n) && (name in seen || InheritsItself(table, name))
  }

  lemma {:induction false} OutcomeWitness(table: PolicyTable, policy: Policy, seen: set<string>) returns (n: nat)
    ensures Witnessed(table, policy, seen, Resolve(table, policy, seen), n)
    decreases table.Keys - seen
  {
    n := 0;
    if policy.inherits.Some? {
      var name := policy.inherits.value;
      if name !in seen && name in table {
        assert name in table.Keys - seen;
        var m := OutcomeWitness(table, table[name], seen + {name});
        n := m + 1;
        var inherited := Resolve(table, table[name], seen + {name});
        if inherited.Err? {
          assert Resolve(table, policy, seen) == Err(inherited.error);
          if inherited.error.InheritanceCycle? && inherited.error.at == name {
            assert InheritsName(table, table[name], name, m);
          }
        }
      }
    }
  }

  /** The chain from `policy` runs into a name no policy has. */
  ghost predicate EndsAtUnknown(table: PolicyTable, policy: Policy, name: string) {
    name !in table && exists n: nat :: InheritsName(table, policy, name, n)
  }

  /** The chain from `policy` reaches the policy `name`, which inherits itself. */
  ghost predicate RunsIntoLoop(table: PolicyTable, policy: Policy, name: string) {
    InheritsItself(table, name) && exists n: nat :: InheritsName(table, policy, name, n)
  }

  /** Resolving succeeds exactly on the finite chains of known policies. */
  lemma ResolveSucceedsIff(table: PolicyTable, policy: Policy)
    ensures Resolve(table, policy, {}).Ok? <==> FiniteKnownChain(table, policy)
  {
    var n := OutcomeWitness(table, policy, {});
    if m: nat :| ChainLength(table, policy, m) {
      ResolveAlongChain(table, policy, {}, m);
    }
  }

  /** The name met after `j` links has been met before, or is among `seen`. */
  ghost predicate MetAgain(table: PolicyTable, policy: Policy, seen: set<string>, name: string, j: nat) {
    && InheritsName(table, policy, name, j)
    && (name in seen || exists i: nat :: i < j && InheritsName(table, policy, name, i))
  }

  /** And no name before it had been. */
  ghost predicate FirstMetAgain(table: PolicyTable, policy: Policy, seen: set<string>, name: string, j: nat) {
    && MetAgain(table, policy, seen, name, j)
    && forall i: nat, other: string :: i < j ==> !MetAgain(table, policy, seen, other, i)
  }

  /** Past its first link, a chain meets names again as the rest of it does, the first one being seen. */
  lemma MetAgainPast(table: PolicyTable, policy: Policy, seen: set<string>, first: string, name: string, j: nat)
    requires policy.inherits == Some(first) && first in table
    ensures MetAgain(table, policy, seen, name, j + 1) <==> MetAgain(table, table[first], seen + {first}, name, j)
  {
    var rest := table[first];
    assert forall i: nat :: InheritsName(table, policy, name, i + 1) <==> InheritsName(table, rest, name, i);
    if MetAgain(table, policy, seen, name, j + 1) && name !in seen {
      var i: nat :| i < j + 1 && InheritsName(table, policy, name, i);
      if i > 0 { assert InheritsName(table, rest, name, i - 1); }
    }
    if MetAgain(table, rest, seen + {first}, name, j) && name !in seen {
      if name == first {
        assert InheritsName(table, policy, name, 0);
      } else {
        var i: nat :| i < j && InheritsName(table, rest, name, i);
        assert InheritsName(table, policy, name, i + 1);
      }
    }
  }

  lemma FirstMetAgainPast(table: PolicyTable, policy: Policy, seen: set<string>, first: string, name: string, j: nat)
    requires policy.inherits == Some(first) && first in table && first !in seen
    ensures FirstMetAgain(table, policy, seen, name, j + 1)
            <==> FirstMetAgain(table, table[first], seen + {first}, name, j)
  {
    var rest := table[first];
    MetAgainPast(table, policy, seen, first, name, j);
    forall i: nat, other: string
      ensures MetAgain(table, policy, seen, other, i + 1) <==> MetAgain(table, rest, seen + {first}, other, i)
    {
      MetAgainPast(table, policy, seen, first, other, i);
    }
    if FirstMetAgain(table, policy, seen, name, j + 1) {
      forall i: nat, other: string | i < j ensures !MetAgain(table, rest, seen + {first}, other, i) {
        assert !MetAgain(table, policy, seen, other, i + 1);
      }
    }
    if FirstMetAgain(table, rest, seen + {first}, name, j) {
      forall i: nat, other: string | i < j + 1 ensures !MetAgain(table, policy, seen, other, i) {
        if i > 0 { assert !MetAgain(table, rest, seen + {first}, other, i - 1); }
      }
    }
  }

  lemma {:induction false} CycleAtFirstMetAgain(table: PolicyTable, policy: Policy, seen: set<string>, name: string)
    ensures Resolve(table, policy, seen) == Err(InheritanceCycle(name))
       <==> exists j: nat :: FirstMetAgain(table, policy, seen, name, j)
    decreases table.Keys - seen
  {
    if policy.inherits.Some? {
      var first := policy.inherits.value;
      if first in seen {
        assert MetAgain(table, policy, seen, first, 0);
        assert name == first ==> FirstMetAgain(table, policy, seen, name, 0);
      } else if first in table {
        assert first in table.Keys - seen;
        CycleAtFirstMetAgain(table, table[first], seen + {first}, name);
        if j: nat :| FirstMetAgain(table, table[first], seen + {first}, name, j) {
          FirstMetAgainPast(table, policy, seen, first, name, j);
          assert FirstMetAgain(table, policy, seen, name, j + 1);
        }
        if j: nat :| FirstMetAgain(table, policy, seen, name, j) {
          assert j > 0;
          FirstMetAgainPast(table, policy, seen, first, name, j - 1);
        }
      }
    }
  }

  /** The two failures, each exactly: the name no policy has at which the chain ends, or the first inherited name that
      the chain meets twice. */
  lemma ResolveFailsIff(table: PolicyTable, policy: Policy, name: string)
    ensures Resolve(table, policy, {}) == Err(UnknownInherited(name)) <==> EndsAtUnknown(table, policy, name)
    ensures Resolve(table, policy, {}) == Err(InheritanceCycle(name))
       <==> exists j: nat :: FirstMetAgain(table, policy, {}, name, j)
    ensures Resolve(table, policy, {}) == Err(InheritanceCycle(name)) ==> RunsIntoLoop(table, policy, name)
    ensures RunsIntoLoop(table, policy, name) ==>
              Resolve(table, policy, {}).Err? && Resolve(table, policy, {}).error.InheritanceCycle?
  {
    var result := Resolve(table, policy, {});
    CycleAtFirstMetAgain(table, policy, {}, name);
    var n := OutcomeWitness(table, policy, {});
    if EndsAtUnknown(table, policy, name) {
      var k: nat :| InheritsName(table, policy, name, k);
      match result
      case Ok(_) => ChainTail(table, policy, n, name, k);
      case Err(UnknownInherited(other)) => OneDeadEnd(table, policy, name, k, other, n);
      case Err(InheritanceCycle(other)) =>
        var loop: nat :| InheritsName(table, table[other], other, loop);
        LoopHasNoDeadEnd(table, policy, name, k, other, n, loop);
    }
    if RunsIntoLoop(table, policy, name) {
      var k: nat :| InheritsName(table, policy, name, k);
      var loop: nat :| InheritsName(table, table[name], name, loop);
      match result
      case Ok(_) =>
        ChainTail(table, policy, n, name, k);
        ChainTail(table, table[name], n - 1 - k, name, loop);
        ChainLengthUnique(table, table[name], n - 1 - k, n - 2 - k - loop);
      case Err(UnknownInherited(other)) => LoopHasNoDeadEnd(table, policy, other, n, name, k, loop);
      case Err(InheritanceCycle(_)) =>
    }
  }

  lemma {:induction false} OneDeadEnd(table: PolicyTable, policy: Policy, a: string, m: nat, b: string, n: nat)
    requires InheritsName(table, policy, a, m) && InheritsName(table, policy, b, n)
    requires a !in table && b !in table
    ensures a == b
    decreases m
  {
    if m > 0 && n > 0 {
      OneDeadEnd(table, table[policy.inherits.value], a, m - 1, b, n - 1);
    }
  }

  /** A chain that enters a loop never leaves the known policies. */
  lemma {:induction false} LoopHasNoDeadEnd(table: PolicyTable, policy: Policy, dead: string, k: nat,
                                            name: string, n: nat, loop: nat)
    requires InheritsName(table, policy, dead, k) && dead !in table
    requires name in table && InheritsName(table, policy, name, n) && InheritsName(table, table[name], name, loop)
    ensures false
    decreases k
  {
    if k > 0 {
      if n > 0 {
        LoopHasNoDeadEnd(table, table[policy.inherits.value], dead, k - 1, name, n - 1, loop);
      } else {
        LoopHasNoDeadEnd(table, table[name], dead, k - 1, name, loop, loop);
      }
    }
  }

  /**
   When resolving succeeds, each list is the root-first union along the chain, each value once in
   order of first occurrence.
   */
  lemma EffectiveListsUnion(table: PolicyTable, policy: Policy, n: nat)
    requires ChainLength(table, policy, n)
    ensures var ps := Lineage(table, policy, n);
            var result := Resolve(table, policy, {});
            && result.Ok?
            && result.value.id == policy.id && result.value.inherits == policy.inherits
            && ListsOnce(result.value.allowed, AllAllowed(ps))
            && ListsOnce(result.value.requiresApproval, AllRequiresApproval(ps))
            && ListsOnce(result.value.forbidden, AllForbidden(ps))
  {
    ResolveAlongChain(table, policy, {}, n);
    var ps := Lineage(table, policy, n);
    CollectListsOnce(AllAllowed(ps));
    CollectListsOnce(AllRequiresApproval(ps));
    CollectListsOnce(AllForbidden(ps));
  }

  lemma {:induction false} ForbiddenOfMember(ps: seq<Policy>, i: nat, value: string)
    requires i < |ps| && value in ps[i].forbidden
    ensures value in AllForbidden(ps)
    decreases |ps|
  {
    if i < |ps| - 1 {
      ForbiddenOfMember(ps[..|ps| - 1], i, value);
    }
  }

  lemma {:induction false} LineageMember(table: PolicyTable, policy: Policy, n: nat, name: string, k: nat)
    requires ChainLength(table, policy, n) && InheritsName(table, policy, name, k) && name in table
    ensures exists i :: 0 <= i < |Lineage(table, policy, n)| && Lineage(table, policy, n)[i] == table[name]
    decreases k
  {
    var parent := table[policy.inherits.value];
    var above := Lineage(table, parent, n - 1);
    if k == 0 {
      LineageLast(table, parent, n - 1);
      assert Lineage(table, policy, n)[|above| - 1] == table[name];
    } else {
      LineageMember(table, parent, n - 1, name, k - 1);
      var i :| 0 <= i < |above| && above[i] == table[name];
      assert Lineage(table, policy, n)[i] == table[name];
    }
  }

  lemma {:induction false} LineageLast(table: PolicyTable, policy: Policy, n: nat)
    requires ChainLength(table, policy, n)
    ensures var ps := Lineage(table, policy, n); |ps| == n + 1 && ps[n] == policy
    decreases n
  {
    if n > 0 { LineageLast(table, table[policy.inherits.value], n - 1); }
  }

  /** `policy` itself, or a known policy its chain inherits from, forbids `value`. */
  ghost predicate ForbiddenOnChain(table: PolicyTable, policy: Policy, value: string) {
    || value in policy.forbidden
    || exists name, k: nat :: name in table && InheritsName(table, policy, name, k) && value in table[name].forbidden
  }

  lemma {:induction false} ForbiddenFromMember(ps: seq<Policy>, value: string) returns (i: nat)
    requires value in AllForbidden(ps)
    ensures i < |ps| && value in ps[i].forbidden
    decreases |ps|
  {
    var n := |ps| - 1;
    if value in ps[n].forbidden {
      i := n;
    } else {
      i := ForbiddenFromMember(ps[..n], value);
    }
  }

  lemma {:induction false} LineageIsChain(table: PolicyTable, policy: Policy, n: nat, i: nat)
    returns (name: string, k: nat)
    requires ChainLength(table, policy, n) && i <= n
    ensures |Lineage(table, policy, n)| == n + 1
    ensures var p := Lineage(table, policy, n)[i];
            p == policy || (name in table && InheritsName(table, policy, name, k) && p == table[name])
    decreases n
  {
    name, k := "", 0;
    LineageLast(table, policy, n);
    if i < n {
      var first := policy.inherits.value;
      name, k := LineageIsChain(table, table[first], n - 1, i);
      if Lineage(table, table[first], n - 1)[i] == table[first] {
        name, k := first, 0;
      } else {
        k := k + 1;
      }
    }
  }

  /** A child keeps exactly what it or a policy on its chain forbids. */
  lemma ForbiddenIffOnChain(table: PolicyTable, policy: Policy, value: string)
    requires Resolve(table, policy, {}).Ok?
    ensures value in Resolve(table, policy, {}).value.forbidden <==> ForbiddenOnChain(table, policy, value)
  {
    ResolveSucceedsIff(table, policy);
    var n: nat :| ChainLength(table, policy, n);
    EffectiveListsUnion(table, policy, n);
    var ps := Lineage(table, policy, n);
    LineageLast(table, policy, n);
    if value in policy.forbidden {
      ForbiddenOfMember(ps, n, value);
    } else if ForbiddenOnChain(table, policy, value) {
      var name, k: nat :| name in table && InheritsName(table, policy, name, k) && value in table[name].forbidden;
      LineageMember(table, policy, n, name, k);
      var i :| 0 <= i < |ps| && ps[i] == table[name];
      ForbiddenOfMember(ps, i, value);
    }
    if value in Resolve(table, policy, {}).value.forbidden {
      var i := ForbiddenFromMember(ps, value);
      var name, k := LineageIsChain(table, policy, n, i);
    }
  }
}
