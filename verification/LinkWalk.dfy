/**
 The depth-bounded walk that the skill registry runs over its link graph, and what it visits.

 The registry walks its (possibly cyclic) graph twice: once to list the dependency closure, once to
 plan what to load.  Both walks have the same shape, so the shape is defined once here.  A known id
 has an ordered list of steps; an `Enter` step visits an id, a `Skip` step only notes one.  Either is
 ignored when the id has been entered before.  An id entered with no depth left is not expanded, and
 is not expanded later either.
 */
module LinkWalk {
  import opened Prelude

  type Id = string

  datatype Step<D> = Enter(id: Id, note: D) | Skip(id: Id, note: D)

  /** `seen` is the visited set, `trace` what the walk has written down so far. */
  datatype Walk<D> = Walk(seen: set<Id>, trace: seq<Step<D>>)

  type Links<D> = map<Id, seq<Step<D>>>

  function StepsOf<D>(links: Links<D>, id: Id): seq<Step<D>> {
    if id in links then links[id] else []
  }

  /** One step with `left` more edges allowed below it. */
  function Visit<D>(links: Links<D>, step: Step<D>, left: nat, w: Walk<D>): Walk<D>
    decreases left, 0
  {
    if step.id in w.seen then w
    else if step.Skip? then w.(trace := w.trace + [step])
    else
      var entered := Walk(w.seen + {step.id}, w.trace + [step]);
      if left == 0 then entered
      else VisitAll(links, StepsOf(links, step.id), left - 1, entered)
  }

  function VisitAll<D>(links: Links<D>, steps: seq<Step<D>>, left: nat, w: Walk<D>): Walk<D>
    decreases left, 1 + |steps|
  {
    if steps == [] then w
    else VisitAll(links, steps[1..], left, Visit(links, steps[0], left, w))
  }

  /** The ids a trace enters, in order. */
  function Entered<D>(trace: seq<Step<D>>): seq<Id> {
    if trace == [] then []
    else (if trace[0].Enter? then [trace[0].id] else []) + Entered(trace[1..])
  }

  /** `to` can be reached from `from` over at most `n` enter edges. */
  ghost predicate ReachIn<D>(links: Links<D>, from: Id, to: Id, n: nat)
    decreases n
  {
    from == to || (n > 0 && exists s :: s in StepsOf(links, from) && s.Enter? && ReachIn(links, s.id, to, n - 1))
  }

  // ---------------------------------------------------------------- concatenation

  lemma {:induction false} EnteredAppend<D>(a: seq<Step<D>>, b: seq<Step<D>>)
    ensures Entered(a + b) == Entered(a) + Entered(b)
  {
    if a == [] {
      assert a + b == b;
    } else {
      assert (a + b)[0] == a[0] && (a + b)[1..] == a[1..] + b;
      EnteredAppend(a[1..], b);
    }
  }

  lemma {:induction false} VisitAllAppend<D>(links: Links<D>, a: seq<Step<D>>, b: seq<Step<D>>, left: nat, w: Walk<D>)
    ensures VisitAll(links, a + b, left, w) == VisitAll(links, b, left, VisitAll(links, a, left, w))
    decreases |a|
  {
    if a == [] {
      assert a + b == b;
    } else {
      assert (a + b)[1..] == a[1..] + b;
      VisitAllAppend(links, a[1..], b, left, Visit(links, a[0], left, w));
    }
  }

  lemma VisitAllOne<D>(links: Links<D>, step: Step<D>, left: nat, w: Walk<D>)
    ensures VisitAll(links, [step], left, w) == Visit(links, step, left, w)
  {
    assert [step][1..] == [];
  }

  // ---------------------------------------------------------------- the trace

  /** No id is entered twice, and the visited set is exactly the entered ids. */
  ghost predicate Consistent<D>(w: Walk<D>)
  {
    && Distinct(Entered(w.trace))
    && (forall id :: id in w.seen <==> id in Entered(w.trace))
  }

  lemma AppendStep<D>(w: Walk<D>, step: Step<D>)
    requires Consistent(w)
    ensures step.Skip? ==> Consistent(w.(trace := w.trace + [step]))
    ensures step.Enter? && step.id !in w.seen ==> Consistent(Walk(w.seen + {step.id}, w.trace + [step]))
  {
    EnteredAppend(w.trace, [step]);
    assert Entered([step]) == if step.Enter? then [step.id] else [];
  }

  lemma {:induction false} VisitConsistent<D>(links: Links<D>, step: Step<D>, left: nat, w: Walk<D>)
    requires Consistent(w)
    ensures Consistent(Visit(links, step, left, w))
    decreases left, 0
  {
    AppendStep(w, step);
    if step.id !in w.seen && step.Enter? && left > 0 {
      VisitAllConsistent(links, StepsOf(links, step.id), left - 1, Walk(w.seen + {step.id}, w.trace + [step]));
    }
  }

  /** Every walk keeps the trace free of repeated entries. */
  lemma {:induction false} VisitAllConsistent<D>(links: Links<D>, steps: seq<Step<D>>, left: nat, w: Walk<D>)
    requires Consistent(w)
    ensures Consistent(VisitAll(links, steps, left, w))
    decreases left, 1 + |steps|
  {
    if steps != [] {
      VisitConsistent(links, steps[0], left, w);
      VisitAllConsistent(links, steps[1..], left, Visit(links, steps[0], left, w));
    }
  }

  /** A walk only appends to its trace and only adds to its visited set. */
  ghost predicate Extends<D>(w: Walk<D>, w': Walk<D>)
  {
    w.trace <= w'.trace && w.seen <= w'.seen
  }

  lemma {:induction false} VisitExtends<D>(links: Links<D>, step: Step<D>, left: nat, w: Walk<D>)
    ensures Extends(w, Visit(links, step, left, w))
    ensures step.Enter? ==> step.id in Visit(links, step, left, w).seen
    decreases left, 0
  {
    if step.id !in w.seen && step.Enter? && left > 0 {
      VisitAllExtends(links, StepsOf(links, step.id), left - 1, Walk(w.seen + {step.id}, w.trace + [step]));
    }
  }

  lemma {:induction false} VisitAllExtends<D>(links: Links<D>, steps: seq<Step<D>>, left: nat, w: Walk<D>)
    ensures Extends(w, VisitAll(links, steps, left, w))
    ensures forall s :: s in steps && s.Enter? ==> s.id in VisitAll(links, steps, left, w).seen
    decreases left, 1 + |steps|
  {
    if steps != [] {
      VisitExtends(links, steps[0], left, w);
      VisitAllExtends(links, steps[1..], left, Visit(links, steps[0], left, w));
    }
  }

  // ---------------------------------------------------------------- where entries come from

  /**
   Entry `i` of a trace is accounted for: it is one of the walk's own first steps, or a step of an id
   entered at an earlier position; and the id it names has not been entered before it.
   */
  ghost predicate Justified<D>(links: Links<D>, first: seq<Step<D>>, trace: seq<Step<D>>, i: nat)
    requires i < |trace|
  {
    && (trace[i] in first || exists j :: 0 <= j < i && trace[j].Enter? && trace[i] in StepsOf(links, trace[j].id))
    && trace[i].id !in Entered(trace[..i])
  }

  /** Every entry from position `start` on is justified. */
  ghost predicate JustifiedFrom<D>(links: Links<D>, first: seq<Step<D>>, trace: seq<Step<D>>, start: nat)
  {
    forall i: nat :: start <= i < |trace| ==> Justified(links, first, trace, i)
  }

  lemma JustifiedInLonger<D>(links: Links<D>, first: seq<Step<D>>, first': seq<Step<D>>,
                             trace: seq<Step<D>>, trace': seq<Step<D>>, i: nat)
    requires i < |trace| && trace <= trace'
    requires Justified(links, first, trace, i)
    requires forall s :: s in first ==>
               s in first' || exists j :: 0 <= j < i && trace'[j].Enter? && s in StepsOf(links, trace'[j].id)
    ensures Justified(links, first', trace', i)
  {
    assert trace'[..i] == trace[..i];
    assert trace'[i] == trace[i];
    if trace[i] !in first {
      var j :| 0 <= j < i && trace[j].Enter? && trace[i] in StepsOf(links, trace[j].id);
      assert trace'[j] == trace[j];
    }
  }

  lemma {:induction false} VisitJustified<D>(links: Links<D>, step: Step<D>, left: nat, w: Walk<D>)
    requires Consistent(w)
    ensures JustifiedFrom(links, [step], Visit(links, step, left, w).trace, |w.trace|)
    decreases left, 0
  {
    var w' := Visit(links, step, left, w);
    VisitExtends(links, step, left, w);
    if step.id !in w.seen {
      var n := |w.trace|;
      var entered := Walk(if step.Enter? then w.seen + {step.id} else w.seen, w.trace + [step]);
      AppendStep(w, step);
      if step.Enter? && left > 0 {
        var below := StepsOf(links, step.id);
        VisitAllExtends(links, below, left - 1, entered);
        VisitAllJustified(links, below, left - 1, entered);
        assert w' == VisitAll(links, below, left - 1, entered);
        forall i: nat | n < i < |w'.trace| ensures Justified(links, [step], w'.trace, i) {
          assert w'.trace[n] == step;
          JustifiedInLonger(links, below, [step], w'.trace, w'.trace, i);
        }
      }
      assert entered.trace <= w'.trace;
      assert w'.trace[n] == entered.trace[n] == step;
      assert w'.trace[..n] == w.trace;
    }
  }

  /** Everything a walk writes down is justified: this is pre-order, and a skip never follows its id's entry. */
  lemma {:induction false} VisitAllJustified<D>(links: Links<D>, steps: seq<Step<D>>, left: nat, w: Walk<D>)
    requires Consistent(w)
    ensures JustifiedFrom(links, steps, VisitAll(links, steps, left, w).trace, |w.trace|)
    decreases left, 1 + |steps|
  {
    if steps != [] {
      var mid := Visit(links, steps[0], left, w);
      var w' := VisitAll(links, steps[1..], left, mid);
      VisitExtends(links, steps[0], left, w);
      VisitConsistent(links, steps[0], left, w);
      VisitJustified(links, steps[0], left, w);
      VisitAllExtends(links, steps[1..], left, mid);
      VisitAllJustified(links, steps[1..], left, mid);
      forall i: nat | |w.trace| <= i < |w'.trace| ensures Justified(links, steps, w'.trace, i) {
        if i < |mid.trace| {
          JustifiedInLonger(links, [steps[0]], steps, mid.trace, w'.trace, i);
        } else {
          JustifiedInLonger(links, steps[1..], steps, w'.trace, w'.trace, i);
        }
      }
    }
  }

  // ---------------------------------------------------------------- soundness: only reachable ids

  lemma {:induction false} VisitReachable<D>(links: Links<D>, step: Step<D>, left: nat, w: Walk<D>, id: Id)
    requires id in Visit(links, step, left, w).seen && id !in w.seen
    ensures step.Enter? && ReachIn(links, step.id, id, left)
    decreases left, 0
  {
    if step.id !in w.seen && step.Enter? && left > 0 && id != step.id {
      var s := VisitAllReachable(links, StepsOf(links, step.id), left - 1,
                                 Walk(w.seen + {step.id}, w.trace + [step]), id);
      assert ReachIn(links, s.id, id, left - 1);
    }
  }

  /** An id newly seen by a walk is within `left` edges of one of the walk's first steps. */
  lemma {:induction false} VisitAllReachable<D>(links: Links<D>, steps: seq<Step<D>>, left: nat, w: Walk<D>, id: Id)
    returns (s: Step<D>)
    requires id in VisitAll(links, steps, left, w).seen && id !in w.seen
    ensures s in steps && s.Enter? && ReachIn(links, s.id, id, left)
    decreases left, 1 + |steps|
  {
    if steps == [] {
      assert false;
    } else {
      var mid := Visit(links, steps[0], left, w);
      if id in mid.seen {
        VisitReachable(links, steps[0], left, w, id);
        s := steps[0];
      } else {
        s := VisitAllReachable(links, steps[1..], left, mid, id);
      }
    }
  }

  // ---------------------------------------------------------------- completeness: all reachable ids

  /** `id`'s enter edges all lead into `seen`. */
  ghost predicate Expanded<D>(links: Links<D>, id: Id, seen: set<Id>)
  {
    forall s :: s in StepsOf(links, id) && s.Enter? ==> s.id in seen
  }

  lemma SubsetOfSameSize(a: set<Id>, b: set<Id>)
    requires a <= b && |a| >= |b|
    ensures a == b
  {
    assert b == a + (b - a);
    assert |b| == |a| + |b - a|;
  }

  lemma {:induction false} VisitExpands<D>(links: Links<D>, step: Step<D>, left: nat, w: Walk<D>, stack: set<Id>)
    requires stack <= w.seen && stack <= links.Keys && |stack| + left >= |links|
    ensures var w' := Visit(links, step, left, w);
            forall id :: id in w'.seen && id !in w.seen ==> Expanded(links, id, w'.seen)
    decreases left, 0
  {
    if step.id !in w.seen && step.Enter? {
      var entered := Walk(w.seen + {step.id}, w.trace + [step]);
      if left == 0 {
        SubsetOfSameSize(stack, links.Keys);
      } else {
        var below := StepsOf(links, step.id);
        if step.id in links {
          VisitAllExpands(links, below, left - 1, entered, stack + {step.id});
        }
        VisitAllExtends(links, below, left - 1, entered);
      }
    }
  }

  /**
   With depth for every known id not on the current path, each id the walk sees is fully expanded.
   `stack` is the path from the root: distinct known ids, already seen.  If the depth runs out at an
   id, the path holds every known id, so that id is an unknown one and has no steps.
   */
  lemma {:induction false} VisitAllExpands<D>(links: Links<D>, steps: seq<Step<D>>, left: nat, w: Walk<D>,
                                              stack: set<Id>)
    requires stack <= w.seen && stack <= links.Keys && |stack| + left >= |links|
    ensures var w' := VisitAll(links, steps, left, w);
            forall id :: id in w'.seen && id !in w.seen ==> Expanded(links, id, w'.seen)
    decreases left, 1 + |steps|
  {
    if steps != [] {
      var mid := Visit(links, steps[0], left, w);
      VisitExtends(links, steps[0], left, w);
      VisitExpands(links, steps[0], left, w, stack);
      VisitAllExtends(links, steps[1..], left, mid);
      VisitAllExpands(links, steps[1..], left, mid, stack);
    }
  }

  lemma {:induction false} ReachStaysInside<D>(links: Links<D>, from: Id, to: Id, n: nat, seen: set<Id>)
    requires from in seen && ReachIn(links, from, to, n)
    requires forall id :: id in seen ==> Expanded(links, id, seen)
    ensures to in seen
    decreases n
  {
    if from != to {
      var s :| s in StepsOf(links, from) && s.Enter? && ReachIn(links, s.id, to, n - 1);
      ReachStaysInside(links, s.id, to, n - 1, seen);
    }
  }

  /** One of `steps` enters an id from which `id` can be reached. */
  ghost predicate ReachableFrom<D>(links: Links<D>, steps: seq<Step<D>>, id: Id)
  {
    exists s, n: nat :: s in steps && s.Enter? && ReachIn(links, s.id, id, n)
  }

  /** Starting fresh with enough depth, the walk sees exactly what its first steps reach. */
  lemma ExactReach<D>(links: Links<D>, steps: seq<Step<D>>, left: nat, id: Id)
    requires left >= |links|
    ensures id in VisitAll(links, steps, left, Walk({}, [])).seen <==> ReachableFrom(links, steps, id)
  {
    var w: Walk<D> := Walk({}, []);
    var w' := VisitAll(links, steps, left, w);
    if id in w'.seen {
      var s := VisitAllReachable(links, steps, left, w, id);
    }
    if ReachableFrom(links, steps, id) {
      var s, n: nat :| s in steps && s.Enter? && ReachIn(links, s.id, id, n);
      VisitAllExtends(links, steps, left, w);
      VisitAllExpands(links, steps, left, w, {});
      ReachStaysInside(links, s.id, id, n, w'.seen);
    }
  }

  // ---------------------------------------------------------------- where the depth runs out

  /** Known ids that lead from each to the next and nowhere else, up to the last one. */
  ghost predicate Chain<D>(links: Links<D>, names: seq<Id>)
  {
    && names != [] && Distinct(names)
    && forall i: nat :: i < |names| - 1 ==> LeadsTo(StepsOf(links, names[i]), names[i + 1])
  }

  predicate LeadsTo<D>(steps: seq<Step<D>>, id: Id) {
    |steps| == 1 && steps[0].Enter? && steps[0].id == id
  }

  /** With just depth enough for its last id, a walk along a chain stops there. */
  lemma {:induction false} ChainSeen<D>(links: Links<D>, names: seq<Id>, i: nat, left: nat, step: Step<D>, w: Walk<D>)
    requires Chain(links, names) && i < |names| && left == |names| - 1 - i
    requires step.Enter? && step.id == names[i] && forall k :: i <= k < |names| ==> names[k] !in w.seen
    ensures Visit(links, step, left, w).seen == w.seen + set id | id in names[i..]
    decreases left
  {
    var entered := Walk(w.seen + {step.id}, w.trace + [step]);
    assert names[i..][0] == names[i] && names[i..][1..] == names[i + 1..];
    assert forall id :: id in names[i..] <==> id == names[i] || id in names[i + 1..];
    if left == 0 {
      assert names[i + 1..] == [];
    } else {
      var steps := StepsOf(links, names[i]);
      assert LeadsTo(steps, names[i + 1]) && steps == [steps[0]];
      VisitAllOne(links, steps[0], left - 1, entered);
      ChainSeen(links, names, i + 1, left - 1, steps[0], entered);
    }
  }

  /** The last id of the chain, met again as a start of its own, is not expanded any more. */
  lemma ChainIsAllSeen<D>(links: Links<D>, names: seq<Id>, left: nat, steps: seq<Step<D>>)
    requires Chain(links, names) && left == |names| - 1
    requires |steps| == 2 && steps[0].Enter? && steps[1].Enter? && steps[0].id == names[0] && steps[1].id == names[left]
    ensures VisitAll(links, steps, left, Walk({}, [])).seen == set id | id in names
  {
    var w: Walk<D> := Walk({}, []);
    var first, rest := Visit(links, steps[0], left, w), steps[1..];
    ChainSeen(links, names, 0, left, steps[0], w);
    assert names[0..] == names && rest == [steps[1]];
    VisitAllOne(links, steps[1], left, first);
  }
}
