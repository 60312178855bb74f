/** Route candidates in order: eligible before excluded, then the higher score, then the id. */
module RouteOrder {
  import opened Prelude
  import opened TextOrder

  /** A score out of another, kept exact. */
  datatype Ratio = Ratio(part: nat, whole: nat)

  datatype RouteReason = Eligible | NegativeMatched(count: nat) | StatusNotRouted(status: string) | ExcludedByFilters

  datatype Candidate = Candidate(id: string, score: nat, lexicalScore: nat, semantic: Ratio, excluded: bool,
                                 reason: RouteReason)

  predicate Before(a: Candidate, b: Candidate) {
    if a.excluded != b.excluded then b.excluded
    else if a.score != b.score then a.score > b.score
    else Below(a.id, b.id)
  }

  predicate InOrder(list: seq<Candidate>) {
    forall i, j :: 0 <= i < j < |list| ==> Before(list[i], list[j])
  }

  lemma BeforeIsTransitive(a: Candidate, b: Candidate, c: Candidate)
    requires Before(a, b) && Before(b, c)
    ensures Before(a, c)
  {
    if Below(a.id, b.id) && Below(b.id, c.id) { BelowIsTransitive(a.id, b.id, c.id); }
  }

  lemma BeforeIsTotal(a: Candidate, b: Candidate)
    requires a.id != b.id
    ensures Before(a, b) || Before(b, a)
  {
    BelowIsTotal(a.id, b.id);
  }

  lemma BeforeIsAsymmetric(a: Candidate, b: Candidate)
    requires Before(a, b)
    ensures !Before(b, a)
  {
    if Below(a.id, b.id) { BelowIsAsymmetric(a.id, b.id); }
  }

  // ---------------------------------------------------------------- sorting

  function Insert(c: Candidate, list: seq<Candidate>): (longer: seq<Candidate>)
    ensures |longer| == |list| + 1
  {
    if list == [] || Before(c, list[0]) then [c] + list else [list[0]] + Insert(c, list[1..])
  }

  function Sort(list: seq<Candidate>): (sorted: seq<Candidate>)
    ensures |sorted| == |list|
  {
    if list == [] then [] else Insert(list[0], Sort(list[1..]))
  }

  lemma {:induction false} InsertMembers(c: Candidate, list: seq<Candidate>)
    ensures forall x :: x in Insert(c, list) <==> x == c || x in list
    decreases |list|
  {
    if list != [] && !Before(c, list[0]) {
      InsertMembers(c, list[1..]);
      assert forall x :: x in list <==> x == list[0] || x in list[1..];
    }
  }

  predicate OtherIds(c: Candidate, list: seq<Candidate>) {
    forall i :: 0 <= i < |list| ==> list[i].id != c.id
  }

  predicate ComesFirst(c: Candidate, list: seq<Candidate>) {
    forall x :: x in list ==> Before(c, x)
  }

  lemma ConsInOrder(c: Candidate, list: seq<Candidate>, longer: seq<Candidate>)
    requires InOrder(list) && ComesFirst(c, list) && longer == [c] + list
    ensures InOrder(longer)
  {
    forall i, j | 0 <= i < j < |longer| ensures Before(longer[i], longer[j]) {
      assert longer[j] == list[j - 1];
      if i > 0 { assert longer[i] == list[i - 1]; } else { assert list[j - 1] in list; }
    }
  }

  lemma {:induction false} InsertInOrder(c: Candidate, list: seq<Candidate>)
    requires InOrder(list) && OtherIds(c, list)
    ensures InOrder(Insert(c, list))
    decreases |list|
  {
    if list == [] {
    } else if Before(c, list[0]) {
      forall x | x in list ensures Before(c, x) {
        if x != list[0] { BeforeIsTransitive(c, list[0], x); }
      }
      ConsInOrder(c, list, Insert(c, list));
    } else {
      var rest := list[1..];
      InsertInOrder(c, rest);
      InsertMembers(c, rest);
      BeforeIsTotal(c, list[0]);
      forall x | x in Insert(c, rest) ensures Before(list[0], x) {
        if x != c { assert x in rest; }
      }
      ConsInOrder(list[0], Insert(c, rest), Insert(c, list));
    }
  }

  predicate DistinctIds(list: seq<Candidate>) {
    forall i, j :: 0 <= i < j < |list| ==> list[i].id != list[j].id
  }

  /** Sorting puts candidates of distinct ids in strict order and keeps each of them. */
  lemma {:induction false} SortExact(list: seq<Candidate>)
    requires DistinctIds(list)
    ensures InOrder(Sort(list)) && forall x :: x in Sort(list) <==> x in list
    decreases |list|
  {
    if list != [] {
      var rest := list[1..];
      SortExact(rest);
      InsertMembers(list[0], Sort(rest));
      forall i | 0 <= i < |Sort(rest)| ensures Sort(rest)[i].id != list[0].id {
        assert Sort(rest)[i] in rest;
      }
      InsertInOrder(list[0], Sort(rest));
      assert forall x :: x in list <==> x == list[0] || x in rest;
    }
  }

  /** The order leaves no choice: candidates in strict order are what sorting makes of them, however they are sorted. */
  lemma {:induction false} OrderIsUnique(a: seq<Candidate>, b: seq<Candidate>)
    requires InOrder(a) && InOrder(b) && forall x :: x in a <==> x in b
    ensures a == b
    decreases |a|
  {
    assert b == [] || b[0] in b;
    if a != [] {
      assert a[0] in a && a[0] in b;
      assert b[0] in b && b[0] in a;
      if a[0] != b[0] {
        BeforeIsAsymmetric(a[0], b[0]);
      }
      SameRest(a, b);
      OrderIsUnique(a[1..], b[1..]);
    }
  }

  lemma SameRest(a: seq<Candidate>, b: seq<Candidate>)
    requires InOrder(a) && InOrder(b) && a != [] && b != [] && a[0] == b[0] && forall x :: x in a <==> x in b
    ensures forall x :: x in a[1..] <==> x in b[1..]
  {
    if a[0] in a[1..] {
      var i :| 0 <= i < |a[1..]| && a[1..][i] == a[0];
      assert Before(a[0], a[i + 1]);
      BeforeIsAsymmetric(a[0], a[0]);
    }
    if b[0] in b[1..] {
      var i :| 0 <= i < |b[1..]| && b[1..][i] == b[0];
      assert Before(b[0], b[i + 1]);
      BeforeIsAsymmetric(b[0], b[0]);
    }
    assert forall x :: x in a <==> x == a[0] || x in a[1..];
    assert forall x :: x in b <==> x == b[0] || x in b[1..];
  }

  // ---------------------------------------------------------------- truncating, then dropping the excluded

  function EligibleOnly(list: seq<Candidate>): seq<Candidate> {
    if list == [] then []
    else (if list[0].excluded then [] else [list[0]]) + EligibleOnly(list[1..])
  }

  function Take(list: seq<Candidate>, limit: nat): seq<Candidate> {
    if |list| <= limit then list else list[..limit]
  }

  lemma {:induction false} AllExcluded(list: seq<Candidate>)
    requires forall i :: 0 <= i < |list| ==> list[i].excluded
    ensures EligibleOnly(list) == []
  {
    if list != [] { AllExcluded(list[1..]); }
  }

  /** Because the excluded come last, it does not matter that the list is cut before they are dropped. */
  lemma {:induction false} CutBeforeDropping(list: seq<Candidate>, limit: nat)
    requires InOrder(list)
    ensures EligibleOnly(Take(list, limit)) == Take(EligibleOnly(list), limit)
    decreases |list|
  {
    if list == [] || limit == 0 {
    } else if list[0].excluded {
      forall i | 0 <= i < |list| ensures list[i].excluded {
        if i > 0 { assert Before(list[0], list[i]); }
      }
      AllExcluded(list);
      AllExcluded(Take(list, limit));
    } else {
      CutBeforeDropping(list[1..], limit - 1);
      assert Take(list, limit) == [list[0]] + Take(list[1..], limit - 1);
    }
  }

  // ---------------------------------------------------------------- collecting the candidates

  /** What `judge` says of each of `keys`, where it says anything. */
  function Collect(keys: seq<string>, judge: string -> Option<Candidate>): seq<Candidate> {
    if keys == [] then []
    else (match judge(keys[0]) case Some(c) => [c] case None => []) + Collect(keys[1..], judge)
  }

  ghost predicate Judges(judge: string -> Option<Candidate>) {
    forall id: string :: judge(id).Some? ==> judge(id).value.id == id
  }

  lemma {:induction false} CollectExact(keys: seq<string>, judge: string -> Option<Candidate>)
    requires Judges(judge) && Ascending(keys)
    ensures DistinctIds(Collect(keys, judge))
    ensures forall c :: c in Collect(keys, judge) <==> c.id in keys && judge(c.id) == Some(c)
    decreases |keys|
  {
    if keys != [] {
      var rest := keys[1..];
      CollectExact(rest, judge);
      assert forall id :: id in keys <==> id == keys[0] || id in rest;
      forall i | 0 <= i < |Collect(rest, judge)| ensures Collect(rest, judge)[i].id != keys[0] {
        assert Collect(rest, judge)[i] in Collect(rest, judge);
        var k :| 0 <= k < |rest| && rest[k] == Collect(rest, judge)[i].id;
        assert Below(keys[0], keys[k + 1]);
        BelowIsAsymmetric(keys[0], keys[k + 1]);
      }
    }
  }

  lemma {:induction false} EligibleMembers(list: seq<Candidate>)
    ensures forall c :: c in EligibleOnly(list) <==> c in list && !c.excluded
    decreases |list|
  {
    if list != [] {
      EligibleMembers(list[1..]);
      assert forall c :: c in list <==> c == list[0] || c in list[1..];
    }
  }

  function Ids(list: seq<Candidate>): (ids: seq<string>)
    ensures |ids| == |list| && forall i :: 0 <= i < |ids| ==> ids[i] == list[i].id
  {
    seq(|list|, i requires 0 <= i < |list| => list[i].id)
  }

  lemma EligibleIds(all: seq<Candidate>, known: set<string>, judge: string -> Option<Candidate>, id: string)
    requires Judges(judge) && forall c :: c in all <==> c.id in known && judge(c.id) == Some(c)
    ensures id in Ids(EligibleOnly(all)) <==> id in known && judge(id).Some? && !judge(id).value.excluded
  {
    var list := EligibleOnly(all);
    EligibleMembers(all);
    if id in Ids(list) {
      var i :| 0 <= i < |list| && list[i].id == id;
      assert list[i] in all;
    }
    if id in known && judge(id).Some? && !judge(id).value.excluded {
      assert judge(id).value in list;
      var i :| 0 <= i < |list| && list[i] == judge(id).value;
      assert Ids(list)[i] == id;
    }
  }
}
