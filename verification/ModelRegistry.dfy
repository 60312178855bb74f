/** The registry of models: an ordered list and a map by name that must tell the same story. */
module ModelRegistry {
  import opened Prelude

  datatype Model = Model(name: string, provider: string, enabled: bool, details: string)

  /** The two views: `ordered` for listing, `models` for looking up. */
  datatype Views = Views(ordered: seq<Model>, models: map<string, Model>)

  predicate DistinctNames(ordered: seq<Model>) {
    forall i, j :: 0 <= i < j < |ordered| ==> ordered[i].name != ordered[j].name
  }

  predicate HasName(ordered: seq<Model>, name: string) {
    exists i :: 0 <= i < |ordered| && ordered[i].name == name
  }

  /** Every name once in the list, and the map holds exactly what the list holds. */
  predicate Agree(v: Views) {
    && DistinctNames(v.ordered)
    && (forall i :: 0 <= i < |v.ordered| ==>
          v.ordered[i].name in v.models && v.models[v.ordered[i].name] == v.ordered[i])
    && (forall name :: name in v.models ==> HasName(v.ordered, name))
  }

  // ---------------------------------------------------------------- each operation on the views

  /** The first model of that name exchanged for `m`. */
  function Exchange(ordered: seq<Model>, m: Model): (exchanged: seq<Model>)
    ensures |exchanged| == |ordered|
  {
    if ordered == [] then []
    else if ordered[0].name == m.name then [m] + ordered[1..]
    else [ordered[0]] + Exchange(ordered[1..], m)
  }

  function Registered(v: Views, m: Model): Views {
    Views(if m.name in v.models then Exchange(v.ordered, m) else v.ordered + [m], v.models[m.name := m])
  }

  function RegisteredAll(v: Views, models: seq<Model>): Views {
    if models == [] then v else Registered(RegisteredAll(v, models[..|models| - 1]), models[|models| - 1])
  }

  /** The models of `ordered` from other providers than `provider`, under other names than `names`. */
  function Others(ordered: seq<Model>, provider: string, names: set<string>): seq<Model> {
    if ordered == [] then []
    else
      var last := ordered[|ordered| - 1];
      Others(ordered[..|ordered| - 1], provider, names)
      + if last.provider != provider && last.name !in names then [last] else []
  }

  function WithoutProvider(v: Views, provider: string): Views {
    Views(Others(v.ordered, provider, {}),
          map name | name in v.models && v.models[name].provider != provider :: v.models[name])
  }

  function Replaced(v: Views, provider: string, models: seq<Model>): Views {
    RegisteredAll(WithoutProvider(v, provider), models)
  }

  // ---------------------------------------------------------------- agreement is kept

  lemma {:induction false} ExchangeExact(ordered: seq<Model>, m: Model)
    requires DistinctNames(ordered)
    ensures forall i :: 0 <= i < |ordered| ==>
              Exchange(ordered, m)[i] == if ordered[i].name == m.name then m else ordered[i]
  {
    if ordered != [] && ordered[0].name != m.name {
      ExchangeExact(ordered[1..], m);
      assert forall i :: 0 < i < |ordered| ==> Exchange(ordered, m)[i] == Exchange(ordered[1..], m)[i - 1];
    }
  }

  predicate SameNames(before: seq<Model>, after: seq<Model>) {
    |before| == |after| && forall i :: 0 <= i < |before| ==> after[i].name == before[i].name
  }

  lemma SameNamesAgree(before: seq<Model>, after: seq<Model>, name: string)
    requires SameNames(before, after)
    ensures DistinctNames(before) ==> DistinctNames(after)
    ensures HasName(before, name) ==> HasName(after, name)
  {
    if HasName(before, name) {
      var i :| 0 <= i < |before| && before[i].name == name;
      assert after[i].name == name;
    }
  }

  lemma ExchangeAgrees(v: Views, m: Model, after: Views)
    requires Agree(v) && m.name in v.models
    requires after == Views(Exchange(v.ordered, m), v.models[m.name := m])
    ensures Agree(after)
  {
    ExchangeExact(v.ordered, m);
    SameNamesAgree(v.ordered, after.ordered, m.name);
    forall i | 0 <= i < |after.ordered|
      ensures after.ordered[i].name in after.models && after.models[after.ordered[i].name] == after.ordered[i]
    {
      assert v.ordered[i].name in v.models;
    }
    forall name | name in after.models ensures HasName(after.ordered, name) {
      SameNamesAgree(v.ordered, after.ordered, name);
    }
  }

  lemma AppendAgrees(v: Views, m: Model, after: Views)
    requires Agree(v) && m.name !in v.models
    requires after == Views(v.ordered + [m], v.models[m.name := m])
    ensures Agree(after)
  {
    assert after.ordered[|v.ordered|] == m;
    forall name | name in after.models ensures HasName(after.ordered, name) {
      if name != m.name {
        assert HasName(v.ordered, name);
        var i :| 0 <= i < |v.ordered| && v.ordered[i].name == name;
        assert after.ordered[i].name == name;
      }
    }
  }

  lemma RegisterAgrees(v: Views, m: Model)
    requires Agree(v)
    ensures Agree(Registered(v, m))
  {
    if m.name in v.models {
      ExchangeAgrees(v, m, Registered(v, m));
    } else {
      AppendAgrees(v, m, Registered(v, m));
    }
  }

  lemma {:induction false} RegisterAllAgrees(v: Views, models: seq<Model>)
    requires Agree(v)
    ensures Agree(RegisteredAll(v, models))
  {
    if models != [] {
      RegisterAllAgrees(v, models[..|models| - 1]);
      RegisterAgrees(RegisteredAll(v, models[..|models| - 1]), models[|models| - 1]);
    }
  }

  predicate IsOther(m: Model, provider: string, names: set<string>) {
    m.provider != provider && m.name !in names
  }

  /** The others are those of the list, each from one place, in the order of the list. */
  lemma {:induction false} OthersExact(ordered: seq<Model>, provider: string, names: set<string>)
    requires DistinctNames(ordered)
    ensures DistinctNames(Others(ordered, provider, names))
    ensures forall m :: m in Others(ordered, provider, names) <==> m in ordered && IsOther(m, provider, names)
  {
    if ordered != [] {
      var front, last := ordered[..|ordered| - 1], ordered[|ordered| - 1];
      var others := Others(front, provider, names);
      OthersExact(front, provider, names);
      assert ordered == front + [last];
      forall i | 0 <= i < |others| ensures others[i].name != last.name {
        assert others[i] in front;
        var k :| 0 <= k < |front| && front[k] == others[i];
        assert ordered[k].name != ordered[|ordered| - 1].name;
      }
    }
  }

  lemma WithoutProviderAgrees(v: Views, provider: string)
    requires Agree(v)
    ensures Agree(WithoutProvider(v, provider))
  {
    var after := WithoutProvider(v, provider);
    OthersExact(v.ordered, provider, {});
    forall i | 0 <= i < |after.ordered|
      ensures after.ordered[i].name in after.models && after.models[after.ordered[i].name] == after.ordered[i]
    {
      assert after.ordered[i] in after.ordered;
    }
    forall name | name in after.models ensures HasName(after.ordered, name) {
      var i :| 0 <= i < |v.ordered| && v.ordered[i].name == name;
      assert v.ordered[i] in after.ordered;
    }
  }

  // ---------------------------------------------------------------- the last of each name wins

  function LastNamed(models: seq<Model>, name: string): Option<Model> {
    if models == [] then None
    else if models[|models| - 1].name == name then Some(models[|models| - 1])
    else LastNamed(models[..|models| - 1], name)
  }

  /** After registering several models a name stands for the last of them so named, or else for what it stood for. */
  lemma {:induction false} LastOneWins(v: Views, models: seq<Model>, name: string)
    ensures name in RegisteredAll(v, models).models <==> LastNamed(models, name).Some? || name in v.models
    ensures name in RegisteredAll(v, models).models
            ==> RegisteredAll(v, models).models[name]
                == if LastNamed(models, name).Some? then LastNamed(models, name).value else v.models[name]
  {
    if models != [] {
      LastOneWins(v, models[..|models| - 1], name);
    }
  }

  predicate AllOf(models: seq<Model>, provider: string) {
    forall i :: 0 <= i < |models| ==> models[i].provider == provider
  }

  lemma {:induction false} LastNamedIsOne(models: seq<Model>, name: string)
    requires LastNamed(models, name).Some?
    ensures LastNamed(models, name).value in models && LastNamed(models, name).value.name == name
  {
    if models[|models| - 1].name != name {
      LastNamedIsOne(models[..|models| - 1], name);
    }
  }

  /** Replacing a provider's models leaves it exactly the last of each name given. */
  lemma ReplacedExactly(v: Views, provider: string, models: seq<Model>, m: Model)
    requires Agree(v) && AllOf(models, provider) && m.provider == provider
    ensures m in Replaced(v, provider, models).ordered <==> LastNamed(models, m.name) == Some(m)
  {
    var after := Replaced(v, provider, models);
    WithoutProviderAgrees(v, provider);
    RegisterAllAgrees(WithoutProvider(v, provider), models);
    LastOneWins(WithoutProvider(v, provider), models, m.name);
    if m in after.ordered {
      var i :| 0 <= i < |after.ordered| && after.ordered[i] == m;
    } else if LastNamed(models, m.name) == Some(m) {
      assert HasName(after.ordered, m.name);
      var i :| 0 <= i < |after.ordered| && after.ordered[i].name == m.name;
    }
  }

  // ---------------------------------------------------------------- the other providers keep their order

  function Names(models: seq<Model>): set<string> {
    if models == [] then {} else Names(models[..|models| - 1]) + {models[|models| - 1].name}
  }

  lemma {:induction false} OthersAppend(ordered: seq<Model>, last: Model, provider: string, names: set<string>)
    ensures Others(ordered + [last], provider, names)
            == Others(ordered, provider, names) + if IsOther(last, provider, names) then [last] else []
  {
    assert (ordered + [last])[..|ordered|] == ordered;
  }

  lemma {:induction false} OthersConcat(a: seq<Model>, b: seq<Model>, provider: string, names: set<string>)
    ensures Others(a + b, provider, names) == Others(a, provider, names) + Others(b, provider, names)
    decreases |b|
  {
    if b == [] {
      assert a + b == a;
    } else {
      var front, last := b[..|b| - 1], b[|b| - 1];
      assert a + b == (a + front) + [last];
      OthersConcat(a, front, provider, names);
      OthersAppend(a + front, last, provider, names);
    }
  }

  lemma {:induction false} OthersWithoutName(ordered: seq<Model>, provider: string, names: set<string>, name: string)
    requires !HasName(ordered, name)
    ensures Others(ordered, provider, names) == Others(ordered, provider, names + {name})
  {
    if ordered != [] {
      var front, last := ordered[..|ordered| - 1], ordered[|ordered| - 1];
      assert forall i :: 0 <= i < |front| ==> front[i] == ordered[i];
      assert last.name != name;
      OthersWithoutName(front, provider, names, name);
    }
  }

  lemma OthersHead(ordered: seq<Model>, provider: string, names: set<string>)
    requires ordered != []
    ensures Others(ordered, provider, names)
            == (if IsOther(ordered[0], provider, names) then [ordered[0]] else [])
               + Others(ordered[1..], provider, names)
  {
    assert [ordered[0]] + ordered[1..] == ordered;
    OthersConcat([ordered[0]], ordered[1..], provider, names);
    assert [ordered[0]][..0] == [];
  }

  lemma OthersExchangeHead(ordered: seq<Model>, m: Model, names: set<string>, after: seq<Model>, rest: seq<Model>)
    requires DistinctNames(ordered) && ordered != [] && ordered[0].name == m.name
    requires rest == ordered[1..] && after == [m] + rest
    ensures Others(after, m.provider, names) == Others(ordered, m.provider, names + {m.name})
  {
    OthersHead(ordered, m.provider, names + {m.name});
    OthersHead(after, m.provider, names);
    assert after[1..] == rest;
    assert forall i :: 0 <= i < |rest| ==> rest[i].name == ordered[i + 1].name;
    OthersWithoutName(rest, m.provider, names, m.name);
  }

  lemma {:induction false} OthersExchange(ordered: seq<Model>, m: Model, names: set<string>)
    requires DistinctNames(ordered) && HasName(ordered, m.name)
    ensures Others(Exchange(ordered, m), m.provider, names) == Others(ordered, m.provider, names + {m.name})
  {
    var after, rest := Exchange(ordered, m), ordered[1..];
    if ordered[0].name == m.name {
      OthersExchangeHead(ordered, m, names, after, rest);
    } else {
      OthersHead(ordered, m.provider, names + {m.name});
      OthersHead(after, m.provider, names);
      assert after[1..] == Exchange(rest, m);
      var i :| 0 <= i < |ordered| && ordered[i].name == m.name;
      assert rest[i - 1].name == m.name;
      OthersExchange(rest, m, names);
    }
  }

  lemma RegisterKeepsOthers(v: Views, m: Model, names: set<string>)
    requires Agree(v)
    ensures Others(Registered(v, m).ordered, m.provider, names) == Others(v.ordered, m.provider, names + {m.name})
  {
    if m.name in v.models {
      OthersExchange(v.ordered, m, names);
    } else {
      OthersAppend(v.ordered, m, m.provider, names);
      forall i | 0 <= i < |v.ordered| ensures v.ordered[i].name != m.name {
        assert v.ordered[i].name in v.models;
      }
      OthersWithoutName(v.ordered, m.provider, names, m.name);
    }
  }

  lemma {:induction false} RegisterAllKeepsOthers(v: Views, provider: string, models: seq<Model>, names: set<string>)
    requires Agree(v) && AllOf(models, provider)
    ensures Others(RegisteredAll(v, models).ordered, provider, names)
            == Others(v.ordered, provider, names + Names(models))
    decreases |models|
  {
    if models == [] {
      assert names + Names(models) == names;
    } else {
      var front, last := models[..|models| - 1], models[|models| - 1];
      RegisterAllAgrees(v, front);
      RegisterKeepsOthers(RegisteredAll(v, front), last, names);
      RegisterAllKeepsOthers(v, provider, front, names + {last.name});
      assert names + {last.name} + Names(front) == names + Names(models);
    }
  }

  lemma {:induction false} OthersTwice(ordered: seq<Model>, provider: string, names: set<string>)
    ensures Others(Others(ordered, provider, {}), provider, names) == Others(ordered, provider, names)
  {
    if ordered != [] {
      var front, last := ordered[..|ordered| - 1], ordered[|ordered| - 1];
      OthersTwice(front, provider, names);
      if last.provider != provider {
        OthersAppend(Others(front, provider, {}), last, provider, names);
      } else {
        assert Others(ordered, provider, {}) == Others(front, provider, {});
      }
    }
  }

  /** The models of other providers keep their order, and only those whose names were given again are lost. */
  lemma ReplacedKeepsOthers(v: Views, provider: string, models: seq<Model>)
    requires Agree(v) && AllOf(models, provider)
    ensures Others(Replaced(v, provider, models).ordered, provider, {}) == Others(v.ordered, provider, Names(models))
  {
    var left := WithoutProvider(v, provider);
    WithoutProviderAgrees(v, provider);
    RegisterAllKeepsOthers(left, provider, models, {});
    assert {} + Names(models) == Names(models);
    OthersTwice(v.ordered, provider, Names(models));
  }

  // ---------------------------------------------------------------- whole runs

  datatype Op =
    | Register(model: Model)
    | RegisterMany(models: seq<Model>)
    | ReplaceProvider(provider: string, models: seq<Model>)

  function Step(v: Views, op: Op): Views {
    match op
    case Register(m) => Registered(v, m)
    case RegisterMany(models) => RegisteredAll(v, models)
    case ReplaceProvider(provider, models) => Replaced(v, provider, models)
  }

  function Collected(catalogue: seq<Model>): map<string, Model> {
    if catalogue == [] then map[]
    else Collected(catalogue[..|catalogue| - 1])[catalogue[|catalogue| - 1].name := catalogue[|catalogue| - 1]]
  }

  /** The registry after `ops`, from a catalogue. */
  function Run(catalogue: seq<Model>, ops: seq<Op>): Views {
    if ops == [] then Views(catalogue, Collected(catalogue))
    else Step(Run(catalogue, ops[..|ops| - 1]), ops[|ops| - 1])
  }

  lemma {:induction false} CollectedAgrees(catalogue: seq<Model>)
    requires DistinctNames(catalogue)
    ensures Agree(Views(catalogue, Collected(catalogue)))
  {
    if catalogue != [] {
      var front, last := catalogue[..|catalogue| - 1], catalogue[|catalogue| - 1];
      CollectedAgrees(front);
      assert front + [last] == catalogue;
      forall i | 0 <= i < |front| ensures front[i].name != last.name {
        assert catalogue[i].name != catalogue[|catalogue| - 1].name;
      }
      AppendAgrees(Views(front, Collected(front)), last, Views(catalogue, Collected(catalogue)));
    }
  }

  /** From a catalogue with one model of each name, and from no other, the two views agree after every run. */
  lemma {:induction false} RunAgrees(catalogue: seq<Model>, ops: seq<Op>)
    ensures DistinctNames(catalogue) ==> Agree(Run(catalogue, ops))
    ensures ops == [] ==> (Agree(Run(catalogue, ops)) <==> DistinctNames(catalogue))
  {
    if ops == [] {
      if DistinctNames(catalogue) { CollectedAgrees(catalogue); }
    } else if DistinctNames(catalogue) {
      var v := Run(catalogue, ops[..|ops| - 1]);
      RunAgrees(catalogue, ops[..|ops| - 1]);
      match ops[|ops| - 1]
      case Register(m) => RegisterAgrees(v, m);
      case RegisterMany(models) => RegisterAllAgrees(v, models);
      case ReplaceProvider(provider, models) =>
        WithoutProviderAgrees(v, provider);
        RegisterAllAgrees(WithoutProvider(v, provider), models);
    }
  }

  // ---------------------------------------------------------------- the registry

  class Registry {
    var ordered: seq<Model>
    var models: map<string, Model>

    ghost function Value(): Views
      reads this
    {
      Views(ordered, models)
    }

    constructor (catalogue: seq<Model>)
      ensures Value() == Run(catalogue, [])
    {
      ordered := catalogue;
      models := Collected(catalogue);
    }

    /** The first model of that name is overwritten where it stands. */
    method ExchangeFirst(model: Model)
      modifies this`ordered
      ensures ordered == Exchange(old(ordered), model)
    {
      var i := 0;
      while i < |ordered|
        invariant 0 <= i <= |ordered| && ordered == old(ordered)
        invariant Exchange(ordered, model) == ordered[..i] + Exchange(ordered[i..], model)
      {
        if ordered[i].name == model.name {
          ordered := ordered[i := model];
          return;
        }
        i := i + 1;
      }
    }

    method Register(model: Model)
      modifies this
      ensures Value() == Registered(old(Value()), model)
    {
      if model.name !in models {
        ordered := ordered + [model];
      } else {
        ExchangeFirst(model);
      }
      models := models[model.name := model];
    }

    method RegisterMany(list: seq<Model>)
      modifies this
      ensures Value() == RegisteredAll(old(Value()), list)
    {
      var i := 0;
      while i < |list|
        invariant 0 <= i <= |list| && Value() == RegisteredAll(old(Value()), list[..i])
      {
        assert list[..i + 1][..i] == list[..i];
        Register(list[i]);
        i := i + 1;
      }
      assert list[..i] == list;
    }

    method ReplaceProviderModels(provider: string, list: seq<Model>)
      modifies this
      ensures Value() == Replaced(old(Value()), provider, list)
    {
      models := map name | name in models && models[name].provider != provider :: models[name];
      var kept: seq<Model> := [];
      var i := 0;
      while i < |ordered|
        invariant 0 <= i <= |ordered| && ordered == old(ordered)
                  && models == WithoutProvider(old(Value()), provider).models
        invariant kept == Others(ordered[..i], provider, {})
      {
        assert ordered[..i + 1][..i] == ordered[..i];
        if ordered[i].provider != provider {
          kept := kept + [ordered[i]];
        }
        i := i + 1;
      }
      assert ordered[..i] == ordered;
      ordered := kept;
      RegisterMany(list);
    }
  }
}
