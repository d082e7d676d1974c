/** Which services a local start brings up: the requested ones and everything they need. */
module ServiceSelection {
  datatype Service = Service(profiles: set<string>, dependsOn: set<string>)

  type Model = map<string, Service>

  datatype Selection = Selected(names: set<string>) | UnknownTargets(names: set<string>) | MissingService(name: string)

  const INFRASTRUCTURE: set<string> := {"postgres-primary", "postgres-replica", "redis", "nats", "clickhouse"}
  const BOOTSTRAPPED: set<string> :=
      {"quarantine", "internal-clean", "delivery-a", "delivery-b", "worker", "files-control"}
  const BOOTSTRAP: set<string> := {"bao", "quarantine", "internal-clean", "delivery-a", "delivery-b"}

  function ByProfile(model: Model, profiles: seq<string>): set<string> {
    set name | name in model &&
      ((model[name].profiles == {} && profiles != ["infrastructure"]) || exists p | p in profiles ::
          p in model[name].profiles)
  }

  function Seeds(model: Model, targets: seq<string>, profiles: seq<string>): set<string> {
    if targets != [] then set name | name in targets
    else ByProfile(model, profiles) + if "infrastructure" in profiles then INFRASTRUCTURE * model.Keys else {}
  }

  /** Declared dependencies, and those that only the start-up order imposes. */
  function Dependencies(model: Model, name: string): set<string>
    requires name in model
  {
    model[name].dependsOn + if name in BOOTSTRAPPED then BOOTSTRAP else {}
  }

  // ---- what is needed -----------------------------------------------------------------------------------

  predicate Chain(model: Model, seeds: set<string>, path: seq<string>) {
    path != [] && path[0] in seeds &&
    forall i | 0 <= i < |path| - 1 :: path[i] in model && path[i + 1] in Dependencies(model, path[i])
  }

  /** A chain of dependencies leads from a seed to the name. */
  ghost predicate Needed(model: Model, seeds: set<string>, name: string) {
    exists path :: Chain(model, seeds, path) && path[|path| - 1] == name
  }

  predicate Closed(model: Model, names: set<string>) {
    forall name | name in names && name in model :: Dependencies(model, name) <= names
  }

  lemma {:induction false} SeedNeeded(model: Model, seeds: set<string>, name: string)
    requires name in seeds
    ensures Needed(model, seeds, name)
  {
    assert Chain(model, seeds, [name]);
  }

  lemma {:induction false} DependencyNeeded(model: Model, seeds: set<string>, name: string, dependency: string)
    requires Needed(model, seeds, name) && name in model && dependency in Dependencies(model, name)
    ensures Needed(model, seeds, dependency)
  {
    var path :| Chain(model, seeds, path) && path[|path| - 1] == name;
    var longer := path + [dependency];
    forall i | 0 <= i < |longer| - 1 ensures longer[i] in model && longer[i + 1] in Dependencies(model, longer[i]) {
      if i < |path| - 1 { assert longer[i] == path[i] && longer[i + 1] == path[i + 1]; }
    }
    assert Chain(model, seeds, longer) && longer[|longer| - 1] == dependency;
  }

  lemma {:induction false} ChainStays(model: Model, seeds: set<string>, names: set<string>, path: seq<string>)
    requires seeds <= names && Closed(model, names) && Chain(model, seeds, path)
    ensures path[|path| - 1] in names
  {
    if |path| > 1 {
      var init := path[..|path| - 1];
      forall i | 0 <= i < |init| - 1 ensures init[i] in model && init[i + 1] in Dependencies(model, init[i]) {
        assert init[i] == path[i] && init[i + 1] == path[i + 1];
      }
      ChainStays(model, seeds, names, init);
      assert path[|path| - 2] == init[|init| - 1];
    }
  }

  /** The needed names are contained in every closed set that contains the seeds. */
  lemma {:induction false} NeededLeast(model: Model, seeds: set<string>, names: set<string>, name: string)
    requires seeds <= names && Closed(model, names) && Needed(model, seeds, name)
    ensures name in names
  {
    var path :| Chain(model, seeds, path) && path[|path| - 1] == name;
    ChainStays(model, seeds, names, path);
  }

  ghost predicate LeastClosed(model: Model, seeds: set<string>, names: set<string>) {
    && seeds <= names && Closed(model, names)
    && forall other: set<string> | seeds <= other && Closed(model, other) :: names <= other
  }

  lemma {:induction false} NeededIsLeast(model: Model, seeds: set<string>, names: set<string>)
    requires forall name :: name in names <==> Needed(model, seeds, name)
    ensures LeastClosed(model, seeds, names)
  {
    forall name | name in seeds ensures name in names { SeedNeeded(model, seeds, name); }
    forall name, dependency | name in names && name in model && dependency in Dependencies(model, name)
      ensures dependency in names
    {
      DependencyNeeded(model, seeds, name, dependency);
    }
    forall other: set<string>, name | seeds <= other && Closed(model, other) && name in names ensures name in other {
      NeededLeast(model, seeds, other, name);
    }
  }

  lemma {:induction false} LeastIsNeeded(model: Model, seeds: set<string>, names: set<string>)
    requires LeastClosed(model, seeds, names)
    ensures forall name :: name in names <==> Needed(model, seeds, name)
  {
    var needed := set name | name in names && Needed(model, seeds, name);
    forall name | name in seeds ensures name in needed { SeedNeeded(model, seeds, name); }
    forall name, dependency | name in needed && name in model && dependency in Dependencies(model, name)
      ensures dependency in needed
    {
      DependencyNeeded(model, seeds, name, dependency);
    }
    assert Closed(model, needed);
    forall name | Needed(model, seeds, name) ensures name in names { NeededLeast(model, seeds, names, name); }
  }

  /** A set is the needed names exactly when it is the least closed set that contains the seeds. */
  lemma {:induction false} NeededIsLeastClosed(model: Model, seeds: set<string>, names: set<string>)
    ensures (forall name :: name in names <==> Needed(model, seeds, name)) <==> LeastClosed(model, seeds, names)
  {
    hide Needed, LeastClosed;
    if forall name :: name in names <==> Needed(model, seeds, name) { NeededIsLeast(model, seeds, names); }
    if LeastClosed(model, seeds, names) { LeastIsNeeded(model, seeds, names); }
  }

  // ---- the worklist ---------------------------------------------------------------------------------------

  /** Every name that could ever be selected. */
  ghost function Universe(model: Model, seeds: set<string>): set<string> {
    seeds + BOOTSTRAP + set name, dependency | name in model && dependency in model[name].dependsOn :: dependency
  }

  lemma {:induction false} DependenciesWithin(model: Model, seeds: set<string>, name: string)
    requires name in model
    ensures Dependencies(model, name) <= Universe(model, seeds)
  {}

  /** Selected so far: needed, and with every name but the pending ones expanded. */
  ghost predicate Progress(model: Model, seeds: set<string>, selected: set<string>, pending: set<string>) {
    && seeds <= selected && pending <= selected
    && (forall name | name in selected :: Needed(model, seeds, name))
    && (forall name | name in selected - pending :: name in model && Dependencies(model, name) <= selected)
  }

  method Expand(model: Model, name: string, selected: set<string>, pending: set<string>)
    returns (selected': set<string>, pending': set<string>)
    requires name in model
    ensures selected' == selected + Dependencies(model, name)
    ensures pending' == pending + (Dependencies(model, name) - selected)
  {
    selected', pending' := selected, pending;
    var dependencies := model[name].dependsOn;
    if name in BOOTSTRAPPED {
      dependencies := dependencies + BOOTSTRAP;
    }
    ghost var done: set<string> := {};
    while dependencies != {}
      invariant done + dependencies == Dependencies(model, name) && done !! dependencies
      invariant selected' == selected + done && pending' == pending + (done - selected)
      decreases dependencies
    {
      var dependency :| dependency in dependencies;
      dependencies, done := dependencies - {dependency}, done + {dependency};
      if dependency !in selected' {
        selected', pending' := selected' + {dependency}, pending' + {dependency};
      }
    }
  }

  lemma {:induction false} ProgressNext(model: Model, seeds: set<string>, selected: set<string>, pending: set<string>,
                                        name: string)
    requires Progress(model, seeds, selected, pending) && name in pending && name in model
    ensures var more := Dependencies(model, name);
        Progress(model, seeds, selected + more, pending - {name} + (more - selected))
  {
    hide Needed, Dependencies;
    forall d | d in Dependencies(model, name) ensures Needed(model, seeds, d) {
      DependencyNeeded(model, seeds, name, d);
    }
  }

  lemma {:induction false} SmallerRest(universe: set<string>, selected: set<string>, more: set<string>)
    requires selected + more <= universe && !(more <= selected)
    ensures |universe - (selected + more)| < |universe - selected|
  {
    assert universe - (selected + more) <= universe - selected;
    var d :| d in more && d !in selected;
    assert d in universe - selected && d !in universe - (selected + more);
    SubsetSmaller(universe - (selected + more), universe - selected, d);
  }

  lemma {:induction false} SubsetSmaller(a: set<string>, b: set<string>, d: string)
    requires a <= b && d in b && d !in a
    ensures |a| < |b|
  {
    assert b == a + (b - a) && d in b - a;
    assert |b| == |a| + |b - a|;
  }

  lemma {:induction false} ProgressStart(model: Model, seeds: set<string>)
    ensures Progress(model, seeds, seeds, seeds) && seeds <= Universe(model, seeds)
  {
    hide Needed, Dependencies;
    forall name | name in seeds ensures Needed(model, seeds, name) { SeedNeeded(model, seeds, name); }
  }

  lemma {:induction false} ProgressNeeded(model: Model, seeds: set<string>, selected: set<string>, pending: set<string>,
                                          name: string)
    requires Progress(model, seeds, selected, pending) && name in pending
    ensures Needed(model, seeds, name)
  {}

  lemma {:induction false} ProgressDone(model: Model, seeds: set<string>, selected: set<string>)
    requires Progress(model, seeds, selected, {})
    ensures forall name :: name in selected <==> Needed(model, seeds, name)
    ensures forall name | Needed(model, seeds, name) :: name in model
  {
    hide Needed, Dependencies;
    assert forall name | name in selected :: name in selected - {};
    forall name | Needed(model, seeds, name) ensures name in selected { NeededLeast(model, seeds, selected, name); }
  }

  lemma {:induction false} SomeProgress(universe: set<string>, selected: set<string>, more: set<string>)
    requires selected + more <= universe
    ensures |universe - (selected + more)| < |universe - selected| || selected + more == selected
  {
    if !(more <= selected) { SmallerRest(universe, selected, more); }
  }

  /** The worklist, popped in any order. */
  method Close(model: Model, seeds: set<string>) returns (r: Selection)
    ensures !r.UnknownTargets?
    ensures r.Selected? ==> forall name :: name in r.names <==> Needed(model, seeds, name)
    ensures r.Selected? <==> forall name | Needed(model, seeds, name) :: name in model
    ensures r.MissingService? ==> Needed(model, seeds, r.name) && r.name !in model
  {
    hide Needed, Dependencies, Progress, Universe;
    var selected, pending := seeds, seeds;
    ghost var universe := Universe(model, seeds);
    ProgressStart(model, seeds);
    while pending != {}
      invariant Progress(model, seeds, selected, pending) && selected <= universe
      decreases |universe - selected|, pending
    {
      var name :| name in pending;
      ProgressNeeded(model, seeds, selected, pending, name);
      if name !in model {
        return MissingService(name);
      }
      ProgressNext(model, seeds, selected, pending, name);
      DependenciesWithin(model, seeds, name);
      SomeProgress(universe, selected, Dependencies(model, name));
      selected, pending := Expand(model, name, selected, pending - {name});
    }
    ProgressDone(model, seeds, selected);
    return Selected(selected);
  }

  /** Selects exactly the needed services; refuses exactly unknown targets and needed services that are missing. */
  method Select(model: Model, targets: seq<string>, profiles: seq<string>) returns (r: Selection)
    ensures r.UnknownTargets? <==> exists t :: t in targets && t !in model
    ensures r.UnknownTargets? ==> r.names == (set t | t in targets && t !in model)
    ensures var seeds := Seeds(model, targets, profiles);
      && (r.Selected? ==> forall name :: name in r.names <==> Needed(model, seeds, name))
      && (!r.UnknownTargets? ==> (r.Selected? <==> forall name | Needed(model, seeds, name) :: name in model))
      && (r.MissingService? ==> Needed(model, seeds, r.name) && r.name !in model)
  {
    hide Needed, Seeds;
    var unknown := set t | t in targets && t !in model;
    if targets != [] && unknown != {} {
      var t :| t in unknown;
      return UnknownTargets(unknown);
    }
    assert forall t :: t in targets && t !in model ==> t in unknown;
    r := Close(model, Seeds(model, targets, profiles));
  }
}
