/** Validating the apps of a deployment: distinct labels, no missing dependency, no cycle; then an order in which
    every app follows the apps it depends on. */
module AppDependencies {
  import opened Common
  import opened DepthFirst

  datatype AppModule = AppModule(appLabel: string, dependencies: seq<string>)

  datatype DependencyError =
    | DuplicateLabel
    | MissingDependencies(missing: seq<string>)
    | CircularDependencies(cycle: seq<string>)

  /** The ordered apps, and the errors by the label they are reported under. */
  datatype Validation = Validation(ordered: seq<AppModule>, errors: map<string, seq<DependencyError>>)

  function AddError(errors: map<string, seq<DependencyError>>, appLabel: string, e: DependencyError): map<string,
                    seq<DependencyError>> {
    errors[appLabel := (if appLabel in errors then errors[appLabel] else []) + [e]]
  }

  /** The first module of each label. */
  function ByLabel(modules: seq<AppModule>, n: nat): map<string, AppModule>
    requires n <= |modules|
  {
    if n == 0 then map[]
    else
      var before := ByLabel(modules, n - 1);
      var last := modules[n - 1];
      if last.appLabel in before then before else before[last.appLabel := last]
  }

  lemma {:induction false} ByLabelFacts(modules: seq<AppModule>, n: nat, k: string)
    requires n <= |modules|
    ensures k in ByLabel(modules, n) <==> exists i | 0 <= i < n :: modules[i].appLabel == k
    ensures k in ByLabel(modules, n) ==> ByLabel(modules, n)[k].appLabel == k && ByLabel(modules, n)[k] in modules
  {
    if n > 0 {
      ByLabelFacts(modules, n - 1, k);
    }
  }

  function Duplicates(modules: seq<AppModule>, n: nat): map<string, seq<DependencyError>>
    requires n <= |modules|
  {
    if n == 0 then map[]
    else
      var before := Duplicates(modules, n - 1);
      var appLabel := modules[n - 1].appLabel;
      if appLabel in ByLabel(modules, n - 1) then AddError(before, appLabel, DuplicateLabel) else before
  }

  function MissingIn(dependencies: seq<string>, labels: set<string>): (missing: seq<string>)
    ensures missing == [] <==> forall d | d in dependencies :: d in labels
    ensures forall d :: d in missing <==> d in dependencies && d !in labels
  {
    if dependencies == [] then []
    else (if dependencies[0] in labels then [] else [dependencies[0]]) + MissingIn(dependencies[1..], labels)
  }

  /** Adds the missing dependencies of each labelled module, in the order the labels were first declared. */
  function WithMissing(modules: seq<AppModule>, n: nat, errors: map<string, seq<DependencyError>>): map<string,
                       seq<DependencyError>>
    requires n <= |modules|
  {
    if n == 0 then errors
    else
      var before := WithMissing(modules, n - 1, errors);
      var m := modules[n - 1];
      if m.appLabel in ByLabel(modules, n - 1) then before
      else
        var missing := MissingIn(m.dependencies, ByLabel(modules, |modules|).Keys);
        if missing == [] then before else AddError(before, m.appLabel, MissingDependencies(missing))
  }

  predicate DistinctLabels(modules: seq<AppModule>) {
    forall i, j | 0 <= i < j < |modules| :: modules[i].appLabel != modules[j].appLabel
  }

  predicate NothingMissing(modules: seq<AppModule>) {
    forall m, d | m in modules && d in m.dependencies :: exists n | n in modules :: n.appLabel == d
  }

  function Edges(labelled: map<string, AppModule>): Graph {
    map k | k in labelled :: labelled[k].dependencies
  }

  function GraphOf(modules: seq<AppModule>): Graph {
    Edges(ByLabel(modules, |modules|))
  }

  function Labels(modules: seq<AppModule>): (labels: seq<string>)
    ensures |labels| == |modules| && forall i | 0 <= i < |modules| :: labels[i] == modules[i].appLabel
  {
    seq(|modules|, i requires 0 <= i < |modules| => modules[i].appLabel)
  }

  function WithCycles(cycles: seq<seq<string>>, n: nat): map<string, seq<DependencyError>>
    requires n <= |cycles| && forall i | 0 <= i < |cycles| :: cycles[i] != []
  {
    if n == 0 then map[] else AddError(WithCycles(cycles, n - 1), cycles[n - 1][0], CircularDependencies(cycles[n - 1]))
  }

  function Named(labelled: map<string, AppModule>, order: seq<string>): (ms: seq<AppModule>)
    requires forall i | 0 <= i < |order| :: order[i] in labelled
    ensures |ms| == |order| && forall i | 0 <= i < |order| :: ms[i] == labelled[order[i]]
  {
    seq(|order|, i requires 0 <= i < |order| => labelled[order[i]])
  }

  function InOrder(modules: seq<AppModule>, order: seq<string>): (ms: seq<AppModule>)
    requires forall i | 0 <= i < |order| :: order[i] in ByLabel(modules, |modules|)
    ensures |ms| == |order| && forall i | 0 <= i < |order| :: ms[i] == ByLabel(modules, |modules|)[order[i]]
  {
    Named(ByLabel(modules, |modules|), order)
  }

  // ----- errors before the search -----

  lemma AddErrorAdds(errors: map<string, seq<DependencyError>>, appLabel: string, e: DependencyError)
    ensures AddError(errors, appLabel, e) != map[]
    ensures errors.Keys <= AddError(errors, appLabel, e).Keys
  {
    assert appLabel in AddError(errors, appLabel, e);
  }

  lemma {:induction false} NoDuplicatesIff(modules: seq<AppModule>, n: nat)
    requires n <= |modules|
    ensures Duplicates(modules, n) == map[] <==> forall i, j | 0 <= i < j < n :: modules[i].appLabel != modules[j].appLabel
  {
    hide AddError, ByLabel;
    if n > 0 {
      NoDuplicatesIff(modules, n - 1);
      AddErrorAdds(Duplicates(modules, n - 1), modules[n - 1].appLabel, DuplicateLabel);
      ByLabelFacts(modules, n - 1, modules[n - 1].appLabel);
    }
  }

  predicate Complete(modules: seq<AppModule>, m: AppModule) {
    MissingIn(m.dependencies, ByLabel(modules, |modules|).Keys) == []
  }

  lemma {:induction false} NoMissingIff(modules: seq<AppModule>, n: nat)
    requires n <= |modules| && DistinctLabels(modules)
    ensures WithMissing(modules, n, map[]) == map[] <==> forall i | 0 <= i < n :: Complete(modules, modules[i])
  {
    hide AddError, ByLabel, MissingIn;
    if n > 0 {
      NoMissingIff(modules, n - 1);
      var m := modules[n - 1];
      ByLabelFacts(modules, n - 1, m.appLabel);
      AddErrorAdds(WithMissing(modules, n - 1, map[]), m.appLabel,
                   MissingDependencies(MissingIn(m.dependencies, ByLabel(modules, |modules|).Keys)));
    }
  }

  lemma {:induction false} ErrorsStay(modules: seq<AppModule>, n: nat, errors: map<string, seq<DependencyError>>)
    requires n <= |modules|
    ensures errors.Keys <= WithMissing(modules, n, errors).Keys
  {
    hide AddError, ByLabel, MissingIn;
    if n > 0 {
      ErrorsStay(modules, n - 1, errors);
      var m := modules[n - 1];
      AddErrorAdds(WithMissing(modules, n - 1, errors), m.appLabel,
                   MissingDependencies(MissingIn(m.dependencies, ByLabel(modules, |modules|).Keys)));
    }
  }

  function EarlyErrors(modules: seq<AppModule>): map<string, seq<DependencyError>> {
    WithMissing(modules, |modules|, Duplicates(modules, |modules|))
  }

  lemma LabelsAreKeys(modules: seq<AppModule>, d: string)
    ensures d in ByLabel(modules, |modules|) <==> exists n | n in modules :: n.appLabel == d
  {
    ByLabelFacts(modules, |modules|, d);
  }

  lemma CompleteIff(modules: seq<AppModule>)
    ensures NothingMissing(modules) <==> forall i | 0 <= i < |modules| :: Complete(modules, modules[i])
  {
    hide ByLabel;
    forall d
      ensures d in ByLabel(modules, |modules|) <==> exists n | n in modules :: n.appLabel == d
    {
      LabelsAreKeys(modules, d);
    }
  }

  lemma EarlyErrorsIff(modules: seq<AppModule>)
    ensures EarlyErrors(modules) == map[] <==> DistinctLabels(modules) && NothingMissing(modules)
  {
    hide ByLabel, NothingMissing, Complete, Duplicates, WithMissing;
    NoDuplicatesIff(modules, |modules|);
    ErrorsStay(modules, |modules|, Duplicates(modules, |modules|));
    CompleteIff(modules);
    if DistinctLabels(modules) {
      NoMissingIff(modules, |modules|);
    }
    assert Duplicates(modules, |modules|) == map[] <==> Duplicates(modules, |modules|).Keys == {};
    assert EarlyErrors(modules) == map[] <==> EarlyErrors(modules).Keys == {};
  }

  /** The errors reported under a label, in the order in which they were added. */
  function ErrorsAt(errors: map<string, seq<DependencyError>>, appLabel: string): seq<DependencyError> {
    if appLabel in errors then errors[appLabel] else []
  }

  function Occurrences(modules: seq<AppModule>, n: nat, appLabel: string): nat
    requires n <= |modules|
  {
    if n == 0 then 0 else Occurrences(modules, n - 1, appLabel) + if modules[n - 1].appLabel == appLabel then 1 else 0
  }

  lemma AddsAt(errors: map<string, seq<DependencyError>>, appLabel: string, e: DependencyError, k: string)
    ensures ErrorsAt(AddError(errors, appLabel, e), k) == ErrorsAt(errors, k) + if k == appLabel then [e] else []
  {
  }

  /** Every module of a label but the first is reported as a duplicate, once. */
  lemma {:induction false} DuplicatesExact(modules: seq<AppModule>, n: nat, k: string)
    requires n <= |modules|
    ensures Occurrences(modules, n, k) > 0 <==> k in ByLabel(modules, n)
    ensures ErrorsAt(Duplicates(modules, n), k) == seq(Max(Occurrences(modules, n, k) - 1, 0), i => DuplicateLabel)
  {
    hide AddError, ErrorsAt;
    if n == 0 {
      assert ErrorsAt(map[], k) == [] by { NoErrors(k); }
    } else {
      DuplicatesExact(modules, n - 1, k);
      AddsAt(Duplicates(modules, n - 1), modules[n - 1].appLabel, DuplicateLabel, k);
    }
  }

  lemma NoErrors(k: string)
    ensures ErrorsAt(map[], k) == []
  {
  }

  /** The first module of a label. */
  predicate IsFirst(modules: seq<AppModule>, i: nat)
    requires i < |modules|
  {
    forall j | 0 <= j < i :: modules[j].appLabel != modules[i].appLabel
  }

  /** What is missing from the first module of a label is reported under it, in the order of its declaration. */
  lemma {:induction false} MissingAt(modules: seq<AppModule>, n: nat, errors: map<string, seq<DependencyError>>, i: nat)
    requires n <= |modules| && i < |modules| && IsFirst(modules, i)
    ensures var missing := MissingIn(modules[i].dependencies, ByLabel(modules, |modules|).Keys);
            var k := modules[i].appLabel;
            ErrorsAt(WithMissing(modules, n, errors), k) ==
            ErrorsAt(errors, k) + if i < n && missing != [] then [MissingDependencies(missing)] else []
  {
    hide AddError, ErrorsAt, MissingIn, ByLabel;
    if n > 0 {
      MissingAt(modules, n - 1, errors, i);
      ByLabelFacts(modules, n - 1, modules[n - 1].appLabel);
      AddsAt(WithMissing(modules, n - 1, errors), modules[n - 1].appLabel,
             MissingDependencies(MissingIn(modules[n - 1].dependencies, ByLabel(modules, |modules|).Keys)), modules[i].appLabel);
    }
  }

  /** What is reported under a label before the search: one duplicate for each module after the first, and then the
      dependencies of the first one that no module is labelled with. */
  lemma EarlyErrorsExact(modules: seq<AppModule>, i: nat)
    requires i < |modules| && IsFirst(modules, i)
    ensures exists missing ::
              && ErrorsAt(EarlyErrors(modules), modules[i].appLabel) ==
                 seq(Max(Occurrences(modules, |modules|, modules[i].appLabel) - 1, 0), j => DuplicateLabel)
                 + (if missing != [] then [MissingDependencies(missing)] else [])
              && forall d :: d in missing <==> d in modules[i].dependencies && !exists n | n in modules :: n.appLabel == d
  {
    hide ErrorsAt, ByLabel, Duplicates, WithMissing;
    ByLabelFacts(modules, |modules|, modules[i].appLabel);
    DuplicatesExact(modules, |modules|, modules[i].appLabel);
    MissingAt(modules, |modules|, Duplicates(modules, |modules|), i);
    var missing := MissingIn(modules[i].dependencies, ByLabel(modules, |modules|).Keys);
    forall d
      ensures d in missing <==> d in modules[i].dependencies && !exists n | n in modules :: n.appLabel == d
    {
      LabelsAreKeys(modules, d);
    }
  }

  // ----- the search -----

  lemma GraphIsClosed(modules: seq<AppModule>)
    requires DistinctLabels(modules) && NothingMissing(modules)
    ensures Closed(GraphOf(modules))
    ensures Elements(Labels(modules)) == GraphOf(modules).Keys
    ensures forall i | 0 <= i < |modules| :: Labels(modules)[i] in GraphOf(modules)
  {
    var labelled := ByLabel(modules, |modules|);
    forall k, i | k in labelled && 0 <= i < |labelled[k].dependencies|
      ensures labelled[k].dependencies[i] in labelled
    {
      ByLabelFacts(modules, |modules|, k);
      assert labelled[k] in modules && labelled[k].dependencies[i] in labelled[k].dependencies;
      LabelsAreKeys(modules, labelled[k].dependencies[i]);
    }
    forall k
      ensures k in Elements(Labels(modules)) <==> k in labelled
    {
      ByLabelFacts(modules, |modules|, k);
      if k in labelled {
        var i :| 0 <= i < |modules| && modules[i].appLabel == k;
        assert Labels(modules)[i] == k;
      }
      if k in Labels(modules) {
        var i :| 0 <= i < |modules| && Labels(modules)[i] == k;
      }
    }
  }

  function SearchOf(modules: seq<AppModule>): State
    requires DistinctLabels(modules) && NothingMissing(modules)
  {
    GraphIsClosed(modules);
    Search(GraphOf(modules), Labels(modules))
  }

  lemma SearchFacts(modules: seq<AppModule>)
    requires DistinctLabels(modules) && NothingMissing(modules)
    ensures var g := GraphOf(modules);
            var r := SearchOf(modules);
            && (forall i | 0 <= i < |r.cycles| :: IsCycle(g, r.cycles[i]))
            && (r.cycles == [] <==> Acyclic(g))
            && Distinct(r.ordered) && Elements(r.ordered) == g.Keys
            && (r.cycles == [] ==> DependenciesFirst(g, r.ordered))
            && (forall i | 0 <= i < |r.ordered| :: r.ordered[i] in g)
  {
    GraphIsClosed(modules);
    SearchIsExact(GraphOf(modules), Labels(modules));
    OrderedAreNodes(GraphOf(modules), Labels(modules));
  }

  lemma SearchIsFromLabels(modules: seq<AppModule>)
    requires DistinctLabels(modules) && NothingMissing(modules)
    requires Closed(GraphOf(modules)) && forall i | 0 <= i < |modules| :: Labels(modules)[i] in GraphOf(modules)
    ensures SearchOf(modules) == Search(GraphOf(modules), Labels(modules))
  {
  }

  /** `validate_app_dependencies`. */
  function Validate(modules: seq<AppModule>): Validation {
    EarlyErrorsIff(modules);
    if EarlyErrors(modules) != map[] then Validation([], EarlyErrors(modules))
    else
      SearchFacts(modules);
      var r := SearchOf(modules);
      if r.cycles != [] then Validation([], WithCycles(r.cycles, |r.cycles|))
      else Validation(InOrder(modules, r.ordered), map[])
  }

  /** Validation passes exactly when labels are distinct, nothing is missing and there is no cycle. */
  lemma ValidIff(modules: seq<AppModule>)
    ensures Validate(modules).errors == map[] <==>
              DistinctLabels(modules) && NothingMissing(modules) && Acyclic(GraphOf(modules))
  {
    EarlyErrorsIff(modules);
    if EarlyErrors(modules) == map[] {
      SearchFacts(modules);
      var cycles := SearchOf(modules).cycles;
      if cycles != [] {
        assert cycles[|cycles| - 1][0] in WithCycles(cycles, |cycles|);
      }
    }
  }

  /** Every reported cycle is a real one, under the label it starts from. */
  lemma {:induction false} CyclesAreReal(modules: seq<AppModule>, appLabel: string, e: DependencyError)
    requires appLabel in Validate(modules).errors && e in Validate(modules).errors[appLabel] && e.CircularDependencies?
    ensures IsCycle(GraphOf(modules), e.cycle) && e.cycle[0] == appLabel
  {
    EarlyErrorsIff(modules);
    if EarlyErrors(modules) == map[] {
      SearchFacts(modules);
      var cycles := SearchOf(modules).cycles;
      CyclesFromSearch(cycles, |cycles|, appLabel, e);
    } else {
      DuplicatesNoCycle(modules, |modules|);
      MissingNoCycle(modules, |modules|, Duplicates(modules, |modules|));
    }
  }

  lemma {:induction false} CyclesFromSearch(cycles: seq<seq<string>>, n: nat, appLabel: string, e: DependencyError)
    requires n <= |cycles| && forall i | 0 <= i < |cycles| :: cycles[i] != []
    requires appLabel in WithCycles(cycles, n) && e in WithCycles(cycles, n)[appLabel]
    ensures exists i | 0 <= i < n :: e == CircularDependencies(cycles[i]) && cycles[i][0] == appLabel
  {
    if n > 0 {
      var before := WithCycles(cycles, n - 1);
      if appLabel in before && e in before[appLabel] {
        CyclesFromSearch(cycles, n - 1, appLabel, e);
      } else {
        assert e == CircularDependencies(cycles[n - 1]) && cycles[n - 1][0] == appLabel;
      }
    }
  }

  predicate NoCycleError(errors: map<string, seq<DependencyError>>) {
    forall k, e | k in errors && e in errors[k] :: !e.CircularDependencies?
  }

  lemma NoCycleAdded(errors: map<string, seq<DependencyError>>, appLabel: string, e: DependencyError)
    requires NoCycleError(errors) && !e.CircularDependencies?
    ensures NoCycleError(AddError(errors, appLabel, e))
  {
  }

  lemma {:induction false} DuplicatesNoCycle(modules: seq<AppModule>, n: nat)
    requires n <= |modules|
    ensures NoCycleError(Duplicates(modules, n))
  {
    hide AddError, ByLabel, NoCycleError;
    if n > 0 {
      DuplicatesNoCycle(modules, n - 1);
      NoCycleAdded(Duplicates(modules, n - 1), modules[n - 1].appLabel, DuplicateLabel);
    } else {
      NoErrorNoCycle();
    }
  }

  lemma NoErrorNoCycle()
    ensures NoCycleError(map[])
  {
  }

  lemma {:induction false} MissingNoCycle(modules: seq<AppModule>, n: nat, errors: map<string, seq<DependencyError>>)
    requires n <= |modules| && NoCycleError(errors)
    ensures NoCycleError(WithMissing(modules, n, errors))
  {
    hide AddError, ByLabel, NoCycleError, MissingIn;
    if n > 0 {
      MissingNoCycle(modules, n - 1, errors);
      var m := modules[n - 1];
      NoCycleAdded(WithMissing(modules, n - 1, errors), m.appLabel,
                   MissingDependencies(MissingIn(m.dependencies, ByLabel(modules, |modules|).Keys)));
    }
  }

  lemma OrderAt(modules: seq<AppModule>)
    requires Validate(modules).errors == map[]
    ensures DistinctLabels(modules) && NothingMissing(modules)
    ensures var order := SearchOf(modules).ordered;
            var ms := Validate(modules).ordered;
            && |ms| == |order|
            && (forall i | 0 <= i < |ms| :: order[i] in ByLabel(modules, |modules|) && ms[i] == ByLabel(modules, |modules|)[order[i]])
  {
    ValidIff(modules);
    EarlyErrorsIff(modules);
    SearchFacts(modules);
  }

  lemma LabelDecides(modules: seq<AppModule>, m: AppModule)
    requires DistinctLabels(modules) && m in modules
    ensures m.appLabel in ByLabel(modules, |modules|) && ByLabel(modules, |modules|)[m.appLabel] == m
  {
    hide ByLabel;
    ByLabelFacts(modules, |modules|, m.appLabel);
    var j :| 0 <= j < |modules| && modules[j] == m;
    assert m.appLabel in ByLabel(modules, |modules|);
    var l :| 0 <= l < |modules| && modules[l] == ByLabel(modules, |modules|)[m.appLabel];
  }

  /** The order of a valid set of apps holds exactly those apps... */
  lemma ValidOrderIsPermutation(modules: seq<AppModule>, m: AppModule)
    requires Validate(modules).errors == map[]
    ensures m in Validate(modules).ordered <==> m in modules
    ensures var ms := Validate(modules).ordered; forall j, k | 0 <= j < k < |ms| :: ms[j].appLabel != ms[k].appLabel
  {
    OrderAt(modules);
    ValidIff(modules);
    SearchFacts(modules);
    hide ByLabel, Validate, SearchOf, NothingMissing, DistinctLabels, GraphOf;
    var order := SearchOf(modules).ordered;
    var ms := Validate(modules).ordered;
    forall i | 0 <= i < |ms|
      ensures ms[i].appLabel == order[i] && ms[i] in modules
    {
      ByLabelFacts(modules, |modules|, order[i]);
    }
    if m in modules {
      LabelDecides(modules, m);
      GraphKeys(modules);
      assert m.appLabel in Elements(order);
      var k :| 0 <= k < |order| && order[k] == m.appLabel;
      assert ms[k] == m;
    }
  }

  lemma GraphKeys(modules: seq<AppModule>)
    ensures GraphOf(modules).Keys == ByLabel(modules, |modules|).Keys
    ensures forall k | k in GraphOf(modules) :: GraphOf(modules)[k] == ByLabel(modules, |modules|)[k].dependencies
  {
  }

  /** ...each after all the apps it depends on. */
  lemma ValidOrder(modules: seq<AppModule>, i: nat, d: string)
    requires Validate(modules).errors == map[]
    requires i < |Validate(modules).ordered| && d in Validate(modules).ordered[i].dependencies
    ensures exists k | 0 <= k < i :: Validate(modules).ordered[k].appLabel == d
  {
    OrderAt(modules);
    ValidIff(modules);
    SearchFacts(modules);
    hide ByLabel, Validate, SearchOf, NothingMissing, DistinctLabels, GraphOf;
    GraphKeys(modules);
    var order := SearchOf(modules).ordered;
    var ms := Validate(modules).ordered;
    assert d in GraphOf(modules)[order[i]];
    assert d in order[..i];
    var k :| 0 <= k < i && order[k] == d;
    ByLabelFacts(modules, |modules|, order[k]);
    assert ms[k].appLabel == d;
  }

  // ----- validation as it runs -----

  /** The labels as a dictionary keeps them: in the order of their first modules. */
  function FirstLabels(modules: seq<AppModule>, n: nat): (order: seq<string>)
    requires n <= |modules|
    ensures forall i | 0 <= i < |order| :: order[i] in ByLabel(modules, n)
  {
    if n == 0 then []
    else
      var before := FirstLabels(modules, n - 1);
      if modules[n - 1].appLabel in ByLabel(modules, n - 1) then before else before + [modules[n - 1].appLabel]
  }

  lemma {:induction false} ByLabelGrows(modules: seq<AppModule>, m: nat, n: nat, k: string)
    requires m <= n <= |modules| && k in ByLabel(modules, m)
    ensures k in ByLabel(modules, n) && ByLabel(modules, n)[k] == ByLabel(modules, m)[k]
    decreases n - m
  {
    if m < n {
      ByLabelGrows(modules, m, n - 1, k);
    }
  }

  /** The errors after going through these labels of the dictionary. */
  function MissingAlong(labelled: map<string, AppModule>, order: seq<string>, errors: map<string, seq<DependencyError>>):
    map<string, seq<DependencyError>>
    requires forall i | 0 <= i < |order| :: order[i] in labelled
    decreases |order|
  {
    if order == [] then errors
    else
      var before := MissingAlong(labelled, order[..|order| - 1], errors);
      var m := labelled[order[|order| - 1]];
      var missing := MissingIn(m.dependencies, labelled.Keys);
      if missing == [] then before else AddError(before, m.appLabel, MissingDependencies(missing))
  }

  lemma LabelsAreKnown(modules: seq<AppModule>, n: nat)
    requires n <= |modules|
    ensures forall i | 0 <= i < |FirstLabels(modules, n)| :: FirstLabels(modules, n)[i] in ByLabel(modules, |modules|)
  {
    hide ByLabel, FirstLabels;
    var order := FirstLabels(modules, n);
    forall i | 0 <= i < |order|
      ensures order[i] in ByLabel(modules, |modules|)
    {
      ByLabelGrows(modules, n, |modules|, order[i]);
    }
  }

  /** The next module is the dictionary's entry for its label when the label is new. */
  lemma NextLabel(modules: seq<AppModule>, n: nat)
    requires n < |modules|
    ensures var k := modules[n].appLabel;
            var before := FirstLabels(modules, n);
            if k in ByLabel(modules, n) then FirstLabels(modules, n + 1) == before
            else FirstLabels(modules, n + 1) == before + [k] && k in ByLabel(modules, n + 1) && ByLabel(modules, n + 1)[k] == modules[n]
  {
  }

  /** Going through the dictionary is going through the first modules of the labels. */
  lemma {:induction false} MissingAlongLabels(modules: seq<AppModule>, n: nat, errors: map<string, seq<DependencyError>>)
    requires n <= |modules|
    ensures forall i | 0 <= i < |FirstLabels(modules, n)| :: FirstLabels(modules, n)[i] in ByLabel(modules, |modules|)
    ensures MissingAlong(ByLabel(modules, |modules|), FirstLabels(modules, n), errors) == WithMissing(modules, n, errors)
  {
    assert FirstLabels(modules, 0) == [];
    hide AddError, MissingIn, ByLabel, FirstLabels;
    LabelsAreKnown(modules, n);
    if n > 0 {
      MissingAlongLabels(modules, n - 1, errors);
      NextLabel(modules, n - 1);
      var m := modules[n - 1];
      var order := FirstLabels(modules, n);
      if m.appLabel !in ByLabel(modules, n - 1) {
        ByLabelGrows(modules, n, |modules|, m.appLabel);
        assert order[..|order| - 1] == FirstLabels(modules, n - 1);
      }
    }
  }

  method CollectLabels(modules: seq<AppModule>)
    returns (labelled: map<string, AppModule>, order: seq<string>, errors: map<string, seq<DependencyError>>)
    ensures labelled == ByLabel(modules, |modules|) && order == FirstLabels(modules, |modules|)
    ensures errors == Duplicates(modules, |modules|)
  {
    hide AddError;
    labelled, order, errors := map[], [], map[];
    for i := 0 to |modules|
      invariant labelled == ByLabel(modules, i) && errors == Duplicates(modules, i)
      invariant order == FirstLabels(modules, i)
    {
      var appLabel := modules[i].appLabel;
      if appLabel in labelled {
        errors := AddError(errors, appLabel, DuplicateLabel);
      } else {
        labelled, order := labelled[appLabel := modules[i]], order + [appLabel];
      }
    }
  }

  /** `order` lists the keys of the dictionary in insertion order. */
  method CollectMissing(ghost modules: seq<AppModule>, labelled: map<string, AppModule>, order: seq<string>,
                        before: map<string, seq<DependencyError>>)
    returns (errors: map<string, seq<DependencyError>>)
    requires labelled == ByLabel(modules, |modules|) && order == FirstLabels(modules, |modules|)
    ensures errors == WithMissing(modules, |modules|, before)
  {
    hide AddError, MissingIn, ByLabel, FirstLabels;
    MissingAlongLabels(modules, |modules|, before);
    errors := before;
    for k := 0 to |order|
      invariant errors == MissingAlong(labelled, order[..k], before)
    {
      assert order[..k + 1][..k] == order[..k];
      var m := labelled[order[k]];
      var missing := MissingIn(m.dependencies, labelled.Keys);
      if missing != [] {
        errors := AddError(errors, m.appLabel, MissingDependencies(missing));
      }
    }
    assert order[..|order|] == order;
  }

  method TopologicalOrder(modules: seq<AppModule>, labelled: map<string, AppModule>)
    returns (order: seq<string>, errors: map<string, seq<DependencyError>>)
    requires labelled == ByLabel(modules, |modules|) && DistinctLabels(modules) && NothingMissing(modules)
    ensures var r := SearchOf(modules);
            && (forall i | 0 <= i < |r.cycles| :: r.cycles[i] != [])
            && errors == WithCycles(r.cycles, |r.cycles|)
            && order == if r.cycles == [] then r.ordered else []
  {
    hide AddError, ByLabel, SearchOf, NothingMissing, DistinctLabels, Search, Acyclic, DependenciesFirst, IsWalk, Distinct;
    GraphIsClosed(modules);
    SearchIsFromLabels(modules);
    SearchFacts(modules);
    var search := new DepthFirstSearch(Edges(labelled));
    search.VisitRoots(Labels(modules));
    assert search.Current() == SearchOf(modules);
    var cycles := search.cycles;
    assert forall i | 0 <= i < |cycles| :: IsCycle(GraphOf(modules), cycles[i]);
    errors := map[];
    for i := 0 to |cycles|
      invariant errors == WithCycles(cycles, i)
    {
      errors := AddError(errors, cycles[i][0], CircularDependencies(cycles[i]));
    }
    order := if cycles == [] then search.ordered else [];
  }

  method ValidateAppDependencies(modules: seq<AppModule>) returns (v: Validation)
    ensures v == Validate(modules)
  {
    hide ByLabel, Duplicates, WithMissing, FirstLabels, SearchOf, WithCycles;
    var labelled, keys, errors := CollectLabels(modules);
    errors := CollectMissing(modules, labelled, keys, errors);
    EarlyErrorsIff(modules);
    if errors != map[] {
      return Validation([], errors);
    }
    SearchFacts(modules);
    GraphKeys(modules);
    var order;
    order, errors := TopologicalOrder(modules, labelled);
    NoCyclesIff(SearchOf(modules).cycles);
    v := Validation(Named(labelled, order), errors);
  }

  lemma NoCyclesIff(cycles: seq<seq<string>>)
    requires forall i | 0 <= i < |cycles| :: cycles[i] != []
    ensures WithCycles(cycles, |cycles|) == map[] <==> cycles == []
  {
    if cycles != [] {
      var n := |cycles| - 1;
      AddErrorAdds(WithCycles(cycles, n), cycles[n][0], CircularDependencies(cycles[n]));
    }
  }
}
