/** Planning migrations: every manifest after the manifests it depends on, by its own declaration or because its
    app depends on theirs. */
module Migrations {
  import opened Common
  import opened DepthFirst
  import SortedStrings

  datatype Phase = Expand | Backfill | Contract | Maintenance

  datatype Manifest = Manifest(appLabel: string, migrationId: string, phase: Phase, dependsOn: seq<string>)

  /** An app and the labels of the apps it depends on. */
  datatype AppModule = AppModule(appLabel: string, dependencies: seq<string>)

  datatype PlanError =
    | DuplicateKeys
    | MissingDependency(key: string, dependency: string)
    | CircularDependency(cycle: seq<string>)

  datatype Plan = Plan(migrations: seq<Manifest>, errors: seq<PlanError>)

  function KeyOf(m: Manifest): string {
    m.appLabel + ":" + m.migrationId
  }

  function DependencyKey(m: Manifest, dependency: string): string {
    if ':' in dependency then dependency else m.appLabel + ":" + dependency
  }

  /** What comes before the first ':' and what follows it decide each other. */
  lemma FirstColonSplits(a: string, b: string, restA: string, restB: string)
    requires ':' !in a && ':' !in b
    ensures a + ":" + restA == b + ":" + restB ==> a == b && restA == restB
  {
    var s, t := a + ":" + restA, b + ":" + restB;
    if s == t {
      assert s[|a|] == ':' && t[|b|] == ':';
      assert forall i | 0 <= i < |a| :: s[i] == a[i] && a[i] in a;
      assert forall i | 0 <= i < |b| :: t[i] == b[i] && b[i] in b;
      assert a == s[..|a|] == t[..|b|] == b;
      assert restA == s[|a| + 1..] == t[|b| + 1..] == restB;
    }
  }

  /** Two manifests have one key exactly when they have one app and one id, as long as no app label holds a ':'. */
  lemma KeyIdentifies(m: Manifest, n: Manifest)
    requires ':' !in m.appLabel && ':' !in n.appLabel
    ensures KeyOf(m) == KeyOf(n) <==> m.appLabel == n.appLabel && m.migrationId == n.migrationId
  {
    FirstColonSplits(m.appLabel, n.appLabel, m.migrationId, n.migrationId);
  }

  /** A dependency with a ':' names app and migration; one without names a migration of the manifest's own app. */
  lemma DependencyNames(m: Manifest, dependency: string, n: Manifest)
    requires ':' !in m.appLabel && ':' !in n.appLabel
    ensures DependencyKey(m, dependency) == KeyOf(n) <==>
            if ':' in dependency then dependency == n.appLabel + ":" + n.migrationId
            else n.appLabel == m.appLabel && n.migrationId == dependency
  {
    FirstColonSplits(m.appLabel, n.appLabel, dependency, n.migrationId);
  }

  function Keys(manifests: seq<Manifest>): set<string> {
    set m | m in manifests :: KeyOf(m)
  }

  /** The manifest a key stands for: the last one declared. */
  function ByKey(manifests: seq<Manifest>, key: string): (m: Manifest)
    requires key in Keys(manifests)
    ensures m in manifests && KeyOf(m) == key
  {
    var last := manifests[|manifests| - 1];
    if KeyOf(last) == key then last else ByKey(manifests[..|manifests| - 1], key)
  }

  // ----- the graph -----

  /** m depends on the manifest of `key` through its own declaration. */
  predicate Declares(m: Manifest, key: string) {
    exists d | d in m.dependsOn :: DependencyKey(m, d) == key
  }

  /** m's app depends on n's app. */
  predicate AppsDepend(modules: seq<AppModule>, m: Manifest, n: Manifest) {
    exists a | a in modules :: a.appLabel == m.appLabel && n.appLabel in a.dependencies
  }

  /** The keys that the manifests with the given key depend on. */
  function Dependencies(manifests: seq<Manifest>, modules: seq<AppModule>, key: string): set<string> {
    (set m, d | m in manifests && KeyOf(m) == key && d in m.dependsOn && DependencyKey(m, d) in Keys(manifests) :: DependencyKey(m, d))
    + (set m, n | m in manifests && KeyOf(m) == key && n in manifests && AppsDepend(modules, m, n) :: KeyOf(n))
  }

  ghost function GraphOf(manifests: seq<Manifest>, modules: seq<AppModule>): (g: Graph)
    ensures g.Keys == Keys(manifests)
    ensures forall k | k in g :: Elements(g[k]) == Dependencies(manifests, modules, k)
  {
    map k | k in Keys(manifests) :: SortedStrings.Sorted(Dependencies(manifests, modules, k))
  }

  lemma GraphIsClosed(manifests: seq<Manifest>, modules: seq<AppModule>)
    ensures Closed(GraphOf(manifests, modules))
  {
    var g := GraphOf(manifests, modules);
    forall k, i | k in g && 0 <= i < |g[k]|
      ensures g[k][i] in g
    {
      assert g[k][i] in Elements(g[k]);
    }
  }

  /** The dependency of manifest i that is no manifest's key, in declaration order. */
  function MissingOf(m: Manifest, keys: set<string>, n: nat): seq<PlanError>
    requires n <= |m.dependsOn|
  {
    if n == 0 then []
    else
      var d := DependencyKey(m, m.dependsOn[n - 1]);
      MissingOf(m, keys, n - 1) + if d in keys then [] else [MissingDependency(KeyOf(m), d)]
  }

  function Missing(manifests: seq<Manifest>, keys: set<string>, n: nat): seq<PlanError>
    requires n <= |manifests|
  {
    if n == 0 then [] else Missing(manifests, keys, n - 1) + MissingOf(manifests[n - 1], keys, |manifests[n - 1].dependsOn|)
  }

  function Circular(cycles: seq<seq<string>>): (errors: seq<PlanError>)
    ensures |errors| == |cycles| && forall i | 0 <= i < |cycles| :: errors[i] == CircularDependency(cycles[i])
  {
    seq(|cycles|, i requires 0 <= i < |cycles| => CircularDependency(cycles[i]))
  }

  function InOrder(manifests: seq<Manifest>, order: seq<string>): (ms: seq<Manifest>)
    requires forall i | 0 <= i < |order| :: order[i] in Keys(manifests)
    ensures |ms| == |order| && forall i | 0 <= i < |order| :: ms[i] == ByKey(manifests, order[i])
  {
    seq(|order|, i requires 0 <= i < |order| => ByKey(manifests, order[i]))
  }

  function InPhase(ms: seq<Manifest>, phase: Phase): seq<Manifest> {
    if ms == [] then []
    else (if ms[0].phase == phase then [ms[0]] else []) + InPhase(ms[1..], phase)
  }

  // ----- the plan -----

  ghost function SearchOf(manifests: seq<Manifest>, modules: seq<AppModule>): (r: State)
    ensures forall i | 0 <= i < |r.ordered| :: r.ordered[i] in Keys(manifests)
  {
    GraphIsClosed(manifests, modules);
    var g := GraphOf(manifests, modules);
    var roots := SortedStrings.Sorted(g.Keys);
    assert forall i | 0 <= i < |roots| :: roots[i] in Elements(roots);
    OrderedAreNodes(g, roots);
    Search(g, roots)
  }

  /** `plan_migrations` without a phase. */
  ghost function PlanOf(manifests: seq<Manifest>, modules: seq<AppModule>): Plan {
    var keys := Keys(manifests);
    var r := SearchOf(manifests, modules);
    Plan(InOrder(manifests, r.ordered),
         (if |keys| != |manifests| then [DuplicateKeys] else []) + Missing(manifests, keys, |manifests|) + Circular(r.cycles))
  }

  predicate DistinctManifestKeys(manifests: seq<Manifest>) {
    forall i, j | 0 <= i < j < |manifests| :: KeyOf(manifests[i]) != KeyOf(manifests[j])
  }

  predicate NothingMissing(manifests: seq<Manifest>) {
    forall m, d | m in manifests && d in m.dependsOn :: DependencyKey(m, d) in Keys(manifests)
  }

  lemma {:induction false} KeyCount(manifests: seq<Manifest>)
    ensures |Keys(manifests)| <= |manifests|
    ensures |Keys(manifests)| == |manifests| <==> DistinctManifestKeys(manifests)
    decreases |manifests|
  {
    if manifests != [] {
      var n := |manifests| - 1;
      var front, last := manifests[..n], manifests[n];
      KeyCount(front);
      assert manifests == front + [last];
      assert Keys(manifests) == Keys(front) + {KeyOf(last)};
      assert KeyOf(last) in Keys(front) <==> exists i | 0 <= i < n :: KeyOf(manifests[i]) == KeyOf(last);
    }
  }

  lemma {:induction false} MissingOfExact(m: Manifest, keys: set<string>, n: nat)
    requires n <= |m.dependsOn|
    ensures forall e :: e in MissingOf(m, keys, n) <==>
              && e.MissingDependency? && e.key == KeyOf(m) && e.dependency !in keys
              && exists i | 0 <= i < n :: DependencyKey(m, m.dependsOn[i]) == e.dependency
  {
    hide KeyOf, DependencyKey;
    if n > 0 {
      MissingOfExact(m, keys, n - 1);
    }
  }

  lemma {:induction false} MissingExact(manifests: seq<Manifest>, keys: set<string>, n: nat)
    requires n <= |manifests|
    ensures forall e :: e in Missing(manifests, keys, n) <==>
              && e.MissingDependency? && e.dependency !in keys
              && exists j | 0 <= j < n :: KeyOf(manifests[j]) == e.key && Declares(manifests[j], e.dependency)
  {
    hide KeyOf, DependencyKey, MissingOf;
    if n > 0 {
      MissingExact(manifests, keys, n - 1);
      var m := manifests[n - 1];
      MissingOfExact(m, keys, |m.dependsOn|);
      forall x
        ensures Declares(m, x) <==> exists i | 0 <= i < |m.dependsOn| :: DependencyKey(m, m.dependsOn[i]) == x
      {
        if Declares(m, x) {
          var d :| d in m.dependsOn && DependencyKey(m, d) == x;
          var i :| 0 <= i < |m.dependsOn| && m.dependsOn[i] == d;
        }
      }
      hide Declares;
    }
  }

  lemma NoneMissingIff(manifests: seq<Manifest>)
    ensures Missing(manifests, Keys(manifests), |manifests|) == [] <==> NothingMissing(manifests)
  {
    hide KeyOf, DependencyKey, Missing, Keys;
    MissingExact(manifests, Keys(manifests), |manifests|);
    var missing := Missing(manifests, Keys(manifests), |manifests|);
    if missing != [] {
      assert missing[0] in missing;
      var j :| 0 <= j < |manifests| && KeyOf(manifests[j]) == missing[0].key && Declares(manifests[j], missing[0].dependency);
      assert manifests[j] in manifests;
    }
    if m, d :| m in manifests && d in m.dependsOn && DependencyKey(m, d) !in Keys(manifests) {
      var j :| 0 <= j < |manifests| && manifests[j] == m;
      assert Declares(manifests[j], DependencyKey(m, d));
      assert MissingDependency(KeyOf(m), DependencyKey(m, d)) in missing;
    }
  }

  lemma SearchFacts(manifests: seq<Manifest>, modules: seq<AppModule>)
    ensures var g := GraphOf(manifests, modules);
            var r := SearchOf(manifests, modules);
            && Distinct(r.ordered) && Elements(r.ordered) == g.Keys
            && (forall i | 0 <= i < |r.cycles| :: IsCycle(g, r.cycles[i]))
            && (r.cycles == [] <==> Acyclic(g))
            && (r.cycles == [] ==> DependenciesFirst(g, r.ordered))
  {
    GraphIsClosed(manifests, modules);
    var g := GraphOf(manifests, modules);
    var roots := SortedStrings.Sorted(g.Keys);
    assert forall i | 0 <= i < |roots| :: roots[i] in Elements(roots);
    assert Elements(roots) == Elements(roots);
    SearchIsExact(g, roots);
  }

  /** The plan has no errors exactly when keys are distinct, no dependency is missing and there is no cycle. */
  lemma PlanOkIff(manifests: seq<Manifest>, modules: seq<AppModule>)
    ensures PlanOf(manifests, modules).errors == [] <==>
              && DistinctManifestKeys(manifests)
              && NothingMissing(manifests)
              && Acyclic(GraphOf(manifests, modules))
  {
    hide KeyOf, GraphOf, Missing, SearchOf, NothingMissing, DistinctManifestKeys;
    KeyCount(manifests);
    NoneMissingIff(manifests);
    SearchFacts(manifests, modules);
  }

  lemma ErrorsListed(manifests: seq<Manifest>, modules: seq<AppModule>, e: PlanError)
    ensures e in PlanOf(manifests, modules).errors <==>
            || (e == DuplicateKeys && |Keys(manifests)| != |manifests|)
            || e in Missing(manifests, Keys(manifests), |manifests|)
            || e in Circular(SearchOf(manifests, modules).cycles)
  {
    hide Keys, Missing, SearchOf, Circular;
  }

  /** The plan reports exactly the missing dependencies that are declared, and that keys are not distinct exactly when
      they are not; every cycle it reports is one of the graph, and it reports some when there is one. */
  lemma ErrorsExact(manifests: seq<Manifest>, modules: seq<AppModule>, e: PlanError)
    ensures var errors := PlanOf(manifests, modules).errors;
            match e
            case DuplicateKeys => e in errors <==> !DistinctManifestKeys(manifests)
            case MissingDependency(key, dependency) =>
              e in errors <==>
              dependency !in Keys(manifests) && exists m | m in manifests :: KeyOf(m) == key && Declares(m, dependency)
            case CircularDependency(cycle) => e in errors ==> IsCycle(GraphOf(manifests, modules), cycle)
    ensures (exists cycle :: CircularDependency(cycle) in PlanOf(manifests, modules).errors) <==>
            !Acyclic(GraphOf(manifests, modules))
  {
    hide KeyOf, DependencyKey, GraphOf, Missing, SearchOf, Declares, DistinctManifestKeys, Keys, Acyclic, Circular;
    KeyCount(manifests);
    MissingExact(manifests, Keys(manifests), |manifests|);
    SearchFacts(manifests, modules);
    var cycles := SearchOf(manifests, modules).cycles;
    CircularExact(cycles);
    ErrorsListed(manifests, modules, e);
    forall cycle
      ensures CircularDependency(cycle) in PlanOf(manifests, modules).errors <==> cycle in cycles
    {
      ErrorsListed(manifests, modules, CircularDependency(cycle));
    }
    hide PlanOf;
    if exists m | m in manifests :: e.MissingDependency? && KeyOf(m) == e.key && Declares(m, e.dependency) {
      var m :| m in manifests && KeyOf(m) == e.key && Declares(m, e.dependency);
      var j :| 0 <= j < |manifests| && manifests[j] == m;
    }
  }

  lemma CircularExact(cycles: seq<seq<string>>)
    ensures forall e :: e in Circular(cycles) <==> e.CircularDependency? && e.cycle in cycles
    ensures cycles != [] ==> CircularDependency(cycles[0]) in Circular(cycles)
  {
    var errors := Circular(cycles);
    forall e
      ensures e in errors <==> e.CircularDependency? && e.cycle in cycles
    {
      if e in errors {
        var i :| 0 <= i < |errors| && errors[i] == e;
      }
      if e.CircularDependency? && e.cycle in cycles {
        var i :| 0 <= i < |cycles| && cycles[i] == e.cycle;
        assert errors[i] == e;
      }
    }
  }

  /** m must come after n. */
  predicate MustFollow(manifests: seq<Manifest>, modules: seq<AppModule>, m: Manifest, n: Manifest) {
    Declares(m, KeyOf(n)) || AppsDepend(modules, m, n)
  }

  lemma DependencyIsEdge(manifests: seq<Manifest>, modules: seq<AppModule>, m: Manifest, n: Manifest)
    requires m in manifests && n in manifests && MustFollow(manifests, modules, m, n)
    ensures KeyOf(n) in GraphOf(manifests, modules)[KeyOf(m)]
  {
    var g := GraphOf(manifests, modules);
    assert KeyOf(n) in Keys(manifests) && KeyOf(m) in Keys(manifests);
    assert KeyOf(n) in Dependencies(manifests, modules, KeyOf(m));
    assert KeyOf(n) in Elements(g[KeyOf(m)]);
  }

  /** The edges of the graph are what must follow what: a manifest's key leads to the keys of the manifests that it
      must come after, and nowhere else. */
  lemma EdgeIffMustFollow(manifests: seq<Manifest>, modules: seq<AppModule>, k: string, x: string)
    ensures k in GraphOf(manifests, modules) && x in GraphOf(manifests, modules)[k] <==>
            exists m, n | m in manifests && n in manifests ::
              KeyOf(m) == k && KeyOf(n) == x && MustFollow(manifests, modules, m, n)
  {
    hide KeyOf, DependencyKey;
    var g := GraphOf(manifests, modules);
    if k in g && x in g[k] {
      assert x in Elements(g[k]) && x in Dependencies(manifests, modules, k);
      if m, d :| m in manifests && KeyOf(m) == k && d in m.dependsOn && DependencyKey(m, d) == x && x in Keys(manifests) {
        var n := ByKey(manifests, x);
        assert MustFollow(manifests, modules, m, n);
      } else {
        var m, n :| m in manifests && KeyOf(m) == k && n in manifests && AppsDepend(modules, m, n) && KeyOf(n) == x;
        assert MustFollow(manifests, modules, m, n);
      }
    }
    if m, n :| m in manifests && n in manifests && KeyOf(m) == k && KeyOf(n) == x && MustFollow(manifests, modules, m, n) {
      assert k in Keys(manifests);
      DependencyIsEdge(manifests, modules, m, n);
    }
  }

  lemma DistinctByKey(manifests: seq<Manifest>, m: Manifest)
    requires DistinctManifestKeys(manifests) && m in manifests
    ensures KeyOf(m) in Keys(manifests) && ByKey(manifests, KeyOf(m)) == m
  {
    var n := ByKey(manifests, KeyOf(m));
    var i :| 0 <= i < |manifests| && manifests[i] == m;
    var j :| 0 <= j < |manifests| && manifests[j] == n;
  }

  lemma SearchCoversManifests(manifests: seq<Manifest>, modules: seq<AppModule>, m: Manifest) returns (k: nat)
    requires DistinctManifestKeys(manifests) && m in manifests
    ensures var ms := PlanOf(manifests, modules).migrations;
            var order := SearchOf(manifests, modules).ordered;
            k < |ms| == |order| && ms[k] == m && order[k] == KeyOf(m)
  {
    SearchFacts(manifests, modules);
    var order := SearchOf(manifests, modules).ordered;
    hide PlanOf, SearchOf;
    DistinctByKey(manifests, m);
    assert KeyOf(m) in Elements(order);
    k :| 0 <= k < |order| && order[k] == KeyOf(m);
    PlanAt(manifests, modules);
  }

  lemma PlanAt(manifests: seq<Manifest>, modules: seq<AppModule>)
    ensures var ms := PlanOf(manifests, modules).migrations;
            var order := SearchOf(manifests, modules).ordered;
            && |ms| == |order|
            && (forall i | 0 <= i < |ms| :: order[i] in Keys(manifests) && ms[i] == ByKey(manifests, order[i]))
  {
  }

  /** With distinct keys a plan is a permutation of the manifests, whatever else is wrong with them: it has as many, none
      twice, and every one of them. */
  lemma PlanIsPermutation(manifests: seq<Manifest>, modules: seq<AppModule>, m: Manifest)
    requires DistinctManifestKeys(manifests)
    ensures var ms := PlanOf(manifests, modules).migrations;
            && |ms| == |manifests|
            && (m in ms <==> m in manifests)
            && (forall j, k | 0 <= j < k < |ms| :: ms[j] != ms[k])
  {
    hide PlanOf, SearchOf, GraphOf, Acyclic, DependenciesFirst, KeyOf, NothingMissing, ByKey;
    SearchFacts(manifests, modules);
    KeyCount(manifests);
    PlanAt(manifests, modules);
    OrderLength(SearchOf(manifests, modules).ordered);
    if m in manifests {
      var k := SearchCoversManifests(manifests, modules, m);
    }
  }

  /** In a plan without errors every manifest comes after all that it depends on. */
  lemma PlanIsOrdered(manifests: seq<Manifest>, modules: seq<AppModule>, i: nat, n: Manifest)
    requires PlanOf(manifests, modules).errors == []
    requires i < |PlanOf(manifests, modules).migrations| && n in manifests
    requires MustFollow(manifests, modules, PlanOf(manifests, modules).migrations[i], n)
    ensures n in PlanOf(manifests, modules).migrations[..i]
  {
    PlanOkIff(manifests, modules);
    SearchFacts(manifests, modules);
    PlanAt(manifests, modules);
    var order := SearchOf(manifests, modules).ordered;
    var ms := PlanOf(manifests, modules).migrations;
    hide PlanOf, SearchOf;
    DependencyIsEdge(manifests, modules, ms[i], n);
    assert KeyOf(n) in order[..i];
    var k :| 0 <= k < i && order[k] == KeyOf(n);
    DistinctByKey(manifests, n);
    assert ms[k] == n;
  }

  lemma {:induction false} OrderLength(s: seq<string>)
    requires Distinct(s)
    ensures |Elements(s)| == |s|
    decreases |s|
  {
    if s != [] {
      var front := s[..|s| - 1];
      OrderLength(front);
      assert s == front + [s[|s| - 1]];
      assert Elements(s) == Elements(front) + {s[|s| - 1]};
    }
  }

  /** `a` is what is left of `b` after some of its elements are dropped. */
  predicate Subsequence(a: seq<Manifest>, b: seq<Manifest>)
    decreases |b|
  {
    a == [] || (b != [] && ((a[0] == b[0] && Subsequence(a[1..], b[1..])) || Subsequence(a, b[1..])))
  }

  /** The phase filter keeps the order... */
  lemma {:induction false} PhaseIsSubsequence(ms: seq<Manifest>, phase: Phase)
    ensures Subsequence(InPhase(ms, phase), ms)
    decreases |ms|
  {
    if ms != [] {
      PhaseIsSubsequence(ms[1..], phase);
      if ms[0].phase == phase {
        assert InPhase(ms, phase)[1..] == InPhase(ms[1..], phase);
      } else {
        assert InPhase(ms, phase) == InPhase(ms[1..], phase);
      }
    }
  }

  /** ...and drops exactly the migrations of other phases. */
  lemma {:induction false} PhaseKeepsItsOwn(ms: seq<Manifest>, phase: Phase, m: Manifest)
    ensures multiset(InPhase(ms, phase))[m] == if m.phase == phase then multiset(ms)[m] else 0
    decreases |ms|
  {
    if ms != [] {
      PhaseKeepsItsOwn(ms[1..], phase, m);
      assert ms == [ms[0]] + ms[1..];
    }
  }

  // ----- the plan does not depend on the order of its input -----

  lemma SameManifestsSameGraph(a: seq<Manifest>, b: seq<Manifest>, modules: seq<AppModule>)
    requires forall m :: m in a <==> m in b
    ensures Keys(a) == Keys(b) && GraphOf(a, modules) == GraphOf(b, modules)
  {
    assert Keys(a) == Keys(b);
    forall k | k in Keys(a)
      ensures Dependencies(a, modules, k) == Dependencies(b, modules, k)
    {
    }
  }

  /** With distinct keys, listing the manifests in another order gives the same migrations in the same order, the
      same cycles, and the same missing dependencies. */
  lemma PlanIgnoresInputOrder(a: seq<Manifest>, b: seq<Manifest>, modules: seq<AppModule>)
    requires multiset(a) == multiset(b) && DistinctManifestKeys(a)
    ensures PlanOf(a, modules).migrations == PlanOf(b, modules).migrations
    ensures SearchOf(a, modules) == SearchOf(b, modules)
    ensures multiset(PlanOf(a, modules).errors) == multiset(PlanOf(b, modules).errors)
  {
    assert forall m :: m in a <==> m in multiset(a);
    assert forall m :: m in b <==> m in multiset(b);
    SameManifestsSameGraph(a, b, modules);
    KeyCount(a);
    KeyCount(b);
    assert |a| == |multiset(a)| == |multiset(b)| == |b|;
    var order := SearchOf(a, modules).ordered;
    forall i | 0 <= i < |order|
      ensures ByKey(a, order[i]) == ByKey(b, order[i])
    {
      DistinctByKey(b, ByKey(a, order[i]));
    }
    MissingPermutes(a, b, Keys(a));
  }

  function AllMissing(manifests: seq<Manifest>, keys: set<string>): seq<PlanError> {
    Missing(manifests, keys, |manifests|)
  }

  lemma {:induction false} MissingPrefix(a: seq<Manifest>, b: seq<Manifest>, keys: set<string>, n: nat)
    requires n <= |a|
    ensures Missing(a + b, keys, n) == Missing(a, keys, n)
    decreases n
  {
    if n > 0 {
      MissingPrefix(a, b, keys, n - 1);
    }
  }

  lemma MissingAppend(a: seq<Manifest>, m: Manifest, keys: set<string>)
    ensures AllMissing(a + [m], keys) == AllMissing(a, keys) + MissingOf(m, keys, |m.dependsOn|)
  {
    MissingPrefix(a, [m], keys, |a|);
  }

  lemma NoneMissing(keys: set<string>)
    ensures AllMissing([], keys) == []
  {
  }

  lemma {:induction false} MissingConcat(a: seq<Manifest>, b: seq<Manifest>, keys: set<string>)
    ensures AllMissing(a + b, keys) == AllMissing(a, keys) + AllMissing(b, keys)
    decreases |b|
  {
    hide AllMissing;
    if b == [] {
      assert a + b == a;
      NoneMissing(keys);
    } else {
      var front, last := b[..|b| - 1], b[|b| - 1];
      MissingConcat(a, front, keys);
      MissingAppend(a + front, last, keys);
      MissingAppend(front, last, keys);
      assert b == front + [last] && a + b == a + front + [last];
    }
  }

  lemma DropsOne(front: seq<Manifest>, m: Manifest, x: seq<Manifest>, y: seq<Manifest>)
    requires multiset(front + [m]) == multiset(x + [m] + y)
    ensures multiset(front) == multiset(x + y)
  {
    assert multiset(front) + multiset{m} == multiset(front + [m]);
    assert multiset(x) + multiset{m} + multiset(y) == multiset(x + [m] + y);
    assert multiset(x) + multiset(y) == multiset(x + y);
    assert multiset(front) == multiset(front) + multiset{m} - multiset{m};
  }

  lemma {:induction false} MissingPermutes(a: seq<Manifest>, b: seq<Manifest>, keys: set<string>)
    requires multiset(a) == multiset(b)
    ensures multiset(AllMissing(a, keys)) == multiset(AllMissing(b, keys))
    decreases |a|
  {
    if a == [] {
      assert |b| == |multiset(b)| == 0;
    } else {
      hide AllMissing, MissingOf;
      var m, front := a[|a| - 1], a[..|a| - 1];
      assert a == front + [m];
      assert m in multiset(b);
      var i :| 0 <= i < |b| && b[i] == m;
      var x, y := b[..i], b[i + 1..];
      assert b == x + [m] + y;
      DropsOne(front, m, x, y);
      MissingPermutes(front, x + y, keys);
      MissingAppend(front, m, keys);
      MissingConcat(x, y, keys);
      MissingAppend(x, m, keys);
      MissingConcat(x + [m], y, keys);
    }
  }

  // ----- the edges, loop by loop -----

  /** The graph of the loops: the set of dependencies of each key. */
  type EdgeSets = map<string, set<string>>

  function EdgesOf(g: EdgeSets): set<(string, string)> {
    set k, x | k in g && x in g[k] :: (k, x)
  }

  /** The edges of the first n declared dependencies of a manifest. */
  function DeclaredBy(m: Manifest, keys: set<string>, n: nat): set<(string, string)>
    requires n <= |m.dependsOn|
  {
    if n == 0 then {}
    else
      var d := DependencyKey(m, m.dependsOn[n - 1]);
      DeclaredBy(m, keys, n - 1) + if d in keys then {(KeyOf(m), d)} else {}
  }

  function DeclaredFirst(manifests: seq<Manifest>, keys: set<string>, n: nat): set<(string, string)>
    requires n <= |manifests|
  {
    if n == 0 then {}
    else DeclaredFirst(manifests, keys, n - 1) + DeclaredBy(manifests[n - 1], keys, |manifests[n - 1].dependsOn|)
  }

  /** The manifests of an app among the first n. */
  function OfApp(manifests: seq<Manifest>, n: nat, appLabel: string): seq<Manifest>
    requires n <= |manifests|
  {
    if n == 0 then []
    else OfApp(manifests, n - 1, appLabel) + if manifests[n - 1].appLabel == appLabel then [manifests[n - 1]] else []
  }

  function Pairs(ms: seq<Manifest>, ns: seq<Manifest>): set<(string, string)> {
    set m, n | m in ms && n in ns :: (KeyOf(m), KeyOf(n))
  }

  /** The edges that the first n dependencies of an app stand for. */
  function AppPairs(manifests: seq<Manifest>, a: AppModule, n: nat): set<(string, string)>
    requires n <= |a.dependencies|
  {
    if n == 0 then {}
    else
      AppPairs(manifests, a, n - 1)
      + Pairs(OfApp(manifests, |manifests|, a.appLabel), OfApp(manifests, |manifests|, a.dependencies[n - 1]))
  }

  function ModulePairs(manifests: seq<Manifest>, modules: seq<AppModule>, n: nat): set<(string, string)>
    requires n <= |modules|
  {
    if n == 0 then {}
    else ModulePairs(manifests, modules, n - 1) + AppPairs(manifests, modules[n - 1], |modules[n - 1].dependencies|)
  }

  lemma {:induction false} DeclaredByExact(m: Manifest, keys: set<string>, n: nat, k: string, x: string)
    requires n <= |m.dependsOn|
    ensures (k, x) in DeclaredBy(m, keys, n) <==>
            k == KeyOf(m) && x in keys && exists i | 0 <= i < n :: DependencyKey(m, m.dependsOn[i]) == x
  {
    if n > 0 {
      DeclaredByExact(m, keys, n - 1, k, x);
    }
  }

  lemma {:induction false} DeclaredExact(manifests: seq<Manifest>, keys: set<string>, n: nat, k: string, x: string)
    requires n <= |manifests|
    ensures (k, x) in DeclaredFirst(manifests, keys, n) <==>
            x in keys && exists i | 0 <= i < n :: KeyOf(manifests[i]) == k && Declares(manifests[i], x)
  {
    hide KeyOf, DependencyKey;
    if n > 0 {
      DeclaredExact(manifests, keys, n - 1, k, x);
      var m := manifests[n - 1];
      DeclaredByExact(m, keys, |m.dependsOn|, k, x);
      assert Declares(m, x) <==> exists i | 0 <= i < |m.dependsOn| :: DependencyKey(m, m.dependsOn[i]) == x;
    }
  }

  lemma {:induction false} OfAppExact(manifests: seq<Manifest>, n: nat, appLabel: string, m: Manifest)
    requires n <= |manifests|
    ensures m in OfApp(manifests, n, appLabel) <==> m in manifests[..n] && m.appLabel == appLabel
  {
    if n > 0 {
      OfAppExact(manifests, n - 1, appLabel, m);
      assert manifests[..n] == manifests[..n - 1] + [manifests[n - 1]];
    }
  }

  /** Two keys of manifests, the first of the one app and the second of the other. */
  ghost predicate Apart(manifests: seq<Manifest>, from: string, to: string, k: string, x: string) {
    exists m, n | m in manifests && n in manifests :: KeyOf(m) == k && KeyOf(n) == x && m.appLabel == from && n.appLabel == to
  }

  lemma PairsExact(manifests: seq<Manifest>, from: string, to: string, k: string, x: string)
    ensures (k, x) in Pairs(OfApp(manifests, |manifests|, from), OfApp(manifests, |manifests|, to)) <==>
            Apart(manifests, from, to, k, x)
  {
    hide KeyOf;
    assert manifests[..|manifests|] == manifests;
    forall m
      ensures m in OfApp(manifests, |manifests|, from) <==> m in manifests && m.appLabel == from
      ensures m in OfApp(manifests, |manifests|, to) <==> m in manifests && m.appLabel == to
    {
      OfAppExact(manifests, |manifests|, from, m);
      OfAppExact(manifests, |manifests|, to, m);
    }
  }

  lemma {:induction false} AppPairsExact(manifests: seq<Manifest>, a: AppModule, n: nat, k: string, x: string)
    requires n <= |a.dependencies|
    ensures (k, x) in AppPairs(manifests, a, n) <==>
            exists i | 0 <= i < n :: Apart(manifests, a.appLabel, a.dependencies[i], k, x)
  {
    hide Pairs, Apart, OfApp;
    if n > 0 {
      AppPairsExact(manifests, a, n - 1, k, x);
      PairsExact(manifests, a.appLabel, a.dependencies[n - 1], k, x);
    }
  }

  lemma {:induction false} ModulePairsExact(manifests: seq<Manifest>, modules: seq<AppModule>, n: nat, k: string,
                                            x: string)
    requires n <= |modules|
    ensures (k, x) in ModulePairs(manifests, modules, n) <==>
            exists i, j | 0 <= i < n && 0 <= j < |modules[i].dependencies| ::
              Apart(manifests, modules[i].appLabel, modules[i].dependencies[j], k, x)
  {
    hide AppPairs, Apart;
    if n > 0 {
      ModulePairsExact(manifests, modules, n - 1, k, x);
      AppPairsExact(manifests, modules[n - 1], |modules[n - 1].dependencies|, k, x);
    }
  }

  /** The loops add exactly the dependencies: those declared on existing manifests and those of the apps. */
  lemma EdgesAreDependencies(manifests: seq<Manifest>, modules: seq<AppModule>, k: string, x: string)
    ensures (k, x) in DeclaredFirst(manifests, Keys(manifests), |manifests|) + ModulePairs(manifests, modules, |modules|)
            <==> x in Dependencies(manifests, modules, k)
  {
    hide KeyOf, DependencyKey, DeclaredFirst, ModulePairs;
    DeclaredExact(manifests, Keys(manifests), |manifests|, k, x);
    ModulePairsExact(manifests, modules, |modules|, k, x);
    DeclaredPart(manifests, k, x);
    AppPart(manifests, modules, k, x);
  }

  lemma DeclaredPart(manifests: seq<Manifest>, k: string, x: string)
    ensures x in (set m, d | m in manifests && KeyOf(m) == k && d in m.dependsOn && DependencyKey(m, d) in Keys(manifests) :: DependencyKey(m, d))
            <==> x in Keys(manifests) && exists i | 0 <= i < |manifests| :: KeyOf(manifests[i]) == k && Declares(manifests[i], x)
  {
    hide KeyOf, DependencyKey, Keys;
  }

  lemma AppPart(manifests: seq<Manifest>, modules: seq<AppModule>, k: string, x: string)
    ensures x in (set m, n | m in manifests && KeyOf(m) == k && n in manifests && AppsDepend(modules, m, n) :: KeyOf(n))
            <==> exists i, j | 0 <= i < |modules| && 0 <= j < |modules[i].dependencies| ::
                   Apart(manifests, modules[i].appLabel, modules[i].dependencies[j], k, x)
  {
    hide KeyOf;
    if m, n :| m in manifests && KeyOf(m) == k && n in manifests && AppsDepend(modules, m, n) && KeyOf(n) == x {
      var a :| a in modules && a.appLabel == m.appLabel && n.appLabel in a.dependencies;
      var i :| 0 <= i < |modules| && modules[i] == a;
      var j :| 0 <= j < |a.dependencies| && a.dependencies[j] == n.appLabel;
      assert Apart(manifests, modules[i].appLabel, modules[i].dependencies[j], k, x);
    }
    if i, j :| 0 <= i < |modules| && 0 <= j < |modules[i].dependencies|
               && Apart(manifests, modules[i].appLabel, modules[i].dependencies[j], k, x) {
      var m, n :| m in manifests && n in manifests && KeyOf(m) == k && KeyOf(n) == x
                  && m.appLabel == modules[i].appLabel && n.appLabel == modules[i].dependencies[j];
      assert modules[i] in modules && AppsDepend(modules, m, n);
    }
  }

  // ----- planning as it runs -----

  /** `graph[key].add(dependency)`. */
  method AddEdge(g: EdgeSets, key: string, dependency: string) returns (after: EdgeSets)
    requires key in g
    ensures after.Keys == g.Keys && EdgesOf(after) == EdgesOf(g) + {(key, dependency)}
  {
    after := g[key := g[key] + {dependency}];
  }

  /** The dictionary of manifests by app, after the first n. */
  ghost predicate Grouped(byApp: map<string, seq<Manifest>>, manifests: seq<Manifest>, n: nat)
    requires n <= |manifests|
  {
    forall l: string :: InApp(byApp, l) == OfApp(manifests, n, l)
  }

  /** `manifests_by_app.get(label, [])`. */
  function InApp(byApp: map<string, seq<Manifest>>, appLabel: string): seq<Manifest> {
    if appLabel in byApp then byApp[appLabel] else []
  }

  lemma GroupOneMore(byApp: map<string, seq<Manifest>>, manifests: seq<Manifest>, n: nat)
    requires n < |manifests| && Grouped(byApp, manifests, n)
    ensures var l := manifests[n].appLabel; Grouped(byApp[l := InApp(byApp, l) + [manifests[n]]], manifests, n + 1)
  {
    var next := n + 1;
    var after := byApp[manifests[n].appLabel := InApp(byApp, manifests[n].appLabel) + [manifests[n]]];
    forall l: string
      ensures InApp(after, l) == OfApp(manifests, next, l)
    {
      assert InApp(byApp, l) == OfApp(manifests, n, l);
    }
  }

  lemma NoEdges(keys: set<string>)
    ensures EdgesOf(map k | k in keys :: {}) == {}
  {
  }

  /** The loop over the manifests: which manifest is in which app, the declared edges, the missing dependencies. */
  method ReadManifests(manifests: seq<Manifest>, keys: set<string>)
    returns (g: EdgeSets, byApp: map<string, seq<Manifest>>, errors: seq<PlanError>)
    requires keys == Keys(manifests)
    ensures g.Keys == keys && EdgesOf(g) == DeclaredFirst(manifests, keys, |manifests|)
    ensures Grouped(byApp, manifests, |manifests|)
    ensures errors == Missing(manifests, keys, |manifests|)
  {
    hide KeyOf, DependencyKey, EdgesOf, DeclaredBy, MissingOf;
    g, byApp, errors := map k | k in keys :: {}, map[], [];
    NoEdges(keys);
    for i := 0 to |manifests|
      invariant g.Keys == keys && EdgesOf(g) == DeclaredFirst(manifests, keys, i)
      invariant Grouped(byApp, manifests, i)
      invariant errors == Missing(manifests, keys, i)
    {
      var m := manifests[i];
      GroupOneMore(byApp, manifests, i);
      byApp := byApp[m.appLabel := InApp(byApp, m.appLabel) + [m]];
      var missing;
      g, missing := ReadDependencies(g, m, keys);
      errors := errors + missing;
    }
  }

  method ReadDependencies(before: EdgeSets, m: Manifest, keys: set<string>) returns (g: EdgeSets, errors: seq<PlanError>)
    requires before.Keys == keys && KeyOf(m) in keys
    ensures g.Keys == keys && EdgesOf(g) == EdgesOf(before) + DeclaredBy(m, keys, |m.dependsOn|)
    ensures errors == MissingOf(m, keys, |m.dependsOn|)
  {
    hide KeyOf, DependencyKey, EdgesOf;
    g, errors := before, [];
    for j := 0 to |m.dependsOn|
      invariant g.Keys == keys && EdgesOf(g) == EdgesOf(before) + DeclaredBy(m, keys, j)
      invariant errors == MissingOf(m, keys, j)
    {
      var dependency := DependencyKey(m, m.dependsOn[j]);
      if dependency !in keys {
        errors := errors + [MissingDependency(KeyOf(m), dependency)];
      } else {
        g := AddEdge(g, KeyOf(m), dependency);
      }
    }
  }

  /** The loops over the apps, their dependencies and the manifests on both sides. */
  method AddAppEdges(before: EdgeSets, manifests: seq<Manifest>, byApp: map<string, seq<Manifest>>,
                     modules: seq<AppModule>)
    returns (g: EdgeSets)
    requires before.Keys == Keys(manifests)
    requires Grouped(byApp, manifests, |manifests|)
    ensures g.Keys == before.Keys && EdgesOf(g) == EdgesOf(before) + ModulePairs(manifests, modules, |modules|)
  {
    hide EdgesOf, OfApp, Pairs, Keys, InApp;
    g := before;
    for i := 0 to |modules|
      invariant g.Keys == before.Keys && EdgesOf(g) == EdgesOf(before) + ModulePairs(manifests, modules, i)
    {
      var a := modules[i];
      ghost var start := g;
      for j := 0 to |a.dependencies|
        invariant g.Keys == before.Keys && EdgesOf(g) == EdgesOf(start) + AppPairs(manifests, a, j)
      {
        var ms, ns := InApp(byApp, a.appLabel), InApp(byApp, a.dependencies[j]);
        AppManifestsHaveKeys(manifests, a.appLabel);
        g := AddPairs(g, ms, ns);
      }
    }
  }

  lemma AppManifestsHaveKeys(manifests: seq<Manifest>, appLabel: string)
    ensures forall m | m in OfApp(manifests, |manifests|, appLabel) :: KeyOf(m) in Keys(manifests)
  {
    hide KeyOf;
    forall m | m in OfApp(manifests, |manifests|, appLabel)
      ensures KeyOf(m) in Keys(manifests)
    {
      OfAppExact(manifests, |manifests|, appLabel, m);
    }
  }

  method AddPairs(before: EdgeSets, ms: seq<Manifest>, ns: seq<Manifest>) returns (g: EdgeSets)
    requires forall m | m in ms :: KeyOf(m) in before
    ensures g.Keys == before.Keys && EdgesOf(g) == EdgesOf(before) + Pairs(ms, ns)
  {
    hide EdgesOf, KeyOf;
    g := before;
    for i := 0 to |ms|
      invariant g.Keys == before.Keys && EdgesOf(g) == EdgesOf(before) + Pairs(ms[..i], ns)
    {
      ghost var start := g;
      assert ms[..i + 1] == ms[..i] + [ms[i]];
      for j := 0 to |ns|
        invariant g.Keys == before.Keys && EdgesOf(g) == EdgesOf(start) + Pairs([ms[i]], ns[..j])
      {
        assert ns[..j + 1] == ns[..j] + [ns[j]];
        assert ms[i] in ms;
        g := AddEdge(g, KeyOf(ms[i]), KeyOf(ns[j]));
        assert Pairs([ms[i]], ns[..j + 1]) == Pairs([ms[i]], ns[..j]) + {(KeyOf(ms[i]), KeyOf(ns[j]))};
      }
      assert ns[..|ns|] == ns;
      assert Pairs(ms[..i + 1], ns) == Pairs(ms[..i], ns) + Pairs([ms[i]], ns);
    }
    assert ms[..|ms|] == ms;
  }

  /** `sorted(graph[key])` for every key. */
  method SortEdges(edges: EdgeSets) returns (g: Graph)
    ensures g.Keys == edges.Keys && forall k | k in g :: g[k] == SortedStrings.Sorted(edges[k])
  {
    g := map[];
    var pending := edges.Keys;
    while pending != {}
      invariant pending <= edges.Keys && g.Keys == edges.Keys - pending
      invariant forall k | k in g :: g[k] == SortedStrings.Sorted(edges[k])
    {
      var k :| k in pending;
      var dependencies := SortedStrings.Sort(edges[k]);
      g := g[k := dependencies];
      pending := pending - {k};
    }
  }

  /** The graph, with each key's dependencies in the order in which they are visited, and the missing dependencies. */
  method BuildGraph(manifests: seq<Manifest>, modules: seq<AppModule>) returns (g: Graph, errors: seq<PlanError>)
    ensures g == GraphOf(manifests, modules)
    ensures errors == Missing(manifests, Keys(manifests), |manifests|)
  {
    hide Dependencies, DeclaredFirst, ModulePairs, Missing;
    var edges, byApp;
    edges, byApp, errors := ReadManifests(manifests, Keys(manifests));
    edges := AddAppEdges(edges, manifests, byApp, modules);
    forall k | k in edges
      ensures edges[k] == Dependencies(manifests, modules, k)
    {
      forall x
        ensures x in edges[k] <==> x in Dependencies(manifests, modules, k)
      {
        EdgesAreDependencies(manifests, modules, k, x);
        assert (k, x) in EdgesOf(edges) <==> x in edges[k];
      }
    }
    g := SortEdges(edges);
  }

  /** `phase` holds the requested phase, if any. */
  method PlanMigrations(manifests: seq<Manifest>, modules: seq<AppModule>, phase: Option<Phase>) returns (plan: Plan)
    ensures plan.errors == PlanOf(manifests, modules).errors
    ensures plan.migrations == if phase.None? then PlanOf(manifests, modules).migrations
                               else InPhase(PlanOf(manifests, modules).migrations, phase.value)
  {
    var keys := Keys(manifests);
    var errors: seq<PlanError> := if |keys| != |manifests| then [DuplicateKeys] else [];
    var g, missing := BuildGraph(manifests, modules);
    GraphIsClosed(manifests, modules);
    var roots := SortedStrings.Sort(keys);
    assert forall i | 0 <= i < |roots| :: roots[i] in Elements(roots);
    var search := new DepthFirstSearch(g);
    search.VisitRoots(roots);
    assert search.Current() == SearchOf(manifests, modules);
    var migrations := InOrder(manifests, search.ordered);
    if phase.Some? {
      migrations := InPhase(migrations, phase.value);
    }
    plan := Plan(migrations, errors + missing + Circular(search.cycles));
  }
}
