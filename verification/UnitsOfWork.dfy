/** Nested units of work. The innermost scope joins the session of the one around it; only the outermost scope ends the
    session, and rolls it back when any scope inside failed or asked for it. */
module UnitsOfWork {
  import opened Common

  // ----- scopes and the session log -----

  type TenantId = Option<string>

  /** What a scope asks for, and which of the session's own calls fail on it. */
  datatype Request = Request(tenant: TenantId, fallback: bool, applyFails: bool, endFails: bool)

  /** An entered scope, as the ones inside it see it. */
  datatype Scope = Scope(session: nat, tenant: TenantId, fallback: bool, rollbackOnly: bool)

  datatype Event =
    | Opened(session: nat)
    | TenantApplied(session: nat, tenant: string)
    | Ended(session: nat, commit: bool)
    | Closed(session: nat)

  /** The scopes around the current point, outermost first; the session log; and, for each entry so far, the tenants
      along its ancestor chain. */
  datatype World = World(stack: seq<Scope>, events: seq<Event>, sessions: nat, chains: seq<seq<TenantId>>)

  datatype State = New | Active | Committed | RolledBack | Joined

  /** An empty tenant id counts as none. */
  predicate IsSet(tenant: TenantId) {
    tenant.Some? && tenant.value != ""
  }

  function Tenants(stack: seq<Scope>): (ts: seq<TenantId>)
    ensures |ts| == |stack| && forall i | 0 <= i < |ts| :: ts[i] == stack[i].tenant
  {
    seq(|stack|, i requires 0 <= i < |stack| => stack[i].tenant)
  }

  function Pushed(w: World, scope: Scope): World {
    var stack := w.stack + [scope];
    w.(stack := stack, chains := w.chains + [Tenants(stack)])
  }

  function Entered(w: World, r: Request): (World, Option<AppError>) {
    if w.stack != [] then
      var around := w.stack[|w.stack| - 1];
      if IsSet(r.tenant) && IsSet(around.tenant) && r.tenant != around.tenant then (w, Some(TenantContextConflict))
      else
        (Pushed(w, Scope(around.session, if IsSet(r.tenant) then r.tenant else around.tenant, around.fallback, false)), None)
    else
      var begun := w.(events := w.events + [Opened(w.sessions)], sessions := w.sessions + 1);
      if IsSet(r.tenant) && r.fallback && r.applyFails then (begun, Some(HandlerRaised("apply", "")))
      else
        var applied := if IsSet(r.tenant) && r.fallback
                       then begun.(events := begun.events + [TenantApplied(w.sessions, r.tenant.value)])
                       else begun;
        (Pushed(applied, Scope(w.sessions, r.tenant, r.fallback, false)), None)
  }

  /** The first n scopes of the stack marked rollback-only. */
  function MarkFirst(stack: seq<Scope>, n: nat): (marked: seq<Scope>)
    requires n <= |stack|
    ensures |marked| == |stack|
    ensures forall i | 0 <= i < |stack| :: marked[i] == if i < n then stack[i].(rollbackOnly := true) else stack[i]
  {
    if n == 0 then stack else MarkFirst(stack, n - 1)[n - 1 := stack[n - 1].(rollbackOnly := true)]
  }

  /** `mark_rollback_only` on the scope that is `up` levels out: it and all its ancestors. */
  function Marked(w: World, up: nat): World {
    if up < |w.stack| then w.(stack := MarkFirst(w.stack, |w.stack| - up)) else w
  }

  /** Leaving the innermost scope: the world, the scope's final state, and whether an exception goes on. */
  function Exited(w: World, raised: bool, endFails: bool): (World, State, bool)
    requires w.stack != []
  {
    var n := |w.stack| - 1;
    var scope := w.stack[n];
    if n > 0 then
      if raised then (w.(stack := MarkFirst(w.stack, n + 1)[..n]), RolledBack, true)
      else (w.(stack := w.stack[..n]), Joined, false)
    else
      var commit := !raised && !scope.rollbackOnly;
      (w.(stack := [], events := w.events + [Ended(scope.session, commit), Closed(scope.session)]),
       if endFails then Active else if commit then Committed else RolledBack,
       raised || endFails)
  }

  /** A nested scope is refused for a tenant other than the one in force around it, where an empty id counts as none.
      Otherwise it joins the session around it, takes over the fallback, and the tenant when it names none itself; it
      starts without a rollback mark, and the session hears nothing of it. */
  lemma EntryJoins(w: World, r: Request)
    requires w.stack != []
    ensures var (inside, refused) := Entered(w, r);
            var around := w.stack[|w.stack| - 1];
            var named := r.tenant.Some? && r.tenant.value != "";
            var conflict := named && around.tenant.Some? && around.tenant.value != "" && around.tenant != r.tenant;
            && refused == (if conflict then Some(TenantContextConflict) else None)
            && (conflict ==> inside == w)
            && (!conflict ==>
                  && inside.stack == w.stack + [inside.stack[|w.stack|]]
                  && var scope := inside.stack[|w.stack|];
                  && scope.session == around.session && scope.fallback == around.fallback && !scope.rollbackOnly
                  && scope.tenant == (if named then r.tenant else around.tenant)
                  && inside.events == w.events && inside.sessions == w.sessions
                  && |inside.chains| == |w.chains| + 1 && inside.chains[..|w.chains|] == w.chains)
  {
  }

  /** A nested scope ends joined, or rolled back when an exception leaves it. The outermost one ends as it ended its
      session, and stays active when that fails. */
  lemma FinalState(w: World, raised: bool, endFails: bool)
    requires w.stack != []
    ensures var (after, last, goesOn) := Exited(w, raised, endFails);
            && |after.stack| == |w.stack| - 1
            && if |w.stack| > 1 then
                 && (last == Joined <==> !raised) && (last == RolledBack <==> raised) && goesOn == raised
                 && after.events == w.events
               else
                 && after.events[..|w.events|] == w.events && |after.events| == |w.events| + 2
                 && after.events[|w.events|].Ended? && after.events[|w.events| + 1].Closed?
                 && (endFails ==> last == Active && goesOn)
                 && (!endFails ==> last == if after.events[|w.events|].commit then Committed else RolledBack)
                 && (!endFails ==> goesOn == raised)
  {
  }

  // ----- well-nested programs -----

  /** What runs inside a scope, or outside all of them. `caught` says whether the code around a scope handles the
      exception that leaves it. */
  datatype Program =
    | Finish
    | Raise
    | MarkRollbackOnly(up: nat, rest: Program)
    | With(request: Request, body: Program, caught: bool, rest: Program)

  /** Runs a program: the world afterwards and whether it ended with an exception. */
  function Run(p: Program, w: World): (after: (World, bool))
    ensures |after.0.stack| == |w.stack|
  {
    match p
    case Finish => (w, false)
    case Raise => (w, true)
    case MarkRollbackOnly(up, rest) => Run(rest, Marked(w, up))
    case With(request, body, caught, rest) =>
      var (inside, refused) := Entered(w, request);
      var (after, raised) := if refused.Some? then (inside, true) else Left(Run(body, inside), request.endFails);
      if raised && !caught then (after, true) else Run(rest, after)
  }

  function Left(end: (World, bool), endFails: bool): (World, bool)
    requires end.0.stack != []
  {
    var (after, _, raised) := Exited(end.0, end.1, endFails);
    (after, raised)
  }

  // ----- context, session log and rollback marks -----

  /** The same scopes, some of them newly marked rollback-only. */
  predicate OnlyMarked(before: seq<Scope>, after: seq<Scope>) {
    && |before| == |after|
    && forall i | 0 <= i < |before| ::
         && after[i] == before[i].(rollbackOnly := after[i].rollbackOnly)
         && (before[i].rollbackOnly ==> after[i].rollbackOnly)
  }

  lemma EntryKeeps(w: World, r: Request)
    ensures var (inside, refused) := Entered(w, r);
            if refused.Some? then inside.stack == w.stack
            else |inside.stack| == |w.stack| + 1 && inside.stack[..|w.stack|] == w.stack
  {
  }

  lemma ExitKeeps(stack: seq<Scope>, end: (World, bool), endFails: bool)
    requires |end.0.stack| == |stack| + 1 && OnlyMarked(stack, end.0.stack[..|stack|])
    ensures OnlyMarked(stack, Left(end, endFails).0.stack)
  {
  }

  /** A scope restores the context that it found: whatever runs inside, and however it ends, the scopes around it are
      the same again, but for rollback marks. */
  lemma {:induction false} ContextRestored(p: Program, w: World)
    ensures OnlyMarked(w.stack, Run(p, w).0.stack)
  {
    hide Entered, Left, MarkFirst;
    match p
    case Finish =>
    case Raise =>
    case MarkRollbackOnly(up, rest) =>
      ContextRestored(rest, Marked(w, up));
    case With(request, body, caught, rest) =>
      var (inside, refused) := Entered(w, request);
      EntryKeeps(w, request);
      if refused.Some? {
        ContextRestored(rest, inside);
      } else {
        ContextRestored(body, inside);
        ExitKeeps(w.stack, Run(body, inside), request.endFails);
        ContextRestored(rest, Left(Run(body, inside), request.endFails).0);
      }
  }

  /** Inside a scope nothing touches the session: no nested scope opens, ends or closes anything. */
  lemma {:induction false} NestedScopesAreSilent(p: Program, w: World)
    requires w.stack != []
    ensures Run(p, w).0.events == w.events && Run(p, w).0.sessions == w.sessions
  {
    hide Tenants;
    match p
    case Finish =>
    case Raise =>
    case MarkRollbackOnly(up, rest) =>
      NestedScopesAreSilent(rest, Marked(w, up));
    case With(request, body, caught, rest) =>
      var (inside, refused) := Entered(w, request);
      if refused.Some? {
        NestedScopesAreSilent(rest, inside);
      } else {
        NestedScopesAreSilent(body, inside);
        NestedScopesAreSilent(rest, Left(Run(body, inside), request.endFails).0);
      }
  }

  /** How a program ends, computed without a stack or a session: whether it raises, and whether some scope inside it
      was left with an exception or asked for a rollback. `tenant` is in force around it, `depth` scopes are. */
  datatype Outcome = Outcome(raises: bool, spoils: bool)

  function OutcomeOf(p: Program, tenant: TenantId, depth: nat): Outcome {
    match p
    case Finish => Outcome(false, false)
    case Raise => Outcome(true, false)
    case MarkRollbackOnly(up, rest) =>
      var o := OutcomeOf(rest, tenant, depth);
      o.(spoils := o.spoils || up < depth)
    case With(request, body, caught, rest) =>
      var scope :=
        if IsSet(request.tenant) && IsSet(tenant) && request.tenant != tenant then Outcome(true, false)
        else
          var o := OutcomeOf(body, if IsSet(request.tenant) then request.tenant else tenant, depth + 1);
          Outcome(o.raises, o.spoils || o.raises);
      if scope.raises && !caught then scope
      else
        var o := OutcomeOf(rest, tenant, depth);
        Outcome(o.raises, o.spoils || scope.spoils)
  }

  /** The marks reach the outermost scope exactly when some scope inside was left with an exception or marked. */
  lemma {:induction false} MarksReachOutermost(p: Program, w: World)
    requires w.stack != []
    ensures var top := w.stack[|w.stack| - 1];
            var o := OutcomeOf(p, top.tenant, |w.stack|);
            && Run(p, w).1 == o.raises
            && Run(p, w).0.stack[0].rollbackOnly == (w.stack[0].rollbackOnly || o.spoils)
  {
    hide Tenants, IsSet, MarkFirst, Left, Entered;
    match p
    case Finish =>
    case Raise =>
    case MarkRollbackOnly(up, rest) =>
      MarksReachOutermost(rest, Marked(w, up));
    case With(request, body, caught, rest) =>
      var (inside, refused) := Entered(w, request);
      NestedEntry(w, request);
      if refused.Some? {
        MarksReachOutermost(rest, inside);
      } else {
        MarksReachOutermost(body, inside);
        ContextRestored(body, inside);
        NestedExit(w, Run(body, inside), request.endFails);
        MarksReachOutermost(rest, Left(Run(body, inside), request.endFails).0);
      }
  }

  lemma NestedEntry(w: World, r: Request)
    requires w.stack != []
    ensures var top := w.stack[|w.stack| - 1];
            var (inside, refused) := Entered(w, r);
            var conflict := IsSet(r.tenant) && IsSet(top.tenant) && r.tenant != top.tenant;
            && (refused.Some? <==> conflict) && (conflict ==> inside == w)
            && (!conflict ==> |inside.stack| == |w.stack| + 1 && inside.stack[..|w.stack|] == w.stack
                              && inside.stack[|w.stack|].tenant == if IsSet(r.tenant) then r.tenant else top.tenant)
  {
  }

  /** Leaving a nested scope with an exception marks the outermost one. */
  lemma NestedExit(w: World, end: (World, bool), endFails: bool)
    requires w.stack != [] && |end.0.stack| == |w.stack| + 1
    ensures var (after, raised) := Left(end, endFails);
            && raised == end.1 && |after.stack| == |w.stack|
            && after.stack[0].rollbackOnly == (end.0.stack[0].rollbackOnly || end.1)
            && forall i | 0 <= i < |w.stack| :: after.stack[i].tenant == end.0.stack[i].tenant
  {
  }

  /** The tenant reaches the session when the outermost scope names one, an empty id not counting, and asks for it. */
  lemma TenantReachesSession(session: nat, r: Request)
    ensures TenantApplied(session, if r.tenant.Some? then r.tenant.value else "") in Opening(session, r) <==>
            r.tenant.Some? && r.tenant.value != "" && r.fallback
    ensures ApplyFails(r) <==> r.tenant.Some? && r.tenant.value != "" && r.fallback && r.applyFails
  {
  }

  function Opening(session: nat, r: Request): seq<Event> {
    [Opened(session)] + if IsSet(r.tenant) && r.fallback then [TenantApplied(session, r.tenant.value)] else []
  }

  /** The session events of one outermost scope that is entered. */
  function Transaction(session: nat, r: Request, commit: bool): seq<Event> {
    Opening(session, r) + [Ended(session, commit), Closed(session)]
  }

  predicate ApplyFails(r: Request) {
    IsSet(r.tenant) && r.fallback && r.applyFails
  }

  lemma OutermostEntry(r: Request, w: World)
    requires w.stack == []
    ensures var (inside, refused) := Entered(w, r);
            && inside.sessions == w.sessions + 1
            && (refused.Some? <==> ApplyFails(r))
            && (refused.Some? ==> refused == Some(HandlerRaised("apply", "")))
            && inside.chains == w.chains + (if ApplyFails(r) then [] else [[r.tenant]])
            && (if ApplyFails(r) then inside.stack == [] && inside.events == w.events + [Opened(w.sessions)]
                else inside.stack == [Scope(w.sessions, r.tenant, r.fallback, false)]
                     && inside.events == w.events + Opening(w.sessions, r))
  {
    if !ApplyFails(r) {
      assert Tenants(Entered(w, r).0.stack) == [r.tenant];
    }
  }

  lemma OutermostExit(end: (World, bool), endFails: bool)
    requires |end.0.stack| == 1
    ensures var (after, raised) := Left(end, endFails);
            var scope := end.0.stack[0];
            && after.stack == [] && after.sessions == end.0.sessions && after.chains == end.0.chains && (raised <==> end.1 || endFails)
            && after.events == end.0.events + [Ended(scope.session, !end.1 && !scope.rollbackOnly), Closed(scope.session)]
  {
  }

  /** An outermost scope opens one session, ends it once and closes it once; it commits exactly when its body does not
      raise and no scope inside was left with an exception or marked rollback-only. Only a tenant fallback that fails
      on entry leaves the session neither ended nor closed. */
  lemma OutermostScope(r: Request, body: Program, w: World)
    requires w.stack == []
    ensures var (after, raised) := Run(With(r, body, false, Finish), w);
            var o := OutcomeOf(body, r.tenant, 1);
            && after.stack == [] && after.sessions == w.sessions + 1
            && after.events == w.events + (if ApplyFails(r) then [Opened(w.sessions)]
                                           else Transaction(w.sessions, r, !o.raises && !o.spoils))
            && (raised <==> ApplyFails(r) || o.raises || r.endFails)
  {
    hide Entered, Left, OutcomeOf, Opening, ApplyFails, OnlyMarked;
    OutermostEntry(r, w);
    if !ApplyFails(r) {
      var inside := Entered(w, r).0;
      NestedScopesAreSilent(body, inside);
      MarksReachOutermost(body, inside);
      ContextRestored(body, inside);
      SameScope(inside.stack, Run(body, inside).0.stack);
      OutermostExit(Run(body, inside), r.endFails);
    }
  }

  lemma SameScope(before: seq<Scope>, after: seq<Scope>)
    requires OnlyMarked(before, after) && before != []
    ensures |after| == |before| && after[0].session == before[0].session
  {
  }

  /** What one outermost scope leaves in the session log: a whole transaction, or a session that is opened and left
      so when the tenant fallback raises on entry. */
  function Block(session: nat, r: Request, commit: bool): seq<Event> {
    if ApplyFails(r) then [Opened(session)] else Transaction(session, r, commit)
  }

  /** A session log of the sessions from, from + 1, …, to - 1, all of them whole transactions but for `leaks` sessions
      that are only opened. */
  ghost predicate Transactions(events: seq<Event>, from: nat, to: nat, leaks: nat)
    decreases |events|
  {
    if events == [] then from == to && leaks == 0
    else exists r: Request, commit: bool ::
           && Block(from, r, commit) <= events
           && Leak(r) <= leaks
           && Transactions(events[|Block(from, r, commit)|..], from + 1, to, leaks - Leak(r))
  }

  function Leak(r: Request): nat {
    if ApplyFails(r) then 1 else 0
  }

  /** How many outermost scopes of a program that starts outside all scopes are entered with a raising fallback. */
  function Leaks(p: Program): nat {
    match p
    case Finish => 0
    case Raise => 0
    case MarkRollbackOnly(_, rest) => Leaks(rest)
    case With(r, body, caught, rest) =>
      var raises := ApplyFails(r) || OutcomeOf(body, r.tenant, 1).raises || r.endFails;
      Leak(r) + if raises && !caught then 0 else Leaks(rest)
  }

  predicate NoApplyFails(p: Program) {
    match p
    case Finish => true
    case Raise => true
    case MarkRollbackOnly(_, rest) => NoApplyFails(rest)
    case With(request, body, _, rest) => !ApplyFails(request) && NoApplyFails(body) && NoApplyFails(rest)
  }

  /** Over any program, every session that was opened was ended once, by a commit or by a rollback, and then closed
      once, before the next one was opened; all but exactly the sessions whose tenant fallback raised on entry, which
      there are none of when no fallback raises. */
  lemma {:induction false} SessionsAreBalanced(p: Program, w: World)
    requires w.stack == []
    ensures var after := Run(p, w).0;
            w.events <= after.events && Transactions(after.events[|w.events|..], w.sessions, after.sessions, Leaks(p))
    ensures NoApplyFails(p) ==> Leaks(p) == 0
  {
    hide Entered, Left, Block, ApplyFails, OutcomeOf, Transactions;
    match p
    case Finish =>
      NoSessions(w);
    case Raise =>
      NoSessions(w);
    case MarkRollbackOnly(up, rest) =>
      SessionsAreBalanced(rest, w);
    case With(request, body, caught, rest) =>
      OutermostBlock(request, body, w);
      ScopeAlone(request, body, caught, rest, w);
      var (mid, raised) := Run(With(request, body, false, Finish), w);
      var o := OutcomeOf(body, request.tenant, 1);
      var commit := !o.raises && !o.spoils;
      if raised && !caught {
        NoSessions(mid);
        assert mid.events[|w.events|..] == Block(w.sessions, request, commit) + [];
        BlockFirst([], request, commit, w.sessions, mid.sessions, 0);
      } else {
        SessionsAreBalanced(rest, mid);
        var after := Run(p, w).0;
        var tail := after.events[|mid.events|..];
        assert after.events == mid.events + tail;
        assert after.events[|w.events|..] == Block(w.sessions, request, commit) + tail;
        BlockFirst(tail, request, commit, w.sessions, after.sessions, Leaks(rest));
      }
  }

  lemma NoSessions(w: World)
    ensures w.events[|w.events|..] == [] && Transactions([], w.sessions, w.sessions, 0)
  {
  }

  lemma BlockFirst(tail: seq<Event>, r: Request, commit: bool, from: nat, to: nat, leaks: nat)
    requires Transactions(tail, from + 1, to, leaks)
    ensures Transactions(Block(from, r, commit) + tail, from, to, Leak(r) + leaks)
  {
    var events := Block(from, r, commit) + tail;
    assert Block(from, r, commit) <= events;
    assert events[|Block(from, r, commit)|..] == tail;
  }

  lemma OutermostBlock(r: Request, body: Program, w: World)
    requires w.stack == []
    ensures var (after, raised) := Run(With(r, body, false, Finish), w);
            var o := OutcomeOf(body, r.tenant, 1);
            var t := Block(w.sessions, r, !o.raises && !o.spoils);
            && after.stack == [] && after.sessions == w.sessions + 1
            && after.events == w.events + t && t != []
            && (raised <==> ApplyFails(r) || o.raises || r.endFails)
  {
    OutermostScope(r, body, w);
  }

  lemma ScopeAlone(r: Request, body: Program, caught: bool, rest: Program, w: World)
    ensures var (mid, raised) := Run(With(r, body, false, Finish), w);
            Run(With(r, body, caught, rest), w) == if raised && !caught then (mid, true) else Run(rest, mid)
  {
  }

  // ----- tenants -----

  /** Whoever is inside a scope with a tenant has that tenant. */
  predicate Inherits(tenants: seq<TenantId>) {
    forall i, j | 0 <= i <= j < |tenants| :: IsSet(tenants[i]) ==> tenants[j] == tenants[i]
  }

  /** All tenants set along an ancestor chain are the same. */
  predicate OneTenant(tenants: seq<TenantId>) {
    forall i, j | 0 <= i < |tenants| && 0 <= j < |tenants| :: IsSet(tenants[i]) && IsSet(tenants[j]) ==> tenants[i] == tenants[j]
  }

  lemma InheritsOne(tenants: seq<TenantId>)
    requires Inherits(tenants)
    ensures OneTenant(tenants)
  {
  }

  /** Entry is refused exactly when a scope around has another tenant, however far out it is. */
  lemma RefusedIffConflict(w: World, r: Request)
    requires w.stack != [] && Inherits(Tenants(w.stack))
    ensures Entered(w, r).1 == Some(TenantContextConflict) <==>
            IsSet(r.tenant) && exists i | 0 <= i < |w.stack| :: IsSet(w.stack[i].tenant) && w.stack[i].tenant != r.tenant
    ensures Entered(w, r).1.None? ==> Inherits(Tenants(Entered(w, r).0.stack))
  {
    var ts := Tenants(w.stack);
    var last := |ts| - 1;
    assert forall i | 0 <= i < |ts| :: IsSet(ts[i]) ==> ts[last] == ts[i];
    assert w.stack[last].tenant == ts[last];
    forall i | 0 <= i < |ts|
      ensures ts[i] == w.stack[i].tenant
    {
    }
  }

  /** On every entry of every run, all tenants set along the ancestor chain are equal. */
  lemma {:induction false} OneTenantPerChain(p: Program, w: World)
    requires Inherits(Tenants(w.stack)) && forall c | c in w.chains :: Inherits(c)
    ensures forall c | c in Run(p, w).0.chains :: Inherits(c) && OneTenant(c)
  {
    ChainsInherit(p, w);
    forall c | c in Run(p, w).0.chains
      ensures OneTenant(c)
    {
      InheritsOne(c);
    }
  }

  lemma {:induction false} ChainsInherit(p: Program, w: World)
    requires Inherits(Tenants(w.stack)) && forall c | c in w.chains :: Inherits(c)
    ensures forall c | c in Run(p, w).0.chains :: Inherits(c)
  {
    hide Inherits;
    match p
    case Finish =>
    case Raise =>
    case MarkRollbackOnly(up, rest) =>
      assert Tenants(Marked(w, up).stack) == Tenants(w.stack);
      ChainsInherit(rest, Marked(w, up));
    case With(request, body, caught, rest) =>
      var (inside, refused) := Entered(w, request);
      EntryInherits(w, request);
      if refused.Some? {
        ChainsInherit(rest, inside);
      } else {
        ChainsInherit(body, inside);
        var after := Left(Run(body, inside), request.endFails).0;
        ContextRestored(With(request, body, true, Finish), w);
        assert Tenants(after.stack) == Tenants(w.stack);
        ChainsInherit(rest, after);
      }
  }

  lemma EntryInherits(w: World, r: Request)
    requires Inherits(Tenants(w.stack)) && forall c | c in w.chains :: Inherits(c)
    ensures var (inside, refused) := Entered(w, r);
            && (refused.None? ==> Inherits(Tenants(inside.stack)))
            && (refused.Some? ==> inside.stack == w.stack)
            && forall c | c in inside.chains :: Inherits(c)
  {
    if w.stack != [] {
      RefusedIffConflict(w, r);
    }
  }

  // ----- one transaction, one tenant? -----

  /** All tenants set along any of the chains are the same. */
  predicate OneTenantAcross(chains: seq<seq<TenantId>>) {
    forall c, d, i, j | 0 <= c < |chains| && 0 <= d < |chains| && 0 <= i < |chains[c]| && 0 <= j < |chains[d]| ::
      IsSet(chains[c][i]) && IsSet(chains[d][j]) ==> chains[c][i] == chains[d][j]
  }

  /** Every scope of the chain has this tenant. */
  predicate AllFor(chain: seq<TenantId>, t: TenantId) {
    forall i | 0 <= i < |chain| :: chain[i] == t
  }

  /** Below scopes that all have one tenant, whatever is entered has it too. */
  lemma {:induction false} TenantIsKept(p: Program, w: World, t: TenantId)
    requires w.stack != [] && IsSet(t) && AllFor(Tenants(w.stack), t)
    requires forall c | c in w.chains :: AllFor(c, t)
    ensures forall c | c in Run(p, w).0.chains :: AllFor(c, t)
  {
    match p
    case Finish =>
    case Raise =>
    case MarkRollbackOnly(up, rest) =>
      assert Tenants(Marked(w, up).stack) == Tenants(w.stack);
      TenantIsKept(rest, Marked(w, up), t);
    case With(request, body, caught, rest) =>
      hide AllFor;
      var (inside, refused) := Entered(w, request);
      EntryKeepsTenant(w, request, t);
      if refused.Some? {
        TenantIsKept(rest, inside, t);
      } else {
        TenantIsKept(body, inside, t);
        var after := Left(Run(body, inside), request.endFails).0;
        ContextRestored(With(request, body, true, Finish), w);
        assert Tenants(after.stack) == Tenants(w.stack);
        TenantIsKept(rest, after, t);
      }
  }

  lemma EntryKeepsTenant(w: World, r: Request, t: TenantId)
    requires w.stack != [] && IsSet(t) && AllFor(Tenants(w.stack), t)
    requires forall c | c in w.chains :: AllFor(c, t)
    ensures var (inside, refused) := Entered(w, r);
            && (refused.Some? ==> inside == w)
            && (refused.None? ==> inside.stack != [] && AllFor(Tenants(inside.stack), t))
            && forall c | c in inside.chains :: AllFor(c, t)
  {
    var n := |w.stack|;
    assert w.stack[n - 1].tenant == Tenants(w.stack)[n - 1] == t;
    var (inside, refused) := Entered(w, r);
    if refused.None? {
      assert Tenants(inside.stack) == Tenants(w.stack) + [t];
    }
  }

  /** A scope for one tenant and then a scope for another. */
  function OneAfterTheOther(a: string, b: string): Program {
    With(Request(Some(a), false, false, false), Finish, false,
         With(Request(Some(b), false, false, false), Finish, false, Finish))
  }

  /** When the outermost scope has no tenant, two scopes one after the other inside it may be for any two tenants, and
      one commit covers both. */
  lemma TwoTenantsInOneTransaction(r: Request, w: World, a: string, b: string)
    requires w.stack == [] && !IsSet(r.tenant) && a != "" && b != ""
    ensures var after := Run(With(r, OneAfterTheOther(a, b), false, Finish), w).0;
            && after.events == w.events + Transaction(w.sessions, r, true)
            && after.chains == w.chains + [[r.tenant], [r.tenant, Some(a)], [r.tenant, Some(b)]]
  {
    hide Entered, OutcomeOf, Transaction;
    OutermostScope(r, OneAfterTheOther(a, b), w);
    NothingSpoiled(r.tenant, a, b);
    BareEntry(r, w);
    var outer := Entered(w, r).0;
    var second := With(Request(Some(b), false, false, false), Finish, false, Finish);
    ChildScope(outer, a, second);
    var afterA := outer.(chains := outer.chains + [[r.tenant, Some(a)]]);
    ChildScope(afterA, b, Finish);
    assert outer.chains + [[r.tenant, Some(a)]] + [[r.tenant, Some(b)]] ==
           w.chains + [[r.tenant], [r.tenant, Some(a)], [r.tenant, Some(b)]];
  }

  lemma NothingSpoiled(t: TenantId, a: string, b: string)
    requires !IsSet(t)
    ensures OutcomeOf(OneAfterTheOther(a, b), t, 1) == Outcome(false, false)
  {
    var second := With(Request(Some(b), false, false, false), Finish, false, Finish);
    assert OutcomeOf(second, t, 1) == Outcome(false, false);
  }

  lemma BareEntry(r: Request, w: World)
    requires w.stack == [] && !IsSet(r.tenant)
    ensures var (outer, refused) := Entered(w, r);
            && refused.None? && |outer.stack| == 1 && outer.stack[0].tenant == r.tenant
            && outer.chains == w.chains + [[r.tenant]]
  {
    assert Tenants(Entered(w, r).0.stack) == [r.tenant];
  }

  /** A scope for a tenant right inside an outermost scope that has none. */
  lemma ChildScope(w: World, tenant: string, rest: Program)
    requires |w.stack| == 1 && !IsSet(w.stack[0].tenant) && tenant != ""
    ensures Run(With(Request(Some(tenant), false, false, false), Finish, false, rest), w) ==
            Run(rest, w.(chains := w.chains + [[w.stack[0].tenant, Some(tenant)]]))
  {
    var inside := Entered(w, Request(Some(tenant), false, false, false)).0;
    var chain := [w.stack[0].tenant, Some(tenant)];
    assert inside.stack[..1] == w.stack;
    assert Tenants(inside.stack) == chain;
    assert Left(Run(Finish, inside), false) == (w.(chains := w.chains + [chain]), false);
  }

  /** Whatever runs in a transaction that this outermost scope opens, it serves one tenant only. */
  ghost predicate ServesOneTenant(r: Request) {
    forall body: Program, w: World | w.stack == [] && w.chains == [] ::
      OneTenantAcross(Run(With(r, body, false, Finish), w).0.chains)
  }

  /** A transaction is bound to serve one tenant exactly when its outermost scope names one. */
  lemma TransactionServesOneTenantIff(r: Request)
    ensures ServesOneTenant(r) <==> IsSet(r.tenant)
  {
    hide Run, OneTenantAcross, Transaction;
    if IsSet(r.tenant) {
      forall body: Program, w: World | w.stack == [] && w.chains == []
        ensures OneTenantAcross(Run(With(r, body, false, Finish), w).0.chains)
      {
        NamedTransaction(r, body, w);
      }
    } else {
      var w := World([], [], 0, []);
      TwoTenantsInOneTransaction(r, w, "a", "b");
      MixedChains(Run(With(r, OneAfterTheOther("a", "b"), false, Finish), w).0.chains, r.tenant, "a", "b");
    }
  }

  lemma MixedChains(chains: seq<seq<TenantId>>, t: TenantId, a: string, b: string)
    requires chains == [] + [[t], [t, Some(a)], [t, Some(b)]] && a != "" && b != "" && a != b
    ensures !OneTenantAcross(chains)
  {
    var c, d := chains[1], chains[2];
    assert c[1] == Some(a) && d[1] == Some(b);
    assert IsSet(chains[1][1]) && IsSet(chains[2][1]);
  }

  lemma OneScope(w: World, t: TenantId)
    requires |w.stack| == 1 && w.stack[0].tenant == t && w.chains == [[t]]
    ensures AllFor(Tenants(w.stack), t) && forall c | c in w.chains :: AllFor(c, t)
  {
  }

  lemma RunScope(r: Request, body: Program, w: World)
    ensures var (inside, refused) := Entered(w, r);
            Run(With(r, body, false, Finish), w) ==
            if refused.Some? then (inside, true) else Left(Run(body, inside), r.endFails)
  {
    hide Entered, Left;
  }

  lemma AllForOne(chains: seq<seq<TenantId>>, t: TenantId)
    requires forall c | c in chains :: AllFor(c, t)
    ensures OneTenantAcross(chains)
  {
    forall c | 0 <= c < |chains|
      ensures AllFor(chains[c], t)
    {
      assert chains[c] in chains;
    }
  }

  lemma NamedTransaction(r: Request, body: Program, w: World)
    requires w.stack == [] && w.chains == [] && IsSet(r.tenant)
    ensures OneTenantAcross(Run(With(r, body, false, Finish), w).0.chains)
  {
    hide Entered, Left, AllFor, Run, OneTenantAcross;
    var (inside, refused) := Entered(w, r);
    OutermostEntry(r, w);
    RunScope(r, body, w);
    if refused.None? {
      OneScope(inside, r.tenant);
      TenantIsKept(body, inside, r.tenant);
      OutermostExit(Run(body, inside), r.endFails);
    }
    AllForOne(Run(With(r, body, false, Finish), w).0.chains, r.tenant);
  }

  // ----- the objects -----

  /** Where the sessions come from, with the log of what was done to each. */
  class SessionFactory {
    var events: seq<Event>
    var sessions: nat
  }

  /** The scopes from the outermost to the innermost, linked by their parents. */
  ghost predicate Linked(chain: seq<UnitOfWork>)
    reads chain`session, chain`state, chain`parent, chain`token
  {
    chain == [] ||
    var n := |chain| - 1;
    && Linked(chain[..n])
    && chain[n] !in chain[..n]
    && chain[n].session.Some?
    && chain[n].state == Active
    && chain[n].parent == (if n == 0 then null else chain[n - 1])
    && chain[n].token == Some(chain[n].parent)
  }

  ghost function StackOf(chain: seq<UnitOfWork>): (stack: seq<Scope>)
    requires Linked(chain)
    reads chain
    ensures |stack| == |chain|
  {
    if chain == [] then [] else StackOf(chain[..|chain| - 1]) + [chain[|chain| - 1].View()]
  }

  /** What the innermost scope of a chain knows of the others. */
  lemma Innermost(chain: seq<UnitOfWork>)
    requires Linked(chain) && chain != []
    ensures var n := |chain| - 1;
            var scope := chain[n];
            && Linked(chain[..n]) && scope !in chain[..n]
            && scope.session.Some? && scope.state == Active && scope.token == Some(scope.parent)
            && scope.parent == (if n == 0 then null else chain[n - 1])
            && StackOf(chain) == StackOf(chain[..n]) + [scope.View()]
  {
  }

  /** The context variable that holds the innermost scope. */
  class Context {
    const factory: SessionFactory
    var current: UnitOfWork?
    ghost var chain: seq<UnitOfWork>
    ghost var chains: seq<seq<TenantId>>

    constructor (factory: SessionFactory)
      ensures this.factory == factory && current == null && chain == [] && chains == [] && Valid()
    {
      this.factory, current, chain, chains := factory, null, [], [];
    }

    ghost predicate Valid()
      reads this, chain
    {
      Linked(chain) && current == if chain == [] then null else chain[|chain| - 1]
    }

    ghost function ToWorld(): World
      requires Valid()
      reads this, chain, factory
    {
      World(StackOf(chain), factory.events, factory.sessions, chains)
    }
  }

  class UnitOfWork {
    const context: Context
    const factory: SessionFactory
    var tenantId: TenantId
    var fallback: bool
    var session: Option<nat>
    var state: State
    var rollbackOnly: bool
    var parent: UnitOfWork?
    var token: Option<UnitOfWork?>

    constructor (context: Context, tenantId: TenantId, fallback: bool)
      ensures this.context == context && factory == context.factory && IsNew()
      ensures this.tenantId == tenantId && this.fallback == fallback
    {
      this.context, factory := context, context.factory;
      this.tenantId, this.fallback := tenantId, fallback;
      session, state, rollbackOnly, parent, token := None, New, false, null, None;
    }

    ghost predicate IsNew()
      reads this
    {
      session == None && state == New && !rollbackOnly && parent == null && token == None
    }

    ghost function View(): Scope
      requires session.Some?
      reads this
    {
      Scope(session.value, tenantId, fallback, rollbackOnly)
    }

    method Enter(applyFails: bool) returns (error: Option<AppError>)
      requires context.Valid() && context.factory == factory && this !in context.chain && IsNew()
      modifies this, context, factory
      ensures context.Valid()
      ensures context.chain == if error.None? then old(context.chain) + [this] else old(context.chain)
      ensures (context.ToWorld(), error) ==
              Entered(old(context.ToWorld()), Request(old(tenantId), old(fallback), applyFails, false))
    {
      hide Linked, StackOf, Tenants;
      if context.chain != [] {
        Innermost(context.chain);
      }
      var active := context.current;
      if active != null && active.session.Some? && active.state == Active {
        if IsSet(tenantId) && IsSet(active.tenantId) && tenantId != active.tenantId {
          return Some(TenantContextConflict);
        }
        session, parent := active.session, active;
        tenantId := if IsSet(tenantId) then tenantId else active.tenantId;
        fallback := active.fallback;
      } else {
        session := Some(factory.sessions);
        factory.events, factory.sessions := factory.events + [Opened(factory.sessions)], factory.sessions + 1;
        if IsSet(tenantId) && fallback {
          if applyFails {
            return Some(HandlerRaised("apply", ""));
          }
          factory.events := factory.events + [TenantApplied(session.value, tenantId.value)];
        }
      }
      Activate();
      error := None;
    }

    /** Makes this scope, joined to a session and linked to its parent, the innermost one. */
    method Activate()
      requires context.Valid() && this !in context.chain && session.Some?
      requires parent == if context.chain == [] then null else context.chain[|context.chain| - 1]
      modifies this`state, this`token, context
      ensures context.Valid() && context.chain == old(context.chain) + [this]
      ensures StackOf(context.chain) == old(StackOf(context.chain)) + [old(View())]
      ensures context.chains == old(context.chains) + [Tenants(StackOf(context.chain))]
    {
      hide Tenants;
      state, token := Active, Some(context.current);
      context.current, context.chain := this, context.chain + [this];
      assert context.chain[..|context.chain| - 1] == old(context.chain);
      context.chains := context.chains + [Tenants(StackOf(context.chain))];
    }

    /** Marks this scope and its ancestors. */
    method MarkRollbackOnly(ghost chain: seq<UnitOfWork>)
      requires Linked(chain) && chain != [] && chain[|chain| - 1] == this
      modifies chain`rollbackOnly
      ensures Linked(chain) && StackOf(chain) == MarkFirst(old(StackOf(chain)), |chain|)
      decreases |chain|
    {
      ghost var n := |chain| - 1;
      ghost var before := StackOf(chain);
      rollbackOnly := true;
      assert StackOf(chain[..n]) == before[..n];
      if parent != null {
        parent.MarkRollbackOnly(chain[..n]);
      }
      assert StackOf(chain[..n]) == MarkFirst(before[..n], n);
      assert View() == before[n].(rollbackOnly := true);
    }

    /** Ends this scope in the given state and puts back the scope around it. */
    method ResetContext(last: State)
      requires context.Valid() && context.chain != [] && context.chain[|context.chain| - 1] == this
      modifies this`state, this`token, context`current, context`chain
      ensures context.Valid() && context.chain == old(context.chain[..|context.chain| - 1]) && state == last
      ensures StackOf(context.chain) == old(StackOf(context.chain)[..|context.chain| - 1])
    {
      hide Linked, StackOf;
      Innermost(context.chain);
      ghost var around := context.chain[..|context.chain| - 1];
      assert StackOf(around) == StackOf(context.chain)[..|around|];
      if |around| > 0 {
        Innermost(around);
      }
      state := last;
      context.current, token := token.value, None;
      context.chain := around;
    }

    method Exit(raised: bool, endFails: bool) returns (goesOn: bool)
      requires context.Valid() && context.factory == factory && context.chain != []
      requires context.chain[|context.chain| - 1] == this
      modifies context, factory, context.chain
      ensures context.Valid() && context.chain == old(context.chain[..|context.chain| - 1])
      ensures (context.ToWorld(), state, goesOn) == Exited(old(context.ToWorld()), raised, endFails)
    {
      hide Linked, StackOf, MarkFirst, Tenants, IsSet;
      Innermost(context.chain);
      if parent != null {
        if raised {
          MarkRollbackOnly(context.chain);
        }
        ResetContext(if raised then RolledBack else Joined);
        return raised;
      }
      assert StackOf(context.chain)[0] == View();
      var commit := !raised && !rollbackOnly;
      factory.events := factory.events + [Ended(session.value, commit)];
      var last := if endFails then Active else if commit then Committed else RolledBack;
      factory.events := factory.events + [Closed(session.value)];
      ResetContext(last);
      assert old(factory.events) + [Ended(session.value, commit)] + [Closed(session.value)] ==
             old(factory.events) + [Ended(session.value, commit), Closed(session.value)];
      goesOn := raised || endFails;
    }
  }
}
