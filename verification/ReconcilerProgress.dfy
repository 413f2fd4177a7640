/** What a reconcile achieves when nothing fails and nobody interferes: a deployment, or a cleanup. */
module ReconcilerProgress {
  import opened Wrappers
  import opened Reconciler
  import opened ReconcilerSafety

  /** `n` successful calls of one reconcile, or of several on end. */
  function Gos(key: Key, a: Answer, n: nat): seq<Action> { seq(n, i => Go(key, a)) }

  lemma GoMore(w: World, key: Key, a: Answer, n: nat, sha: Sha)
    ensures Exec(w, Gos(key, a, n + 1), sha) == Next(Exec(w, Gos(key, a, n), sha), Go(key, a), sha)
  {
    assert Gos(key, a, n + 1)[..n] == Gos(key, a, n);
  }

  lemma MoveTwice(w: World, key: Key, p: Phase, q: Phase)
    ensures Move(Move(w, key, p), key, q) == Move(w, key, q)
  {
    assert w.phases[key := p][key := q] == w.phases[key := q];
  }

  /** The reconcile has been through `n` calls from `w` and is at `p`, having made of the world `v`. */
  ghost predicate Reaches(w: World, key: Key, a: Answer, n: nat, v: World, p: Phase, sha: Sha) {
    Exec(w, Gos(key, a, n), sha) == Move(v, key, p)
  }

  lemma Onward(w: World, key: Key, a: Answer, n: nat, v: World, p: Phase, v': World, q: Phase, sha: Sha)
    requires Reaches(w, key, a, n, v, p, sha)
    requires Next(Move(v, key, p), Go(key, a), sha) == Move(v', key, q)
    ensures Reaches(w, key, a, n + 1, v', q, sha)
  {
    GoMore(w, key, a, n, sha);
  }

  // The deployment

  /** The weights are what the catalog says, or were when they were verified. */
  ghost predicate Good(md: Obj, a: Answer, sha: Sha) { md.digest != a.expected ==> sha(a.content) == a.expected }

  /** What the check leaves on record. */
  function Checks(w: World, key: Key, md: Obj, a: Answer): World {
    if md.digest == a.expected then w else Append(w, Verified(key, a.content, a.expected))
  }

  lemma CheckSteps(v: World, key: Key, md: Obj, a: Answer, sha: Sha)
    requires Good(md, a, sha)
    ensures Next(Move(v, key, Guarded(md)), Go(key, a), sha) == Move(v, key, Cataloged(md, a.expected))
    ensures Next(Move(v, key, Cataloged(md, a.expected)), Go(key, a), sha)
         == Move(Checks(v, key, md, a), key, Checked(md.(digest := a.expected), a.expected))
  {
    MoveTwice(v, key, Guarded(md), Cataloged(md, a.expected));
    var p, q := Cataloged(md, a.expected), Checked(md.(digest := a.expected), a.expected);
    MoveTwice(v, key, p, q);
    if md.digest != a.expected {
      assert Append(Move(v, key, p), Verified(key, a.content, a.expected)) == Move(Checks(v, key, md, a), key, p);
      MoveTwice(Checks(v, key, md, a), key, p, q);
    } else {
      assert md.(digest := a.expected) == md;
    }
  }

  lemma LaunchSteps(v: World, key: Key, md: Obj, expected: string, a: Answer, sha: Sha)
    ensures Next(Move(v, key, Checked(md, expected)), Go(key, a), sha)
         == Move(Append(v, Workload(key, expected)), key, Deployed(md))
    ensures Next(Move(v, key, Deployed(md)), Go(key, a), sha) == Move(v, key, Served(md))
    ensures Next(Move(v, key, Served(md)), Go(key, a), sha) == Move(v, key, Adding(md, v.routes.configMap))
  {
    var e := Workload(key, expected);
    assert Append(Move(v, key, Checked(md, expected)), e) == Move(Append(v, e), key, Checked(md, expected));
    MoveTwice(Append(v, e), key, Checked(md, expected), Deployed(md));
    MoveTwice(v, key, Deployed(md), Served(md));
    MoveTwice(v, key, Served(md), Adding(md, v.routes.configMap));
  }

  /** The ConfigMap's file is not a null document. */
  predicate Readable(w: World) { !Routes.FileIn(Routes.DataOr(w.routes.configMap)).Null? }

  function RouteOf(w: World, name: string): Option<Routes.Value> {
    Routes.RouteIn(Routes.DataOf(w.routes.configMap), name)
  }

  /** The gateway's routes are `before`'s but for that of `name`. */
  ghost predicate SetsRoute(before: World, after: World, name: string, route: Option<Routes.Value>) {
    && RouteOf(after, name) == route && Readable(after)
    && forall other :: other != name ==> RouteOf(after, other) == RouteOf(before, other)
  }

  /** Where the gateway finds a deployment of that name. */
  function Upstream(name: string): string { "vllm-" + name + ".openserve-inference" + ".svc.cluster.local:8000" }

  lemma UpstreamText(name: string)
    ensures Routes.AddRoute(name, "openserve-inference") == Routes.Add(name, Upstream(name))
  {
    var before := "vllm-" + name;
    assert "." + "openserve-inference" == ".openserve-inference";
    assert before + "." + "openserve-inference" == before + ("." + "openserve-inference");
  }

  lemma WriteBackSets(v: World, op: Routes.Op)
    requires Readable(v)
    ensures var (routes, ok) := Routes.WriteBack(v.routes, v.routes.configMap, op);
            var route := if op.Add? then Some(Routes.Scalar(op.upstream)) else None;
            ok && SetsRoute(v, v.(routes := routes), op.id, route)
  {
  }

  lemma RouteStep(v: World, key: Key, md: Obj, a: Answer, sha: Sha) returns (v': World)
    requires Readable(v)
    ensures Next(Move(v, key, Adding(md, v.routes.configMap)), Go(key, a), sha) == Move(v', key, Routed(md))
    ensures v' == v.(routes := v'.routes) && SetsRoute(v, v', key.name, Some(Routes.Scalar(Upstream(key.name))))
  {
    var op := Routes.AddRoute(key.name, "openserve-inference");
    var (routes, ok) := Routes.WriteBack(v.routes, v.routes.configMap, op);
    v' := v.(routes := routes);
    UpstreamText(key.name);
    WriteBackSets(v, op);
    MoveTwice(v', key, Adding(md, v.routes.configMap), Routed(md));
  }

  lemma ReportStep(v: World, key: Key, md: Obj, a: Answer, sha: Sha)
    requires Current(v, key, md) && !v.objs[key].deleting
    ensures Next(Move(v, key, Routed(md)), Go(key, a), sha)
         == Move(Stores(v, key, v.objs[key].(digest := md.digest)), key, Idle)
  {
    var v' := Stores(v, key, v.objs[key].(digest := md.digest));
    assert WriteStatus(Move(v, key, Routed(md)), key, md) == Move(v', key, Routed(md));
    MoveTwice(v', key, Routed(md), Idle);
  }

  /** The object as it is after a write. */
  function Stores(v: World, key: Key, obj: Obj): World {
    v.(objs := v.objs[key := obj.(version := v.clock + 1)], clock := v.clock + 1)
  }

  /** From the guarded object to the end, in seven calls. */
  lemma Finishes(w: World, key: Key, a: Answer, n: nat, v: World, md: Obj, sha: Sha) returns (v': World)
    requires Reaches(w, key, a, n, v, Guarded(md), sha) && Good(md, a, sha) && Readable(v)
    requires key in v.objs && v.objs[key] == md && !md.deleting
    ensures Reaches(w, key, a, n + 7, Stores(v', key, md.(digest := a.expected)), Idle, sha)
    ensures v' == v.(log := Checks(v, key, md, a).log + [Workload(key, a.expected)], routes := v'.routes)
    ensures SetsRoute(v, v', key.name, Some(Routes.Scalar(Upstream(key.name))))
  {
    var md', v1 := md.(digest := a.expected), Checks(v, key, md, a);
    var v2 := Append(v1, Workload(key, a.expected));
    CheckSteps(v, key, md, a, sha);
    Onward(w, key, a, n, v, Guarded(md), v, Cataloged(md, a.expected), sha);
    Onward(w, key, a, n + 1, v, Cataloged(md, a.expected), v1, Checked(md', a.expected), sha);
    LaunchSteps(v1, key, md', a.expected, a, sha);
    LaunchSteps(v2, key, md', a.expected, a, sha);
    Onward(w, key, a, n + 2, v1, Checked(md', a.expected), v2, Deployed(md'), sha);
    Onward(w, key, a, n + 3, v2, Deployed(md'), v2, Served(md'), sha);
    Onward(w, key, a, n + 4, v2, Served(md'), v2, Adding(md', v2.routes.configMap), sha);
    v' := RouteStep(v2, key, md', a, sha);
    Onward(w, key, a, n + 5, v2, Adding(md', v2.routes.configMap), v', Routed(md'), sha);
    ReportStep(v', key, md', a, sha);
    Onward(w, key, a, n + 6, v', Routed(md'), Stores(v', key, md'), Idle, sha);
  }

  /** Nobody has marked the object for deletion, and no reconcile of it is under way. */
  predicate Waits(w: World, key: Key) { key in w.objs && !w.objs[key].deleting && PhaseOf(w, key).Idle? }

  function Guarding(finalizers: seq<string>): seq<string> {
    if FINALIZER in finalizers then finalizers else finalizers + [FINALIZER]
  }

  /** The object is guarded, in one call or, if its finalizer has to be added, in two. */
  lemma Starts(w: World, key: Key, a: Answer, sha: Sha) returns (n: nat, v: World)
    requires Waits(w, key) && a.engineKnown
    ensures n == if FINALIZER in w.objs[key].finalizers then 1 else 2
    ensures key in v.objs && Reaches(w, key, a, n, v, Guarded(v.objs[key]), sha)
    ensures v == w.(objs := v.objs, clock := v.clock)
    ensures v.objs == w.objs[key := w.objs[key].(finalizers := Guarding(w.objs[key].finalizers),
                                                 version := v.objs[key].version)]
  {
    var md := w.objs[key];
    GoMore(w, key, a, 0, sha);
    assert Exec(w, Gos(key, a, 0), sha) == w;
    if FINALIZER in md.finalizers {
      n, v := 1, w;
      assert w.objs[key := md] == w.objs;
    } else {
      n, v := 2, Stores(w, key, md.(finalizers := md.finalizers + [FINALIZER]));
      GoMore(w, key, a, 1, sha);
      var w1 := Move(w, key, Unguarded(md));
      assert Write(w1, key, md.(finalizers := md.finalizers + [FINALIZER])) == Move(v, key, Unguarded(md));
      MoveTwice(v, key, Unguarded(md), Guarded(v.objs[key]));
    }
  }

  /** The verification that a reconcile leaves on record, if it needs one. */
  function Evidence(key: Key, stored: string, a: Answer): seq<Event> {
    if stored == a.expected then [] else [Verified(key, a.content, a.expected)]
  }

  /** How many calls a reconcile of a live object makes. */
  function Calls(w: World, key: Key): nat
    requires key in w.objs
  {
    if FINALIZER in w.objs[key].finalizers then 8 else 9
  }

  /** What a whole reconcile leaves: a guarded object with its digest, a verified workload and a route. */
  ghost predicate DeployedIn(w: World, w': World, key: Key, a: Answer) {
    && key in w.objs && (forall k :: PhaseOf(w', k) == PhaseOf(w, k))
    && w'.objs == w.objs[key := w.objs[key].(finalizers := Guarding(w.objs[key].finalizers), digest := a.expected,
                                             version := w'.clock)]
    && w'.log == w.log + Evidence(key, w.objs[key].digest, a) + [Workload(key, a.expected)]
    && SetsRoute(w, w', key.name, Some(Routes.Scalar(Upstream(key.name))))
  }

  lemma SameRoutes(v: World, v': World, w: World, w': World, name: string, route: Option<Routes.Value>)
    requires v.routes == w.routes && v'.routes == w'.routes && SetsRoute(v, v', name, route)
    ensures SetsRoute(w, w', name, route)
  {
    assert forall other :: RouteOf(v, other) == RouteOf(w, other) && RouteOf(v', other) == RouteOf(w', other);
  }

  lemma Altogether(w: World, v: World, v': World, key: Key, a: Answer)
    requires Waits(w, key) && key in v.objs && v == w.(objs := v.objs, clock := v.clock)
    requires v.objs == w.objs[key := w.objs[key].(finalizers := Guarding(w.objs[key].finalizers),
                                                  version := v.objs[key].version)]
    requires v' == v.(log := Checks(v, key, v.objs[key], a).log + [Workload(key, a.expected)], routes := v'.routes)
    requires SetsRoute(v, v', key.name, Some(Routes.Scalar(Upstream(key.name))))
    ensures DeployedIn(w, Move(Stores(v', key, v.objs[key].(digest := a.expected)), key, Idle), key, a)
  {
    var w' := Move(Stores(v', key, v.objs[key].(digest := a.expected)), key, Idle);
    assert w.objs[key := v.objs[key]][key := w'.objs[key]] == w.objs[key := w'.objs[key]];
    assert Checks(v, key, v.objs[key], a).log == w.log + Evidence(key, w.objs[key].digest, a);
    SameRoutes(v, v', w, w', key.name, Some(Routes.Scalar(Upstream(key.name))));
  }

  /**
   * Undisturbed, the reconcile of a live object guards it, verifies weights whose digest is not the
   * stored one, deploys them, stores the digest and routes the name, and touches nothing else.
   */
  lemma ReconcileDeploys(w: World, key: Key, a: Answer, sha: Sha)
    requires Waits(w, key) && a.engineKnown && Readable(w) && Good(w.objs[key], a, sha)
    ensures DeployedIn(w, Exec(w, Gos(key, a, Calls(w, key)), sha), key, a)
  {
    var n, v := Starts(w, key, a, sha);
    assert Readable(v);
    var v' := Finishes(w, key, a, n, v, v.objs[key], sha);
    Altogether(w, v, v', key, a);
  }

  /** A second reconcile of the same catalog entry deploys again without verifying anything. */
  lemma VerifiesOnce(w: World, key: Key, a: Answer, b: Answer, sha: Sha)
    requires Waits(w, key) && a.engineKnown && Readable(w) && Good(w.objs[key], a, sha)
    requires b.engineKnown && b.expected == a.expected
    ensures var w' := Exec(w, Gos(key, a, Calls(w, key)), sha);
            Exec(w', Gos(key, b, 8), sha).log == w'.log + [Workload(key, a.expected)]
  {
    ReconcileDeploys(w, key, a, sha);
    var w' := Exec(w, Gos(key, a, Calls(w, key)), sha);
    ReconcileDeploys(w', key, b, sha);
  }

  /** Weights that are not the catalog's are not deployed: the reconcile ends, and the stored digest stays. */
  lemma BadWeightsStop(w: World, key: Key, md: Obj, expected: string, a: Answer, sha: Sha)
    requires PhaseOf(w, key) == Cataloged(md, expected) && md.digest != expected && sha(a.content) != expected
    requires key in w.objs && w.objs[key] == md && !md.deleting
    ensures Next(w, Go(key, a), sha) == w
    ensures Next(w, ReportFailure(key), sha) == Move(Stores(w, key, md), key, Idle)
  {
    assert WriteStatus(w, key, md) == Stores(w, key, md);
  }

  /** The digest is stored even if the route write fails, and stays when the adapters report. */
  lemma StillReports(v: World, key: Key, md: Obj, a: Answer, sha: Sha)
    requires Current(v, key, md) && !v.objs[key].deleting
    ensures Next(Next(Move(v, key, Served(md)), SkipRoute(key), sha), Go(key, a), sha)
         == Move(Stores(v, key, v.objs[key].(digest := md.digest)), key, Idle)
    ensures var v' := Stores(v, key, v.objs[key].(digest := md.digest));
            Next(Next(Move(v, key, Routed(md)), ReportAdapters(key), sha), Go(key, a), sha)
            == Move(Stores(v', key, v'.objs[key]), key, Idle)
  {
    MoveTwice(v, key, Served(md), Routed(md));
    ReportStep(v, key, md, a, sha);
    var v' := Stores(v, key, v.objs[key].(digest := md.digest));
    assert WriteStatus(Move(v, key, Routed(md)), key, md) == Move(v', key, Routed(md));
    MoveTwice(v', key, Routed(md), Routed(v'.objs[key]));
    ReportStep(v', key, v'.objs[key], a, sha);
  }

  /** Nothing is done for an object that is gone, that names no engine, or that others alone still hold. */
  lemma NothingToDo(w: World, key: Key, a: Answer, sha: Sha)
    requires PhaseOf(w, key).Idle?
    ensures PhaseOf(Next(w, Go(key, a), sha), key).Idle?
            <==> key !in w.objs || !a.engineKnown || (w.objs[key].deleting && FINALIZER !in w.objs[key].finalizers)
    ensures Next(w, Go(key, a), sha) == w.(phases := Next(w, Go(key, a), sha).phases)
  {
  }

  /** Taking a finalizer off leaves the others in their order. */
  lemma {:induction false} WithoutInOrder(a: seq<string>, b: seq<string>, s: string)
    ensures Without(a + b, s) == Without(a, s) + Without(b, s)
  {
    if b == [] {
      assert a + b == a;
    } else {
      WithoutInOrder(a, b[..|b| - 1], s);
      assert (a + b)[..|a + b| - 1] == a + b[..|b| - 1];
    }
  }

  lemma WithoutOne(t: string, s: string)
    ensures Without([t], s) == if t == s then [] else [t]
  {
    assert [t][..0] == [] && Without([], s) == [];
  }

  // The cleanup

  predicate BeingDeleted(w: World, key: Key) {
    && key in w.objs && w.objs[key].deleting && FINALIZER in w.objs[key].finalizers && PhaseOf(w, key).Idle?
  }

  /** The route is taken out of the ConfigMap, if there is one. */
  lemma Unroutes(w: World, key: Key, a: Answer, sha: Sha) returns (n: nat, v: World)
    requires BeingDeleted(w, key) && a.engineKnown && Readable(w)
    ensures n == (if w.routes.configMap.None? then 2 else 3) && v == w.(routes := v.routes)
    ensures Reaches(w, key, a, n, v, RouteGone(w.objs[key]), sha) && SetsRoute(w, v, key.name, None)
  {
    var md, read := w.objs[key], w.routes.configMap;
    GoMore(w, key, a, 0, sha);
    assert Exec(w, Gos(key, a, 0), sha) == w;
    if read.None? {
      MoveTwice(w, key, Cleaning(md), RouteGone(md));
      Onward(w, key, a, 1, w, Cleaning(md), w, RouteGone(md), sha);
      n, v := 2, w;
    } else {
      MoveTwice(w, key, Cleaning(md), Removing(md, read));
      Onward(w, key, a, 1, w, Cleaning(md), w, Removing(md, read), sha);
      var (routes, ok) := Routes.WriteBack(w.routes, read, Routes.Remove(key.name));
      WriteBackSets(w, Routes.Remove(key.name));
      n, v := 3, w.(routes := routes);
      MoveTwice(v, key, Removing(md, read), RouteGone(md));
      Onward(w, key, a, 2, w, Removing(md, read), v, RouteGone(md), sha);
    }
  }

  /** The object without the finalizer; gone if that was the last. */
  lemma LetsGo(v: World, key: Key, md: Obj, a: Answer, sha: Sha) returns (v': World)
    requires key in v.objs && v.objs[key] == md && md.deleting
    ensures Next(Move(v, key, RouteGone(md)), Go(key, a), sha) == Move(v', key, Idle)
    ensures v' == v.(objs := v'.objs, clock := v.clock + 1) && v'.objs - {key} == v.objs - {key}
    ensures key in v'.objs <==> exists f :: f in md.finalizers && f != FINALIZER
    ensures key in v'.objs ==>
              v'.objs[key] == md.(finalizers := Without(md.finalizers, FINALIZER), version := v.clock + 1)
  {
    var obj := md.(finalizers := Without(md.finalizers, FINALIZER));
    v' := Write(v, key, obj);
    assert Write(Move(v, key, RouteGone(md)), key, obj) == Move(v', key, RouteGone(md));
    MoveTwice(v', key, RouteGone(md), Idle);
    assert obj.finalizers != [] ==> obj.finalizers[0] in obj.finalizers;
    assert v.objs - {key} - {key} == v.objs - {key};
  }

  /**
   * Undisturbed, the reconcile of an object being deleted takes its route and then its finalizer
   * away, so that the object is gone if nobody else holds it; it touches nothing else.
   */
  lemma ReconcileCleansUp(w: World, key: Key, a: Answer, sha: Sha) returns (n: nat)
    requires BeingDeleted(w, key) && a.engineKnown && Readable(w)
    ensures n == if w.routes.configMap.None? then 3 else 4
    ensures var w', md := Exec(w, Gos(key, a, n), sha), w.objs[key];
            && SetsRoute(w, w', key.name, None) && PhaseOf(w', key).Idle?
            && w'.log == w.log && w'.objs - {key} == w.objs - {key}
            && (key in w'.objs <==> exists f :: f in md.finalizers && f != FINALIZER)
            && (key in w'.objs ==>
                  w'.objs[key] == md.(finalizers := Without(md.finalizers, FINALIZER), version := w'.clock))
  {
    var m, v := Unroutes(w, key, a, sha);
    var v' := LetsGo(v, key, w.objs[key], a, sha);
    Onward(w, key, a, m, v, RouteGone(w.objs[key]), v', Idle, sha);
    n := m + 1;
    SameRoutes(w, v, w, Move(v', key, Idle), key.name, None);
  }
}
