/**
 * When a reconcile takes a route from the gateway, and whose: routes are keyed by name alone, so
 * cleaning up one deployment may take the route of a live one in another namespace.
 */
module ReconcilerRoutes {
  import opened Wrappers
  import opened Reconciler
  import opened ReconcilerSafety

  /** The step takes the route of that name. */
  predicate Takes(w: World, key: Key, a: Answer, name: string, sha: Sha) {
    name in RoutedNames(w) && name !in RoutedNames(Next(w, Go(key, a), sha))
  }

  /** The write of a cleanup that will be accepted. */
  predicate AboutToRemove(w: World, key: Key) {
    PhaseOf(w, key).Removing? && Routes.Accepts(w.routes, PhaseOf(w, key).read)
  }

  lemma WriteBackNames(routes: Routes.Store, read: Option<Routes.ConfigMap>, op: Routes.Op)
    requires Routes.Accepts(routes, read) ==> read == routes.configMap
    ensures var before := RouteIds(Routes.DataOf(routes.configMap));
            var (after, ok) := Routes.WriteBack(routes, read, op);
            && (!ok ==> after == routes)
            && (before != {} && Routes.Accepts(routes, read) ==> ok)
            && (ok ==> Routes.Accepts(routes, read) && RouteIds(Routes.DataOf(after.configMap))
                       == if op.Add? then before + {op.id} else before - {op.id})
  {
  }

  lemma TakesIff(w: World, key: Key, a: Answer, name: string, sha: Sha)
    requires PhaseOk(w, key, PhaseOf(w, key)) && name in RoutedNames(w)
    ensures Takes(w, key, a, name, sha) <==> name == key.name && AboutToRemove(w, key)
  {
    match PhaseOf(w, key)
    case Removing(md, read) => WriteBackNames(w.routes, read, Routes.Remove(key.name));
    case Adding(md, read) =>
      WriteBackNames(w.routes, read, Routes.AddRoute(key.name, "openserve-inference"));
    case _ => assert Advance(w, key, a, sha).routes == w.routes;
  }

  /** In every run, a reconcile's step takes a route exactly if it is the accepted write of a cleanup of that name. */
  lemma RouteTakenIff(actions: seq<Action>, sha: Sha, key: Key, a: Answer, name: string)
    requires name in RoutedNames(Exec(EMPTY, actions, sha))
    ensures var w := Exec(EMPTY, actions, sha);
            Takes(w, key, a, name, sha) <==> name == key.name && AboutToRemove(w, key)
  {
    AlwaysSafe(actions, sha);
    TakesIff(Exec(EMPTY, actions, sha), key, a, name, sha);
  }

  // Live deployments

  predicate Live(w: World, key: Key) { key in w.objs && !w.objs[key].deleting }

  /** The reconcile of `key` takes the route of the live deployment `other`. */
  predicate Loses(actions: seq<Action>, key: Key, other: Key, a: Answer, sha: Sha) {
    var w := Exec(EMPTY, actions, sha);
    Live(w, other) && Takes(w, key, a, other.name, sha)
  }

  /** Only the cleanup of another deployment of the same name does that. */
  lemma LosesToAnother(actions: seq<Action>, key: Key, other: Key, a: Answer, sha: Sha)
    requires Loses(actions, key, other, a, sha)
    ensures key != other && key.name == other.name
    ensures key in Exec(EMPTY, actions, sha).objs && Exec(EMPTY, actions, sha).objs[key].deleting
  {
    RouteTakenIff(actions, sha, key, a, other.name);
    AlwaysSafe(actions, sha);
    var w := Exec(EMPTY, actions, sha);
    assert PhaseOk(w, key, PhaseOf(w, key));
  }

  predicate Creates(actions: seq<Action>, key: Key) {
    exists i :: 0 <= i < |actions| && actions[i].Create? && actions[i].key == key
  }

  /** No two deployments of a run share a name. */
  ghost predicate UniqueNames(actions: seq<Action>) {
    forall key, other :: Creates(actions, key) && Creates(actions, other) && key.name == other.name ==> key == other
  }

  lemma TouchedWasThere(w: World, w': World, touched: Key, key: Key)
    requires TouchesOnly(w, w', touched) && key in w'.objs
    ensures key in w.objs
  {
    assert key != touched ==> key in w'.objs - {touched};
  }

  lemma OnlyCreateAdds(w: World, action: Action, key: Key, sha: Sha)
    requires !action.Go? && key in Next(w, action, sha).objs && key !in w.objs
    ensures action.Create? && action.key == key
  {
  }

  lemma {:induction false} OnlyCreated(actions: seq<Action>, sha: Sha, key: Key)
    requires key in Exec(EMPTY, actions, sha).objs
    ensures Creates(actions, key)
  {
    if actions != [] {
      var n := |actions| - 1;
      var before, action := actions[..n], actions[n];
      var w := Exec(EMPTY, before, sha);
      if action.Go? {
        ReconcileTouchesItsOwn(before, sha, action.key, action.answer);
        TouchedWasThere(w, Next(w, action, sha), action.key, key);
      }
      if key in w.objs {
        OnlyCreated(before, sha, key);
        var i :| 0 <= i < n && before[i].Create? && before[i].key == key;
        assert actions[i] == before[i];
      } else {
        OnlyCreateAdds(w, action, key, sha);
      }
    }
  }

  /** Where no two deployments share a name, no reconcile takes the route of a live one. */
  lemma UniqueNamesKeepRoutes(actions: seq<Action>, sha: Sha, key: Key, other: Key, a: Answer)
    requires UniqueNames(actions)
    ensures !Loses(actions, key, other, a, sha)
  {
    if Loses(actions, key, other, a, sha) {
      LosesToAnother(actions, key, other, a, sha);
      OnlyCreated(actions, sha, key);
      OnlyCreated(actions, sha, other);
    }
  }

  // A run that loses a route

  const YES := Answer(true, "", [])

  /** The object is live and guarded, and nothing is in the way of its reconcile. */
  predicate Ready(w: World, key: Key) {
    && Live(w, key) && FINALIZER in w.objs[key].finalizers && w.objs[key].digest == ""
    && PhaseOf(w, key).Idle? && !Routes.FileIn(Routes.DataOr(w.routes.configMap)).Null?
  }

  /** Nothing but the reconcile of `key`, the log and the routes has changed. */
  ghost predicate Moved(w: World, w': World, key: Key) {
    w'.objs == w.objs && forall k :: k != key ==> PhaseOf(w', k) == PhaseOf(w, k)
  }

  lemma Extend(actions: seq<Action>, action: Action, sha: Sha) returns (more: seq<Action>)
    ensures Exec(EMPTY, more, sha) == Next(Exec(EMPTY, actions, sha), action, sha)
  {
    more := actions + [action];
    ExecMore(actions, action, sha);
  }

  lemma QuietStep(w: World, key: Key, sha: Sha)
    requires var p := PhaseOf(w, key);
             Ready(w, key) || p.Guarded? || (p.Cataloged? && p.md.digest == p.expected == "")
             || p.Checked? || p.Deployed? || p.Served?
    ensures var w', p := Next(w, Go(key, YES), sha), PhaseOf(w, key);
            && Moved(w, w', key) && w'.routes == w.routes
            && w'.log == (if p.Checked? then w.log + [Workload(key, p.expected)] else w.log)
            && PhaseOf(w', key) == match p
               case Idle => Guarded(w.objs[key])
               case Guarded(md) => Cataloged(md, "")
               case Cataloged(md, expected) => Checked(md, expected)
               case Checked(md, _) => Deployed(md)
               case Deployed(md) => Served(md)
               case _ => Adding(p.md, w.routes.configMap)
  {
  }

  lemma AddStep(w: World, key: Key, sha: Sha)
    requires PhaseOf(w, key).Adding? && PhaseOf(w, key).read == w.routes.configMap
    requires !Routes.FileIn(Routes.DataOr(w.routes.configMap)).Null?
    ensures var w' := Next(w, Go(key, YES), sha);
            && Moved(w, w', key) && w'.log == w.log && RoutedNames(w') == RoutedNames(w) + {key.name}
            && !Routes.FileIn(Routes.DataOr(w'.routes.configMap)).Null?
  {
  }

  /** One whole reconcile of a live object, ended before it reports. */
  lemma Deploys(actions: seq<Action>, key: Key, sha: Sha) returns (more: seq<Action>)
    requires Ready(Exec(EMPTY, actions, sha), key)
    ensures var w, w' := Exec(EMPTY, actions, sha), Exec(EMPTY, more, sha);
            && Moved(w, w', key) && Ready(w', key) && RoutedNames(w') == RoutedNames(w) + {key.name}
            && w'.log == w.log + [Workload(key, "")]
  {
    var w := Exec(EMPTY, actions, sha);
    more := actions;
    var n := 0;
    while n < 6
      invariant 0 <= n <= 6
      invariant var v := Exec(EMPTY, more, sha);
                && Moved(w, v, key) && v.routes == w.routes
                && v.log == (if n <= 3 then w.log else w.log + [Workload(key, "")])
                && PhaseOf(v, key) == match n
                   case 0 => Idle
                   case 1 => Guarded(w.objs[key])
                   case 2 => Cataloged(w.objs[key], "")
                   case 3 => Checked(w.objs[key], "")
                   case 4 => Deployed(w.objs[key])
                   case 5 => Served(w.objs[key])
                   case _ => Adding(w.objs[key], w.routes.configMap)
    {
      QuietStep(Exec(EMPTY, more, sha), key, sha);
      more := Extend(more, Go(key, YES), sha);
      n := n + 1;
    }
    AddStep(Exec(EMPTY, more, sha), key, sha);
    more := Extend(more, Go(key, YES), sha);
    more := Extend(more, Stop(key), sha);
  }

  lemma CreateStep(w: World, key: Key, sha: Sha)
    requires key !in w.objs
    ensures var w', obj := Next(w, Create(key, "", [FINALIZER]), sha), Obj(w.clock + 1, false, [FINALIZER], "", "");
            w' == w.(objs := w.objs[key := obj], clock := w.clock + 1)
  {
  }

  /** Deleting an object and running its cleanup up to the write. */
  lemma StartsCleanup(actions: seq<Action>, key: Key, other: Key, sha: Sha) returns (more: seq<Action>)
    requires var w := Exec(EMPTY, actions, sha);
             Ready(w, key) && Ready(w, other) && key != other && key.name in RoutedNames(w)
    ensures var w, w' := Exec(EMPTY, actions, sha), Exec(EMPTY, more, sha);
            && w'.routes == w.routes && w'.log == w.log && Live(w', other) && AboutToRemove(w', key)
  {
    more := Extend(actions, Delete(key), sha);
    more := Extend(more, Go(key, YES), sha);
    assert PhaseOf(Exec(EMPTY, more, sha), key).Cleaning?;
    more := Extend(more, Go(key, YES), sha);
  }

  /** Two deployments of one name, both created, reconciled and routed; then one is deleted and cleaned up. */
  lemma SameNameLosesRoute(key: Key, other: Key, sha: Sha) returns (actions: seq<Action>)
    requires key != other && key.name == other.name
    ensures Loses(actions, key, other, YES, sha)
    ensures Exec(EMPTY, actions, sha).log == [Workload(key, ""), Workload(other, "")]
  {
    CreateStep(EMPTY, key, sha);
    actions := Extend([], Create(key, "", [FINALIZER]), sha);
    CreateStep(Exec(EMPTY, actions, sha), other, sha);
    actions := Extend(actions, Create(other, "", [FINALIZER]), sha);
    actions := Deploys(actions, key, sha);
    actions := Deploys(actions, other, sha);
    actions := StartsCleanup(actions, key, other, sha);
    RouteTakenIff(actions, sha, key, YES, key.name);
  }

  /** In some run a deployment's cleanup takes a live one's route exactly if they are two of one name. */
  lemma LosesIff(key: Key, other: Key, sha: Sha)
    ensures (exists actions, a :: Loses(actions, key, other, a, sha)) <==> key != other && key.name == other.name
  {
    if key != other && key.name == other.name {
      var actions := SameNameLosesRoute(key, other, sha);
    } else if actions, a :| Loses(actions, key, other, a, sha) {
      LosesToAnother(actions, key, other, a, sha);
    }
  }
}
