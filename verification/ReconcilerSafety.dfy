/**
 * Safety of the reconciler over every interleaving of reconciles, failures, crashes and user
 * actions: no route outlives its object, and no workload is written before its weights were verified.
 */
module ReconcilerSafety {
  import opened Wrappers
  import opened Bytes
  import opened Reconciler

  type Sha = seq<Byte> -> string

  // The invariant

  /** From the moment the finalizer is known to be stored until the reconcile ends without removing it. */
  predicate Guarding(p: Phase) {
    p.Guarded? || p.Cataloged? || p.Checked? || p.Deployed? || p.Served? || p.Adding? || p.Routed?
  }

  /** From the sight of the deletion mark until the finalizer is taken off. */
  predicate Cleans(p: Phase) { p.Cleaning? || p.Removing? || p.RouteGone? }

  ghost predicate Protected(w: World, key: Key) { key in w.objs && FINALIZER in w.objs[key].finalizers }

  /** The digest is empty, or a verification of it for that deployment is on record. */
  ghost predicate Vouched(log: seq<Event>, key: Key, digest: string) {
    digest == "" || exists e :: e in log && e.Verified? && e.key == key && e.digest == digest
  }

  /** The deployment's workload was written. */
  ghost predicate Launched(log: seq<Event>, key: Key) {
    exists e :: e in log && e.Workload? && e.key == key
  }

  ghost predicate ReadOk(w: World, read: Option<Routes.ConfigMap>) {
    && (read.Some? ==> read.value.version <= w.routes.clock)
    && (Routes.Accepts(w.routes, read) ==> read == w.routes.configMap)
  }

  ghost predicate CopyOk(w: World, key: Key, md: Obj) {
    && md.version <= w.clock
    && (Current(w, key, md) ==> w.objs[key].finalizers == md.finalizers && w.objs[key].deleting == md.deleting)
    && Vouched(w.log, key, md.digest)
  }

  ghost predicate PhaseOk(w: World, key: Key, p: Phase) {
    && (!p.Idle? ==> CopyOk(w, key, p.md))
    && (Guarding(p) ==> Protected(w, key))
    && (Cleans(p) ==> Protected(w, key) && w.objs[key].deleting)
    && (p.Unguarded? ==> !p.md.deleting)
    && (p.Removing? || p.Adding? ==> ReadOk(w, p.read))
    && (p.Checked? ==> Vouched(w.log, key, p.expected))
    && (p.Deployed? || p.Served? || p.Adding? || p.Routed? ==> Launched(w.log, key))
  }

  ghost predicate ObjOk(w: World, key: Key) {
    key in w.objs ==> w.objs[key].version <= w.clock && Vouched(w.log, key, w.objs[key].digest)
  }

  /** A protected object whose workload was written and whose reconcile is not about to give it up. */
  ghost predicate Owns(w: World, key: Key, name: string) {
    Protected(w, key) && key.name == name && !PhaseOf(w, key).RouteGone? && Launched(w.log, key)
  }

  ghost predicate Owned(w: World, name: string) { exists key :: Owns(w, key, name) }

  ghost predicate LogOk(log: seq<Event>, sha: Sha) {
    forall i :: 0 <= i < |log| ==> EventOk(log[..i], log[i], sha)
  }

  ghost predicate EventOk(before: seq<Event>, e: Event, sha: Sha) {
    match e
    case Verified(_, content, digest) => sha(content) == digest
    case Workload(key, digest) => Vouched(before, key, digest)
  }

  ghost predicate Inv(w: World, sha: Sha) {
    && Routes.WellVersioned(w.routes)
    && (forall key :: ObjOk(w, key))
    && (forall key :: PhaseOk(w, key, PhaseOf(w, key)))
    && (forall name :: name in RoutedNames(w) ==> Owned(w, name))
    && LogOk(w.log, sha)
  }

  // Moving one reconcile along

  lemma MoveKeeps(w: World, key: Key, p: Phase, sha: Sha)
    requires Inv(w, sha) && PhaseOk(w, key, p)
    requires p.RouteGone? ==> key.name !in RoutedNames(w)
    ensures Inv(Move(w, key, p), sha)
  {
    var w' := Move(w, key, p);
    forall other ensures ObjOk(w', other) && PhaseOk(w', other, PhaseOf(w', other)) {
      assert ObjOk(w, other) && PhaseOk(w, other, PhaseOf(w, other));
    }
    forall name | name in RoutedNames(w') ensures Owned(w', name) {
      assert Owned(w, name);
      var k :| Owns(w, k, name);
      assert Owns(w', k, name);
    }
  }

  /** A write of an object that keeps what its reconcile counts on; `p` is the reconcile's phase after. */
  ghost predicate Harmless(w: World, key: Key, obj: Obj, p: Phase) {
    && Vouched(w.log, key, obj.digest)
    && (Protected(w, key) && !PhaseOf(w, key).RouteGone? ==> FINALIZER in obj.finalizers)
    && (p == PhaseOf(w, key) || p.Idle?
        || (p.Guarded? && key in Write(w, key, obj).objs && p.md == Write(w, key, obj).objs[key]))
    && (Guarding(p) || Cleans(p) ==> FINALIZER in obj.finalizers)
    && (key in w.objs && w.objs[key].deleting ==> obj.deleting)
  }

  lemma WriteKeepsPhases(w: World, key: Key, obj: Obj, p: Phase, other: Key)
    requires Harmless(w, key, obj, p) && PhaseOk(w, other, PhaseOf(w, other)) && ObjOk(w, other)
    ensures var w' := Move(Write(w, key, obj), key, p);
            ObjOk(w', other) && PhaseOk(w', other, PhaseOf(w', other))
  {
  }

  lemma WriteKeepsOwners(w: World, key: Key, obj: Obj, p: Phase, name: string)
    requires Harmless(w, key, obj, p) && Owned(w, name)
    ensures Owned(Move(Write(w, key, obj), key, p), name)
  {
    var k :| Owns(w, k, name);
    assert Owns(Move(Write(w, key, obj), key, p), k, name);
  }

  lemma WriteKeeps(w: World, key: Key, obj: Obj, p: Phase, sha: Sha)
    requires Inv(w, sha) && Harmless(w, key, obj, p)
    ensures Inv(Move(Write(w, key, obj), key, p), sha)
  {
    var w' := Move(Write(w, key, obj), key, p);
    forall other ensures ObjOk(w', other) && PhaseOk(w', other, PhaseOf(w', other)) {
      WriteKeepsPhases(w, key, obj, p, other);
    }
    forall name | name in RoutedNames(w') ensures Owned(w', name) {
      WriteKeepsOwners(w, key, obj, p, name);
    }
  }

  /** A write of the route table by the reconcile of `key`, which moves to `p`. */
  lemma RoutesKeep(w: World, routes: Routes.Store, key: Key, p: Phase, sha: Sha)
    requires Inv(w, sha) && Routes.WellVersioned(routes)
    requires
      || routes == w.routes || routes.clock > w.routes.clock
      || (routes.clock == w.routes.clock && routes.configMap.None?)
    requires routes.configMap.Some? && routes != w.routes ==> routes.configMap.value.version > w.routes.clock
    requires PhaseOk(w, key, p) && !p.Removing? && !p.Adding?
    requires p.RouteGone? ==> key.name !in RoutedNames(w.(routes := routes))
    requires forall name :: name in RoutedNames(w.(routes := routes)) ==>
               name in RoutedNames(w)
               || (name == key.name && Protected(w, key) && !p.RouteGone? && Launched(w.log, key))
    ensures Inv(Move(w.(routes := routes), key, p), sha)
  {
    var w' := Move(w.(routes := routes), key, p);
    forall other ensures ObjOk(w', other) && PhaseOk(w', other, PhaseOf(w', other)) {
      assert ObjOk(w, other) && PhaseOk(w, other, PhaseOf(w, other));
    }
    forall name | name in RoutedNames(w') ensures Owned(w', name) {
      if name in RoutedNames(w) {
        assert Owned(w, name);
        var k :| Owns(w, k, name);
        assert Owns(w', k, name);
      } else {
        assert Owns(w', key, name);
      }
    }
  }

  lemma VouchedGrows(log: seq<Event>, e: Event, key: Key, digest: string)
    requires Vouched(log, key, digest)
    ensures Vouched(log + [e], key, digest)
  {
    if digest != "" {
      var v :| v in log && v.Verified? && v.key == key && v.digest == digest;
      assert v in log + [e];
    }
  }

  lemma LaunchedGrows(log: seq<Event>, e: Event, key: Key)
    requires Launched(log, key)
    ensures Launched(log + [e], key)
  {
    var v :| v in log && v.Workload? && v.key == key;
    assert v in log + [e];
  }

  lemma LogGrows(log: seq<Event>, e: Event, sha: Sha)
    requires LogOk(log, sha) && EventOk(log, e, sha)
    ensures LogOk(log + [e], sha)
  {
    var all := log + [e];
    forall i | 0 <= i < |all| ensures EventOk(all[..i], all[i], sha) {
      assert all[..i] == log[..i];
      if i < |log| { assert EventOk(log[..i], log[i], sha); } else { assert all[..i] == log; }
    }
  }

  lemma AppendKeeps(w: World, e: Event, sha: Sha)
    requires Inv(w, sha) && EventOk(w.log, e, sha)
    ensures Inv(Append(w, e), sha)
  {
    var w' := Append(w, e);
    forall other ensures ObjOk(w', other) && PhaseOk(w', other, PhaseOf(w', other)) {
      assert ObjOk(w, other) && PhaseOk(w, other, PhaseOf(w, other));
      var p := PhaseOf(w, other);
      if other in w.objs { VouchedGrows(w.log, e, other, w.objs[other].digest); }
      if !p.Idle? { VouchedGrows(w.log, e, other, p.md.digest); }
      if p.Checked? { VouchedGrows(w.log, e, other, p.expected); }
      if p.Deployed? || p.Served? || p.Adding? || p.Routed? { LaunchedGrows(w.log, e, other); }
    }
    forall name | name in RoutedNames(w') ensures Owned(w', name) {
      assert Owned(w, name);
      var k :| Owns(w, k, name);
      LaunchedGrows(w.log, e, k);
      assert Owns(w', k, name);
    }
    LogGrows(w.log, e, sha);
  }

  // The steps

  lemma LoadKeeps(w: World, key: Key, engineKnown: bool, sha: Sha)
    requires Inv(w, sha)
    ensures Inv(Move(w, key, Load(w, key, engineKnown)), sha)
  {
    assert ObjOk(w, key);
    MoveKeeps(w, key, Load(w, key, engineKnown), sha);
  }

  lemma StatusKeeps(w: World, key: Key, md: Obj, p: Phase, sha: Sha)
    requires Inv(w, sha) && Guarding(PhaseOf(w, key)) && PhaseOf(w, key).md == md
    requires p.Idle?
    ensures Inv(Move(if Current(w, key, md) then WriteStatus(w, key, md) else w, key, p), sha)
  {
    assert PhaseOk(w, key, PhaseOf(w, key));
    if Current(w, key, md) {
      WriteKeeps(w, key, w.objs[key].(digest := md.digest), p, sha);
    } else {
      MoveKeeps(w, key, p, sha);
    }
  }

  lemma CleanupKeeps(w: World, key: Key, a: Answer, sha: Sha)
    requires Inv(w, sha)
    requires var p := PhaseOf(w, key); p.Cleaning? || p.Removing? || p.RouteGone?
    ensures Inv(Advance(w, key, a, sha), sha)
  {
    var p := PhaseOf(w, key);
    assert PhaseOk(w, key, p) && ObjOk(w, key);
    match p
    case Cleaning(md) =>
      MoveKeeps(w, key, if w.routes.configMap.None? then RouteGone(md) else Removing(md, w.routes.configMap), sha);
    case Removing(md, read) =>
      var (routes, ok) := Routes.WriteBack(w.routes, read, Routes.Remove(key.name));
      RoutesKeep(w, routes, key, if ok then RouteGone(md) else Idle, sha);
    case RouteGone(md) =>
      if Current(w, key, md) {
        WriteKeeps(w, key, w.objs[key].(finalizers := Without(md.finalizers, FINALIZER)), Idle, sha);
      } else {
        MoveKeeps(w, key, Idle, sha);
      }
  }

  lemma GuardKeeps(w: World, key: Key, a: Answer, sha: Sha)
    requires Inv(w, sha) && PhaseOf(w, key).Unguarded?
    ensures Inv(Advance(w, key, a, sha), sha)
  {
    var md := PhaseOf(w, key).md;
    assert PhaseOk(w, key, PhaseOf(w, key)) && ObjOk(w, key);
    if Current(w, key, md) {
      var obj := w.objs[key].(finalizers := md.finalizers + [FINALIZER]);
      WriteKeeps(w, key, obj, Guarded(Write(w, key, obj).objs[key]), sha);
    } else {
      MoveKeeps(w, key, Idle, sha);
    }
  }

  lemma DeployKeeps(w: World, key: Key, a: Answer, sha: Sha)
    requires Inv(w, sha)
    requires var p := PhaseOf(w, key); p.Guarded? || p.Cataloged? || p.Checked? || p.Deployed? || p.Served?
    ensures Inv(Advance(w, key, a, sha), sha)
  {
    var p := PhaseOf(w, key);
    assert PhaseOk(w, key, p);
    match p
    case Guarded(md) => MoveKeeps(w, key, Cataloged(md, a.expected), sha);
    case Cataloged(md, expected) =>
      if md.digest == expected {
        MoveKeeps(w, key, Checked(md, expected), sha);
      } else if sha(a.content) == expected {
        var e := Verified(key, a.content, expected);
        AppendKeeps(w, e, sha);
        assert e in Append(w, e).log;
        assert PhaseOk(Append(w, e), key, p);
        MoveKeeps(Append(w, e), key, Checked(md.(digest := expected), expected), sha);
      }
    case Checked(md, expected) =>
      AppendKeeps(w, Workload(key, expected), sha);
      assert PhaseOk(Append(w, Workload(key, expected)), key, p);
      assert Workload(key, expected) in Append(w, Workload(key, expected)).log;
      MoveKeeps(Append(w, Workload(key, expected)), key, Deployed(md), sha);
    case Deployed(md) => MoveKeeps(w, key, Served(md), sha);
    case Served(md) => MoveKeeps(w, key, Adding(md, w.routes.configMap), sha);
  }

  lemma AddRouteKeeps(w: World, key: Key, a: Answer, sha: Sha)
    requires Inv(w, sha) && PhaseOf(w, key).Adding?
    ensures Inv(Advance(w, key, a, sha), sha)
  {
    var p := PhaseOf(w, key);
    assert PhaseOk(w, key, p);
    var (routes, ok) := Routes.WriteBack(w.routes, p.read, Routes.AddRoute(key.name, "openserve-inference"));
    RoutesKeep(w, routes, key, Routed(p.md), sha);
  }

  lemma AdvanceKeeps(w: World, key: Key, a: Answer, sha: Sha)
    requires Inv(w, sha)
    ensures Inv(Advance(w, key, a, sha), sha)
  {
    var p := PhaseOf(w, key);
    if p.Idle? { LoadKeeps(w, key, a.engineKnown, sha); }
    else if p.Cleaning? || p.Removing? || p.RouteGone? { CleanupKeeps(w, key, a, sha); }
    else if p.Unguarded? { GuardKeeps(w, key, a, sha); }
    else if p.Adding? { AddRouteKeeps(w, key, a, sha); }
    else if p.Routed? { StatusKeeps(w, key, p.md, Idle, sha); }
    else { DeployKeeps(w, key, a, sha); }
  }

  lemma FailureKeeps(w: World, action: Action, sha: Sha)
    requires Inv(w, sha) && (action.Stop? || action.ReportFailure? || action.SkipRoute? || action.ReportAdapters?)
    ensures Inv(Next(w, action, sha), sha)
  {
    var key := action.key;
    var p := PhaseOf(w, key);
    assert PhaseOk(w, key, p) && ObjOk(w, key);
    if action.Stop? {
      MoveKeeps(w, key, Idle, sha);
    } else if action.ReportFailure? && (p.Guarded? || p.Cataloged?) {
      StatusKeeps(w, key, p.md, Idle, sha);
    } else if action.SkipRoute? && (p.Served? || p.Adding?) {
      MoveKeeps(w, key, Routed(p.md), sha);
    } else if action.ReportAdapters? && p.Routed? && Current(w, key, p.md) {
      AdaptersKeep(w, key, sha);
    }
  }

  lemma AdaptersKeep(w: World, key: Key, sha: Sha)
    requires Inv(w, sha) && PhaseOf(w, key).Routed? && Current(w, key, PhaseOf(w, key).md)
    ensures Inv(Next(w, ReportAdapters(key), sha), sha)
  {
    var md := PhaseOf(w, key).md;
    assert PhaseOk(w, key, PhaseOf(w, key)) && ObjOk(w, key);
    var obj := w.objs[key].(digest := md.digest);
    var w' := Write(w, key, obj);
    WriteKeeps(w, key, obj, Guarded(w'.objs[key]), sha);
    var g := Move(w', key, Guarded(w'.objs[key]));
    assert PhaseOk(g, key, PhaseOf(g, key));
    MoveKeeps(g, key, Routed(w'.objs[key]), sha);
    assert Move(g, key, Routed(w'.objs[key])) == Move(w', key, Routed(w'.objs[key]));
  }

  lemma UserWriteKeeps(w: World, key: Key, obj: Obj, sha: Sha)
    requires Inv(w, sha) && Vouched(w.log, key, obj.digest)
    requires Protected(w, key) ==> FINALIZER in obj.finalizers
    requires key in w.objs && w.objs[key].deleting ==> obj.deleting
    ensures Inv(Write(w, key, obj), sha)
  {
    assert PhaseOk(w, key, PhaseOf(w, key));
    WriteKeeps(w, key, obj, PhaseOf(w, key), sha);
    SameMove(w, Write(w, key, obj), key, sha);
  }

  lemma UserKeeps(w: World, action: Action, sha: Sha)
    requires Inv(w, sha) && (action.Create? || action.Delete? || action.Edit? || action.TouchStatus?)
    ensures Inv(Next(w, action, sha), sha)
  {
    assert ObjOk(w, action.key);
    match action
    case Create(key, modelRef, finalizers) =>
      if key !in w.objs { UserWriteKeeps(w, key, Obj(0, false, finalizers, modelRef, ""), sha); }
    case Delete(key) =>
      if key in w.objs { UserWriteKeeps(w, key, w.objs[key].(deleting := true), sha); }
    case Edit(key, modelRef, finalizers) =>
      if key in w.objs && (FINALIZER in w.objs[key].finalizers ==> FINALIZER in finalizers) {
        UserWriteKeeps(w, key, w.objs[key].(modelRef := modelRef, finalizers := finalizers), sha);
      }
    case TouchStatus(key) =>
      if key in w.objs { UserWriteKeeps(w, key, w.objs[key], sha); }
  }

  lemma EditRoutesKeeps(w: World, data: Option<Routes.Data>, sha: Sha)
    requires Inv(w, sha)
    ensures Inv(Next(w, EditRoutes(data), sha), sha)
  {
    var w' := Next(w, EditRoutes(data), sha);
    forall other ensures ObjOk(w', other) && PhaseOk(w', other, PhaseOf(w', other)) {
      assert ObjOk(w, other) && PhaseOk(w, other, PhaseOf(w, other));
    }
    forall name | name in RoutedNames(w') ensures Owned(w', name) {
      assert Owned(w, name);
      var k :| Owns(w, k, name);
      assert Owns(w', k, name);
    }
  }

  /** Recording the phase a reconcile is in anyway changes nothing that matters. */
  lemma SameMove(w: World, w': World, key: Key, sha: Sha)
    requires w'.phases == w.phases && Inv(Move(w', key, PhaseOf(w, key)), sha)
    ensures Inv(w', sha)
  {
    var v := Move(w', key, PhaseOf(w, key));
    assert forall other :: PhaseOf(v, other) == PhaseOf(w', other);
    forall other ensures ObjOk(w', other) && PhaseOk(w', other, PhaseOf(w', other)) {
      assert ObjOk(v, other) && PhaseOk(v, other, PhaseOf(v, other));
    }
    forall name | name in RoutedNames(w') ensures Owned(w', name) {
      assert Owned(v, name);
      var k :| Owns(v, k, name);
      assert Owns(w', k, name);
    }
  }

  lemma {:induction false} AlwaysSafe(actions: seq<Action>, sha: Sha)
    ensures Inv(Exec(EMPTY, actions, sha), sha)
  {
    if actions == [] {
      assert RoutedNames(EMPTY) == {};
    } else {
      var w, action := Exec(EMPTY, actions[..|actions| - 1], sha), actions[|actions| - 1];
      AlwaysSafe(actions[..|actions| - 1], sha);
      if action.Go? { AdvanceKeeps(w, action.key, action.answer, sha); }
      else if action.EditRoutes? { EditRoutesKeeps(w, action.data, sha); }
      else if action.Create? || action.Delete? || action.Edit? || action.TouchStatus? { UserKeeps(w, action, sha); }
      else { FailureKeeps(w, action, sha); }
    }
  }

  // Main results

  /** In every reachable state, a gateway route means its ModelDeployment exists and carries the finalizer. */
  lemma NoRouteOutlivesItsObject(actions: seq<Action>, sha: Sha, name: string)
    requires name in RoutedNames(Exec(EMPTY, actions, sha))
    ensures var w := Exec(EMPTY, actions, sha);
            exists key :: key in w.objs && key.name == name && FINALIZER in w.objs[key].finalizers
  {
    RoutedAfterDeployed(actions, sha, name);
    var key, i :| Serves(Exec(EMPTY, actions, sha), name, key, i);
  }

  /** An object of that name carries the finalizer, and event `i` wrote its workload. */
  ghost predicate Serves(w: World, name: string, key: Key, i: nat) {
    && key.name == name && key in w.objs && FINALIZER in w.objs[key].finalizers
    && i < |w.log| && w.log[i].Workload? && w.log[i].key == key
  }

  /** The object behind a route is one whose own workload has been written. */
  lemma RoutedAfterDeployed(actions: seq<Action>, sha: Sha, name: string)
    requires name in RoutedNames(Exec(EMPTY, actions, sha))
    ensures exists key, i :: Serves(Exec(EMPTY, actions, sha), name, key, i)
  {
    AlwaysSafe(actions, sha);
    var w := Exec(EMPTY, actions, sha);
    assert Owned(w, name);
    var key :| Owns(w, key, name);
    var e :| e in w.log && e.Workload? && e.key == key;
    var i :| 0 <= i < |w.log| && w.log[i] == e;
    assert Serves(w, name, key, i);
  }

  /** A workload is written only after its deployment's check read an object of exactly the catalog's digest whole. */
  lemma VerifiedBeforeDeployed(actions: seq<Action>, sha: Sha, i: nat)
    requires var log := Exec(EMPTY, actions, sha).log; i < |log| && log[i].Workload? && log[i].digest != ""
    ensures var log := Exec(EMPTY, actions, sha).log;
            exists j :: 0 <= j < i && log[j].Verified? && log[j].key == log[i].key
                        && log[j].digest == log[i].digest == sha(log[j].content)
  {
    AlwaysSafe(actions, sha);
    var log := Exec(EMPTY, actions, sha).log;
    assert EventOk(log[..i], log[i], sha);
    var e :| e in log[..i] && e.Verified? && e.key == log[i].key && e.digest == log[i].digest;
    var j :| 0 <= j < i && log[j] == e;
    assert EventOk(log[..j], log[j], sha);
  }

  /** A digest in an object's status was verified for that object. */
  lemma StoredDigestIsVerified(actions: seq<Action>, sha: Sha, key: Key)
    requires var w := Exec(EMPTY, actions, sha); key in w.objs && w.objs[key].digest != ""
    ensures var w := Exec(EMPTY, actions, sha);
            exists j :: 0 <= j < |w.log| && w.log[j].Verified? && w.log[j].key == key
                        && w.log[j].digest == w.objs[key].digest == sha(w.log[j].content)
  {
    AlwaysSafe(actions, sha);
    var w := Exec(EMPTY, actions, sha);
    assert ObjOk(w, key);
    var e :| e in w.log && e.Verified? && e.key == key && e.digest == w.objs[key].digest;
    var j :| 0 <= j < |w.log| && w.log[j] == e;
    assert EventOk(w.log[..j], w.log[j], sha);
  }

  lemma {:induction false} WithoutAbsent(finalizers: seq<string>, s: string)
    requires s !in finalizers
    ensures Without(finalizers, s) == finalizers
  {
    if finalizers != [] {
      WithoutAbsent(finalizers[..|finalizers| - 1], s);
    }
  }

  lemma WithoutOwn(finalizers: seq<string>)
    ensures Without(finalizers + [FINALIZER], FINALIZER) == Without(finalizers, FINALIZER)
    ensures Without(Without(finalizers, FINALIZER), FINALIZER) == Without(finalizers, FINALIZER)
  {
    assert (finalizers + [FINALIZER])[..|finalizers|] == finalizers;
    WithoutAbsent(Without(finalizers, FINALIZER), FINALIZER);
  }

  /** What a reconcile may not touch: the model, the deletion mark and everyone else's finalizers. */
  ghost predicate SameSpec(before: Obj, after: Obj) {
    && after.modelRef == before.modelRef && after.deleting == before.deleting
    && Without(after.finalizers, FINALIZER) == Without(before.finalizers, FINALIZER)
  }

  /** No other object changes; this one keeps its spec, or was being deleted, held by nobody else, and is gone. */
  ghost predicate TouchesOnly(w: World, w': World, key: Key) {
    && w'.objs - {key} == w.objs - {key}
    && (key in w'.objs ==> key in w.objs && SameSpec(w.objs[key], w'.objs[key]))
    && (key in w.objs && key !in w'.objs ==> w.objs[key].deleting && Without(w.objs[key].finalizers, FINALIZER) == [])
  }

  lemma WriteTouches(w: World, key: Key, obj: Obj, p: Phase)
    requires key in w.objs && SameSpec(w.objs[key], obj)
    ensures TouchesOnly(w, Move(Write(w, key, obj), key, p), key)
  {
    assert (w.objs - {key}) - {key} == w.objs - {key};
    assert Write(w, key, obj).objs - {key} == w.objs - {key};
  }

  lemma AdvanceTouches(w: World, key: Key, a: Answer, sha: Sha)
    requires PhaseOk(w, key, PhaseOf(w, key))
    ensures TouchesOnly(w, Advance(w, key, a, sha), key)
  {
    var p := PhaseOf(w, key);
    if (p.RouteGone? || p.Unguarded? || p.Routed?) && Current(w, key, p.md) {
      var md, obj := p.md, w.objs[key];
      WithoutOwn(md.finalizers);
      if p.RouteGone? {
        WriteTouches(w, key, obj.(finalizers := Without(md.finalizers, FINALIZER)), Idle);
      } else if p.Unguarded? {
        var kept := obj.(finalizers := md.finalizers + [FINALIZER]);
        WriteTouches(w, key, kept, PhaseOf(Advance(w, key, a, sha), key));
      } else {
        WriteTouches(w, key, obj.(digest := md.digest), Idle);
      }
    } else {
      assert Advance(w, key, a, sha).objs == w.objs;
    }
  }

  /** In every run, a step of a reconcile changes of the objects only its own finalizer and status. */
  lemma ReconcileTouchesItsOwn(actions: seq<Action>, sha: Sha, key: Key, a: Answer)
    ensures TouchesOnly(Exec(EMPTY, actions, sha), Next(Exec(EMPTY, actions, sha), Go(key, a), sha), key)
  {
    AlwaysSafe(actions, sha);
    AdvanceTouches(Exec(EMPTY, actions, sha), key, a, sha);
  }

  /** An empty catalog digest equals the empty status of a new object, so the check is skipped. */
  lemma EmptyDigestIsDeployed(sha: Sha, key: Key) returns (run: seq<Action>)
    ensures Exec(EMPTY, run, sha).log == [Workload(key, "")]
  {
    var a := Answer(true, "", []);
    var md := Obj(1, false, [FINALIZER], "", "");
    var w1 := World(map[key := md], 1, Routes.Store(None, 0), map[], []);
    var w3 := Move(Move(w1, key, Guarded(md)), key, Cataloged(md, ""));
    run := [];
    ExecMore(run, Create(key, "", [FINALIZER]), sha);
    run := run + [Create(key, "", [FINALIZER])];
    assert Exec(EMPTY, run, sha) == w1;
    ExecMore(run, Go(key, a), sha);
    run := run + [Go(key, a)];
    ExecMore(run, Go(key, a), sha);
    run := run + [Go(key, a)];
    assert Exec(EMPTY, run, sha) == w3;
    ExecMore(run, Go(key, a), sha);
    run := run + [Go(key, a)];
    assert PhaseOf(Exec(EMPTY, run, sha), key) == Checked(md, "") && Exec(EMPTY, run, sha).log == [];
    ExecMore(run, Go(key, a), sha);
    run := run + [Go(key, a)];
  }

  lemma ExecMore(run: seq<Action>, action: Action, sha: Sha)
    ensures Exec(EMPTY, run + [action], sha) == Next(Exec(EMPTY, run, sha), action, sha)
  {
    assert (run + [action])[..|run|] == run;
  }

  /** Event `i` of a run writes a workload although its digest was never verified for that deployment before. */
  ghost predicate Unverified(actions: seq<Action>, i: nat, digest: string, sha: Sha) {
    var log := Exec(EMPTY, actions, sha).log;
    && i < |log| && log[i].Workload? && log[i].digest == digest
    && forall j :: 0 <= j < i && log[j].Verified? && log[j].key == log[i].key ==> log[j].digest != digest
  }

  /** Some run writes a workload of an unverified digest exactly when the digest is empty. */
  lemma UnverifiedOnlyIfEmpty(sha: Sha, digest: string)
    ensures (exists actions, i :: Unverified(actions, i, digest, sha)) <==> digest == ""
  {
    if digest == "" {
      var run := EmptyDigestIsDeployed(sha, Key("", ""));
      assert Unverified(run, 0, digest, sha);
    } else if actions, i :| Unverified(actions, i, digest, sha) {
      VerifiedBeforeDeployed(actions, sha, i);
    }
  }
}
