/**
 * The ModelDeployment reconciler against a versioned store: every API call is a step, any of them
 * may fail, the process may die between two, and users change the objects meanwhile.
 */
module Reconciler {
  import opened Wrappers
  import opened Bytes
  import Routes

  const FINALIZER := "openserve.io/cleanup"

  datatype Key = Key(namespace: string, name: string)

  /** A ModelDeployment: `digest` is status.weightDigest. */
  datatype Obj = Obj(version: nat, deleting: bool, finalizers: seq<string>, modelRef: string, digest: string)

  /** Where the one reconcile of an object stands, with its local copy of the object. */
  datatype Phase =
    | Idle
    | Cleaning(md: Obj)                                      // being deleted, the route is to be removed
    | Removing(md: Obj, read: Option<Routes.ConfigMap>)      // the ConfigMap has been read
    | RouteGone(md: Obj)                                     // the finalizer is to be removed
    | Unguarded(md: Obj)                                     // the finalizer is to be added
    | Guarded(md: Obj)                                       // the catalog is to be asked
    | Cataloged(md: Obj, expected: string)                   // the weights are to be verified
    | Checked(md: Obj, expected: string)                     // the workload is to be written
    | Deployed(md: Obj)                                      // service and autoscaler are to be written
    | Served(md: Obj)                                        // the route is to be added
    | Adding(md: Obj, read: Option<Routes.ConfigMap>)        // the ConfigMap has been read
    | Routed(md: Obj)                                        // the status is to be reported

  /** What the reconciler did to the outside world, in order. */
  datatype Event =
    | Verified(key: Key, content: seq<Byte>, digest: string)
    | Workload(key: Key, digest: string)

  datatype World = World(
    objs: map<Key, Obj>, clock: nat, routes: Routes.Store, phases: map<Key, Phase>, log: seq<Event>)

  /** What the environment answers to the current call: the engine lookup, the catalog, the bucket. */
  datatype Answer = Answer(engineKnown: bool, expected: string, content: seq<Byte>)

  datatype Action =
    | Go(key: Key, answer: Answer)                      // the next call of key's reconcile succeeds
    | Stop(key: Key)                                    // it fails, or the process dies
    | ReportFailure(key: Key)                           // a failed check is written to the status
    | SkipRoute(key: Key)                               // a failed route write is logged and ignored
    | ReportAdapters(key: Key)                          // the LoRA step writes the status
    | Create(key: Key, modelRef: string, finalizers: seq<string>)
    | Delete(key: Key)
    | Edit(key: Key, modelRef: string, finalizers: seq<string>)
    | TouchStatus(key: Key)                             // another controller writes the status
    | EditRoutes(data: Option<Routes.Data>)             // another client writes the ConfigMap

  // The finalizer list

  function Without(finalizers: seq<string>, s: string): (r: seq<string>)
    ensures s !in r && forall t :: t in r <==> t in finalizers && t != s
  {
    if finalizers == [] then []
    else
      var rest := Without(finalizers[..|finalizers| - 1], s);
      assert finalizers == finalizers[..|finalizers| - 1] + [finalizers[|finalizers| - 1]];
      if finalizers[|finalizers| - 1] == s then rest else rest + [finalizers[|finalizers| - 1]]
  }

  method ContainsString(slice: seq<string>, s: string) returns (found: bool)
    ensures found <==> s in slice
  {
    for i := 0 to |slice|
      invariant s !in slice[..i]
    {
      if slice[i] == s {
        return true;
      }
    }
    return false;
  }

  method RemoveString(slice: seq<string>, s: string) returns (out: seq<string>)
    ensures out == Without(slice, s)
  {
    out := [];
    for i := 0 to |slice|
      invariant out == Without(slice[..i], s)
    {
      assert slice[..i + 1][..i] == slice[..i];
      if slice[i] != s {
        out := out + [slice[i]];
      }
    }
    assert slice[..|slice|] == slice;
  }

  // The object store

  function PhaseOf(w: World, key: Key): Phase { if key in w.phases then w.phases[key] else Idle }

  function Move(w: World, key: Key, phase: Phase): World { w.(phases := w.phases[key := phase]) }

  predicate Current(w: World, key: Key, md: Obj) { key in w.objs && w.objs[key].version == md.version }

  /** A write of the object at the next version; without finalizers a deleted object disappears. */
  function Write(w: World, key: Key, obj: Obj): World {
    if obj.deleting && obj.finalizers == [] then w.(objs := w.objs - {key}, clock := w.clock + 1)
    else w.(objs := w.objs[key := obj.(version := w.clock + 1)], clock := w.clock + 1)
  }

  /** Status().Update: refused on a stale version; writes the status alone. */
  function WriteStatus(w: World, key: Key, md: Obj): World
    requires Current(w, key, md)
  {
    Write(w, key, w.objs[key].(digest := md.digest))
  }

  function Append(w: World, e: Event): World { w.(log := w.log + [e]) }

  // Reconcile, one call at a time

  function Load(w: World, key: Key, engineKnown: bool): Phase {
    if key !in w.objs || !engineKnown then Idle
    else
      var md := w.objs[key];
      if md.deleting then if FINALIZER in md.finalizers then Cleaning(md) else Idle
      else if FINALIZER in md.finalizers then Guarded(md) else Unguarded(md)
  }

  function Advance(w: World, key: Key, a: Answer, sha: seq<Byte> -> string): World {
    match PhaseOf(w, key)
    case Idle => Move(w, key, Load(w, key, a.engineKnown))
    case Cleaning(md) =>
      Move(w, key, if w.routes.configMap.None? then RouteGone(md) else Removing(md, w.routes.configMap))
    case Removing(md, read) =>
      var (routes, ok) := Routes.WriteBack(w.routes, read, Routes.Remove(key.name));
      Move(w.(routes := routes), key, if ok then RouteGone(md) else Idle)
    case RouteGone(md) =>
      if !Current(w, key, md) then Move(w, key, Idle)
      else Move(Write(w, key, w.objs[key].(finalizers := Without(md.finalizers, FINALIZER))), key, Idle)
    case Unguarded(md) =>
      if !Current(w, key, md) then Move(w, key, Idle)
      else
        var w' := Write(w, key, w.objs[key].(finalizers := md.finalizers + [FINALIZER]));
        Move(w', key, if key in w'.objs then Guarded(w'.objs[key]) else Idle)
    case Guarded(md) => Move(w, key, Cataloged(md, a.expected))
    case Cataloged(md, expected) =>
      if md.digest == expected then Move(w, key, Checked(md, expected))
      else if sha(a.content) == expected then
        Move(Append(w, Verified(key, a.content, expected)), key, Checked(md.(digest := expected), expected))
      else w
    case Checked(md, expected) => Move(Append(w, Workload(key, expected)), key, Deployed(md))
    case Deployed(md) => Move(w, key, Served(md))
    case Served(md) => Move(w, key, Adding(md, w.routes.configMap))
    case Adding(md, read) =>
      var (routes, _) := Routes.WriteBack(w.routes, read, Routes.AddRoute(key.name, "openserve-inference"));
      Move(w.(routes := routes), key, Routed(md))
    case Routed(md) => Move(if Current(w, key, md) then WriteStatus(w, key, md) else w, key, Idle)
  }

  function Next(w: World, action: Action, sha: seq<Byte> -> string): World {
    match action
    case Go(key, a) => Advance(w, key, a, sha)
    case Stop(key) => Move(w, key, Idle)
    case ReportFailure(key) =>
      (match PhaseOf(w, key)
       case Guarded(md) => Move(if Current(w, key, md) then WriteStatus(w, key, md) else w, key, Idle)
       case Cataloged(md, _) => Move(if Current(w, key, md) then WriteStatus(w, key, md) else w, key, Idle)
       case _ => w)
    case SkipRoute(key) =>
      (match PhaseOf(w, key)
       case Served(md) => Move(w, key, Routed(md))
       case Adding(md, _) => Move(w, key, Routed(md))
       case _ => w)
    case ReportAdapters(key) =>
      (match PhaseOf(w, key)
       case Routed(md) =>
         if !Current(w, key, md) then w
         else var w' := WriteStatus(w, key, md); if key in w'.objs then Move(w', key, Routed(w'.objs[key])) else w'
       case _ => w)
    case Create(key, modelRef, finalizers) =>
      if key in w.objs then w else Write(w, key, Obj(0, false, finalizers, modelRef, ""))
    case Delete(key) =>
      if key !in w.objs then w else Write(w, key, w.objs[key].(deleting := true))
    case Edit(key, modelRef, finalizers) =>
      // nobody but the reconciler takes its finalizer off
      if key !in w.objs || (FINALIZER in w.objs[key].finalizers && FINALIZER !in finalizers) then w
      else Write(w, key, w.objs[key].(modelRef := modelRef, finalizers := finalizers))
    case TouchStatus(key) => if key !in w.objs then w else Write(w, key, w.objs[key])
    case EditRoutes(data) =>
      // nobody but the reconciler adds routes
      if RouteIds(data) <= RouteIds(Routes.DataOf(w.routes.configMap))
      then w.(routes := if data.Some? then Routes.Put(w.routes, data.value) else Routes.Store(None, w.routes.clock))
      else w
  }

  function Exec(w: World, actions: seq<Action>, sha: seq<Byte> -> string): World {
    if actions == [] then w else Next(Exec(w, actions[..|actions| - 1], sha), actions[|actions| - 1], sha)
  }

  /** The deployments the gateway has a route for. */
  function RouteIds(data: Option<Routes.Data>): set<string> {
    if data.None? then {} else Routes.RoutesIn(Routes.FileIn(data.value)).Keys
  }

  function RoutedNames(w: World): set<string> { RouteIds(Routes.DataOf(w.routes.configMap)) }

  const EMPTY := World(map[], 0, Routes.Store(None, 0), map[], [])
}
