/**
 * The gateway route table in a shared ConfigMap: an optimistic read-modify-write under resource
 * versions, by any number of concurrent writers.
 */
module Routes {
  import opened Wrappers

  const ROUTES_FILE := "routing.yaml"
  const ROUTES := "routes"

  /** A YAML value; `Other` is a list, a number, or a mapping whose keys are not strings. */
  datatype Value = Scalar(text: string) | Mapping(entries: map<string, Value>) | Other(text: string)

  /** What parsing the stored file gives: an error, a null document, or a top-level mapping. */
  datatype Document = Malformed(text: string) | Null | Tree(top: map<string, Value>)

  type Data = map<string, Document>

  datatype ConfigMap = ConfigMap(version: nat, data: Data)

  datatype Op = Add(id: string, upstream: string) | Remove(id: string)

  function AddRoute(id: string, inferenceNamespace: string): Op {
    Add(id, "vllm-" + id + "." + inferenceNamespace + ".svc.cluster.local:8000")
  }

  // The edit

  function FileIn(data: Data): Document { if ROUTES_FILE in data then data[ROUTES_FILE] else Tree(map[]) }

  function TopIn(doc: Document): map<string, Value> { if doc.Tree? then doc.top else map[] }

  function RoutesIn(doc: Document): map<string, Value> {
    if ROUTES in TopIn(doc) && TopIn(doc)[ROUTES].Mapping? then TopIn(doc)[ROUTES].entries else map[]
  }

  function Apply(routes: map<string, Value>, op: Op): map<string, Value> {
    match op
    case Add(id, upstream) => routes[id := Scalar(upstream)]
    case Remove(id) => routes - {id}
  }

  function Edit(data: Data, op: Op): Data {
    var doc := FileIn(data);
    data[ROUTES_FILE := Tree(TopIn(doc)[ROUTES := Mapping(Apply(RoutesIn(doc), op))])]
  }

  // The API server: writes are compare-and-swap on the version

  datatype Store = Store(configMap: Option<ConfigMap>, clock: nat)

  predicate WellVersioned(s: Store) { s.configMap.Some? ==> s.configMap.value.version <= s.clock }

  function Put(s: Store, data: Data): Store { Store(Some(ConfigMap(s.clock + 1, data)), s.clock + 1) }

  /** Whether a write based on what was read is accepted: create needs absence, update the same version. */
  predicate Accepts(s: Store, read: Option<ConfigMap>) {
    match read
    case None => s.configMap.None?
    case Some(cm) => s.configMap.Some? && s.configMap.value.version == cm.version
  }

  function DataOf(cm: Option<ConfigMap>): Option<Data> { match cm case None => None case Some(c) => Some(c.data) }

  function DataOr(cm: Option<ConfigMap>): Data { match cm case None => map[] case Some(c) => c.data }

  /** What one call means on its own: removing from a missing ConfigMap does nothing. */
  function Effect(data: Option<Data>, op: Op): Option<Data> {
    if data.None? && op.Remove? then None
    else Some(Edit(if data.Some? then data.value else map[], op))
  }

  /** The second half of a call that has read `read`: edit and write back, unless the file is null. */
  function WriteBack(s: Store, read: Option<ConfigMap>, op: Op): (r: (Store, bool))
    ensures !r.1 ==> r.0 == s
  {
    if FileIn(DataOr(read)).Null? || !Accepts(s, read) then (s, false)
    else (Put(s, Edit(DataOr(read), op)), true)
  }

  datatype Result = Done | Failed | Panicked

  datatype Fault = Healthy | Broken

  class ApiServer {
    var store: Store

    method Get(fault: Fault) returns (err: bool, read: Option<ConfigMap>)
      ensures err <==> fault.Broken?
      ensures !err ==> read == store.configMap
    {
      err, read := fault.Broken?, store.configMap;
    }

    method CreateOrUpdate(basis: Option<ConfigMap>, data: Data, fault: Fault) returns (err: bool)
      modifies this
      ensures !err <==> fault.Healthy? && old(Accepts(store, basis))
      ensures store == if err then old(store) else Put(old(store), data)
    {
      err := fault.Broken? || !Accepts(store, basis);
      if !err {
        store := Put(store, data);
      }
    }
  }

  /** One undisturbed call. Every way it can end without success leaves the ConfigMap as it was. */
  method SyncRoute(server: ApiServer, op: Op, onGet: Fault, onWrite: Fault) returns (result: Result)
    modifies server
    ensures result == Done ==> DataOf(server.store.configMap) == Effect(DataOf(old(server.store.configMap)), op)
    ensures result != Done ==> server.store == old(server.store)
    ensures result == Panicked <==>
              onGet.Healthy? && FileIn(DataOr(old(server.store.configMap))).Null?
    ensures onGet.Healthy? && onWrite.Healthy? && result != Panicked ==> result == Done
  {
    var err, read := server.Get(onGet);
    if err {
      return Failed;
    }
    if read.None? && op.Remove? {
      return Done;
    }
    var data := DataOr(read);
    var top: map<string, Value> := map[];
    if ROUTES_FILE in data {
      match data[ROUTES_FILE] {
        case Tree(parsed) => top := parsed;
        case Malformed(_) =>
        case Null => return Panicked;
      }
    }
    var routes: map<string, Value> := map[];
    if ROUTES in top && top[ROUTES].Mapping? {
      routes := top[ROUTES].entries;
    }
    match op {
      case Add(id, upstream) => routes := routes[id := Scalar(upstream)];
      case Remove(id) => routes := routes - {id};
    }
    top := top[ROUTES := Mapping(routes)];
    data := data[ROUTES_FILE := Tree(top)];
    err := server.CreateOrUpdate(read, data, onWrite);
    return if err then Failed else Done;
  }

  // Concurrent writers

  type WriterId = nat

  datatype Call = Call(op: Op, read: Option<ConfigMap>)

  /** A committed change: a successful call, or an edit by someone else entirely. */
  datatype Commit = Synced(op: Op) | Foreign(data: Option<Data>)

  datatype World = World(store: Store, calls: map<WriterId, Call>, log: seq<Commit>)

  datatype Step =
    | Begin(w: WriterId, op: Op)       // a call reads the ConfigMap
    | Finish(w: WriterId)              // it writes back, if the server accepts the version
    | Abort(w: WriterId)               // its write fails, or the process dies
    | Outside(data: Option<Data>)      // another client replaces or deletes the ConfigMap

  function Next(v: World, step: Step): World {
    match step
    case Begin(w, op) =>
      if v.store.configMap.None? && op.Remove? then v.(log := v.log + [Synced(op)], calls := v.calls - {w})
      else v.(calls := v.calls[w := Call(op, v.store.configMap)])
    case Finish(w) =>
      if w !in v.calls then v
      else
        var (store, ok) := WriteBack(v.store, v.calls[w].read, v.calls[w].op);
        World(store, v.calls - {w}, if ok then v.log + [Synced(v.calls[w].op)] else v.log)
    case Abort(w) => v.(calls := v.calls - {w})
    case Outside(data) =>
      v.(store := if data.Some? then Put(v.store, data.value) else Store(None, v.store.clock),
         log := v.log + [Foreign(data)])
  }

  function Exec(v: World, steps: seq<Step>): World {
    if steps == [] then v else Next(Exec(v, steps[..|steps| - 1]), steps[|steps| - 1])
  }

  function CommitEffect(data: Option<Data>, c: Commit): Option<Data> {
    match c
    case Synced(op) => Effect(data, op)
    case Foreign(replaced) => replaced
  }

  /** The sequential effect of committed changes, in commit order. */
  function Replay(data: Option<Data>, log: seq<Commit>): Option<Data> {
    if log == [] then data else CommitEffect(Replay(data, log[..|log| - 1]), log[|log| - 1])
  }

  /** A version names one content: what a call read is still there if its version is. */
  ghost predicate Consistent(v: World) {
    && WellVersioned(v.store)
    && forall w :: w in v.calls ==> CallConsistent(v, v.calls[w])
  }

  ghost predicate CallConsistent(v: World, c: Call) {
    && (c.read.None? ==> c.op.Add?)
    && (c.read.Some? ==> c.read.value.version <= v.store.clock)
    && (Accepts(v.store, c.read) ==> c.read == v.store.configMap)
  }

  lemma ReplayMore(data: Option<Data>, log: seq<Commit>, c: Commit)
    ensures Replay(data, log + [c]) == CommitEffect(Replay(data, log), c)
  {
    assert (log + [c])[..|log|] == log;
  }

  lemma NextConsistent(v: World, step: Step)
    requires Consistent(v)
    ensures Consistent(Next(v, step))
  {
  }

  lemma NextReplays(v: World, step: Step, start: Option<Data>)
    requires Consistent(v) && DataOf(v.store.configMap) == Replay(start, v.log)
    ensures DataOf(Next(v, step).store.configMap) == Replay(start, Next(v, step).log)
  {
    match step
    case Begin(w, op) => ReplayMore(start, v.log, Synced(op));
    case Finish(w) => if w in v.calls { ReplayMore(start, v.log, Synced(v.calls[w].op)); }
    case Abort(w) =>
    case Outside(data) => ReplayMore(start, v.log, Foreign(data));
  }

  /**
   * For every interleaving of calls and foreign edits, the ConfigMap is the sequential effect of
   * the successful changes in commit order: no update is lost, and nothing else has an effect.
   */
  lemma {:induction false} NoUpdateIsLost(store: Store, steps: seq<Step>)
    requires WellVersioned(store)
    ensures var v := Exec(World(store, map[], []), steps);
            Consistent(v) && DataOf(v.store.configMap) == Replay(DataOf(store.configMap), v.log)
  {
    if steps != [] {
      NoUpdateIsLost(store, steps[..|steps| - 1]);
      var v, step := Exec(World(store, map[], []), steps[..|steps| - 1]), steps[|steps| - 1];
      NextConsistent(v, step);
      NextReplays(v, step, DataOf(store.configMap));
    }
  }

  /**
   * In every interleaving, a call that has read the ConfigMap is committed exactly if the ConfigMap is still
   * the one it read, and holds no null document; otherwise its write leaves everything as it was.
   */
  lemma CommittedIff(store: Store, steps: seq<Step>, w: WriterId)
    requires WellVersioned(store) && w in Exec(World(store, map[], []), steps).calls
    ensures var v := Exec(World(store, map[], []), steps);
            var c, v' := v.calls[w], Next(v, Finish(w));
            && w !in v'.calls
            && (v'.log == v.log + [Synced(c.op)]
                <==> v.store.configMap == c.read && !FileIn(DataOr(c.read)).Null?)
            && (v'.log != v.log + [Synced(c.op)] ==> v'.log == v.log && v'.store == v.store)
  {
    NoUpdateIsLost(store, steps);
    var v := Exec(World(store, map[], []), steps);
    assert CallConsistent(v, v.calls[w]);
  }

  /** A call that nobody interferes with is committed, unless the file is a null document. */
  lemma UndisturbedCommits(store: Store, steps: seq<Step>, w: WriterId, op: Op)
    requires WellVersioned(store)
    ensures var v := Exec(World(store, map[], []), steps);
            w !in v.calls && !FileIn(DataOr(v.store.configMap)).Null? ==>
              Next(Next(v, Begin(w, op)), Finish(w)).log == v.log + [Synced(op)]
  {
    NoUpdateIsLost(store, steps);
  }

  // What a log of calls touches

  /** The file parses to a mapping whose routes, if any, are a mapping: what the writer itself leaves. */
  predicate WellFormed(data: Data) {
    var doc := FileIn(data);
    doc.Tree? && (ROUTES in doc.top ==> doc.top[ROUTES].Mapping?)
  }

  function RouteIn(data: Option<Data>, id: string): Option<Value> {
    if data.Some? && id in RoutesIn(FileIn(data.value)) then Some(RoutesIn(FileIn(data.value))[id]) else None
  }

  function LastOn(log: seq<Commit>, id: string): Option<Op>
    requires forall c :: c in log ==> c.Synced?
  {
    if log == [] then None
    else if log[|log| - 1].op.id == id then Some(log[|log| - 1].op)
    else LastOn(log[..|log| - 1], id)
  }

  /** The route of a deployment is decided by the last successful call for it, and by no other. */
  lemma {:induction false} LastCallDecides(data: Option<Data>, log: seq<Commit>, id: string)
    requires forall c :: c in log ==> c.Synced?
    ensures var last, route := LastOn(log, id), RouteIn(Replay(data, log), id);
            && (last.None? ==> route == RouteIn(data, id))
            && (last.Some? && last.value.Add? ==> route == Some(Scalar(last.value.upstream)))
            && (last.Some? && last.value.Remove? ==> route == None)
  {
    if log != [] {
      LastCallDecides(data, log[..|log| - 1], id);
    }
  }

  /** Calls leave every other file and, where the file parses, every other top-level key as it was. */
  lemma {:induction false} OthersUntouched(data: Option<Data>, log: seq<Commit>)
    requires forall c :: c in log ==> c.Synced?
    ensures var after := Replay(data, log);
            && (data.Some? ==> after.Some?)
            && (data.Some? ==> after.value - {ROUTES_FILE} == data.value - {ROUTES_FILE})
            && (data.Some? && WellFormed(data.value) ==>
                  && WellFormed(after.value)
                  && TopIn(FileIn(after.value)) - {ROUTES} == TopIn(FileIn(data.value)) - {ROUTES})
  {
    if log != [] {
      OthersUntouched(data, log[..|log| - 1]);
    }
  }

  /** Everything a file says apart from one deployment's route. */
  function ApartFrom(doc: Document, id: string): Document {
    if !doc.Tree? then doc
    else if ROUTES !in doc.top then Tree(doc.top[ROUTES := Mapping(map[])])
    else if doc.top[ROUTES].Mapping? then Tree(doc.top[ROUTES := Mapping(doc.top[ROUTES].entries - {id})])
    else doc
  }

  /** An edit preserves all of that exactly when the file was well formed. */
  lemma PreservedIff(data: Data, op: Op)
    ensures ApartFrom(FileIn(Edit(data, op)), op.id) == ApartFrom(FileIn(data), op.id) <==> WellFormed(data)
  {
    var doc := FileIn(data);
    if WellFormed(data) {
      assert Apply(RoutesIn(doc), op) - {op.id} == RoutesIn(doc) - {op.id};
      var edited := FileIn(Edit(data, op));
      var others := Mapping(RoutesIn(doc) - {op.id});
      assert edited.top[ROUTES := others] == doc.top[ROUTES := others];
    }
  }
}
