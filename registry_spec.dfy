/** The state the registry of src/index.js works on, and what each of its
    state-changing operations does to it, as functions of the old state.
    Foreign effects (worker threads, the message bus, trigger initializers
    and teardowns, folder deletion, handler calls) are recorded in order in
    a trace instead of being performed. */
module RegistrySpec {
  import opened JsValues
  import opened Descriptors
  import opened FunctionTable
  import opened FanOut

  datatype Effect =
      /** `runInWorker(context)` started a worker thread on the folder */
    | Spawned(worker: nat, folder: string)
      /** `worker.terminate()` */
    | Terminated(worker: nat)
      /** the trigger initializer ran, given an emitter bound to `topic` */
    | Initialized(handler: CodeRef, topic: string)
    | Subscribed(topic: string, listener: nat)
    | Unsubscribed(topic: string, listener: nat)
      /** the teardown returned by the trigger initializer ran */
    | TornDown(listener: nat)
      /** `rmDir(fn.folder)` */
    | FolderDeleted(folder: string)
      /** `functions[key].handler({data}, localContext)` during a fan-out */
    | Invoked(handler: CodeRef, route: string, payload: JsValue)

  /** The message bus, reduced to the listener ids registered per topic. */
  type Bus = map<string, set<nat>>

  /** `running` holds the worker threads started and not yet terminated;
      `next` is the source of fresh worker and listener identities. */
  datatype State = State(table: Table, bus: Bus, running: set<nat>, trace: seq<Effect>, next: nat)

  const Initial := State(EmptyTable, map[], {}, [], 0)

  /** What `require` produced for the folder: the code module and the parsed
      descriptor. */
  datatype Loaded = Loaded(code: CodeRef, descriptor: Descriptor)

  /** How `await handler(emitTrigger, context)` settled for a trigger. */
  datatype InitOutcome = Returned(hasTeardown: bool) | Threw

  /** How the promise returned by an async operation settles. */
  datatype Completion = Resolved | Rejected

  predicate IsSubscribed(bus: Bus, topic: string, l: nat) {
    topic in bus && l in bus[topic]
  }

  function Subscribe(bus: Bus, topic: string, l: nat): (b: Bus)
    ensures IsSubscribed(b, topic, l)
    ensures forall t, x: nat | IsSubscribed(bus, t, x) :: IsSubscribed(b, t, x)
    ensures forall t, x: nat | IsSubscribed(b, t, x) :: IsSubscribed(bus, t, x) || (t, x) == (topic, l)
  {
    bus[topic := (if topic in bus then bus[topic] else {}) + {l}]
  }

  function Unsubscribe(bus: Bus, topic: string, l: nat): (b: Bus)
    ensures !IsSubscribed(b, topic, l)
    ensures forall t, x: nat | IsSubscribed(bus, t, x) && (t, x) != (topic, l) :: IsSubscribed(b, t, x)
    ensures forall t, x: nat | IsSubscribed(b, t, x) :: IsSubscribed(bus, t, x)
  {
    if topic in bus then bus[topic := bus[topic] - {l}] else bus
  }

  /** The effects of running a cleanup: nothing, terminating the worker, or
      first removing the listener and then calling the teardown (if the
      initializer returned one). */
  function CleanupEffects(c: Cleanup): (e: seq<Effect>)
    ensures c.Noop? <==> e == []
    ensures c.TerminateWorker? ==> e == [Terminated(c.worker)]
    ensures c.RemoveListener? ==> |e| == (if c.teardown then 2 else 1)
                                  && e[0] == Unsubscribed(c.topic, c.listener)
                                  && (c.teardown ==> e[1] == TornDown(c.listener))
  {
    match c
    case Noop => []
    case TerminateWorker(w) => [Terminated(w)]
    case RemoveListener(topic, l, td) => [Unsubscribed(topic, l)] + (if td then [TornDown(l)] else [])
  }

  /** `await fn.cleanup()`: a terminated worker stops running, a removed
      listener leaves the bus, and nothing else about the state changes. */
  function AfterCleanup(s: State, c: Cleanup): (s1: State)
    ensures s1.table == s.table && s1.next == s.next
    ensures s1.trace == s.trace + CleanupEffects(c)
    ensures c.TerminateWorker? ==> s1.running == s.running - {c.worker}
    ensures !c.TerminateWorker? ==> s1.running == s.running
    ensures c.RemoveListener? ==> !IsSubscribed(s1.bus, c.topic, c.listener)
    ensures forall t, x: nat | IsSubscribed(s1.bus, t, x) :: IsSubscribed(s.bus, t, x)
    ensures forall t, x: nat | IsSubscribed(s.bus, t, x) && !(c.RemoveListener? && (t, x) == (c.topic, c.listener))
              :: IsSubscribed(s1.bus, t, x)
  {
    var bus := if c.RemoveListener? then Unsubscribe(s.bus, c.topic, c.listener) else s.bus;
    var running := if c.TerminateWorker? then s.running - {c.worker} else s.running;
    s.(bus := bus, running := running, trace := s.trace + CleanupEffects(c))
  }

  /** What a record's cleanup promises about the rest of the state: a worker
      record owns a worker that is still running, a trigger record owns a
      listener still registered under its own name; every other record has
      nothing to undo. */
  ghost predicate RecordActive(bus: Bus, running: set<nat>, next: nat, r: Record) {
    match r.cleanup
    case Noop => r.worker.None? && r.kind != WORKER
    case TerminateWorker(w) => r.kind == WORKER && r.worker == Some(w) && w in running && w < next
    case RemoveListener(topic, l, _) =>
      r.kind == TRIGGER && r.worker.None? && topic == r.name && IsSubscribed(bus, topic, l) && l < next
  }

  /** No two records hold the same bus listener. */
  ghost predicate ListenersDistinct(t: Table) {
    forall k1, k2 | k1 in t.entries && k2 in t.entries && k1 != k2
      && t.entries[k1].cleanup.RemoveListener? && t.entries[k2].cleanup.RemoveListener?
      :: t.entries[k1].cleanup.listener != t.entries[k2].cleanup.listener
  }

  /** No two records hold the same worker thread. */
  ghost predicate WorkersDistinct(t: Table) {
    forall k1, k2 | k1 in t.entries && k2 in t.entries && k1 != k2
      && t.entries[k1].cleanup.TerminateWorker? && t.entries[k2].cleanup.TerminateWorker?
      :: t.entries[k1].cleanup.worker != t.entries[k2].cleanup.worker
  }

  ghost predicate AllActive(s: State) {
    forall k | k in s.table.entries :: RecordActive(s.bus, s.running, s.next, s.table.entries[k])
  }

  ghost predicate Inv(s: State) {
    && WellFormed(s.table)
    && AllActive(s)
    && ListenersDistinct(s.table)
    && WorkersDistinct(s.table)
  }

  /** `removeFunction({id: name})`: find the first record with that name, run
      its cleanup, delete its key, delete its folder and answer true; or
      answer false and change nothing. */
  function RemoveSpec(s: State, name: string): (r: (State, bool))
    requires WellFormed(s.table)
    ensures WellFormed(r.0.table)
    ensures r.1 <==> exists k | k in s.table.entries :: s.table.entries[k].name == name
    ensures !r.1 ==> r.0 == s
    ensures r.1 ==> |r.0.table.entries| == |s.table.entries| - 1
                    && r.0.table.entries.Keys < s.table.entries.Keys
                    && r.0.next == s.next
    ensures r.1 ==> (FindRoute(s.table, name).Some? &&
              var fn := s.table.entries[FindRoute(s.table, name).value];
              && r.0.bus == (if fn.cleanup.RemoveListener? then Unsubscribe(s.bus, fn.cleanup.topic, fn.cleanup.listener) else s.bus)
              && r.0.running == (if fn.cleanup.TerminateWorker? then s.running - {fn.cleanup.worker} else s.running))
  {
    match FindRoute(s.table, name)
    case None => (s, false)
    case Some(k) =>
      var fn := s.table.entries[k];
      var s1 := AfterCleanup(s, fn.cleanup);
      (s1.(table := Delete(s1.table, k), trace := s1.trace + [FolderDeleted(fn.folder)]), true)
  }

  /** `path.join(faasFolder, folder)` for a plain folder name. */
  function JoinPath(root: string, folder: string): (p: string)
    ensures |p| == |root| + 1 + |folder|
    ensures p[..|root|] == root && p[|root|] == '/' && p[|root| + 1..] == folder
  {
    root + "/" + folder
  }

  /** The record stored at src/index.js:72-81, before activation. */
  function FreshRecord(d: Descriptor, code: CodeRef, folderPath: string): (r: Record)
    ensures r.name == d.name && r.config == d && r.handler == code && r.folder == folderPath
    ensures Expand(d) == Effective(r.route, r.kind)
    ensures r.log == [] && r.cleanup == Noop && r.worker.None?
  {
    var c := Expand(d);
    Record(d.name, c.kind, c.route, code, d, folderPath, [], Noop, None)
  }

  /** The activated record, the effects performed, whether a worker was
      started or a listener added under the fresh identity, and how the
      registration settles. */
  datatype Activation = Activation(record: Record, effects: seq<Effect>, spawns: bool, subscribes: bool, completion: Completion)

  /** Type-specific activation with the fresh identity `id`: nothing for
      http, a worker for worker, initializer plus listener for trigger, and
      nothing for any other type. */
  function Activate(r: Record, id: nat, init: InitOutcome): (a: Activation)
    ensures a.record == r.(worker := a.record.worker, cleanup := a.record.cleanup)
    ensures a.spawns <==> r.kind == WORKER
    ensures a.subscribes <==> r.kind == TRIGGER && init.Returned?
    ensures a.completion == Rejected <==> r.kind == TRIGGER && init.Threw?
    ensures a.spawns ==> a.record.worker == Some(id) && a.record.cleanup == TerminateWorker(id)
                         && a.effects == [Spawned(id, r.folder)]
    ensures a.subscribes ==> a.record.worker == r.worker
                             && a.record.cleanup == RemoveListener(r.name, id, init.hasTeardown)
                             && a.effects == [Initialized(r.handler, r.name), Subscribed(r.name, id)]
    ensures r.kind == TRIGGER && init.Threw? ==> a.record == r && a.effects == [Initialized(r.handler, r.name)]
    ensures r.kind != WORKER && r.kind != TRIGGER ==> a.record == r && a.effects == []
  {
    if r.kind == HTTP then Activation(r, [], false, false, Resolved)
    else if r.kind == WORKER then
      Activation(r.(worker := Some(id), cleanup := TerminateWorker(id)), [Spawned(id, r.folder)], true, false, Resolved)
    else if r.kind == TRIGGER then
      match init
      case Threw => Activation(r, [Initialized(r.handler, r.name)], false, false, Rejected)
      case Returned(td) =>
        Activation(r.(cleanup := RemoveListener(r.name, id, td)),
                   [Initialized(r.handler, r.name), Subscribed(r.name, id)], false, true, Resolved)
    else Activation(r, [], false, false, Resolved)
  }

  /** Store the new record under its route and activate it with the next
      fresh identity. */
  function Install(s: State, rec: Record, init: InitOutcome): (r: (State, Completion))
    requires WellFormed(s.table)
    ensures WellFormed(r.0.table)
    ensures var a := Activate(rec, s.next, init);
            && r.0.table.entries == s.table.entries[rec.route := a.record]
            && r.0.trace == s.trace + a.effects
            && r.0.next == s.next + 1
            && r.1 == a.completion
            && r.0.bus == (if a.subscribes then Subscribe(s.bus, rec.name, s.next) else s.bus)
            && r.0.running == (if a.spawns then s.running + {s.next} else s.running)
  {
    var a := Activate(rec, s.next, init);
    var bus := if a.subscribes then Subscribe(s.bus, rec.name, s.next) else s.bus;
    var running := if a.spawns then s.running + {s.next} else s.running;
    (State(Store(s.table, a.record), bus, running, s.trace + a.effects, s.next + 1), a.completion)
  }

  /** `registerFunction({faasFolder: root, folder})`, given what loading the
      folder produced and how a trigger's initializer settles: a blank
      folder is ignored, a failed load rejects, an occupied route first
      removes the function carrying the NEW descriptor's name. */
  function RegisterSpec(s: State, root: string, folder: Option<string>, loaded: Option<Loaded>, init: InitOutcome)
    : (r: (State, Completion))
    requires WellFormed(s.table)
    ensures WellFormed(r.0.table)
    ensures IsBlankFolder(folder) ==> r == (s, Resolved)
    ensures !IsBlankFolder(folder) && loaded.None? ==> r == (s, Rejected)
    ensures !IsBlankFolder(folder) && loaded.Some? ==>
              var c := Expand(loaded.value.descriptor);
              && c.route in r.0.table.entries
              && r.0.table.entries[c.route].name == loaded.value.descriptor.name
              && r.0.table.entries[c.route].kind == c.kind
              && r.0.next == s.next + 1
              && (r.1 == Rejected <==> c.kind == TRIGGER && init.Threw?)
  {
    if IsBlankFolder(folder) then (s, Resolved)
    else if loaded.None? then (s, Rejected)
    else
      var d := loaded.value.descriptor;
      var s1 := if Expand(d).route in s.table.entries then RemoveSpec(s, d.name).0 else s;
      Install(s1, FreshRecord(d, loaded.value.code, JoinPath(root, folder.value)), init)
  }

  /** `loggerForRoute(route)(msg)`; false when no record is at the route
      (the push would throw). */
  function LogSpec(s: State, route: string, timestamp: string, msg: string): (r: (State, bool))
    requires WellFormed(s.table)
    ensures WellFormed(r.0.table)
    ensures r.1 <==> route in s.table.entries
    ensures !r.1 ==> r.0 == s
    ensures r.0 == s.(table := r.0.table) && r.0.table.keys == s.table.keys
    ensures r.1 ==> (r.0.table.entries ==
              s.table.entries[route := s.table.entries[route].(log := s.table.entries[route].log + [LogLine(timestamp, msg)])])
  {
    match AppendLog(s.table, route, timestamp, msg)
    case None => (s, false)
    case Some(t) => (s.(table := t), true)
  }

  /** The handler calls `forEach` makes for the selected keys. */
  function Invocations(t: Table, ks: seq<string>, payload: JsValue): (e: seq<Effect>)
    requires forall i | 0 <= i < |ks| :: ks[i] in t.entries
    ensures |e| == |ks|
    ensures forall i | 0 <= i < |ks| :: e[i] == Invoked(t.entries[ks[i]].handler, ks[i], payload)
  {
    if ks == [] then []
    else
      var last := ks[|ks| - 1];
      Invocations(t, ks[..|ks| - 1], payload) + [Invoked(t.entries[last].handler, last, payload)]
  }

  // ---- The invariant holds initially and every operation keeps it. ----

  lemma InitialInv()
    ensures Inv(Initial)
  {
  }

  /** The invariant does not depend on the trace. */
  lemma InvIgnoresTrace(s: State, trace: seq<Effect>)
    requires Inv(s)
    ensures Inv(s.(trace := trace))
  {
  }

  lemma AfterCleanupKeepsOthers(s: State, k: string)
    requires Inv(s) && k in s.table.entries
    ensures var s1 := AfterCleanup(s, s.table.entries[k].cleanup);
            forall k' | k' in s.table.entries && k' != k :: RecordActive(s1.bus, s1.running, s1.next, s.table.entries[k'])
  {
    var c := s.table.entries[k].cleanup;
    var s1 := AfterCleanup(s, c);
    forall k' | k' in s.table.entries && k' != k
      ensures RecordActive(s1.bus, s1.running, s1.next, s.table.entries[k'])
    {
      var r := s.table.entries[k'];
      assert RecordActive(s.bus, s.running, s.next, r);
      if r.cleanup.RemoveListener? && c.RemoveListener? {
        assert r.cleanup.listener != c.listener;
      }
      if r.cleanup.TerminateWorker? && c.TerminateWorker? {
        assert r.cleanup.worker != c.worker;
      }
    }
  }

  lemma RemovePreservesInv(s: State, name: string)
    requires Inv(s)
    ensures Inv(RemoveSpec(s, name).0)
  {
    match FindRoute(s.table, name)
    case None =>
    case Some(k) =>
      AfterCleanupKeepsOthers(s, k);
  }

  lemma GrowingKeepsActive(bus: Bus, running: set<nat>, next: nat, bus': Bus, running': set<nat>, next': nat, r: Record)
    requires RecordActive(bus, running, next, r)
    requires next <= next' && running <= running'
    requires forall t, x: nat | IsSubscribed(bus, t, x) :: IsSubscribed(bus', t, x)
    ensures RecordActive(bus', running', next', r)
  {
  }

  lemma InstallPreservesInv(s: State, rec: Record, init: InitOutcome)
    requires Inv(s)
    requires rec.cleanup == Noop && rec.worker == None
    ensures Inv(Install(s, rec, init).0)
  {
    var a := Activate(rec, s.next, init);
    var s2 := Install(s, rec, init).0;
    assert RecordActive(s2.bus, s2.running, s2.next, a.record);
    forall k | k in s2.table.entries && k != rec.route
      ensures RecordActive(s2.bus, s2.running, s2.next, s2.table.entries[k])
    {
      GrowingKeepsActive(s.bus, s.running, s.next, s2.bus, s2.running, s2.next, s.table.entries[k]);
    }
    forall k | k in s.table.entries && s.table.entries[k].cleanup.RemoveListener?
      ensures s.table.entries[k].cleanup.listener < s.next
    {
      assert RecordActive(s.bus, s.running, s.next, s.table.entries[k]);
    }
    forall k | k in s.table.entries && s.table.entries[k].cleanup.TerminateWorker?
      ensures s.table.entries[k].cleanup.worker < s.next
    {
      assert RecordActive(s.bus, s.running, s.next, s.table.entries[k]);
    }
  }

  lemma RegisterPreservesInv(s: State, root: string, folder: Option<string>, loaded: Option<Loaded>, init: InitOutcome)
    requires Inv(s)
    ensures Inv(RegisterSpec(s, root, folder, loaded, init).0)
  {
    if !IsBlankFolder(folder) && loaded.Some? {
      var d := loaded.value.descriptor;
      if Expand(d).route in s.table.entries { RemovePreservesInv(s, d.name); }
      var s1 := if Expand(d).route in s.table.entries then RemoveSpec(s, d.name).0 else s;
      InstallPreservesInv(s1, FreshRecord(d, loaded.value.code, JoinPath(root, folder.value)), init);
    }
  }

  lemma LogPreservesInv(s: State, route: string, timestamp: string, msg: string)
    requires Inv(s)
    ensures Inv(LogSpec(s, route, timestamp, msg).0)
  {
    var r := LogSpec(s, route, timestamp, msg);
    if r.1 {
      forall k | k in r.0.table.entries
        ensures RecordActive(r.0.bus, r.0.running, r.0.next, r.0.table.entries[k])
      {
        assert RecordActive(s.bus, s.running, s.next, s.table.entries[k]);
      }
    }
  }
}
