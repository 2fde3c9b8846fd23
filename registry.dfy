/** The registry object: the `functions` dictionary of src/index.js with the
    operations that change it in place. Each method is proved to move the
    state exactly as the corresponding function of RegistrySpec says, and to
    keep the registry invariant. */
module Host {
  import opened JsValues
  import opened Descriptors
  import opened FunctionTable
  import opened FanOut
  import opened RegistrySpec

  class Registry {
    var functions: map<string, Record>
    /** the keys of `functions` in Object.keys order */
    var keys: seq<string>
    ghost var bus: Bus
    /** the worker threads started and not yet terminated */
    ghost var running: set<nat>
    var trace: seq<Effect>
    var nextHandle: nat

    function Current(): Table
      reads this
    {
      Table(functions, keys)
    }

    ghost function Snapshot(): State
      reads this
    {
      State(Current(), bus, running, trace, nextHandle)
    }

    ghost predicate Valid()
      reads this
    {
      Inv(Snapshot())
    }

    /** `const functions = {}`: the host starts empty. */
    constructor ()
      ensures Valid() && Snapshot() == Initial
    {
      functions, keys, trace, nextHandle := map[], [], [], 0;
      bus, running := map[], {};
      InitialInv();
    }

    /** `await fn.cleanup()` */
    method RunCleanup(c: Cleanup)
      modifies this`bus, this`running, this`trace
      ensures Snapshot() == AfterCleanup(old(Snapshot()), c)
    {
      match c {
        case Noop =>
        case TerminateWorker(w) =>
          trace := trace + [Terminated(w)];
          running := running - {w};
        case RemoveListener(topic, l, td) =>
          bus := Unsubscribe(bus, topic, l);
          trace := trace + [Unsubscribed(topic, l)];
          if td {
            trace := trace + [TornDown(l)];
          }
      }
    }

    /** `removeFunction({id: name})` */
    method Remove(name: string) returns (found: bool)
      requires Valid()
      modifies this
      ensures Valid()
      ensures (Snapshot(), found) == RemoveSpec(old(Snapshot()), name)
    {
      var route := FindRoute(Current(), name);
      if route.None? {
        return false;
      }
      var key := route.value;
      var fn := functions[key];
      RunCleanup(fn.cleanup);
      ghost var cleaned := Snapshot();
      functions := functions - {key};
      keys := Without(keys, key);
      trace := trace + [FolderDeleted(fn.folder)];
      found := true;
      assert Current() == Delete(cleaned.table, key);
      assert Snapshot() == cleaned.(table := Delete(cleaned.table, key), trace := cleaned.trace + [FolderDeleted(fn.folder)]);
      RemovePreservesInv(old(Snapshot()), name);
    }

    /** `registerFunction({faasFolder: root, folder})`; `loaded` is what the
        two `require` calls produced (None: one of them threw) and `init` how
        a trigger's initializer settles. */
    method Register(root: string, folder: Option<string>, loaded: Option<Loaded>, init: InitOutcome)
      returns (completion: Completion)
      requires Valid()
      modifies this
      ensures Valid()
      ensures (Snapshot(), completion) == RegisterSpec(old(Snapshot()), root, folder, loaded, init)
    {
      if IsBlankFolder(folder) {
        return Resolved;
      }
      if loaded.None? {
        return Rejected;
      }
      ghost var s0 := Snapshot();
      var d := loaded.value.descriptor;
      var config := Expand(d);
      if config.route in functions {
        var removed := Remove(d.name);
        assert Snapshot() == RemoveSpec(s0, d.name).0;
      }
      ghost var before := Snapshot();
      assert before == if config.route in s0.table.entries then RemoveSpec(s0, d.name).0 else s0;
      var rec := FreshRecord(d, loaded.value.code, JoinPath(root, folder.value));
      completion := InstallRecord(rec, init);
      assert RegisterSpec(s0, root, folder, loaded, init) == Install(before, rec, init);
      RegisterPreservesInv(old(Snapshot()), root, folder, loaded, init);
    }

    /** src/index.js:71-128: store the new record under its route and
        activate it with the next fresh identity. */
    method InstallRecord(rec: Record, init: InitOutcome) returns (completion: Completion)
      requires WellFormed(Current())
      modifies this`functions, this`keys, this`bus, this`running, this`trace, this`nextHandle
      ensures (Snapshot(), completion) == Install(old(Snapshot()), rec, init)
    {
      ghost var before := Snapshot();
      var id := nextHandle;
      nextHandle := nextHandle + 1;
      if rec.route !in functions {
        keys := keys + [rec.route];
      }
      functions := functions[rec.route := rec];
      ghost var stored := Current();
      assert stored == Store(before.table, rec);
      completion := ActivateStored(rec, id, init);
      ghost var a := Activate(rec, id, init);
      assert a.record.route == rec.route;
      assert Current() == Store(stored, a.record);
      StoreThenUpdate(before.table, rec, a.record);
      assert Current() == Store(before.table, a.record);
      assert Snapshot() == State(Store(before.table, a.record), bus, running, before.trace + a.effects, before.next + 1);
    }

    /** src/index.js:86-128: activate the record just stored under its route. */
    method ActivateStored(rec: Record, id: nat, init: InitOutcome) returns (completion: Completion)
      requires rec.route in functions && functions[rec.route] == rec
      modifies this`functions, this`bus, this`running, this`trace
      ensures var a := Activate(rec, id, init);
              && functions == old(functions)[rec.route := a.record]
              && bus == (if a.subscribes then Subscribe(old(bus), rec.name, id) else old(bus))
              && running == (if a.spawns then old(running) + {id} else old(running))
              && trace == old(trace) + a.effects
              && completion == a.completion
    {
      completion := Resolved;
      if rec.kind == HTTP {
      } else if rec.kind == WORKER {
        trace := trace + [Spawned(id, rec.folder)];
        running := running + {id};
        functions := functions[rec.route := rec.(worker := Some(id), cleanup := TerminateWorker(id))];
      } else if rec.kind == TRIGGER {
        trace := trace + [Initialized(rec.handler, rec.name)];
        match init {
          case Threw =>
            completion := Rejected;
          case Returned(td) =>
            bus := Subscribe(bus, rec.name, id);
            trace := trace + [Subscribed(rec.name, id)];
            functions := functions[rec.route := rec.(cleanup := RemoveListener(rec.name, id, td))];
        }
      }
    }

    /** `loggerForRoute(route)(msg)` with the clock's reading `timestamp`;
        false where the JavaScript push throws (no record at the route). */
    method Log(route: string, timestamp: string, msg: string) returns (ok: bool)
      requires Valid()
      modifies this`functions
      ensures Valid()
      ensures (Snapshot(), ok) == LogSpec(old(Snapshot()), route, timestamp, msg)
    {
      if route !in functions {
        return false;
      }
      var r := functions[route];
      functions := functions[route := r.(log := r.log + [LogLine(timestamp, msg)])];
      ok := true;
      LogPreservesInv(old(Snapshot()), route, timestamp, msg);
    }

    /** `handleTrigger(data)` of the trigger named `topic`: call, in key
        order, the handler of every record whose type is `topic`. */
    method HandleTrigger(topic: string, payload: JsValue)
      requires Valid()
      modifies this`trace
      ensures Valid()
      ensures trace == old(trace) + Invocations(Current(), Subscribers(Current(), topic), payload)
    {
      var table := Current();
      InvokeAll(table, Subscribers(table, topic), payload);
      InvIgnoresTrace(old(Snapshot()), trace);
      assert Snapshot() == old(Snapshot()).(trace := trace);
    }

    /** src/index.js:112-115: the `forEach` over the selected keys. */
    method InvokeAll(table: Table, targets: seq<string>, payload: JsValue)
      requires forall j | 0 <= j < |targets| :: targets[j] in table.entries
      modifies this`trace
      ensures trace == old(trace) + Invocations(table, targets, payload)
    {
      var i := 0;
      while i < |targets|
        invariant 0 <= i <= |targets|
        invariant trace == old(trace) + Invocations(table, targets[..i], payload)
      {
        var key := targets[i];
        trace := trace + [Invoked(table.entries[key].handler, key, payload)];
        assert targets[..i + 1][..i] == targets[..i];
        i := i + 1;
      }
      assert targets[..i] == targets;
    }
  }
}
