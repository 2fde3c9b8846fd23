/** What registration, removal and the queries promise about each other,
    proved of the state functions in RegistrySpec. */
module RegistryProperties {
  import opened JsValues
  import opened Descriptors
  import opened FunctionTable
  import opened Dispatch
  import opened RegistrySpec

  // ---- removeFunction ----

  /** An unknown name answers false and leaves every part of the state as it was. */
  lemma RemoveUnknownChangesNothing(s: State, name: string)
    requires WellFormed(s.table)
    requires forall k | k in s.table.entries :: s.table.entries[k].name != name
    ensures RemoveSpec(s, name) == (s, false)
  {
  }

  /** A known name: the first record carrying it (in key order) has its
      cleanup run exactly once, then its folder deleted; only its key goes,
      every other record stays as it was, and the answer is true. */
  lemma RemoveKnownRunsCleanupOnce(s: State, name: string)
    requires Inv(s)
    requires exists k | k in s.table.entries :: s.table.entries[k].name == name
    ensures FindRoute(s.table, name).Some?
    ensures var k := FindRoute(s.table, name).value;
            var fn := s.table.entries[k];
            var (s', found) := RemoveSpec(s, name);
            && found
            && fn.name == name
            && (exists i | 0 <= i < |s.table.keys| :: s.table.keys[i] == k
                  && forall j | 0 <= j < i :: !NamedAt(s.table, s.table.keys[j], name))
            && s'.table.entries == s.table.entries - {k}
            && s'.table.keys == Without(s.table.keys, k)
            && |s'.table.entries| == |s.table.entries| - 1
            && s'.trace == s.trace + CleanupEffects(fn.cleanup) + [FolderDeleted(fn.folder)]
            && s'.next == s.next
            && (fn.cleanup.RemoveListener? ==> !IsSubscribed(s'.bus, fn.cleanup.topic, fn.cleanup.listener))
            && (fn.cleanup.TerminateWorker? ==> fn.cleanup.worker !in s'.running)
            && s'.bus == (if fn.cleanup.RemoveListener? then Unsubscribe(s.bus, fn.cleanup.topic, fn.cleanup.listener) else s.bus)
            && s'.running == (if fn.cleanup.TerminateWorker? then s.running - {fn.cleanup.worker} else s.running)
            && Inv(s')
  {
    RemovePreservesInv(s, name);
  }

  /** The removed route stops answering HTTP requests. */
  lemma RemovedRouteIsNotFound(s: State, name: string)
    requires Inv(s)
    requires FindRoute(s.table, name).Some?
    ensures Decide(RemoveSpec(s, name).0.table, FindRoute(s.table, name).value)
            == NotFound(NOT_FOUND_STATUS, NOT_FOUND_MESSAGE)
  {
  }

  /** Removal shortens any listing by exactly one entry. */
  lemma RemoveShrinksListing<T>(s: State, name: string, format: Listing -> T)
    requires Inv(s)
    requires exists k | k in s.table.entries :: s.table.entries[k].name == name
    ensures |ListFunctions(RemoveSpec(s, name).0.table, format)| == |ListFunctions(s.table, format)| - 1
  {
    RemoveKnownRunsCleanupOnce(s, name);
  }

  // ---- registerFunction ----

  /** A missing, empty or whitespace-only folder name changes nothing. */
  lemma RegisterBlankFolderIsNoop(s: State, root: string, folder: Option<string>, loaded: Option<Loaded>, init: InitOutcome)
    requires WellFormed(s.table)
    requires folder.None? || AllWhitespace(folder.value)
    ensures RegisterSpec(s, root, folder, loaded, init) == (s, Resolved)
  {
  }

  /** When loading the code or descriptor throws, nothing changes and the call rejects. */
  lemma RegisterLoadFailureIsNoop(s: State, root: string, folder: Option<string>, init: InitOutcome)
    requires WellFormed(s.table)
    requires !IsBlankFolder(folder)
    ensures RegisterSpec(s, root, folder, None, init) == (s, Rejected)
  {
  }

  lemma RegisterUnfolds(s: State, root: string, folder: Option<string>, loaded: Option<Loaded>, init: InitOutcome)
    requires WellFormed(s.table) && !IsBlankFolder(folder) && loaded.Some?
    ensures RegisterSpec(s, root, folder, loaded, init) ==
            var d := loaded.value.descriptor;
            Install(if Expand(d).route in s.table.entries then RemoveSpec(s, d.name).0 else s,
                    FreshRecord(loaded.value.descriptor, loaded.value.code, JoinPath(root, folder.value)), init)
  {
  }

  /** After a registration, the route holds a record built from the inputs
      with an empty log, activated according to its type: a worker started
      with a fresh handle and a terminate cleanup, a trigger initialized and
      subscribed under its own name with an unsubscribe-then-teardown cleanup
      (or left inert, and the call rejected, when the initializer throws),
      and no cleanup at all for http and every other type. */
  lemma RegisterInstallsRecord(s: State, root: string, folder: Option<string>, loaded: Option<Loaded>, init: InitOutcome)
    requires Inv(s) && !IsBlankFolder(folder) && loaded.Some?
    ensures var d := loaded.value.descriptor;
            var c := Expand(d);
            var (s', completion) := RegisterSpec(s, root, folder, loaded, init);
            && Inv(s')
            && c.route in s'.table.entries
            && var r := s'.table.entries[c.route];
            && r.name == d.name && r.kind == c.kind && r.route == c.route
            && r.handler == loaded.value.code && r.config == d
            && r.folder == JoinPath(root, folder.value) && r.log == []
            && (c.kind == WORKER ==>
                  r.worker == Some(s.next) && r.cleanup == TerminateWorker(s.next) && s.next in s'.running
                  && s'.trace[|s'.trace| - 1] == Spawned(s.next, r.folder))
            && (c.kind == TRIGGER && init.Returned? ==>
                  r.cleanup == RemoveListener(d.name, s.next, init.hasTeardown)
                  && IsSubscribed(s'.bus, d.name, s.next)
                  && s'.trace[|s'.trace| - 2..] == [Initialized(r.handler, d.name), Subscribed(d.name, s.next)])
            && (c.kind == TRIGGER && init.Threw? ==>
                  r.cleanup == Noop && s'.trace[|s'.trace| - 1] == Initialized(r.handler, d.name))
            && (c.kind != WORKER && c.kind != TRIGGER ==> r.cleanup == Noop && r.worker.None?)
            && (completion == Rejected <==> c.kind == TRIGGER && init.Threw?)
  {
    RegisterPreservesInv(s, root, folder, loaded, init);
    RegisterUnfolds(s, root, folder, loaded, init);
  }

  /** Re-registering the function that already owns the route installs the
      new record into the state its removal left, where the route is free. */
  lemma ReRegisterInstallsAfterRemove(s: State, root: string, folder: Option<string>, loaded: Option<Loaded>, init: InitOutcome)
    requires Inv(s) && !IsBlankFolder(folder) && loaded.Some?
    requires var d := loaded.value.descriptor;
             Expand(d).route in s.table.entries && FindRoute(s.table, d.name) == Some(Expand(d).route)
    ensures var d := loaded.value.descriptor;
            var s1 := RemoveSpec(s, d.name).0;
            && s1.table == Delete(s.table, Expand(d).route)
            && RegisterSpec(s, root, folder, loaded, init)
               == Install(s1, FreshRecord(d, loaded.value.code, JoinPath(root, folder.value)), init)
  {
    var d := loaded.value.descriptor;
    RemoveKnownRunsCleanupOnce(s, d.name);
    RegisterUnfolds(s, root, folder, loaded, init);
  }

  /** Re-registering the function that already owns the route keeps the
      table's size and every other record, and moves the route to the end of
      the key order. */
  lemma ReRegisterSameNameReplaces(s: State, root: string, folder: Option<string>, loaded: Option<Loaded>, init: InitOutcome)
    requires Inv(s) && !IsBlankFolder(folder) && loaded.Some?
    requires var d := loaded.value.descriptor;
             Expand(d).route in s.table.entries && FindRoute(s.table, d.name) == Some(Expand(d).route)
    ensures var route := Expand(loaded.value.descriptor).route;
            var s' := RegisterSpec(s, root, folder, loaded, init).0;
            && |s'.table.entries| == |s.table.entries|
            && s'.table.keys == Without(s.table.keys, route) + [route]
            && (forall k | k in s.table.entries && k != route :: k in s'.table.entries && s'.table.entries[k] == s.table.entries[k])
  {
    var d := loaded.value.descriptor;
    var route := Expand(d).route;
    ReRegisterInstallsAfterRemove(s, root, folder, loaded, init);
    var s1 := RemoveSpec(s, d.name).0;
    var a := Activate(FreshRecord(d, loaded.value.code, JoinPath(root, folder.value)), s1.next, init);
    assert a.record.route == route;
    ReplaceMovesToEnd(s.table, a.record);
  }

  /** Re-registering the function that already owns the route runs the old
      record's cleanup to completion, deletes its folder, and only then
      activates the new record; a trigger's old listener ends unsubscribed. */
  lemma ReRegisterCleansUpFirst(s: State, root: string, folder: Option<string>, loaded: Option<Loaded>, init: InitOutcome)
    requires Inv(s) && !IsBlankFolder(folder) && loaded.Some?
    requires var d := loaded.value.descriptor;
             Expand(d).route in s.table.entries && FindRoute(s.table, d.name) == Some(Expand(d).route)
    ensures var d := loaded.value.descriptor;
            var prior := s.table.entries[Expand(d).route];
            var rec := FreshRecord(d, loaded.value.code, JoinPath(root, folder.value));
            var s' := RegisterSpec(s, root, folder, loaded, init).0;
            && s'.trace == s.trace + CleanupEffects(prior.cleanup) + [FolderDeleted(prior.folder)]
                           + Activate(rec, s.next, init).effects
            && (prior.cleanup.RemoveListener? ==> !IsSubscribed(s'.bus, prior.cleanup.topic, prior.cleanup.listener))
            && (prior.cleanup.TerminateWorker? ==> prior.cleanup.worker !in s'.running)
  {
    var d := loaded.value.descriptor;
    var route := Expand(d).route;
    var prior := s.table.entries[route];
    ReRegisterInstallsAfterRemove(s, root, folder, loaded, init);
    var s1 := RemoveSpec(s, d.name).0;
    var c := AfterCleanup(s, prior.cleanup);
    assert s1 == c.(table := Delete(c.table, route), trace := c.trace + [FolderDeleted(prior.folder)]);
    var rec := FreshRecord(d, loaded.value.code, JoinPath(root, folder.value));
    var s' := Install(s1, rec, init).0;
    assert s'.trace == s1.trace + Activate(rec, s.next, init).effects;
    assert RecordActive(s.bus, s.running, s.next, prior);
    if prior.cleanup.RemoveListener? {
      assert prior.cleanup.listener < s.next;
      assert !IsSubscribed(s1.bus, prior.cleanup.topic, prior.cleanup.listener);
    }
    if prior.cleanup.TerminateWorker? {
      assert prior.cleanup.worker < s.next;
      assert prior.cleanup.worker !in s1.running;
    }
  }

  /** The route is taken by a record with a DIFFERENT name and no record has
      the new name: nothing is removed, the occupant is overwritten in place
      without its cleanup running, and a trigger occupant's listener stays
      subscribed although its record is gone. */
  lemma RegisterOverwritesOtherName(s: State, root: string, folder: Option<string>, loaded: Option<Loaded>, init: InitOutcome)
    requires Inv(s) && !IsBlankFolder(folder) && loaded.Some?
    requires var d := loaded.value.descriptor;
             Expand(d).route in s.table.entries && FindRoute(s.table, d.name).None?
    ensures var d := loaded.value.descriptor;
            var route := Expand(d).route;
            var occupant := s.table.entries[route];
            var rec := FreshRecord(d, loaded.value.code, JoinPath(root, folder.value));
            var s' := RegisterSpec(s, root, folder, loaded, init).0;
            && occupant.name != d.name
            && s'.table.keys == s.table.keys
            && s'.table.entries == s.table.entries[route := Activate(rec, s.next, init).record]
            && s'.trace == s.trace + Activate(rec, s.next, init).effects
            && s'.bus == (if Activate(rec, s.next, init).subscribes then Subscribe(s.bus, d.name, s.next) else s.bus)
            && s'.running == (if Activate(rec, s.next, init).spawns then s.running + {s.next} else s.running)
            && (occupant.cleanup.RemoveListener? ==>
                  IsSubscribed(s'.bus, occupant.cleanup.topic, occupant.cleanup.listener))
            && (occupant.cleanup.TerminateWorker? ==> occupant.cleanup.worker in s'.running)
  {
    RegisterUnfolds(s, root, folder, loaded, init);
    var route := Expand(loaded.value.descriptor).route;
    assert RecordActive(s.bus, s.running, s.next, s.table.entries[route]);
  }

  /** The route is taken, but an EARLIER-found record elsewhere carries the
      new name: that other record is removed (cleanup and folder deletion),
      the occupant is overwritten without its cleanup, and the table shrinks
      by one. */
  lemma RegisterRemovesNamesakeElsewhere(s: State, root: string, folder: Option<string>, loaded: Option<Loaded>, init: InitOutcome)
    requires Inv(s) && !IsBlankFolder(folder) && loaded.Some?
    requires var d := loaded.value.descriptor;
             Expand(d).route in s.table.entries
             && FindRoute(s.table, d.name).Some? && FindRoute(s.table, d.name) != Some(Expand(d).route)
    ensures var d := loaded.value.descriptor;
            var route := Expand(d).route;
            var k := FindRoute(s.table, d.name).value;
            var gone := s.table.entries[k];
            var rec := FreshRecord(d, loaded.value.code, JoinPath(root, folder.value));
            var s' := RegisterSpec(s, root, folder, loaded, init).0;
            && k !in s'.table.entries
            && |s'.table.entries| == |s.table.entries| - 1
            && s'.table.entries[route] == Activate(rec, s.next, init).record
            && s'.trace == s.trace + CleanupEffects(gone.cleanup) + [FolderDeleted(gone.folder)]
                           + Activate(rec, s.next, init).effects
  {
    var d := loaded.value.descriptor;
    RemoveKnownRunsCleanupOnce(s, d.name);
    RegisterUnfolds(s, root, folder, loaded, init);
  }

  /** A free route: nothing is removed and the route joins the end of the key order. */
  lemma RegisterFreeRouteAppends(s: State, root: string, folder: Option<string>, loaded: Option<Loaded>, init: InitOutcome)
    requires Inv(s) && !IsBlankFolder(folder) && loaded.Some?
    requires Expand(loaded.value.descriptor).route !in s.table.entries
    ensures var d := loaded.value.descriptor;
            var rec := FreshRecord(d, loaded.value.code, JoinPath(root, folder.value));
            var s' := RegisterSpec(s, root, folder, loaded, init).0;
            && s'.table.keys == s.table.keys + [Expand(d).route]
            && |s'.table.entries| == |s.table.entries| + 1
            && s'.trace == s.trace + Activate(rec, s.next, init).effects
            && s'.bus == (if Activate(rec, s.next, init).subscribes then Subscribe(s.bus, d.name, s.next) else s.bus)
            && s'.running == (if Activate(rec, s.next, init).spawns then s.running + {s.next} else s.running)
            && (forall k | k in s.table.entries :: k in s'.table.entries && s'.table.entries[k] == s.table.entries[k])
  {
    RegisterUnfolds(s, root, folder, loaded, init);
    var s' := RegisterSpec(s, root, folder, loaded, init).0;
    KeyCountIsSize(s.table);
    KeyCountIsSize(s'.table);
  }

  /** A registered http function answers at its route with its handler; a
      registered function of any other type answers 404 there. */
  lemma RegisteredRouteDispatch(s: State, root: string, folder: Option<string>, loaded: Option<Loaded>, init: InitOutcome)
    requires Inv(s) && !IsBlankFolder(folder) && loaded.Some?
    ensures var c := Expand(loaded.value.descriptor);
            var t' := RegisterSpec(s, root, folder, loaded, init).0.table;
            && (c.kind == HTTP ==> Decide(t', c.route) == CallHandler(loaded.value.code, c.route))
            && (c.kind != HTTP ==> Decide(t', c.route) == NotFound(NOT_FOUND_STATUS, NOT_FOUND_MESSAGE))
  {
    RegisterInstallsRecord(s, root, folder, loaded, init);
  }

  /** A name registered for the first time has an empty log when looked up by name. */
  lemma FirstRegistrationHasEmptyLog(s: State, root: string, folder: Option<string>, loaded: Option<Loaded>, init: InitOutcome)
    requires Inv(s) && !IsBlankFolder(folder) && loaded.Some?
    requires forall k | k in s.table.entries :: s.table.entries[k].name != loaded.value.descriptor.name
    ensures GetLogs(RegisterSpec(s, root, folder, loaded, init).0.table, loaded.value.descriptor.name) == Some([])
  {
    var d := loaded.value.descriptor;
    var route := Expand(d).route;
    RegisterInstallsRecord(s, root, folder, loaded, init);
    RegisterUnfolds(s, root, folder, loaded, init);
    var t' := RegisterSpec(s, root, folder, loaded, init).0.table;
    forall k | k in t'.entries && k != route
      ensures t'.entries[k].name != d.name
    {
      assert k in s.table.entries && t'.entries[k] == s.table.entries[k];
    }
  }
}
