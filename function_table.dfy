/** The module-level `functions` dictionary of src/index.js: one record per
    route, with the keys kept in the order JavaScript's Object.keys reports
    them (insertion order; deleting a key and adding it again moves it to
    the end). The read-only queries over it live here too. */
module FunctionTable {
  import opened JsValues
  import opened Descriptors

  /** Identity of the code module loaded from a function's folder. */
  type CodeRef = nat

  /** What a record's `cleanup` does when it runs. */
  datatype Cleanup =
    | Noop
      /** `() => worker.terminate()` */
    | TerminateWorker(worker: nat)
      /** remove the bus listener, then call the initializer's teardown if it returned one */
    | RemoveListener(topic: string, listener: nat, teardown: bool)

  datatype Record = Record(
    name: string,
    kind: string,
    route: string,
    handler: CodeRef,
    config: Descriptor,
    folder: string,
    log: seq<string>,
    cleanup: Cleanup,
    worker: Option<nat>)

  datatype Table = Table(entries: map<string, Record>, keys: seq<string>)

  const EmptyTable := Table(map[], [])

  predicate Distinct(s: seq<string>) {
    forall i, j | 0 <= i < j < |s| :: s[i] != s[j]
  }

  /** `keys` lists every key of `entries` exactly once, and each record sits
      under its own route. */
  ghost predicate WellFormed(t: Table) {
    && Distinct(t.keys)
    && (forall k :: k in t.entries <==> k in t.keys)
    && (forall k | k in t.entries :: t.entries[k].route == k)
  }

  /** The key sequence with `k` deleted. */
  function Without(s: seq<string>, k: string): (r: seq<string>)
    ensures forall x :: x in r <==> x in s && x != k
    ensures Distinct(s) ==> Distinct(r)
    ensures Distinct(s) && k in s ==> |r| == |s| - 1
    ensures k !in s ==> r == s
  {
    if s == [] then []
    else if s[0] == k then Without(s[1..], k)
    else
      assert Distinct(s) ==> s[0] !in s[1..];
      [s[0]] + Without(s[1..], k)
  }

  lemma {:induction false} DistinctCardinality(s: seq<string>)
    requires Distinct(s)
    ensures |set x | x in s| == |s|
  {
    if s != [] {
      var tail := s[1..];
      DistinctCardinality(tail);
      assert (set x | x in s) == (set x | x in tail) + {s[0]};
      assert s[0] !in tail;
    }
  }

  /** In a well-formed table there are exactly as many keys as records. */
  lemma KeyCountIsSize(t: Table)
    requires WellFormed(t)
    ensures |t.keys| == |t.entries|
  {
    DistinctCardinality(t.keys);
    assert t.entries.Keys == set x | x in t.keys;
  }

  /** `functions[route] = record`: an existing key keeps its place, a new key
      goes to the end. */
  function Store(t: Table, r: Record): (t': Table)
    requires WellFormed(t)
    ensures WellFormed(t')
    ensures t'.entries == t.entries[r.route := r]
    ensures r.route in t.entries ==> t'.keys == t.keys
    ensures r.route !in t.entries ==> t'.keys == t.keys + [r.route]
  {
    var keys := if r.route in t.entries then t.keys else t.keys + [r.route];
    Table(t.entries[r.route := r], keys)
  }

  /** Updating the record just stored under a route is the same as storing
      the updated record in the first place. */
  lemma StoreThenUpdate(t: Table, r: Record, r': Record)
    requires WellFormed(t) && r'.route == r.route
    ensures Store(Store(t, r), r') == Store(t, r')
  {
    assert Store(Store(t, r), r').entries == Store(t, r').entries;
  }

  /** `delete functions[route]`. */
  function Delete(t: Table, k: string): (t': Table)
    requires WellFormed(t)
    ensures WellFormed(t')
    ensures t'.entries == t.entries - {k}
    ensures t'.keys == Without(t.keys, k)
    ensures k in t.entries ==> |t'.entries| == |t.entries| - 1
  {
    Table(t.entries - {k}, Without(t.keys, k))
  }

  /** Deleting a route and storing a record under it again keeps the table's
      size and every other record, and moves the route to the end. */
  lemma ReplaceMovesToEnd(t: Table, r: Record)
    requires WellFormed(t) && r.route in t.entries
    ensures var t' := Store(Delete(t, r.route), r);
            && |t'.entries| == |t.entries|
            && t'.keys == Without(t.keys, r.route) + [r.route]
            && t'.entries[r.route] == r
            && forall k | k in t.entries && k != r.route :: k in t'.entries && t'.entries[k] == t.entries[k]
  {
    var t1 := Delete(t, r.route);
    assert r.route !in t1.entries;
    assert |Store(t1, r).entries| == |t1.entries| + 1;
  }

  predicate NamedAt(t: Table, k: string, name: string) {
    k in t.entries && t.entries[k].name == name
  }

  /** `Object.keys(functions).find(...)` from position `i` on: the index of the
      first key whose record has the given name. */
  function FindFrom(t: Table, name: string, i: nat): (r: Option<nat>)
    requires i <= |t.keys|
    decreases |t.keys| - i
    ensures r.Some? ==> i <= r.value < |t.keys| && NamedAt(t, t.keys[r.value], name)
    ensures r.Some? ==> forall j | i <= j < r.value :: !NamedAt(t, t.keys[j], name)
    ensures r.None? ==> forall j | i <= j < |t.keys| :: !NamedAt(t, t.keys[j], name)
  {
    if i == |t.keys| then None
    else if NamedAt(t, t.keys[i], name) then Some(i)
    else FindFrom(t, name, i + 1)
  }

  /** The route of the first record, in key order, whose name is `name`. */
  function FindRoute(t: Table, name: string): (r: Option<string>)
    ensures r.Some? ==> NamedAt(t, r.value, name)
    ensures r.Some? ==> exists i | 0 <= i < |t.keys| :: t.keys[i] == r.value
                          && forall j | 0 <= j < i :: !NamedAt(t, t.keys[j], name)
    ensures WellFormed(t) ==> (r.None? <==> forall k | k in t.entries :: t.entries[k].name != name)
  {
    match FindFrom(t, name, 0)
    case None => None
    case Some(i) => Some(t.keys[i])
  }

  /** The key JavaScript reads when `find` returns `undefined`: property
      access converts it to the string "undefined". */
  const UndefinedKey := "undefined"

  /** `functions[Object.keys(functions).find(...)]` exactly as written in
      src/index.js:26-27 and src/index.js:35-36: a failed search still reads
      the property named "undefined". */
  function FindRouteAsWritten(t: Table, name: string): (r: Option<string>)
    ensures r.Some? ==> r.value in t.entries
    ensures r.Some? && r.value != UndefinedKey ==> NamedAt(t, r.value, name)
  {
    var key := match FindFrom(t, name, 0)
      case Some(i) => t.keys[i]
      case None => UndefinedKey;
    if key in t.entries then Some(key) else None
  }

  /** The as-written lookup returns a record for a name nobody has, as soon as
      a record is stored under the route "undefined". */
  lemma UnknownNameHitsUndefinedRoute(r: Record)
    requires r.route == UndefinedKey && r.name != "ghost-name"
    ensures FindRouteAsWritten(Table(map[UndefinedKey := r], [UndefinedKey]), "ghost-name") == Some(UndefinedKey)
    ensures FindRoute(Table(map[UndefinedKey := r], [UndefinedKey]), "ghost-name") == None
  {
    var t := Table(map[UndefinedKey := r], [UndefinedKey]);
    assert FindFrom(t, "ghost-name", 1) == None;
    assert FindFrom(t, "ghost-name", 0) == None;
  }

  /** The two lookups differ only in that one case: an unknown name while a
      record sits at "undefined". */
  lemma AsWrittenAgreesElsewhere(t: Table, name: string)
    requires WellFormed(t)
    ensures FindRoute(t, name).Some? ==> FindRouteAsWritten(t, name) == FindRoute(t, name)
    ensures UndefinedKey !in t.entries ==> FindRouteAsWritten(t, name) == FindRoute(t, name)
    ensures FindRouteAsWritten(t, name) != FindRoute(t, name) <==>
              FindRoute(t, name).None? && UndefinedKey in t.entries
  {
  }

  /** `getLogsForFunction(id)`: the log of the first record named `id`, or
      `undefined`. */
  function GetLogs(t: Table, name: string): (r: Option<seq<string>>)
    ensures r.Some? ==> exists i | 0 <= i < |t.keys| ::
              NamedAt(t, t.keys[i], name) && r.value == t.entries[t.keys[i]].log
              && forall j | 0 <= j < i :: !NamedAt(t, t.keys[j], name)
    ensures WellFormed(t) ==> (r.None? <==> forall k | k in t.entries :: t.entries[k].name != name)
  {
    match FindRoute(t, name)
    case None => None
    case Some(k) => Some(t.entries[k].log)
  }

  /** The `{config, route, type}` object handed to the caller's formatter. */
  datatype Listing = Listing(config: Descriptor, route: string, kind: string)

  function ListingOf(r: Record): Listing {
    Listing(r.config, r.route, r.kind)
  }

  /** `listFunctions({functionToContainerFormat})`: one formatted listing per
      key, in key order. */
  function ListFunctions<T>(t: Table, format: Listing -> T): (r: seq<T>)
    requires WellFormed(t)
    ensures |r| == |t.keys| == |t.entries|
    ensures forall i | 0 <= i < |r| :: t.keys[i] in t.entries && r[i] == format(ListingOf(t.entries[t.keys[i]]))
  {
    KeyCountIsSize(t);
    seq(|t.keys|, i requires 0 <= i < |t.keys| => format(ListingOf(t.entries[t.keys[i]])))
  }

  /** Every record appears in the listing exactly once, at the position of its key. */
  lemma {:induction false} ListingCoversEveryRecord<T>(t: Table, format: Listing -> T, k: string)
    requires WellFormed(t) && k in t.entries
    ensures exists i | 0 <= i < |t.keys| :: t.keys[i] == k
              && ListFunctions(t, format)[i] == format(ListingOf(t.entries[k]))
    ensures forall i, j | 0 <= i < j < |t.keys| :: !(t.keys[i] == k && t.keys[j] == k)
  {
    var i :| 0 <= i < |t.keys| && t.keys[i] == k;
    KeyCountIsSize(t);
    assert ListFunctions(t, format)[i] == format(ListingOf(t.entries[k]));
  }

  /** The line `loggerForRoute(route)(msg)` pushes. */
  function LogLine(timestamp: string, msg: string): (line: string)
    ensures |line| == |timestamp| + |msg| + 2
    ensures line[..|timestamp|] == timestamp && line[|timestamp|] == ' '
    ensures line[|timestamp| + 1..|line| - 1] == msg && line[|line| - 1] == '\n'
  {
    timestamp + " " + msg + "\n"
  }

  /** `functions[route].log.push(...)`. The logger is bound to the route, not
      to a record: a missing route is a TypeError (None here). */
  function AppendLog(t: Table, route: string, timestamp: string, msg: string): (r: Option<Table>)
    requires WellFormed(t)
    ensures r.Some? <==> route in t.entries
    ensures r.Some? ==> WellFormed(r.value) && r.value.keys == t.keys && r.value.entries.Keys == t.entries.Keys
    ensures r.Some? ==> r.value.entries[route] == t.entries[route].(log := t.entries[route].log + [LogLine(timestamp, msg)])
    ensures r.Some? ==> forall k | k in t.entries && k != route :: r.value.entries[k] == t.entries[k]
  {
    if route in t.entries then
      var prior := t.entries[route];
      Some(Table(t.entries[route := prior.(log := prior.log + [LogLine(timestamp, msg)])], t.keys))
    else None
  }

  /** Logging never rewrites a line already written: the old log is a prefix,
      and the one new line ends with the message and a newline. */
  lemma {:induction false} LogIsAppendOnly(t: Table, route: string, timestamp: string, msg: string)
    requires WellFormed(t) && route in t.entries
    ensures var l := AppendLog(t, route, timestamp, msg).value.entries[route].log;
            |l| == |t.entries[route].log| + 1
            && l[..|t.entries[route].log|] == t.entries[route].log
            && l[|l| - 1] == timestamp + " " + msg + "\n"
  {
    var l := AppendLog(t, route, timestamp, msg).value.entries[route].log;
    assert l == t.entries[route].log + [LogLine(timestamp, msg)];
  }
}
