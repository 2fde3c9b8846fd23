/** The selection made by a trigger's bus listener `handleTrigger`
    (src/index.js:107-116): every record whose `type` equals the trigger's
    name, in key order. */
module FanOut {
  import opened FunctionTable

  /** `r` lists some of the elements of `s`, in the order `s` has them. */
  predicate Subsequence(r: seq<string>, s: seq<string>)
    decreases |s|
  {
    r == [] || (s != [] && ((r[0] == s[0] && Subsequence(r[1..], s[1..])) || Subsequence(r, s[1..])))
  }

  predicate Subscribes(t: Table, k: string, topic: string) {
    k in t.entries && t.entries[k].kind == topic
  }

  /** `Object.keys(functions).filter(key => functions[key].type === topic)`
      over the keys from position `i` on. */
  function SubscribersFrom(t: Table, topic: string, i: nat): (r: seq<string>)
    requires i <= |t.keys|
    decreases |t.keys| - i
    ensures forall j | 0 <= j < |r| :: Subscribes(t, r[j], topic)
    ensures forall k | k in r :: k in t.keys[i..]
    ensures forall j | i <= j < |t.keys| && Subscribes(t, t.keys[j], topic) :: t.keys[j] in r
    ensures Subsequence(r, t.keys[i..])
  {
    if i == |t.keys| then []
    else
      var rest := SubscribersFrom(t, topic, i + 1);
      assert forall k | k in t.keys[i + 1..] :: k in t.keys[i..];
      assert t.keys[i..][1..] == t.keys[i + 1..];
      if Subscribes(t, t.keys[i], topic) then [t.keys[i]] + rest else rest
  }

  function Subscribers(t: Table, topic: string): (r: seq<string>)
    ensures forall j | 0 <= j < |r| :: Subscribes(t, r[j], topic)
    ensures forall j | 0 <= j < |t.keys| && Subscribes(t, t.keys[j], topic) :: t.keys[j] in r
    ensures Subsequence(r, t.keys)
  {
    assert t.keys[0..] == t.keys;
    SubscribersFrom(t, topic, 0)
  }

  lemma {:induction false} SubscribersFromCount(t: Table, topic: string, i: nat, k: string)
    requires WellFormed(t) && i <= |t.keys|
    decreases |t.keys| - i
    ensures multiset(SubscribersFrom(t, topic, i))[k] ==
              if k in t.keys[i..] && Subscribes(t, k, topic) then 1 else 0
  {
    if i < |t.keys| {
      SubscribersFromCount(t, topic, i + 1, k);
      assert t.keys[i..] == [t.keys[i]] + t.keys[i + 1..];
      if t.keys[i] == k {
        assert k !in t.keys[i + 1..];
      }
    }
  }

  /** One run of a listener's `handleTrigger` reaches every record of the
      trigger's type exactly once and no other record. (An emission runs
      every listener subscribed to its topic, each doing this once.) */
  lemma SubscriberSelectedOnce(t: Table, topic: string, k: string)
    requires WellFormed(t)
    ensures multiset(Subscribers(t, topic))[k] == if Subscribes(t, k, topic) then 1 else 0
  {
    SubscribersFromCount(t, topic, 0, k);
    assert t.keys[0..] == t.keys;
  }
}
