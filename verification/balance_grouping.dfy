/** Grouping of balance query results by address, the `forEach` that both the
    Redux thunk and the hook run over `Promise.allSettled` results. */
module BalanceGrouping {

  /** A settled promise. */
  datatype Settled<T> = Fulfilled(value: T) | Rejected

  /** One step of the loop: `(balances[a] ||= []).push(x)`. */
  function Push<T>(m: map<string, seq<T>>, a: string, x: T): map<string, seq<T>> {
    m[a := (if a in m then m[a] else []) + [x]]
  }

  /** The map built by pushing every (address, value) entry in order. */
  function Group<T>(entries: seq<(string, T)>): map<string, seq<T>>
    decreases |entries|
  {
    if entries == [] then map[]
    else
      var last := entries[|entries| - 1];
      Push(Group(entries[..|entries| - 1]), last.0, last.1)
  }

  /** The values of the entries for address `a`, in order. */
  function EntriesFor<T>(entries: seq<(string, T)>, a: string): seq<T>
    decreases |entries|
  {
    if entries == [] then []
    else
      var last := entries[|entries| - 1];
      EntriesFor(entries[..|entries| - 1], a) + (if last.0 == a then [last.1] else [])
  }

  lemma {:induction false} EntriesForNonEmpty<T>(entries: seq<(string, T)>, a: string)
    ensures EntriesFor(entries, a) != [] <==> exists i :: 0 <= i < |entries| && entries[i].0 == a
  {
    if entries != [] {
      var init := entries[..|entries| - 1];
      EntriesForNonEmpty(init, a);
      if exists i :: 0 <= i < |entries| && entries[i].0 == a {
        var i :| 0 <= i < |entries| && entries[i].0 == a;
        if i < |init| { assert init[i] == entries[i]; }
      }
      if exists i :: 0 <= i < |init| && init[i].0 == a {
        var i :| 0 <= i < |init| && init[i].0 == a;
        assert entries[i] == init[i];
      }
    }
  }

  /** An address is a key exactly when some entry carries it, and its list
      holds that address's values in the order they came. */
  lemma {:induction false} GroupIsEntriesFor<T>(entries: seq<(string, T)>)
    ensures forall a :: a in Group(entries) <==> EntriesFor(entries, a) != []
    ensures forall a :: a in Group(entries) ==> Group(entries)[a] == EntriesFor(entries, a)
  {
    if entries != [] {
      GroupIsEntriesFor(entries[..|entries| - 1]);
    }
  }

  /** Some entry is keyed by `a`. */
  predicate KeyedBy<T>(entries: seq<(string, T)>, a: string) {
    exists i :: 0 <= i < |entries| && entries[i].0 == a
  }

  /** Keys and lists of the grouped map, stated over the entries. */
  lemma GroupKeys<T>(entries: seq<(string, T)>, a: string)
    ensures a in Group(entries) <==> KeyedBy(entries, a)
    ensures a in Group(entries) ==> Group(entries)[a] == EntriesFor(entries, a)
  {
    GroupIsEntriesFor(entries);
    EntriesForNonEmpty(entries, a);
  }

  /** The number of values held in the map, over all keys. */
  ghost function TotalEntries<T>(m: map<string, seq<T>>): nat
    decreases |m|
  {
    if m.Keys == {} then 0
    else
      var k :| k in m.Keys;
      |m[k]| + TotalEntries(m - {k})
  }

  lemma {:induction false} TotalEntriesRemove<T>(m: map<string, seq<T>>, k: string)
    requires k in m
    ensures TotalEntries(m) == |m[k]| + TotalEntries(m - {k})
    decreases |m|
  {
    var j :| j in m.Keys && TotalEntries(m) == |m[j]| + TotalEntries(m - {j});
    if j != k {
      assert |m - {j}| < |m| by { assert (m - {j}).Keys == m.Keys - {j}; }
      assert |m - {k}| < |m| by { assert (m - {k}).Keys == m.Keys - {k}; }
      TotalEntriesRemove(m - {j}, k);
      TotalEntriesRemove(m - {k}, j);
      assert m - {j} - {k} == m - {k} - {j};
    }
  }

  lemma TotalAfterPush<T>(m: map<string, seq<T>>, a: string, x: T)
    ensures TotalEntries(Push(m, a, x)) == TotalEntries(m) + 1
  {
    var p := Push(m, a, x);
    TotalEntriesRemove(p, a);
    if a in m {
      TotalEntriesRemove(m, a);
      assert p - {a} == m - {a};
    } else {
      assert p - {a} == m;
    }
  }

  /** No entry is lost or duplicated: the grouped map holds as many values as
      there were entries. */
  lemma {:induction false} GroupTotal<T>(entries: seq<(string, T)>)
    ensures TotalEntries(Group(entries)) == |entries|
  {
    if entries != [] {
      var last := entries[|entries| - 1];
      GroupTotal(entries[..|entries| - 1]);
      TotalAfterPush(Group(entries[..|entries| - 1]), last.0, last.1);
    }
  }
}
