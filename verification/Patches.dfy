/** Replaying a list of edits on a keyed state. */
module Patches {
  import opened Options

  /** The entry under `key` becomes `value`, or disappears. */
  datatype Edit<V> = Edit(key: string, value: Option<V>)

  function Lookup<V>(m: map<string, V>, k: string): Option<V> {
    if k in m then Some(m[k]) else None
  }

  function Apply<V>(m: map<string, V>, e: Edit<V>): map<string, V> {
    match e.value
    case Some(v) => m[e.key := v]
    case None => m - {e.key}
  }

  function Replay<V>(m: map<string, V>, edits: seq<Edit<V>>): map<string, V> {
    if edits == [] then m else Apply(Replay(m, edits[..|edits| - 1]), edits[|edits| - 1])
  }

  lemma {:induction false} ReplayConcat<V>(m: map<string, V>, a: seq<Edit<V>>, b: seq<Edit<V>>)
    ensures Replay(m, a + b) == Replay(Replay(m, a), b)
  {
    if b == [] {
      assert a + b == a;
    } else {
      var n := |b| - 1;
      assert (a + b)[..|a + b| - 1] == a + b[..n];
      ReplayConcat(m, a, b[..n]);
    }
  }

  ghost predicate DistinctKeys<V>(edits: seq<Edit<V>>) {
    forall i, j | 0 <= i < j < |edits| :: edits[i].key != edits[j].key
  }

  ghost predicate Edited<V>(edits: seq<Edit<V>>, k: string) {
    exists i :: 0 <= i < |edits| && edits[i].key == k
  }

  /** Edits that touch each key at most once, set it to its new entry, and touch every key whose entry
      differs. */
  ghost predicate Faithful<V>(before: map<string, V>, after: map<string, V>, edits: seq<Edit<V>>) {
    && DistinctKeys(edits)
    && (forall i | 0 <= i < |edits| :: edits[i].value == Lookup(after, edits[i].key))
    && (forall k :: Lookup(before, k) != Lookup(after, k) ==> Edited(edits, k))
  }

  lemma {:induction false} ReplayAt<V>(m: map<string, V>, after: map<string, V>, edits: seq<Edit<V>>, k: string)
    requires DistinctKeys(edits) && forall i | 0 <= i < |edits| :: edits[i].value == Lookup(after, edits[i].key)
    ensures Lookup(Replay(m, edits), k) == if Edited(edits, k) then Lookup(after, k) else Lookup(m, k)
  {
    if edits != [] {
      var n := |edits| - 1;
      ReplayAt(m, after, edits[..n], k);
      if Edited(edits, k) && edits[n].key != k {
        var i :| 0 <= i < |edits| && edits[i].key == k;
        assert edits[..n][i].key == k;
      }
    }
  }

  /** Replaying a faithful patch turns the old state into the new one exactly. */
  lemma ReplayFaithful<V>(before: map<string, V>, after: map<string, V>, edits: seq<Edit<V>>)
    requires Faithful(before, after, edits)
    ensures Replay(before, edits) == after
  {
    var r := Replay(before, edits);
    forall k
      ensures Lookup(r, k) == Lookup(after, k)
    {
      ReplayAt(before, after, edits, k);
    }
    assert forall k :: k in r <==> k in after by {
      forall k
        ensures k in r <==> k in after
      {
        assert Lookup(r, k) == Lookup(after, k);
      }
    }
    forall k | k in after
      ensures r[k] == after[k]
    {
      assert Lookup(r, k) == Lookup(after, k);
    }
  }

  function Concat<V>(patches: seq<seq<Edit<V>>>): seq<Edit<V>> {
    if patches == [] then [] else Concat(patches[..|patches| - 1]) + patches[|patches| - 1]
  }

  /** Faithful patches telescope: replayed one after the other over the first state they give the last. */
  lemma {:induction false} PatchesTelescope<V>(states: seq<map<string, V>>, patches: seq<seq<Edit<V>>>)
    requires |states| == |patches| + 1
    requires forall i | 0 <= i < |patches| :: Faithful(states[i], states[i + 1], patches[i])
    ensures Replay(states[0], Concat(patches)) == states[|patches|]
  {
    if patches != [] {
      var n := |patches| - 1;
      PatchesTelescope(states[..n + 1], patches[..n]);
      ReplayConcat(states[0], Concat(patches[..n]), patches[n]);
      ReplayFaithful(states[n], states[n + 1], patches[n]);
    }
  }
}
