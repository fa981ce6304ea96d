/** The best-record store of script.js: one (time, moves) record per grid
    size, replaced only by a strictly better finished run (finishGame). */
module Records {
  import opened Wrappers

  /** A finished run: its time in tenths of a second and its move count. */
  datatype Record = Record(time: nat, moves: nat)

  /** The store, keyed by grid size (one `memory_best_<size>` entry each). */
  type Store = map<nat, Record>

  /** The record kept for a grid size, if there is one. */
  function Lookup(store: Store, size: nat): (r: Option<Record>)
    ensures r.Some? <==> size in store
    ensures r.Some? ==> r.value == store[size]
  {
    if size in store then Some(store[size]) else None
  }

  /** The test finishGame applies to a finished run against the stored best:
      no record yet, a strictly lower time, or an equal time with fewer moves. */
  predicate Improves(cand: Record, best: Option<Record>)
  {
    best.None? || cand.time < best.value.time
    || (cand.time == best.value.time && cand.moves < best.value.moves)
  }

  /** The lexicographic order on (time, moves): `a` is at least as good as `b`. */
  predicate NoWorse(a: Record, b: Record)
  {
    a.time < b.time || (a.time == b.time && a.moves <= b.moves)
  }

  /** finishGame's update: the new store and whether the record improved. */
  function RecordIfBetter(store: Store, size: nat, cand: Record): (r: (Store, bool))
    ensures r.1 <==> size !in store || (NoWorse(cand, store[size]) && cand != store[size])
    ensures r.1 ==> r.0 == store[size := cand]
    ensures !r.1 ==> r.0 == store
    ensures size in r.0 && NoWorse(r.0[size], cand)
  {
    if Improves(cand, Lookup(store, size)) then (store[size := cand], true) else (store, false)
  }

  /** What showBest reads after finishGame: a record for the size, no worse
      than the run just finished and no worse than the record kept before,
      and equal to one of the two; other sizes read as before. */
  lemma LookupAfterRecord(store: Store, size: nat, cand: Record)
    ensures var after := Lookup(RecordIfBetter(store, size, cand).0, size);
            after.Some? && NoWorse(after.value, cand)
            && (Lookup(store, size).Some? ==> NoWorse(after.value, Lookup(store, size).value))
            && (after == Some(cand) || after == Lookup(store, size))
    ensures forall other :: other != size ==>
              Lookup(RecordIfBetter(store, size, cand).0, other) == Lookup(store, other)
  {
  }

  /** The store after finishing runs of one grid size, in order. */
  function RecordAll(store: Store, size: nat, cands: seq<Record>): (r: Store)
    decreases cands
  {
    if cands == [] then store
    else RecordAll(RecordIfBetter(store, size, cands[0]).0, size, cands[1..])
  }

  /** After any series of finished runs of one size, the stored record is
      lexicographically no worse than every one of them, it is one of them or
      the record kept before, it is no worse than that record, and the
      records of other sizes are untouched. */
  lemma {:induction false} RecordAllIsBest(store: Store, size: nat, cands: seq<Record>)
    requires cands != []
    decreases cands
    ensures size in RecordAll(store, size, cands)
    ensures forall k :: 0 <= k < |cands| ==> NoWorse(RecordAll(store, size, cands)[size], cands[k])
    ensures RecordAll(store, size, cands)[size] in cands
            || (size in store && RecordAll(store, size, cands)[size] == store[size])
    ensures size in store ==> NoWorse(RecordAll(store, size, cands)[size], store[size])
    ensures forall s :: s != size ==> (s in RecordAll(store, size, cands) <==> s in store)
    ensures forall s :: s != size && s in store ==> RecordAll(store, size, cands)[s] == store[s]
  {
    var next := RecordIfBetter(store, size, cands[0]).0;
    if |cands| > 1 {
      RecordAllIsBest(next, size, cands[1..]);
      var rest := cands[1..];
      assert RecordAll(store, size, cands) == RecordAll(next, size, rest);
      var final := RecordAll(next, size, rest);
      forall k | 0 <= k < |cands|
        ensures NoWorse(final[size], cands[k])
      {
        if k > 0 { assert cands[k] == rest[k - 1]; }
      }
    } else {
      assert RecordAll(store, size, cands) == RecordAll(next, size, []);
    }
  }
}
