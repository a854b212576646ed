/** The "related chunks" list of the chunk detail page: how a recommendation
    reply is merged into the recommendations already on screen
    (frontend/search/src/components/SingleChunkPage.tsx, `fetchRecommendations`). */
module Recommendations {
  import opened Seqs

  /** A recommended chunk (`ChunkMetadataWithScore`); only the identifier
      takes part in the merge, the rest of the record is carried along. */
  datatype Rec = Rec(id: string, content: string, score: real)

  /** The number of chunks asked for beyond the ones already shown. */
  const PageIncrement: nat := 10

  /** `prev.some((c) => c.id == id)`. */
  predicate HasId(prev: seq<Rec>, id: string) {
    exists i :: 0 <= i < |prev| && prev[i].id == id
  }

  /** The filter callback: a reply item is new when no shown item has its id. */
  function IsNew(prev: seq<Rec>): Rec -> bool {
    (d: Rec) => !HasId(prev, d.id)
  }

  function Id(d: Rec): string {
    d.id
  }

  /** The `limit` sent with a recommendation request: every chunk already
      shown is asked for again, plus one more page. */
  function RequestLimit(prev: seq<Rec>): (limit: nat)
    ensures limit > |prev|
    ensures limit - |prev| == PageIncrement
  {
    |prev| + PageIncrement
  }

  /** The reply items whose id is not among the previously shown ones
      (`deduped_data`). Items are compared with `prev` only, never with
      each other. */
  function NewItems(prev: seq<Rec>, reply: seq<Rec>): (r: seq<Rec>)
    ensures forall k :: 0 <= k < |r| ==> r[k] in reply && !HasId(prev, r[k].id)
    ensures forall k :: 0 <= k < |reply| && !HasId(prev, reply[k].id) ==> reply[k] in r
  {
    Filter(reply, IsNew(prev))
  }

  /** `[...prev_recommendations, ...deduped_data]`. */
  function Merge(prev: seq<Rec>, reply: seq<Rec>): (r: seq<Rec>)
    ensures |r| >= |prev| && r[..|prev|] == prev
    ensures forall k :: |prev| <= k < |r| ==> r[k] in reply && !HasId(prev, r[k].id)
    ensures forall k :: 0 <= k < |reply| && !HasId(prev, reply[k].id) ==> reply[k] in r[|prev|..]
  {
    var added := NewItems(prev, reply);
    assert (prev + added)[|prev|..] == added;
    prev + added
  }

  /** The appended part keeps the order of the reply. */
  lemma MergeKeepsReplyOrder(prev: seq<Rec>, reply: seq<Rec>)
    ensures IsSubseq(Merge(prev, reply)[|prev|..], reply)
  {
    assert Merge(prev, reply)[|prev|..] == NewItems(prev, reply);
    FilterIsSubseq(reply, IsNew(prev));
  }

  /** The merged length is the old length plus the number of reply
      positions whose id was not shown before (duplicates within the reply
      are counted once per position). */
  lemma MergeLength(prev: seq<Rec>, reply: seq<Rec>)
    ensures |Merge(prev, reply)| == |prev| + |set k | 0 <= k < |reply| && !HasId(prev, reply[k].id)|
  {
    FilterLength(reply, IsNew(prev));
    assert Positions(reply, IsNew(prev)) == set k | 0 <= k < |reply| && !HasId(prev, reply[k].id);
  }

  /** With no repeated id in the shown list nor in the reply, the merged
      list has no repeated id either. */
  lemma MergeDistinct(prev: seq<Rec>, reply: seq<Rec>)
    requires DistinctBy(prev, Id)
    requires DistinctBy(reply, Id)
    ensures DistinctBy(Merge(prev, reply), Id)
  {
    var added := NewItems(prev, reply);
    FilterDistinct(reply, IsNew(prev), Id);
    forall i, j | 0 <= i < |prev| && 0 <= j < |added|
      ensures Id(prev[i]) != Id(added[j])
    {
      assert !HasId(prev, added[j].id);
    }
    DistinctConcat(prev, added, Id);
  }

  /** With nothing shown yet, the reply is taken as it is. */
  lemma MergeIntoEmpty(reply: seq<Rec>)
    ensures Merge([], reply) == reply
  {
    forall k | 0 <= k < |reply| ensures IsNew([])(reply[k]) {
      assert !HasId([], reply[k].id);
    }
    FilterAll(reply, IsNew([]));
  }

  /** The deduplication is only against the shown list: an id that the
      reply repeats reaches the merged list twice. */
  lemma ReplyDuplicatesSurvive()
    ensures var a := Rec("a", "first", 0.5);
            var b := Rec("a", "second", 0.25);
            Merge([], [a, b]) == [a, b] && !DistinctBy(Merge([], [a, b]), Id)
  {
    var a := Rec("a", "first", 0.5);
    var b := Rec("a", "second", 0.25);
    MergeIntoEmpty([a, b]);
    assert Id([a, b][0]) == Id([a, b][1]);
  }
}
