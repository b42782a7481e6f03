/** The client-side list of trending product ids: at most five are kept by
    the setter, adding refuses duplicates and a full list, removing filters.
    The two storage updates are given as success flags. */
module TrendingStore {
  import opened Wrappers
  import Seqs

  /** Whether each of the two storage updates of a set succeeds: clearing
      every product's flag, then flagging the chosen ids. */
  datatype Storage = Storage(clearOk: bool, flagOk: bool)

  /** The local list after an action and whether the action raised. */
  datatype Outcome = Outcome(ids: seq<string>, raised: bool)

  const Cap := 5

  /** `productIds.slice(0, 5)`. */
  function Limit(xs: seq<string>): (r: seq<string>)
    ensures |r| <= Cap && |r| <= |xs| && r == xs[..|r|]
    ensures |xs| <= Cap ==> r == xs
    ensures |xs| >= Cap ==> |r| == Cap
  {
    if |xs| <= Cap then xs else xs[..Cap]
  }

  /** `isTrending`: `includes`, some position of the list holds the id. */
  function IsTrending(ids: seq<string>, id: string): (r: bool)
    ensures r <==> exists i :: 0 <= i < |ids| && ids[i] == id
  {
    id in ids
  }

  /** `setTrendingProducts`: the local list becomes the first five ids in
      input order, repeats included, whether or not storage succeeds; it
      raises when the clear fails, or when the flagging of a non-empty
      list fails. */
  function SetTrending(input: seq<string>, storage: Storage): (r: Outcome)
    ensures r.ids == Limit(input)
    ensures r.raised <==> !storage.clearOk || (|input| > 0 && !storage.flagOk)
  {
    var limited := Limit(input);
    var raised := !storage.clearOk || (|limited| > 0 && !storage.flagOk);
    Outcome(limited, raised)
  }

  /** The setter neither removes repeats nor reorders: an id given twice
      among the first five is stored twice, at the same positions. */
  lemma SetKeepsRepeats(input: seq<string>, storage: Storage, i: nat, j: nat)
    requires i < j < Cap && j < |input| && input[i] == input[j]
    ensures var stored := SetTrending(input, storage).ids;
            i < j < |stored| && stored[i] == input[i] && stored[j] == input[j] && !Seqs.Distinct(stored)
  {
  }

  /** `addTrendingProduct`: appends the id through the setter unless it is
      already listed or five are listed, in which case nothing happens. The
      setter's error propagates. */
  function Add(ids: seq<string>, id: string, storage: Storage): (r: Outcome)
    ensures id in ids || |ids| >= Cap ==> r == Outcome(ids, false)
    ensures id !in ids && |ids| < Cap ==> r.ids == ids + [id] && IsTrending(r.ids, id)
    ensures id !in ids && |ids| < Cap ==> (r.raised <==> !storage.clearOk || !storage.flagOk)
  {
    if id !in ids && |ids| < Cap then SetTrending(ids + [id], storage) else Outcome(ids, false)
  }

  /** `removeTrendingProduct`: drops every copy of the id and passes the
      rest, in order, to the setter, whose error propagates. */
  function Remove(ids: seq<string>, id: string, storage: Storage): (r: Outcome)
    ensures !IsTrending(r.ids, id)
    ensures forall i :: 0 <= i < |r.ids| ==> r.ids[i] in ids
    ensures r.ids == Limit(Seqs.Filter(ids, (x: string) => x != id))
    ensures |ids| <= Cap ==> r.ids == Seqs.Filter(ids, (x: string) => x != id)
    ensures r.raised <==> !storage.clearOk || (|r.ids| > 0 && !storage.flagOk)
  {
    var kept := Seqs.Filter(ids, (x: string) => x != id);
    var r := SetTrending(kept, storage);
    assert forall i :: 0 <= i < |r.ids| ==> r.ids[i] == kept[i];
    r
  }

  /** `loadTrendingProducts`: a successful read replaces the list as it is,
      without the cap; a failed one keeps the persisted list. */
  function Load(ids: seq<string>, fetched: Option<seq<string>>): (r: seq<string>)
    ensures fetched.Some? ==> r == fetched.value
    ensures fetched.None? ==> r == ids
  {
    match fetched
    case Some(xs) => xs
    case None => ids
  }

  /** At most five ids and none twice. */
  predicate Good(ids: seq<string>) {
    |ids| <= Cap && Seqs.Distinct(ids)
  }

  lemma AddKeepsGood(ids: seq<string>, id: string, storage: Storage)
    requires Good(ids)
    ensures Good(Add(ids, id, storage).ids)
  {
    if id !in ids && |ids| < Cap {
      var r := ids + [id];
      assert forall i :: 0 <= i < |ids| ==> r[i] == ids[i];
    }
  }

  lemma RemoveKeepsGood(ids: seq<string>, id: string, storage: Storage)
    requires Good(ids)
    ensures Good(Remove(ids, id, storage).ids)
  {
    Seqs.FilterKeepsDistinct(ids, (x: string) => x != id);
  }

  /** Loading is the one action that can leave more than five ids: any
      longer list that is read back is kept whole. */
  lemma LoadIgnoresCap(ids: seq<string>, fetched: seq<string>)
    requires |fetched| > Cap
    ensures |Load(ids, Some(fetched))| > Cap && !Good(Load(ids, Some(fetched)))
  {
  }
}
