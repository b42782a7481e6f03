/** The server procedure that replaces the trending selection: clear every
    product's trending flag and rank, then flag the given ids one by one
    with ranks 1, 2, ... The product table is a map from id to its two
    trending columns; the storage answers are given as inputs. */
module TrendingUpdate {
  import opened Wrappers

  /** The `is_trending` and `trending_order` columns of one product. */
  datatype Row = Row(trending: bool, order: Option<nat>)

  type Table = map<string, Row>

  /** What storage answers: an error for the clear, and for each index of
      the input the error of that update (an index past the end succeeds). */
  datatype Storage = Storage(clearError: Option<string>, rankErrors: seq<Option<string>>)

  datatype Reply =
    | Updated
    | InputRejected
    | Failed(message: string)

  /** The input schema: at most five ids. */
  const MaxIds := 5

  const Unranked := Row(false, None)

  /** The clearing update: every product loses its flag and rank. */
  function Clear(t: Table): (r: Table)
    ensures r.Keys == t.Keys
    ensures forall k :: k in r ==> r[k] == Unranked
  {
    map k | k in t :: Unranked
  }

  /** One ranking update; an id with no product matches no row. */
  function Rank(t: Table, id: string, order: nat): (r: Table)
    ensures r.Keys == t.Keys
    ensures id in t ==> r[id] == Row(true, Some(order))
    ensures forall k :: k in t && k != id ==> r[k] == t[k]
  {
    if id in t then t[id := Row(true, Some(order))] else t
  }

  /** The ranking updates for `ids`, in order, the i-th with rank i + 1. */
  function Ranked(t: Table, ids: seq<string>): Table
  {
    if |ids| == 0 then t else Rank(Ranked(t, ids[..|ids| - 1]), ids[|ids| - 1], |ids|)
  }

  /** Index of the last occurrence of `id`. */
  function LastIndex(ids: seq<string>, id: string): (i: nat)
    requires id in ids
    ensures i < |ids| && ids[i] == id
    ensures forall j :: i < j < |ids| ==> ids[j] != id
  {
    if ids[|ids| - 1] == id then |ids| - 1 else LastIndex(ids[..|ids| - 1], id)
  }

  /** Ranking neither adds nor removes rows. */
  lemma {:induction false} RankedKeys(t: Table, ids: seq<string>)
    ensures Ranked(t, ids).Keys == t.Keys
  {
    if |ids| > 0 {
      RankedKeys(t, ids[..|ids| - 1]);
    }
  }

  /** After ranking, a listed id's row carries its last 1-based position;
      every other row is as it was. */
  lemma {:induction false} RankedRow(t: Table, ids: seq<string>, k: string)
    requires k in t
    ensures k in Ranked(t, ids)
    ensures Ranked(t, ids)[k] == if k in ids then Row(true, Some(LastIndex(ids, k) + 1)) else t[k]
  {
    RankedKeys(t, ids);
    if |ids| > 0 {
      var init := ids[..|ids| - 1];
      var last := ids[|ids| - 1];
      RankedKeys(t, init);
      RankedRow(t, init, k);
      assert ids == init + [last];
      assert k in ids <==> k in init || k == last;
    }
  }

  /** `updateTrendingProductsProcedure`: the returned table is the product
      table after the procedure, the reply what the caller receives. */
  method UpdateTrending(table: Table, ids: seq<string>, storage: Storage) returns (r: Table, reply: Reply)
    ensures |ids| > MaxIds ==> r == table && reply == InputRejected
    ensures |ids| <= MaxIds ==> reply != InputRejected
    ensures |ids| <= MaxIds && storage.clearError.Some? ==>
              r == table && reply == Failed("Failed to clear trending products: " + storage.clearError.value)
    ensures |ids| <= MaxIds && storage.clearError.None? ==>
              (reply == Updated <==> forall i :: 0 <= i < |ids| && i < |storage.rankErrors| ==> storage.rankErrors[i].None?)
    ensures reply == Updated ==> r == Ranked(Clear(table), ids)
    ensures reply.Failed? && storage.clearError.None? ==>
              exists i :: 0 <= i < |ids| && i < |storage.rankErrors| && storage.rankErrors[i].Some?
                && (forall j :: 0 <= j < i ==> storage.rankErrors[j].None?)
                && r == Ranked(Clear(table), ids[..i])
                && reply.message == "Failed to update trending product " + ids[i] + ": " + storage.rankErrors[i].value
  {
    if |ids| > MaxIds {
      return table, InputRejected;
    }
    if storage.clearError.Some? {
      return table, Failed("Failed to clear trending products: " + storage.clearError.value);
    }
    r := Clear(table);
    var i := 0;
    while i < |ids|
      invariant 0 <= i <= |ids|
      invariant r == Ranked(Clear(table), ids[..i])
      invariant forall j :: 0 <= j < i && j < |storage.rankErrors| ==> storage.rankErrors[j].None?
    {
      if i < |storage.rankErrors| && storage.rankErrors[i].Some? {
        return r, Failed("Failed to update trending product " + ids[i] + ": " + storage.rankErrors[i].value);
      }
      assert ids[..i + 1][..i] == ids[..i];
      r := Rank(r, ids[i], i + 1);
      i := i + 1;
    }
    assert ids[..i] == ids;
    reply := Updated;
  }

  /** After a successful update exactly the listed ids of existing products
      are trending, each ranked by its last position; the rest are
      cleared. */
  lemma SuccessfulUpdateRows(table: Table, ids: seq<string>)
    ensures Ranked(Clear(table), ids).Keys == table.Keys
    ensures forall k :: k in table ==> (Ranked(Clear(table), ids)[k].trending <==> k in ids)
    ensures forall k :: k in table && k in ids ==> Ranked(Clear(table), ids)[k].order == Some(LastIndex(ids, k) + 1)
    ensures forall k :: k in table && k !in ids ==> Ranked(Clear(table), ids)[k] == Unranked
  {
    var c := Clear(table);
    RankedKeys(c, ids);
    forall k | k in table
      ensures Ranked(c, ids)[k] == if k in ids then Row(true, Some(LastIndex(ids, k) + 1)) else Unranked
    {
      RankedRow(c, ids, k);
    }
  }

  /** An empty selection clears every row. */
  lemma EmptySelectionClears(table: Table)
    ensures Ranked(Clear(table), []) == Clear(table)
  {
  }
}
