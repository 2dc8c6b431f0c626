/** `/api/item`: creating an item (POST) and listing all items (GET). */
module ItemRoute {
  import opened Common
  import opened Records
  import opened Store

  /** The fields of a create request. `price` is `None` when the field is
      absent (`undefined`); any JSON value, `null`, `0` and `false`
      included, counts as present. */
  datatype ItemRequest = ItemRequest(name: Option<string>, category: Option<string>, price: Option<Json>)

  const MissingFields: string := "Missing fields: name, category and price are required"

  /** The request's validation: name and category must be truthy, the price
      merely present. */
  predicate Complete(req: ItemRequest)
    ensures Complete(req) <==>
      req.name.Some? && |req.name.value| > 0 && req.category.Some? && |req.category.value| > 0 &&
      req.price.Some?
  {
    !Falsy(req.name) && !Falsy(req.category) && req.price.Some?
  }

  /** Any present price passes validation, falsy ones included. */
  lemma PresentPriceAccepted(name: string, category: string, price: Json)
    requires name != "" && category != ""
    ensures Complete(ItemRequest(Some(name), Some(category), Some(price)))
    ensures !Complete(ItemRequest(Some(name), Some(category), None))
  {
  }

  /** POST /api/item. `body` is `None` when the body is absent or not valid
      JSON (`req.json()` throws); a `null` body, read as `body ?? {}`, is
      `ItemRequest(None, None, None)`;
      `fault` says whether the `insertOne` (with the connection) or the
      read-back `findOne` throws. */
  method Post(db: Database, body: Option<ItemRequest>, fault: DbFault) returns (r: Response)
    requires db.Valid()
    modifies db`items, db`nextItemId
    ensures db.Valid()
    ensures body.None? ==> r == Response(500, PlainText("Server error")) && db.items == old(db.items)
    ensures body.Some? && !Complete(body.value) ==>
      r == Response(400, PlainText(MissingFields)) && db.items == old(db.items)
    ensures body.Some? && Complete(body.value) && fault.FirstCallFails? ==>
      r == Response(500, PlainText("Server error")) && db.items == old(db.items)
    // the record is inserted before the read-back, which may still fail
    ensures body.Some? && Complete(body.value) && !fault.FirstCallFails? ==>
      var created := Item(old(db.nextItemId), body.value.name.value, body.value.category.value, body.value.price.value);
      db.items == old(db.items) + [created] &&
      (forall it :: it in old(db.items) ==> it.id != created.id) &&
      (fault.SecondCallFails? ==> r == Response(500, PlainText("Server error"))) &&
      (fault.NoFailure? ==> r == Response(201, CreatedItem(Some(created))))
  {
    if body.None? {
      return Response(500, PlainText("Server error"));
    }
    var req := body.value;
    if !Complete(req) {
      return Response(400, PlainText(MissingFields));
    }
    if fault.FirstCallFails? {
      return Response(500, PlainText("Server error"));
    }
    var id := db.InsertOneItem(Item(0, req.name.value, req.category.value, req.price.value));
    if fault.SecondCallFails? {
      return Response(500, PlainText("Server error"));
    }
    ReadBackFindsInserted(old(db.items), db.items, id);
    var created := FindItem(db.items, id);
    r := Response(201, CreatedItem(created));
  }

  /** Reading back by the fresh id finds the record just appended. */
  lemma {:induction false} ReadBackFindsInserted(before: seq<Item>, after: seq<Item>, id: nat)
    requires |after| == |before| + 1 && after[..|before|] == before && after[|before|].id == id
    requires forall it :: it in before ==> it.id != id
    ensures FindItem(after, id) == Some(after[|before|])
    decreases |before|
  {
    if |before| > 0 {
      assert before[0] in before;
      assert after[1..][..|before| - 1] == before[1..];
      forall it | it in before[1..] ensures it.id != id {
        assert it in before;
      }
      ReadBackFindsInserted(before[1..], after[1..], id);
    }
  }

  /** GET /api/item: every stored item, as stored. */
  function List(items: seq<Item>): (r: Response)
    ensures r.status == 200 && r.body.ItemList? && r.body.items == items
  {
    Response(200, ItemList(items))
  }
}
