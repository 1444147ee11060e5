/** The listings as the client holds them, the normalisation of a list response, and the
    three list updates of the admin screens: remove by id, replace by id, append. */
module Listings {
  import opened Wrappers

  /** A car-part row as the API returns it; `images` holds public paths such as
      "/uploads/<file>", `image` is "" when the row has none. Prices are whole numbers here. */
  datatype Product = Product(
    id: int, name: string, price: int, car: string, condition: string, stock_status: string,
    part: string, category: string, images: seq<string>, image: string)

  /** A used-car row as the API returns it. */
  datatype UsedCar = UsedCar(
    id: int, make: string, model: string, year: int, price: int, mileage: int,
    images: seq<string>, image: string)

  /** The two tabs of the storefront and of the admin screen. */
  datatype Tab = CarParts | UsedCars

  /** What a list request settles with: a JSON array, some other JSON value (an error
      object), or a thrown error (network failure, unparsable body). */
  datatype ListReply<T> = JsonArray(items: seq<T>) | JsonOther | Thrown

  /** `Array.isArray(data) ? data : []`, with the thrown case also giving `[]`. */
  function ListOrEmpty<T>(reply: ListReply<T>): (xs: seq<T>)
    ensures reply.JsonArray? ==> xs == reply.items
    ensures !reply.JsonArray? ==> xs == []
  {
    match reply
    case JsonArray(items) => items
    case JsonOther => []
    case Thrown => []
  }

  /** A value `res.json()` gives for a create or update reply: the row the server sent
      back, or the `{ error: "Internal server error" }` object of its failure reply. The
      admin handlers store either one in their lists without looking. */
  datatype Entry<T> = Row(row: T) | ErrorObject(error: string)

  /** A list reply as the admin screen stores it: every item a row. */
  function Rows<T>(xs: seq<T>): (es: seq<Entry<T>>)
    ensures |es| == |xs|
    ensures forall k :: 0 <= k < |es| ==> es[k] == Row(xs[k])
  {
    seq(|xs|, k requires 0 <= k < |xs| => Row(xs[k]))
  }

  /** `list.filter((x) => x.id !== id)`; `idOf` is None for an entry without an id, which
      therefore always passes the filter. */
  function RemoveById<T(!new)>(xs: seq<T>, id: int, idOf: T -> Option<int>): (r: seq<T>)
    ensures |r| <= |xs|
    ensures forall x :: x in r <==> x in xs && idOf(x) != Some(id)
  {
    if xs == [] then []
    else if idOf(xs[0]) != Some(id) then [xs[0]] + RemoveById(xs[1..], id, idOf)
    else RemoveById(xs[1..], id, idOf)
  }

  /** Removing distributes over concatenation, which is what keeps the kept entries in
      their original order. */
  lemma {:induction false} RemoveByIdAppend<T(!new)>(xs: seq<T>, ys: seq<T>, id: int, idOf: T -> Option<int>)
    ensures RemoveById(xs + ys, id, idOf) == RemoveById(xs, id, idOf) + RemoveById(ys, id, idOf)
  {
    if xs != [] {
      assert (xs + ys)[0] == xs[0] && (xs + ys)[1..] == xs[1..] + ys;
      RemoveByIdAppend(xs[1..], ys, id, idOf);
      var rest, tail := RemoveById(xs[1..], id, idOf), RemoveById(ys, id, idOf);
      assert [xs[0]] + (rest + tail) == ([xs[0]] + rest) + tail;
    } else {
      assert xs + ys == ys;
    }
  }

  /** A list without the id is left exactly as it was. */
  lemma {:induction false} RemoveAbsentId<T(!new)>(xs: seq<T>, id: int, idOf: T -> Option<int>)
    requires forall x :: x in xs ==> idOf(x) != Some(id)
    ensures RemoveById(xs, id, idOf) == xs
  {
    if xs != [] {
      assert forall x :: x in xs[1..] ==> x in xs;
      RemoveAbsentId(xs[1..], id, idOf);
    }
  }

  /** Deleting the same id twice is deleting it once. */
  lemma RemoveByIdIdempotent<T(!new)>(xs: seq<T>, id: int, idOf: T -> Option<int>)
    ensures RemoveById(RemoveById(xs, id, idOf), id, idOf) == RemoveById(xs, id, idOf)
  {
    RemoveAbsentId(RemoveById(xs, id, idOf), id, idOf);
  }

  /** `list.map((x) => (x.id === id ? updated : x))`. */
  function ReplaceById<T>(xs: seq<T>, id: int, updated: T, idOf: T -> Option<int>): (r: seq<T>)
    ensures |r| == |xs|
    ensures forall k :: 0 <= k < |xs| ==> r[k] == if idOf(xs[k]) == Some(id) then updated else xs[k]
  {
    seq(|xs|, k requires 0 <= k < |xs| => if idOf(xs[k]) == Some(id) then updated else xs[k])
  }

  /** Replacing by an id that no entry has changes nothing; replacing with a row that
      keeps the id and then replacing again with the same row changes nothing more. */
  lemma ReplaceByIdStable<T(!new)>(xs: seq<T>, id: int, updated: T, idOf: T -> Option<int>)
    ensures (forall x :: x in xs ==> idOf(x) != Some(id)) ==> ReplaceById(xs, id, updated, idOf) == xs
    ensures idOf(updated) == Some(id) ==>
      ReplaceById(ReplaceById(xs, id, updated, idOf), id, updated, idOf) == ReplaceById(xs, id, updated, idOf)
  {
    if forall x :: x in xs ==> idOf(x) != Some(id) {
      forall k | 0 <= k < |xs| ensures ReplaceById(xs, id, updated, idOf)[k] == xs[k] {
        assert xs[k] in xs;
      }
    }
  }

  /** `[...list, x]`. */
  function Append<T>(xs: seq<T>, x: T): (r: seq<T>)
    ensures |r| == |xs| + 1
    ensures r[..|xs|] == xs && r[|xs|] == x
  {
    xs + [x]
  }

  /** Deleting a freshly appended entry whose id was new gives the list back. */
  lemma RemoveUndoesAppend<T(!new)>(xs: seq<T>, x: T, idOf: T -> Option<int>)
    requires idOf(x).Some?
    requires forall y :: y in xs ==> idOf(y) != idOf(x)
    ensures RemoveById(Append(xs, x), idOf(x).value, idOf) == xs
  {
    RemoveByIdAppend(xs, [x], idOf(x).value, idOf);
    RemoveAbsentId(xs, idOf(x).value, idOf);
    assert RemoveById([x], idOf(x).value, idOf) == [];
  }

  /** `p.id` of an entry of the admin product list: an error object has none. */
  function ProductId(e: Entry<Product>): Option<int>
  {
    if e.Row? then Some(e.row.id) else None
  }

  /** `car.id` of an entry of the admin used-car list. */
  function UsedCarId(e: Entry<UsedCar>): Option<int>
  {
    if e.Row? then Some(e.row.id) else None
  }

  /** A failed update takes the edited product out of the list: its place holds the error
      object, which no later edit or delete reaches by that id, and the length is kept. */
  lemma FailedUpdateLosesRow(xs: seq<Entry<Product>>, id: int, error: string)
    ensures |ReplaceById(xs, id, ErrorObject(error), ProductId)| == |xs|
    ensures forall e :: e in ReplaceById(xs, id, ErrorObject(error), ProductId) ==> ProductId(e) != Some(id)
    ensures (exists k :: 0 <= k < |xs| && ProductId(xs[k]) == Some(id)) ==>
      ErrorObject(error) in ReplaceById(xs, id, ErrorObject(error), ProductId)
  {
    var r := ReplaceById(xs, id, ErrorObject(error), ProductId);
    forall e | e in r ensures ProductId(e) != Some(id) {
      var k :| 0 <= k < |r| && r[k] == e;
    }
  }

  /** An error object stored in a list is never deleted by id: only a reload drops it. */
  lemma ErrorObjectSurvivesDelete<T(!new)>(xs: seq<Entry<T>>, id: int, error: string, idOf: Entry<T> -> Option<int>)
    requires ErrorObject(error) in xs && idOf(ErrorObject(error)) == None
    ensures ErrorObject(error) in RemoveById(xs, id, idOf)
  {
  }
}
