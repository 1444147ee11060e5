/** The admin dialog that edits a car part: its form state, the multipart body it sends,
    the list update it applies to the reply, and the current images it shows. */
module EditProductDialog {
  import opened Wrappers
  import opened Strings
  import opened Listings
  import opened FormData
  import opened Admin
  import Storefront
  import Server

  /** The text entries of `handleSubmit`, in the order it appends them; there is no
      category entry, and the stock status goes under the camel-case key. */
  function EditTextEntries(name: string, price: int, car: string, condition: string, stockStatus: string, part: string): seq<FormEntry>
  {
    [ FormEntry("name", Text(name)), FormEntry("price", Text(IntToString(price))), FormEntry("car", Text(car)),
      FormEntry("condition", Text(condition)), FormEntry("stockStatus", Text(stockStatus)), FormEntry("part", Text(part)) ]
  }

  /** The dialog's state: one `useState` per field, seeded from the product. */
  class EditProductForm {
    const productId: int
    const currentImages: seq<string>
    var name: string
    var price: int
    var car: string
    var condition: string
    var stockStatus: string
    var part: string
    var files: Option<seq<LocalFile>>

    /** Every field copies the product's value; the stock status comes from the row's
        `stock_status`, and no file is selected. Category is not part of the form. */
    constructor (product: Product)
      ensures productId == product.id && currentImages == product.images
      ensures name == product.name && price == product.price && car == product.car
      ensures condition == product.condition && stockStatus == product.stock_status && part == product.part
      ensures files == None
    {
      productId, currentImages := product.id, product.images;
      name, price, car := product.name, product.price, product.car;
      condition, stockStatus, part := product.condition, product.stock_status, product.part;
      files := None;
    }

    /** `handleSubmit`'s request: PUT to the product's URL with the six text entries in
        order and then one "images" entry per selected file; never a "category" entry. */
    method Submit() returns (url: string, entries: seq<FormEntry>)
      ensures url == ProductsEndpoint + "/" + IntToString(productId)
      ensures entries == EditTextEntries(name, price, car, condition, stockStatus, part) + FileEntries(files)
      ensures forall k :: 0 <= k < |entries| ==> entries[k].key != "category"
    {
      entries := [];
      entries := entries + [FormEntry("name", Text(name))];
      entries := entries + [FormEntry("price", Text(IntToString(price)))];
      entries := entries + [FormEntry("car", Text(car))];
      entries := entries + [FormEntry("condition", Text(condition))];
      entries := entries + [FormEntry("stockStatus", Text(stockStatus))];
      entries := entries + [FormEntry("part", Text(part))];
      assert entries == EditTextEntries(name, price, car, condition, stockStatus, part);
      entries := AppendFiles(entries, files);
      url := ProductsEndpoint + "/" + IntToString(productId);
    }

    /** The reply handler: whatever the reply parsed to replaces, by id, the edited product
        in the admin list; the status is not looked at, so a failure reply's error object
        takes the row's place. A reply that never parses (`None`: the request or `res.json()`
        rejected) changes nothing. */
    method ApplyReply(admin: AdminPanel, reply: Option<Entry<Product>>)
      modifies admin`products
      ensures reply.Some? ==> admin.products == ReplaceById(old(admin.products), productId, reply.value, ProductId)
      ensures reply.None? ==> admin.products == old(admin.products)
    {
      if reply.Some? {
        admin.products := ReplaceById(admin.products, productId, reply.value, ProductId);
      }
    }

    /** The `src` of each current image: upload paths are served by the API host, other
        sources are used as they are. */
    function CurrentImageSrcs(): (srcs: seq<string>)
      reads this
      ensures |srcs| == |currentImages|
      ensures forall k :: 0 <= k < |srcs| ==>
        srcs[k] == if StartsWith(currentImages[k], Server.UploadsRoute) then Storefront.ApiHost + currentImages[k] else currentImages[k]
    {
      seq(|currentImages|, k requires 0 <= k < |currentImages| reads this => Storefront.ResolveImageSrc(currentImages[k]))
    }
  }

  /** The text fields a server would read from the edit body: the six entries, keyed as
      sent; the selected files add none. */
  lemma EditBodyFields(name: string, price: int, car: string, condition: string, stockStatus: string, part: string,
                       files: Option<seq<LocalFile>>)
    ensures TextFields(EditTextEntries(name, price, car, condition, stockStatus, part) + FileEntries(files)) ==
      map["name" := Server.Str(name), "price" := Server.Str(IntToString(price)), "car" := Server.Str(car),
          "condition" := Server.Str(condition), "stockStatus" := Server.Str(stockStatus), "part" := Server.Str(part)]
  {
    var entries := EditTextEntries(name, price, car, condition, stockStatus, part);
    var f1 := map["name" := Server.Str(name)];
    var f2 := f1["price" := Server.Str(IntToString(price))];
    var f3 := f2["car" := Server.Str(car)];
    var f4 := f3["condition" := Server.Str(condition)];
    var f5 := f4["stockStatus" := Server.Str(stockStatus)];
    var f6 := f5["part" := Server.Str(part)];
    assert TextFields(entries[..1]) == f1 by {
      TextFieldsSnocNew([], map[], "name", name);
      assert [] + [entries[0]] == entries[..1];
    }
    assert TextFields(entries[..2]) == f2 by {
      TextFieldsSnocNew(entries[..1], f1, "price", IntToString(price));
      assert entries[..1] + [entries[1]] == entries[..2];
    }
    assert TextFields(entries[..3]) == f3 by {
      TextFieldsSnocNew(entries[..2], f2, "car", car);
      assert entries[..2] + [entries[2]] == entries[..3];
    }
    assert TextFields(entries[..4]) == f4 by {
      TextFieldsSnocNew(entries[..3], f3, "condition", condition);
      assert entries[..3] + [entries[3]] == entries[..4];
    }
    assert TextFields(entries[..5]) == f5 by {
      TextFieldsSnocNew(entries[..4], f4, "stockStatus", stockStatus);
      assert entries[..4] + [entries[4]] == entries[..5];
    }
    assert TextFields(entries) == f6 by {
      TextFieldsSnocNew(entries[..5], f5, "part", part);
      assert entries[..5] + [entries[5]] == entries;
    }
    TextFieldsIgnoresFiles(entries, files);
  }

  /** The fields the edit body sends, read back as sent. */
  lemma EditBodySent(name: string, price: int, car: string, condition: string, stockStatus: string, part: string,
                     files: Option<seq<LocalFile>>)
    ensures var body := TextFields(EditTextEntries(name, price, car, condition, stockStatus, part) + FileEntries(files));
      Server.Field(body, "name") == Server.Str(name) && Server.Field(body, "price") == Server.Str(IntToString(price)) &&
      Server.Field(body, "car") == Server.Str(car) && Server.Field(body, "condition") == Server.Str(condition) &&
      Server.Field(body, "stockStatus") == Server.Str(stockStatus) && Server.Field(body, "part") == Server.Str(part)
  {
    EditBodyFields(name, price, car, condition, stockStatus, part, files);
  }

  /** The fields the edit body does not send read as undefined. */
  lemma EditBodyMissing(name: string, price: int, car: string, condition: string, stockStatus: string, part: string,
                        files: Option<seq<LocalFile>>)
    ensures var body := TextFields(EditTextEntries(name, price, car, condition, stockStatus, part) + FileEntries(files));
      Server.Field(body, "images") == Server.Undefined && Server.Field(body, "image") == Server.Undefined &&
      Server.Field(body, "stock_status") == Server.Undefined && Server.Field(body, "category") == Server.Undefined
  {
    EditBodyFields(name, price, car, condition, stockStatus, part, files);
  }

  /** What a server that parsed this body would write: name, price, car, condition and
      part as sent, the camel-case stock status, no category (undefined, so NULL) and,
      with neither `images` nor `image` sent, a NULL image. */
  lemma EditedRowWouldClearCategory(name: string, price: int, car: string, condition: string, stockStatus: string, part: string,
                                    files: Option<seq<LocalFile>>, id: string)
    ensures var body := TextFields(EditTextEntries(name, price, car, condition, stockStatus, part) + FileEntries(files));
      Server.ProductUpdateParams(body, id) ==
        [ Server.Str(name), Server.Str(IntToString(price)), Server.Null, Server.Str(car), Server.Str(condition),
          Server.StockStatusToStore(Server.Undefined, Server.Str(stockStatus)), Server.Str(part), Server.Undefined, Server.Str(id) ]
  {
    EditBodySent(name, price, car, condition, stockStatus, part, files);
    EditBodyMissing(name, price, car, condition, stockStatus, part, files);
  }
}
