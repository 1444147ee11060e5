/** The request handlers of server/index.js, without Express, Postgres or multer: the
    query text and parameter list the two list handlers build, the CORS origin decision,
    the image rows recorded on create, the `||` coalescing of update bodies, and the login
    comparison. */
module Server {
  import opened Wrappers
  import opened Strings
  import opened SqlFilter

  // ---------------------------------------------------------------------------
  // GET /api/products

  /** The recognised keys of the products query string; "" when a key is absent. */
  datatype ProductFilter = ProductFilter(
    name: string, car: string, condition: string, stock_status: string, part: string, category: string)

  const ProductBase := "SELECT * FROM products"

  /** The keys in the order the handler tests them, each with its column and comparison. */
  function ProductCriteria(f: ProductFilter): seq<Criterion>
  {
    [ Criterion("name", ILike, f.name), Criterion("car", ILike, f.car),
      Criterion("condition", Eq, f.condition), Criterion("stock_status", Eq, f.stock_status),
      Criterion("part", ILike, f.part), Criterion("category", Eq, f.category) ]
  }

  /** The query text the products handler sends, as written (see ProductQueryLacksWhere). */
  function ProductQuery(f: ProductFilter): string
  {
    QueryText(ProductBase, Clauses(ProductCriteria(f)))
  }

  function ProductParams(f: ProductFilter): seq<string>
  {
    Params(ProductCriteria(f))
  }

  predicate NoProductKey(f: ProductFilter)
  {
    f.name == "" && f.car == "" && f.condition == "" && f.stock_status == "" && f.part == "" && f.category == ""
  }

  /** The products handler's builder: six guarded pushes, then the " AND " join. */
  method ListProductsQuery(f: ProductFilter) returns (query: string, queryParams: seq<string>)
    ensures query == ProductQuery(f) && queryParams == ProductParams(f)
    ensures |queryParams| <= 6
    ensures NoProductKey(f) <==> query == ProductBase && queryParams == []
  {
    query := ProductBase;
    queryParams := [];
    var conditions: seq<string> := [];
    ghost var done: seq<Criterion> := [];
    queryParams, conditions := AddCriterion(done, Criterion("name", ILike, f.name), queryParams, conditions);
    done := done + [Criterion("name", ILike, f.name)];
    queryParams, conditions := AddCriterion(done, Criterion("car", ILike, f.car), queryParams, conditions);
    done := done + [Criterion("car", ILike, f.car)];
    queryParams, conditions := AddCriterion(done, Criterion("condition", Eq, f.condition), queryParams, conditions);
    done := done + [Criterion("condition", Eq, f.condition)];
    queryParams, conditions := AddCriterion(done, Criterion("stock_status", Eq, f.stock_status), queryParams, conditions);
    done := done + [Criterion("stock_status", Eq, f.stock_status)];
    queryParams, conditions := AddCriterion(done, Criterion("part", ILike, f.part), queryParams, conditions);
    done := done + [Criterion("part", ILike, f.part)];
    queryParams, conditions := AddCriterion(done, Criterion("category", Eq, f.category), queryParams, conditions);
    done := done + [Criterion("category", Eq, f.category)];
    assert done == ProductCriteria(f);

    if |conditions| > 0 {
      query := query + " AND " + Join(conditions, " AND ");
    }
    ProductQueryShape(f);
  }

  /** At most six values are bound, and the query is the bare base with no values exactly
      when the request supplies no key. */
  lemma ProductQueryShape(f: ProductFilter)
    ensures |ProductParams(f)| <= 6
    ensures NoProductKey(f) <==> ProductQuery(f) == ProductBase && ProductParams(f) == []
  {
    var cs := ProductCriteria(f);
    ClosedForm(cs);
    Unfiltered(ProductBase, cs);
    NoProductKeyMeansNoneSupplied(f);
  }

  predicate SameProductKeys(f: ProductFilter, g: ProductFilter)
  {
    (f.name == "" <==> g.name == "") && (f.car == "" <==> g.car == "") &&
    (f.condition == "" <==> g.condition == "") && (f.stock_status == "" <==> g.stock_status == "") &&
    (f.part == "" <==> g.part == "") && (f.category == "" <==> g.category == "")
  }

  /** The filter supplies no key exactly when no criterion of it is supplied. */
  lemma NoProductKeyMeansNoneSupplied(f: ProductFilter)
    ensures NoProductKey(f) <==> forall c :: c in ProductCriteria(f) ==> !Supplied(c)
  {
    var cs := ProductCriteria(f);
    if !NoProductKey(f) {
      if f.name != "" { assert cs[0] in cs; }
      else if f.car != "" { assert cs[1] in cs; }
      else if f.condition != "" { assert cs[2] in cs; }
      else if f.stock_status != "" { assert cs[3] in cs; }
      else if f.part != "" { assert cs[4] in cs; }
      else { assert cs[5] in cs; }
    }
  }

  /** No request value reaches the products query text: two requests that supply the same
      keys get the same query, whatever the values. */
  lemma ProductQueryIgnoresValues(f: ProductFilter, g: ProductFilter)
    requires SameProductKeys(f, g)
    ensures ProductQuery(f) == ProductQuery(g)
    ensures |ProductParams(f)| == |ProductParams(g)|
  {
    assert SameShape(ProductCriteria(f), ProductCriteria(g));
    ClausesIgnoreValues(ProductCriteria(f), ProductCriteria(g));
    ClosedForm(ProductCriteria(f));
    ClosedForm(ProductCriteria(g));
  }

  /** Executing the products query selects exactly the rows that meet every supplied key:
      name, car and part as case-insensitive substrings, condition, stock_status and
      category by equality (`holds` stands for the database's evaluation of one predicate). */
  lemma ProductBinding(f: ProductFilter, holds: (string, Op, string) -> bool)
    ensures Satisfies(Clauses(ProductCriteria(f)), ProductParams(f), holds) <==>
      (f.name != "" ==> holds("name", ILike, "%" + f.name + "%")) &&
      (f.car != "" ==> holds("car", ILike, "%" + f.car + "%")) &&
      (f.condition != "" ==> holds("condition", Eq, f.condition)) &&
      (f.stock_status != "" ==> holds("stock_status", Eq, f.stock_status)) &&
      (f.part != "" ==> holds("part", ILike, "%" + f.part + "%")) &&
      (f.category != "" ==> holds("category", Eq, f.category))
  {
    var cs := ProductCriteria(f);
    BindingSound(cs, holds);
    MatchesOfSix(cs, holds);
  }

  /** The builder run on `condition=…&stock_status=…`: two pushes, placeholders $1 and $2. */
  lemma ConditionAndStockBuilt(condition: string, stockStatus: string)
    requires condition != "" && stockStatus != ""
    ensures Texts(Clauses(ProductCriteria(ProductFilter("", "", condition, stockStatus, "", "")))) ==
      ["condition = $1", "stock_status = $2"]
    ensures ProductParams(ProductFilter("", "", condition, stockStatus, "", "")) == [condition, stockStatus]
  {
    var c1, c2 := "condition = $1", "stock_status = $2";
    assert NatToString(1) == "1" && NatToString(2) == "2";
    assert RenderClause(Clause("condition", Eq, 1)) == c1;
    assert RenderClause(Clause("stock_status", Eq, 2)) == c2;
    TwoOfSix(Criterion("name", ILike, ""), Criterion("car", ILike, ""), Criterion("condition", Eq, condition),
      Criterion("stock_status", Eq, stockStatus), Criterion("part", ILike, ""), Criterion("category", Eq, ""));
    var cls := Clauses(ProductCriteria(ProductFilter("", "", condition, stockStatus, "", "")));
    assert Texts(cls) == [RenderClause(cls[0]), RenderClause(cls[1])];
  }

  /** A request such as `condition=used&stock_status=in_stock`, as the handler builds it:
      the predicates follow the base with " AND " and no WHERE. */
  lemma ConditionAndStockQuery(condition: string, stockStatus: string)
    requires condition != "" && stockStatus != ""
    ensures ProductQuery(ProductFilter("", "", condition, stockStatus, "", ""))
      == "SELECT * FROM products" + " AND " + "condition = $1" + " AND " + "stock_status = $2"
    ensures ProductParams(ProductFilter("", "", condition, stockStatus, "", "")) == [condition, stockStatus]
  {
    ConditionAndStockBuilt(condition, stockStatus);
    QueryTextOfTwo(ProductBase, Clauses(ProductCriteria(ProductFilter("", "", condition, stockStatus, "", ""))),
      "condition = $1", "stock_status = $2");
  }

  /** As written, every filtered products query lacks the WHERE keyword: it differs from the
      well-formed SELECT over the same predicates. */
  lemma ProductQueryLacksWhere(f: ProductFilter)
    requires !NoProductKey(f)
    ensures ProductQuery(f) != SelectText("products", Texts(Clauses(ProductCriteria(f))))
  {
    NoProductKeyMeansNoneSupplied(f);
    AndWithoutWhereIsMalformed("products", ProductCriteria(f));
  }

  /** The products query as the handler evidently intends it: the predicates attached to the
      base with WHERE, bound to the same parameters. */
  function ProductQueryFixed(f: ProductFilter): (q: string)
    ensures q == SelectText("products", Texts(Clauses(ProductCriteria(f))))
  {
    WhereTextIsSelect("products", ProductCriteria(f));
    WhereText(ProductBase, Clauses(ProductCriteria(f)))
  }

  /** The correction changes that one keyword and nothing else: the fixed query has the
      same base and the same predicate list, and equals the as-written text when no key is
      supplied. */
  lemma ProductQueryFixedDiffersOnlyInKeyword(f: ProductFilter)
    ensures NoProductKey(f) ==> ProductQueryFixed(f) == ProductQuery(f) == ProductBase
    ensures !NoProductKey(f) ==>
      var tail := Join(Texts(Clauses(ProductCriteria(f))), " AND ");
      ProductQuery(f) == ProductBase + " AND " + tail && ProductQueryFixed(f) == ProductBase + " WHERE " + tail
  {
    var cs := ProductCriteria(f);
    Unfiltered(ProductBase, cs);
    ClosedForm(cs);
    NoProductKeyMeansNoneSupplied(f);
  }

  // ---------------------------------------------------------------------------
  // GET /api/used_cars

  /** The recognised keys of the used-cars query string; "" when a key is absent. */
  datatype UsedCarFilter = UsedCarFilter(
    make: string, model: string, year_from: string, year_to: string, price_from: string, price_to: string)

  const UsedCarBase := "SELECT * FROM used_cars WHERE type = 'used_car'"

  function UsedCarCriteria(f: UsedCarFilter): seq<Criterion>
  {
    [ Criterion("make", ILike, f.make), Criterion("model", ILike, f.model),
      Criterion("year", AtLeast, f.year_from), Criterion("year", AtMost, f.year_to),
      Criterion("price", AtLeast, f.price_from), Criterion("price", AtMost, f.price_to) ]
  }

  function UsedCarQuery(f: UsedCarFilter): string
  {
    QueryText(UsedCarBase, Clauses(UsedCarCriteria(f)))
  }

  function UsedCarParams(f: UsedCarFilter): seq<string>
  {
    Params(UsedCarCriteria(f))
  }

  predicate NoUsedCarKey(f: UsedCarFilter)
  {
    f.make == "" && f.model == "" && f.year_from == "" && f.year_to == "" && f.price_from == "" && f.price_to == ""
  }

  /** The used-cars handler's builder: six guarded pushes onto the pre-filtered base. */
  method ListUsedCarsQuery(f: UsedCarFilter) returns (query: string, queryParams: seq<string>)
    ensures query == UsedCarQuery(f) && queryParams == UsedCarParams(f)
    ensures |queryParams| <= 6
    ensures NoUsedCarKey(f) <==> query == UsedCarBase && queryParams == []
  {
    query := UsedCarBase;
    queryParams := [];
    var conditions: seq<string> := [];
    ghost var done: seq<Criterion> := [];
    queryParams, conditions := AddCriterion(done, Criterion("make", ILike, f.make), queryParams, conditions);
    done := done + [Criterion("make", ILike, f.make)];
    queryParams, conditions := AddCriterion(done, Criterion("model", ILike, f.model), queryParams, conditions);
    done := done + [Criterion("model", ILike, f.model)];
    queryParams, conditions := AddCriterion(done, Criterion("year", AtLeast, f.year_from), queryParams, conditions);
    done := done + [Criterion("year", AtLeast, f.year_from)];
    queryParams, conditions := AddCriterion(done, Criterion("year", AtMost, f.year_to), queryParams, conditions);
    done := done + [Criterion("year", AtMost, f.year_to)];
    queryParams, conditions := AddCriterion(done, Criterion("price", AtLeast, f.price_from), queryParams, conditions);
    done := done + [Criterion("price", AtLeast, f.price_from)];
    queryParams, conditions := AddCriterion(done, Criterion("price", AtMost, f.price_to), queryParams, conditions);
    done := done + [Criterion("price", AtMost, f.price_to)];
    assert done == UsedCarCriteria(f);

    if |conditions| > 0 {
      query := query + " AND " + Join(conditions, " AND ");
    }
    UsedCarQueryShape(f);
  }

  /** The filter supplies no key exactly when no criterion of it is supplied. */
  lemma NoUsedCarKeyMeansNoneSupplied(f: UsedCarFilter)
    ensures NoUsedCarKey(f) <==> forall c :: c in UsedCarCriteria(f) ==> !Supplied(c)
  {
    var cs := UsedCarCriteria(f);
    if !NoUsedCarKey(f) {
      if f.make != "" { assert cs[0] in cs; }
      else if f.model != "" { assert cs[1] in cs; }
      else if f.year_from != "" { assert cs[2] in cs; }
      else if f.year_to != "" { assert cs[3] in cs; }
      else if f.price_from != "" { assert cs[4] in cs; }
      else { assert cs[5] in cs; }
    }
  }

  /** At most six values are bound, and the query is the bare base with no values exactly
      when the request supplies no key. */
  lemma UsedCarQueryShape(f: UsedCarFilter)
    ensures |UsedCarParams(f)| <= 6
    ensures NoUsedCarKey(f) <==> UsedCarQuery(f) == UsedCarBase && UsedCarParams(f) == []
  {
    var cs := UsedCarCriteria(f);
    ClosedForm(cs);
    Unfiltered(UsedCarBase, cs);
    NoUsedCarKeyMeansNoneSupplied(f);
  }

  predicate SameUsedCarKeys(f: UsedCarFilter, g: UsedCarFilter)
  {
    (f.make == "" <==> g.make == "") && (f.model == "" <==> g.model == "") &&
    (f.year_from == "" <==> g.year_from == "") && (f.year_to == "" <==> g.year_to == "") &&
    (f.price_from == "" <==> g.price_from == "") && (f.price_to == "" <==> g.price_to == "")
  }

  /** No request value reaches the used-cars query text. */
  lemma UsedCarQueryIgnoresValues(f: UsedCarFilter, g: UsedCarFilter)
    requires SameUsedCarKeys(f, g)
    ensures UsedCarQuery(f) == UsedCarQuery(g)
    ensures |UsedCarParams(f)| == |UsedCarParams(g)|
  {
    assert SameShape(UsedCarCriteria(f), UsedCarCriteria(g));
    ClausesIgnoreValues(UsedCarCriteria(f), UsedCarCriteria(g));
    ClosedForm(UsedCarCriteria(f));
    ClosedForm(UsedCarCriteria(g));
  }

  /** Executing the used-cars query selects exactly the rows that meet every supplied key:
      make and model as substrings, the `_from` bounds with >= and the `_to` bounds with <=,
      both inclusive. */
  lemma UsedCarBinding(f: UsedCarFilter, holds: (string, Op, string) -> bool)
    ensures Satisfies(Clauses(UsedCarCriteria(f)), UsedCarParams(f), holds) <==>
      (f.make != "" ==> holds("make", ILike, "%" + f.make + "%")) &&
      (f.model != "" ==> holds("model", ILike, "%" + f.model + "%")) &&
      (f.year_from != "" ==> holds("year", AtLeast, f.year_from)) &&
      (f.year_to != "" ==> holds("year", AtMost, f.year_to)) &&
      (f.price_from != "" ==> holds("price", AtLeast, f.price_from)) &&
      (f.price_to != "" ==> holds("price", AtMost, f.price_to))
  {
    var cs := UsedCarCriteria(f);
    BindingSound(cs, holds);
    MatchesOfSix(cs, holds);
  }

  /** Because its base already carries `WHERE type = 'used_car'`, the used-cars query is a
      well-formed SELECT whose conjuncts are the type test followed by the predicates. */
  lemma UsedCarQueryIsSelect(f: UsedCarFilter)
    ensures UsedCarQuery(f) == SelectText("used_cars", ["type = 'used_car'"] + Texts(Clauses(UsedCarCriteria(f))))
  {
    assert UsedCarBase == "SELECT * FROM " + "used_cars" + " WHERE " + "type = 'used_car'";
    PrefilteredIsSelect("used_cars", "type = 'used_car'", UsedCarCriteria(f));
  }

  // ---------------------------------------------------------------------------
  // CORS origin callback

  const AllowedOrigins: seq<string> := [
    "https://auto-salvage.vercel.app",
    "https://autosalvage.autos",
    "https://auto-salvage.onrender.com",
    "https://autosalvage.onrender.com",
    "http://localhost:5173",
    "http://localhost:3000",
    "http://127.0.0.1:5173"
  ]

  datatype CorsVerdict = Allow | Deny(error: string)

  /** The `origin` callback given to the CORS middleware; `allowAllOrigins` is the
      ALLOW_ALL_ORIGINS environment variable (None when unset). */
  function CorsOrigin(origin: Option<string>, allowAllOrigins: Option<string>): (v: CorsVerdict)
    ensures v == Allow <==>
      origin == None || origin == Some("") || allowAllOrigins == Some("true") || origin.value in AllowedOrigins
    ensures v != Allow ==> v == Deny("Not allowed by CORS")
  {
    if origin == None || origin.value == "" then Allow
    else if allowAllOrigins == Some("true") then Allow
    else if IndexOf(AllowedOrigins, origin.value) != -1 then Allow
    else Deny("Not allowed by CORS")
  }

  /** A foreign origin is refused unless ALLOW_ALL_ORIGINS is exactly "true". */
  lemma ForeignOriginRefused(allowAllOrigins: Option<string>)
    requires allowAllOrigins != Some("true")
    ensures CorsOrigin(Some("https://evil.example"), allowAllOrigins) == Deny("Not allowed by CORS")
    ensures CorsOrigin(Some("https://evil.example"), Some("true")) == Allow
  {
  }

  // ---------------------------------------------------------------------------
  // POST /api/products and POST /api/used_cars: image rows

  /** A file as multer hands it to the handler; `filename` is the generated storage name. */
  datatype UploadedFile = UploadedFile(originalname: string, mimetype: string, filename: string)

  /** A row of `product_images` or `used_car_images`. */
  datatype ImageRow = ImageRow(ownerId: int, filename: string, mimetype: string, filePath: string)

  const UploadsRoute := "/uploads/"

  /** The loop of both create handlers: one public path and one image row per uploaded
      file, in upload order, all owned by the new listing; no files give no rows. */
  method RecordImages(listingId: int, files: seq<UploadedFile>) returns (imageUrls: seq<string>, inserts: seq<ImageRow>)
    ensures |imageUrls| == |files| && |inserts| == |files|
    ensures forall i :: 0 <= i < |files| ==> imageUrls[i] == UploadsRoute + files[i].filename
    ensures forall i :: 0 <= i < |files| ==>
      inserts[i] == ImageRow(listingId, files[i].originalname, files[i].mimetype, imageUrls[i])
  {
    imageUrls := [];
    inserts := [];
    if |files| > 0 {
      for i := 0 to |files|
        invariant |imageUrls| == i && |inserts| == i
        invariant forall j :: 0 <= j < i ==> imageUrls[j] == UploadsRoute + files[j].filename
        invariant forall j :: 0 <= j < i ==>
          inserts[j] == ImageRow(listingId, files[j].originalname, files[j].mimetype, imageUrls[j])
      {
        var fileUrl := UploadsRoute + files[i].filename;
        imageUrls := imageUrls + [fileUrl];
        inserts := inserts + [ImageRow(listingId, files[i].originalname, files[i].mimetype, fileUrl)];
      }
    }
  }

  /** The generated filename is recovered from its public path, so distinct stored files
      get distinct paths. */
  lemma UploadPathNamesFile(filename: string, other: string)
    ensures StartsWith(UploadsRoute + filename, UploadsRoute)
    ensures (UploadsRoute + filename)[|UploadsRoute|..] == filename
    ensures UploadsRoute + filename == UploadsRoute + other ==> filename == other
  {
    assert (UploadsRoute + filename)[|UploadsRoute|..] == filename;
    assert (UploadsRoute + other)[|UploadsRoute|..] == other;
  }

  // ---------------------------------------------------------------------------
  // Request bodies: `||` coalescing and the bound parameter lists

  /** The values a JSON or form body field can take, as far as the handlers look at them. */
  datatype JsValue = Undefined | Null | Str(s: string) | Arr(items: seq<string>)

  /** JavaScript truthiness: non-empty strings and every array. */
  predicate Truthy(v: JsValue)
  {
    match v
    case Undefined => false
    case Null => false
    case Str(s) => s != ""
    case Arr(_) => true
  }

  /** `a || b`. */
  function Or(a: JsValue, b: JsValue): JsValue
  {
    if Truthy(a) then a else b
  }

  /** `stock_status || stockStatus || null`: the snake-case field wins, the camel-case one is
      the fallback, and null is stored when neither is truthy. */
  function StockStatusToStore(snake: JsValue, camel: JsValue): (r: JsValue)
    ensures r == snake || r == camel || r == Null
    ensures Truthy(snake) ==> r == snake
    ensures !Truthy(snake) && Truthy(camel) ==> r == camel
    ensures r == Null <==> !Truthy(snake) && !Truthy(camel)
  {
    Or(Or(snake, camel), Null)
  }

  /** `Array.isArray(images) && images.length ? images[0] : image || null`. */
  function ImageToStore(images: JsValue, image: JsValue): (r: JsValue)
    ensures images.Arr? && |images.items| > 0 ==> r == Str(images.items[0])
    ensures !(images.Arr? && |images.items| > 0) ==> r == (if Truthy(image) then image else Null)
    ensures r == Null <==> !(images.Arr? && |images.items| > 0) && !Truthy(image)
  {
    if images.Arr? && |images.items| > 0 then Str(images.items[0]) else Or(image, Null)
  }

  /** A single image path sent as a plain string in `images` is not an array, so it is
      ignored and, without `image`, null is stored. */
  lemma ImagesStringIgnored(path: string)
    ensures ImageToStore(Str(path), Undefined) == Null
  {
  }

  type Body = map<string, JsValue>

  /** Reading `req.body.key`: undefined when the key is missing. */
  function Field(body: Body, key: string): JsValue
  {
    if key in body then body[key] else Undefined
  }

  const ProductInsertColumns: seq<string> := ["name", "price", "car", "condition", "stock_status", "part", "category"]

  /** The values bound by the products INSERT. */
  function ProductInsertParams(body: Body): seq<JsValue>
  {
    [ Field(body, "name"), Field(body, "price"), Field(body, "car"), Field(body, "condition"),
      StockStatusToStore(Field(body, "stock_status"), Field(body, "stockStatus")),
      Field(body, "part"), Field(body, "category") ]
  }

  const ProductUpdateColumns: seq<string> := ["name", "price", "image", "car", "condition", "stock_status", "part", "category"]

  /** The values bound by the products UPDATE; the last one is the id of the WHERE part. */
  function ProductUpdateParams(body: Body, id: string): seq<JsValue>
  {
    [ Field(body, "name"), Field(body, "price"), ImageToStore(Field(body, "images"), Field(body, "image")),
      Field(body, "car"), Field(body, "condition"),
      StockStatusToStore(Field(body, "stock_status"), Field(body, "stockStatus")),
      Field(body, "part"), Field(body, "category"), Str(id) ]
  }

  const UsedCarInsertColumns: seq<string> := ["make", "model", "year", "price", "mileage"]

  /** The values bound by the used-cars INSERT. */
  function UsedCarInsertParams(body: Body): seq<JsValue>
  {
    [ Field(body, "make"), Field(body, "model"), Field(body, "year"), Field(body, "price"), Field(body, "mileage") ]
  }

  const UsedCarUpdateColumns: seq<string> := ["make", "model", "year", "price", "mileage", "image"]

  /** The values bound by the used-cars UPDATE; the last one is the id of the WHERE part. */
  function UsedCarUpdateParams(body: Body, id: string): seq<JsValue>
  {
    [ Field(body, "make"), Field(body, "model"), Field(body, "year"), Field(body, "price"),
      Field(body, "mileage"), ImageToStore(Field(body, "images"), Field(body, "image")), Str(id) ]
  }

  /** A column is a plain copy of the body field of the same name. */
  predicate Copied(columns: seq<string>, params: seq<JsValue>, body: Body, k: nat)
    requires k < |columns| && k < |params|
  {
    params[k] == Field(body, columns[k])
  }

  /** The products INSERT and UPDATE write every column from the body alone: each column
      except the coalesced ones binds the body field of its own name, so a field missing
      from the body is written as undefined (NULL) rather than keeping the stored value. */
  lemma ProductWritesCopyBody(body: Body, id: string)
    ensures |ProductInsertParams(body)| == |ProductInsertColumns|
    ensures forall k :: 0 <= k < |ProductInsertColumns| && k != 4 ==>
      Copied(ProductInsertColumns, ProductInsertParams(body), body, k)
    ensures ProductInsertParams(body)[4] == StockStatusToStore(Field(body, "stock_status"), Field(body, "stockStatus"))
    ensures |ProductUpdateParams(body, id)| == |ProductUpdateColumns| + 1
    ensures forall k :: 0 <= k < |ProductUpdateColumns| && k != 2 && k != 5 ==>
      Copied(ProductUpdateColumns, ProductUpdateParams(body, id), body, k)
    ensures ProductUpdateParams(body, id)[2] == ImageToStore(Field(body, "images"), Field(body, "image"))
    ensures ProductUpdateParams(body, id)[5] == StockStatusToStore(Field(body, "stock_status"), Field(body, "stockStatus"))
    ensures ProductUpdateParams(body, id)[8] == Str(id)
  {
  }

  /** The same for the used-cars INSERT and UPDATE, where only `image` is coalesced. */
  lemma UsedCarWritesCopyBody(body: Body, id: string)
    ensures |UsedCarInsertParams(body)| == |UsedCarInsertColumns|
    ensures forall k :: 0 <= k < |UsedCarInsertColumns| ==> Copied(UsedCarInsertColumns, UsedCarInsertParams(body), body, k)
    ensures |UsedCarUpdateParams(body, id)| == |UsedCarUpdateColumns| + 1
    ensures forall k :: 0 <= k < |UsedCarUpdateColumns| - 1 ==>
      Copied(UsedCarUpdateColumns, UsedCarUpdateParams(body, id), body, k)
    ensures UsedCarUpdateParams(body, id)[5] == ImageToStore(Field(body, "images"), Field(body, "image"))
    ensures UsedCarUpdateParams(body, id)[6] == Str(id)
  {
  }

  // ---------------------------------------------------------------------------
  // POST /api/login

  datatype LoginReply = LoginReply(status: int, success: bool, message: Option<string>)

  /** `===` on body values: two arrays parsed from a body are distinct objects. */
  predicate StrictEquals(a: JsValue, b: JsValue)
  {
    !a.Arr? && !b.Arr? && a == b
  }

  /** An environment variable is a string or undefined. */
  predicate EnvValue(v: JsValue)
  {
    v.Undefined? || v.Str?
  }

  /** The login handler: success exactly when both submitted values equal the configured
      ones; otherwise 401 with "Invalid credentials". */
  function Login(username: JsValue, password: JsValue, adminUsername: JsValue, adminPassword: JsValue): (r: LoginReply)
    requires EnvValue(adminUsername) && EnvValue(adminPassword)
    ensures r.success <==> username == adminUsername && password == adminPassword
    ensures r.success ==> r.status == 200 && r.message == None
    ensures !r.success ==> r.status == 401 && r.message == Some("Invalid credentials")
  {
    if StrictEquals(username, adminUsername) && StrictEquals(password, adminPassword) then
      LoginReply(200, true, None)
    else
      LoginReply(401, false, Some("Invalid credentials"))
  }

  /** When ADMIN_USERNAME and ADMIN_PASSWORD are unset, a body without credentials logs in. */
  lemma UnconfiguredLoginAcceptsEmptyBody()
    ensures Login(Undefined, Undefined, Undefined, Undefined).success
  {
  }
}
