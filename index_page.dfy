/** The storefront page: the products URL it builds from the filter controls, the
    tab that decides which list it fetches, and how it stores a list reply. */
module IndexPage {
  import opened Strings
  import opened Listings
  import opened QueryString
  import Server
  import SqlFilter

  const ProductsUrlBase := "https://auto-salvage.onrender.com/api/products?"
  const UsedCarsUrl := "https://auto-salvage.onrender.com/api/used_cars?"

  /** A select's value is sent unless it is empty or the "all" choice. */
  predicate Chosen(v: string)
  {
    v != "" && v != "all"
  }

  /** The value the server sees for a select: the choice, or nothing. */
  function Sent(v: string): string
  {
    if Chosen(v) then v else ""
  }

  /** `if (present) url += `${key}=${value}&``, on the pairs written so far. */
  function AddIf(pairs: seq<(string, string)>, present: bool, key: string, value: string): seq<(string, string)>
  {
    if present then pairs + [(key, value)] else pairs
  }

  /** The pairs the page asks for, in the order it appends them. */
  function RequestedPairs(search: string, car: string, condition: string, stockStatus: string, part: string): seq<(string, string)>
  {
    var p1 := AddIf([], search != "", "name", search);
    var p2 := AddIf(p1, Chosen(car), "car", car);
    var p3 := AddIf(p2, Chosen(condition), "condition", condition);
    var p4 := AddIf(p3, Chosen(stockStatus), "stock_status", stockStatus);
    AddIf(p4, Chosen(part), "part", part)
  }

  /** The server's `const { name, car, condition, stock_status, part, category } = req.query`. */
  function ServerProductFilter(pairs: seq<(string, string)>): Server.ProductFilter
  {
    Server.ProductFilter(
      Lookup(pairs, "name"), Lookup(pairs, "car"), Lookup(pairs, "condition"),
      Lookup(pairs, "stock_status"), Lookup(pairs, "part"), Lookup(pairs, "category"))
  }

  /** One more segment at the end of the URL. */
  lemma {:induction false} EncodeSnoc(pairs: seq<(string, string)>, key: string, value: string)
    ensures Encode(pairs + [(key, value)]) == Encode(pairs) + Segment(key, value)
  {
    if pairs == [] {
      assert pairs + [(key, value)] == [(key, value)];
    } else {
      assert (pairs + [(key, value)])[1..] == pairs[1..] + [(key, value)];
      EncodeSnoc(pairs[1..], key, value);
    }
  }

  /** Every pair's key is one of `names`. */
  predicate KeysAmong(pairs: seq<(string, string)>, names: set<string>)
  {
    forall k :: 0 <= k < |pairs| ==> pairs[k].0 in names
  }

  /** Appending a pair whose key is new sets that key and leaves every other key's value. */
  lemma {:induction false} LookupSnoc(pairs: seq<(string, string)>, key: string, value: string, q: string)
    requires forall k :: 0 <= k < |pairs| ==> pairs[k].0 != key
    ensures Lookup(pairs + [(key, value)], q) == if q == key then value else Lookup(pairs, q)
  {
    if pairs == [] {
      assert pairs + [(key, value)] == [(key, value)];
    } else {
      assert (pairs + [(key, value)])[0] == pairs[0];
      assert (pairs + [(key, value)])[1..] == pairs[1..] + [(key, value)];
      LookupSnoc(pairs[1..], key, value, q);
    }
  }

  /** One guarded append, as the server reads it: only the appended key changes. */
  lemma AddIfRead(pairs: seq<(string, string)>, names: set<string>, present: bool, key: string, value: string, q: string)
    requires KeysAmong(pairs, names) && key !in names
    ensures KeysAmong(AddIf(pairs, present, key, value), names + {key})
    ensures Lookup(AddIf(pairs, present, key, value), q) == if present && q == key then value else Lookup(pairs, q)
  {
    if present {
      LookupSnoc(pairs, key, value, q);
    }
  }

  /** The value the server reads for `q` from the requested pairs. */
  lemma RequestedKey(search: string, car: string, condition: string, stockStatus: string, part: string, q: string)
    ensures Lookup(RequestedPairs(search, car, condition, stockStatus, part), q) ==
      if q == "name" && search != "" then search
      else if q == "car" && Chosen(car) then car
      else if q == "condition" && Chosen(condition) then condition
      else if q == "stock_status" && Chosen(stockStatus) then stockStatus
      else if q == "part" && Chosen(part) then part
      else ""
  {
    var p1 := AddIf([], search != "", "name", search);
    var p2 := AddIf(p1, Chosen(car), "car", car);
    var p3 := AddIf(p2, Chosen(condition), "condition", condition);
    var p4 := AddIf(p3, Chosen(stockStatus), "stock_status", stockStatus);
    AddIfRead([], {}, search != "", "name", search, q);
    AddIfRead(p1, {"name"}, Chosen(car), "car", car, q);
    AddIfRead(p2, {"name", "car"}, Chosen(condition), "condition", condition, q);
    AddIfRead(p3, {"name", "car", "condition"}, Chosen(stockStatus), "stock_status", stockStatus, q);
    AddIfRead(p4, {"name", "car", "condition", "stock_status"}, Chosen(part), "part", part, q);
  }

  /** What the server reads from the requested pairs: the search as `name`, each chosen
      select as its own key, and never a category. */
  lemma RequestedFilter(search: string, car: string, condition: string, stockStatus: string, part: string)
    ensures ServerProductFilter(RequestedPairs(search, car, condition, stockStatus, part))
      == Server.ProductFilter(search, Sent(car), Sent(condition), Sent(stockStatus), Sent(part), "")
  {
    RequestedKey(search, car, condition, stockStatus, part, "name");
    RequestedKey(search, car, condition, stockStatus, part, "car");
    RequestedKey(search, car, condition, stockStatus, part, "condition");
    RequestedKey(search, car, condition, stockStatus, part, "stock_status");
    RequestedKey(search, car, condition, stockStatus, part, "part");
    RequestedKey(search, car, condition, stockStatus, part, "category");
  }

  /** No pairs, no text. */
  lemma EncodeEmpty(pairs: seq<(string, string)>)
    ensures Encode(pairs) == "" <==> pairs == []
  {
    if pairs != [] {
      assert |Segment(pairs[0].0, pairs[0].1)| > 0;
    }
  }

  /** A guarded append keeps the pairs safe when its key and value are. */
  lemma AddIfSafe(pairs: seq<(string, string)>, present: bool, key: string, value: string)
    requires SafePairs(pairs) && SafeKey(key) && SafeValue(value)
    ensures SafePairs(AddIf(pairs, present, key, value))
  {
  }

  /** The page asks for nothing exactly when no filter is in use. */
  lemma RequestedShape(search: string, car: string, condition: string, stockStatus: string, part: string)
    ensures RequestedPairs(search, car, condition, stockStatus, part) == [] <==>
      search == "" && !Chosen(car) && !Chosen(condition) && !Chosen(stockStatus) && !Chosen(part)
  {
    var p1 := AddIf([], search != "", "name", search);
    var p2 := AddIf(p1, Chosen(car), "car", car);
    var p3 := AddIf(p2, Chosen(condition), "condition", condition);
    var p4 := AddIf(p3, Chosen(stockStatus), "stock_status", stockStatus);
    var p5 := AddIf(p4, Chosen(part), "part", part);
    assert |p1| <= |p2| <= |p3| <= |p4| <= |p5|;
  }

  /** The requested pairs are safe when the values are. */
  lemma RequestedSafe(search: string, car: string, condition: string, stockStatus: string, part: string)
    requires SafeValue(search) && SafeValue(car) && SafeValue(condition) && SafeValue(stockStatus) && SafeValue(part)
    ensures SafePairs(RequestedPairs(search, car, condition, stockStatus, part))
  {
    var p1 := AddIf([], search != "", "name", search);
    var p2 := AddIf(p1, Chosen(car), "car", car);
    var p3 := AddIf(p2, Chosen(condition), "condition", condition);
    var p4 := AddIf(p3, Chosen(stockStatus), "stock_status", stockStatus);
    assert SafeKey("name") && SafeKey("car") && SafeKey("condition") && SafeKey("stock_status") && SafeKey("part");
    AddIfSafe([], search != "", "name", search);
    AddIfSafe(p1, Chosen(car), "car", car);
    AddIfSafe(p2, Chosen(condition), "condition", condition);
    AddIfSafe(p3, Chosen(stockStatus), "stock_status", stockStatus);
    AddIfSafe(p4, Chosen(part), "part", part);
  }

  /** What the URL built from the requested pairs says: it starts with the base, it is
      the bare base exactly when no filter is in use, and for safe values the server reads
      back the search as `name`, each chosen select under its own key, and no category. */
  lemma RequestedUrl(search: string, car: string, condition: string, stockStatus: string, part: string)
    ensures var url := ProductsUrlBase + Encode(RequestedPairs(search, car, condition, stockStatus, part));
      StartsWith(url, ProductsUrlBase) &&
      (url == ProductsUrlBase <==> search == "" && !Chosen(car) && !Chosen(condition) && !Chosen(stockStatus) && !Chosen(part)) &&
      ((SafeValue(search) && SafeValue(car) && SafeValue(condition) && SafeValue(stockStatus) && SafeValue(part)) ==>
        ServerProductFilter(Parse(url[|ProductsUrlBase|..])) ==
          Server.ProductFilter(search, Sent(car), Sent(condition), Sent(stockStatus), Sent(part), ""))
  {
    var pairs := RequestedPairs(search, car, condition, stockStatus, part);
    var url := ProductsUrlBase + Encode(pairs);
    RequestedShape(search, car, condition, stockStatus, part);
    EncodeEmpty(pairs);
    assert url[|ProductsUrlBase|..] == Encode(pairs);
    if SafeValue(search) && SafeValue(car) && SafeValue(condition) && SafeValue(stockStatus) && SafeValue(part) {
      RequestedSafe(search, car, condition, stockStatus, part);
      ParseEncode(pairs);
    }
    RequestedFilter(search, car, condition, stockStatus, part);
  }

  /** As written the search text goes into the URL unescaped: searching for `a&car=b`
      requests the very URL of searching for `a` with the car `b` chosen. */
  lemma SearchTextSameUrl(a: string, b: string)
    requires a != "" && Chosen(b)
    ensures Encode(RequestedPairs(a + "&car=" + b, "", "", "", "")) == Encode(RequestedPairs(a, b, "", "", ""))
  {
    var search := a + "&car=" + b;
    var none: seq<(string, string)> := [];
    assert RequestedPairs(search, "", "", "", "") == [("name", search)];
    assert RequestedPairs(a, b, "", "", "") == [("name", a), ("car", b)];
    assert [("name", search)][1..] == none;
    assert [("name", a), ("car", b)][1..] == [("car", b)];
    assert [("car", b)][1..] == none;
    assert Encode([("car", b)]) == Segment("car", b) + Encode(none);
    assert Segment("name", search) == Segment("name", a) + Segment("car", b);
  }

  /** So the server filters on name `a` and car `b`, though no car was chosen and the
      search was `a&car=b`. */
  lemma SearchTextInjectsCar(a: string, b: string)
    requires a != "" && Chosen(b) && SafeValue(a) && SafeValue(b)
    ensures var url := ProductsUrlBase + Encode(RequestedPairs(a + "&car=" + b, "", "", "", ""));
      ServerProductFilter(Parse(url[|ProductsUrlBase|..])) == Server.ProductFilter(a, b, "", "", "", "")
  {
    SearchTextSameUrl(a, b);
    RequestedUrl(a, b, "", "", "");
  }

  /** The concrete case: a search for "a&car=Ford" is read as name "a", car "Ford". */
  lemma SearchForAmpersandText()
    ensures var url := ProductsUrlBase + Encode(RequestedPairs("a&car=Ford", "", "", "", ""));
      ServerProductFilter(Parse(url[|ProductsUrlBase|..])) == Server.ProductFilter("a", "Ford", "", "", "", "")
  {
    assert "a&car=Ford" == "a" + "&car=" + "Ford";
    SearchTextInjectsCar("a", "Ford");
  }

  /** The URL with every value escaped, as `encodeURIComponent` would write it. */
  function EscapedProductsUrl(search: string, car: string, condition: string, stockStatus: string, part: string): string
  {
    ProductsUrlBase + Encode(EscapePairs(RequestedPairs(search, car, condition, stockStatus, part)))
  }

  /** With escaping, whatever the user types reaches the server as typed: the search as
      `name`, each chosen select under its own key, and no category. */
  lemma EscapedUrlReadsBack(search: string, car: string, condition: string, stockStatus: string, part: string)
    ensures var url := EscapedProductsUrl(search, car, condition, stockStatus, part);
      StartsWith(url, ProductsUrlBase) &&
      ServerProductFilter(DecodeValues(Parse(url[|ProductsUrlBase|..]))) ==
        Server.ProductFilter(search, Sent(car), Sent(condition), Sent(stockStatus), Sent(part), "")
  {
    var pairs := RequestedPairs(search, car, condition, stockStatus, part);
    var url := EscapedProductsUrl(search, car, condition, stockStatus, part);
    assert url[|ProductsUrlBase|..] == Encode(EscapePairs(pairs));
    RequestedKeysSafe(search, car, condition, stockStatus, part);
    EscapedRoundTrip(pairs);
    RequestedFilter(search, car, condition, stockStatus, part);
  }

  /** A guarded append with a safe key keeps every key safe. */
  lemma AddIfSafeKey(pairs: seq<(string, string)>, present: bool, key: string, value: string)
    requires SafeKeys(pairs) && SafeKey(key)
    ensures SafeKeys(AddIf(pairs, present, key, value))
  {
  }

  /** The keys the page writes are all safe. */
  lemma RequestedKeysSafe(search: string, car: string, condition: string, stockStatus: string, part: string)
    ensures SafeKeys(RequestedPairs(search, car, condition, stockStatus, part))
  {
    var p1 := AddIf([], search != "", "name", search);
    var p2 := AddIf(p1, Chosen(car), "car", car);
    var p3 := AddIf(p2, Chosen(condition), "condition", condition);
    var p4 := AddIf(p3, Chosen(stockStatus), "stock_status", stockStatus);
    assert SafeKey("name") && SafeKey("car") && SafeKey("condition") && SafeKey("stock_status") && SafeKey("part");
    AddIfSafeKey([], search != "", "name", search);
    AddIfSafeKey(p1, Chosen(car), "car", car);
    AddIfSafeKey(p2, Chosen(condition), "condition", condition);
    AddIfSafeKey(p3, Chosen(stockStatus), "stock_status", stockStatus);
    AddIfSafeKey(p4, Chosen(part), "part", part);
  }

  /** `if (present) url += `${key}=${value}&``: the URL stays the base followed by the
      segments of the pairs written so far. */
  method AppendSegmentIf(ghost pairs: seq<(string, string)>, url: string, present: bool, key: string, value: string)
    returns (url': string)
    requires url == ProductsUrlBase + Encode(pairs)
    ensures url' == ProductsUrlBase + Encode(AddIf(pairs, present, key, value))
    ensures present ==> url' == url + key + "=" + value + "&"
    ensures !present ==> url' == url
  {
    url' := url;
    if present {
      EncodeSnoc(pairs, key, value);
      url' := url' + key + "=" + value + "&";
    }
  }

  /** The storefront's state: the filter controls, the active tab and the two lists. */
  class CatalogPage {
    var searchQuery: string
    var selectedCar: string
    var selectedCondition: string
    var selectedStockStatus: string
    var selectedPart: string
    var activeTab: Tab
    var products: seq<Product>
    var usedCars: seq<UsedCar>

    /** The initial state: no filter, the car-parts tab, empty lists. */
    constructor ()
      ensures searchQuery == "" && selectedCar == "" && selectedCondition == ""
      ensures selectedStockStatus == "" && selectedPart == ""
      ensures activeTab == CarParts && products == [] && usedCars == []
    {
      searchQuery, selectedCar, selectedCondition, selectedStockStatus, selectedPart := "", "", "", "", "";
      activeTab := CarParts;
      products, usedCars := [], [];
    }

    /** The URL `fetchProducts` requests: the base, then one `key=value&` segment per
        filter in use, values inserted as they are. The server reads back the search as
        `name`, each chosen select under its own key, and no category. */
    method ProductsUrl() returns (url: string)
      ensures url == ProductsUrlBase + Encode(RequestedPairs(searchQuery, selectedCar, selectedCondition, selectedStockStatus, selectedPart))
      ensures StartsWith(url, ProductsUrlBase)
      ensures url == ProductsUrlBase <==>
        searchQuery == "" && !Chosen(selectedCar) && !Chosen(selectedCondition) &&
        !Chosen(selectedStockStatus) && !Chosen(selectedPart)
      ensures (SafeValue(searchQuery) && SafeValue(selectedCar) && SafeValue(selectedCondition) &&
          SafeValue(selectedStockStatus) && SafeValue(selectedPart)) ==>
        ServerProductFilter(Parse(url[|ProductsUrlBase|..])) ==
          Server.ProductFilter(searchQuery, Sent(selectedCar), Sent(selectedCondition),
            Sent(selectedStockStatus), Sent(selectedPart), "")
    {
      var search, car, condition, stockStatus, part := searchQuery, selectedCar, selectedCondition, selectedStockStatus, selectedPart;
      ghost var pairs: seq<(string, string)> := [];
      url := ProductsUrlBase;
      url := AppendSegmentIf(pairs, url, search != "", "name", search);
      pairs := AddIf(pairs, search != "", "name", search);
      url := AppendSegmentIf(pairs, url, Chosen(car), "car", car);
      pairs := AddIf(pairs, Chosen(car), "car", car);
      url := AppendSegmentIf(pairs, url, Chosen(condition), "condition", condition);
      pairs := AddIf(pairs, Chosen(condition), "condition", condition);
      url := AppendSegmentIf(pairs, url, Chosen(stockStatus), "stock_status", stockStatus);
      pairs := AddIf(pairs, Chosen(stockStatus), "stock_status", stockStatus);
      url := AppendSegmentIf(pairs, url, Chosen(part), "part", part);
      pairs := AddIf(pairs, Chosen(part), "part", part);
      assert pairs == RequestedPairs(search, car, condition, stockStatus, part);
      RequestedUrl(search, car, condition, stockStatus, part);
    }

    /** The effect run when a filter or the tab changes: the car-parts tab fetches the
        filtered products URL, the other tab the unfiltered used-cars URL; the reply of
        that request (given here) replaces that list, an error giving the empty list,
        and the other list is left alone. */
    method Refresh(productsReply: ListReply<Product>, usedCarsReply: ListReply<UsedCar>) returns (url: string)
      modifies this`products, this`usedCars
      ensures activeTab == CarParts ==>
        url == ProductsUrlBase + Encode(RequestedPairs(searchQuery, selectedCar, selectedCondition, selectedStockStatus, selectedPart)) &&
        products == ListOrEmpty(productsReply) && usedCars == old(usedCars)
      ensures activeTab != CarParts ==>
        url == UsedCarsUrl && usedCars == ListOrEmpty(usedCarsReply) && products == old(products)
    {
      if activeTab == CarParts {
        url := ProductsUrl();
        products := ListOrEmpty(productsReply);
      } else {
        url := UsedCarsUrl;
        usedCars := ListOrEmpty(usedCarsReply);
      }
    }
  }

  /** The used-cars URL carries no filter, so the server runs its base query with no
      parameters. */
  lemma UsedCarsTabUnfiltered()
    ensures Parse(UsedCarsUrl[|"https://auto-salvage.onrender.com/api/used_cars?"|..]) == []
    ensures Server.UsedCarQuery(Server.UsedCarFilter("", "", "", "", "", "")) == Server.UsedCarBase
    ensures Server.UsedCarParams(Server.UsedCarFilter("", "", "", "", "", "")) == []
  {
    assert UsedCarsUrl[|"https://auto-salvage.onrender.com/api/used_cars?"|..] == "";
    assert Split("", '&') == [""];
    var f := Server.UsedCarFilter("", "", "", "", "", "");
    SqlFilter.Unfiltered(Server.UsedCarBase, Server.UsedCarCriteria(f));
  }
}
