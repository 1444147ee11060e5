# Auto-Salvage: filter builders, request handling and storefront logic

Auto-Salvage is a small shop for salvaged car parts and used cars. An Express server
(`server/index.js`) turns the query parameters of `GET /api/products` and
`GET /api/used_cars` into a parameterised PostgreSQL query. It stores uploaded images
under `/uploads/`, coalesces a few body fields on create and update, checks the admin
login and decides CORS origins. A React client builds the products URL from its filter
controls and shows listings in cards and dialogs with an image carousel. An admin page
lists, deletes, edits and adds listings.

The model is written in the source's own form:

- **Filter builders.** The two `GET` handlers are methods
  (`Server.ListProductsQuery`, `Server.ListUsedCarsQuery`). Each pushes onto
  `queryParams` and `conditions` one key at a time through `SqlFilter.AddCriterion`.
  Both are proved equal to specification functions (`SqlFilter.Params`,
  `SqlFilter.Clauses`, `SqlFilter.QueryText`). Lemmas about those functions cover:
  - the placeholder discipline;
  - that no value reaches the query text;
  - what the bound query means for a row, with an abstract row predicate standing for
    SQL evaluation.
- **Server decisions.** The CORS callback, the `||` coalescing, `imageToStore` and the
  login check are functions over a small JavaScript value type (`Server.JsValue`).
  The per-file image loop is a method (`Server.RecordImages`).
- **URL construction.** The client's URL building is a method over the page state
  (`IndexPage.CatalogPage.ProductsUrl`) that grows `url` with guarded `+=` steps. It is
  proved against the pairs the server's query parser reads back
  (`QueryString.Parse`, `QueryString.Lookup`).
- **Client state.** Component state that changes in place is a class:
  - the carousel index (`Carousel.Slideshow`);
  - the admin lists (`Admin.AdminPanel`);
  - the storefront state (`IndexPage.CatalogPage`);
  - the two dialogs' forms (`EditProductDialog.EditProductForm`,
    `AddUsedCarDialog.AddUsedCarForm`).

  Pure expressions (image fallbacks, badge mapping, list updates) are functions.

The two list handlers attach their predicates the same way, with `" AND "`. That is
right for the used-cars base, which already ends in `WHERE type = 'used_car'`
(server/index.js:243). The products base `SELECT * FROM products` has no `WHERE`
(server/index.js:122). `Server.ProductQuery` builds the products query as written; see
Findings.

## Model

| member | source | states |
|---|---|---|
| SqlFilter.SuppliedOnly | server/index.js:126-149 | The criteria that contribute are the supplied ones: never more than there are keys. |
| SqlFilter.BuilderStep | server/index.js:126-129 | One `if (key)` block: a supplied criterion appends its bound value, and a predicate whose placeholder is the new length of `queryParams`. An absent one leaves both lists unchanged. |
| SqlFilter.AddCriterion | server/index.js:126-149 | One push step on the running lists: the result is the specification's lists for one more criterion; `queryParams` grows by one exactly when the value is supplied, and is untouched otherwise. |
| SqlFilter.ClosedForm | server/index.js:121-149 | After all keys, `queryParams` and `conditions` are as long as the number of supplied keys. The k-th parameter is the bound value of the k-th supplied key. The k-th predicate uses that key's column and operator with placeholder `$k+1`. |
| SqlFilter.PlaceholdersLineUp | server/index.js:126-149 | The k-th predicate carries placeholder `$(k+1)`, and `params[k]` holds the value of that same criterion. |
| SqlFilter.MatchesSatisfies | server/index.js:126-155 | If every supplied criterion holds of a row with its bound value, then the rendered predicates hold with their bound parameters. |
| SqlFilter.SatisfiesMatches | server/index.js:126-155 | The converse: bound predicates that hold force every supplied criterion to hold. |
| SqlFilter.BindingSound | server/index.js:126-155 | The bound query accepts a row if and only if every supplied criterion holds of it. |
| SqlFilter.SuppliedSameColumns | server/index.js:126-149 | Criteria lists with the same columns, operators and supplied pattern select contributing criteria with the same columns and operators. |
| SqlFilter.ClausesIgnoreValues | server/index.js:126-153 | Such lists give identical predicates, so no value ever reaches the query text. |
| SqlFilter.Unfiltered | server/index.js:151-153 | The query is the base text exactly when no key is supplied, and that is exactly when the parameter list is empty. |
| SqlFilter.QueryTextOfTwo | server/index.js:151-153 | Two predicates are attached as `base + " AND " + p1 + " AND " + p2`. |
| SqlFilter.AndWithoutWhereIsMalformed | server/index.js:122-153 | With any key supplied, `SELECT * FROM t` followed by `" AND "` and the predicates is not the well-formed `SELECT * FROM t WHERE ...`. |
| SqlFilter.WhereTextIsSelect | server/index.js:151-153 | Attaching the predicates with `" WHERE "` gives the well-formed select. |
| SqlFilter.PrefilteredIsSelect | server/index.js:243-274 | Appending `" AND "` + predicates to a base that already ends in `WHERE guard` gives the well-formed select whose first conjunct is the guard. |
| Server.ListProductsQuery | server/index.js:119-153 | The products handler returns the specification's query and parameters. There are at most six parameters. The query is the base with no parameters if and only if all six keys are empty. |
| Server.ProductQueryShape | server/index.js:121-153 | For any filter: at most six parameters, and the base query with no parameters exactly when no key is non-empty. |
| Server.NoProductKeyMeansNoneSupplied | server/index.js:126-149 | All six product keys are empty if and only if no criterion is supplied. |
| Server.ProductQueryIgnoresValues | server/index.js:126-153 | Two product filters with the same non-empty keys give the same query text and equally many parameters. |
| Server.ProductBinding | server/index.js:126-149 | The bound products query accepts a row exactly when: name, car and part match `ILIKE '%v%'`; condition, stock_status and category match `= v`; each for its non-empty key only. |
| Server.ConditionAndStockBuilt | server/index.js:134-141 | Condition and stock status alone give the predicates `condition = $1`, `stock_status = $2` and the parameters `[condition, stock_status]`. |
| Server.ConditionAndStockQuery | server/index.js:151-153 | As written, that request runs `SELECT * FROM products AND condition = $1 AND stock_status = $2`. |
| Server.ProductQueryLacksWhere | server/index.js:122-153 | As written, any request with a product key gives a query that is not `SELECT * FROM products WHERE ...`. |
| Server.ProductQueryFixed | server/index.js:151-153 | The corrected products query is the well-formed `SELECT ... WHERE` over the same predicates. |
| Server.ProductQueryFixedDiffersOnlyInKeyword | server/index.js:151-153 | With no key the corrected and the written query are both the base. Otherwise they differ only in `" AND "` versus `" WHERE "` before the same joined predicates. |
| Server.ListUsedCarsQuery | server/index.js:240-274 | The used-cars handler returns the specification's query and parameters. There are at most six parameters. The query is the base with no parameters if and only if all six keys are empty. |
| Server.UsedCarQueryShape | server/index.js:242-274 | For any filter: at most six parameters, and the base query with no parameters exactly when no key is non-empty. |
| Server.NoUsedCarKeyMeansNoneSupplied | server/index.js:247-270 | All six used-car keys are empty if and only if no criterion is supplied. |
| Server.UsedCarQueryIgnoresValues | server/index.js:247-274 | Two used-car filters with the same non-empty keys give the same query text and equally many parameters. |
| Server.UsedCarBinding | server/index.js:247-270 | The bound used-cars query accepts a row exactly when: make and model match `ILIKE '%v%'`; `year >= year_from`, `year <= year_to`, `price >= price_from` and `price <= price_to` hold; each for its non-empty key only. |
| Server.UsedCarQueryIsSelect | server/index.js:243-274 | The used-cars query is a well-formed `SELECT * FROM used_cars WHERE type = 'used_car' AND ...` whatever keys are given. |
| Server.CorsOrigin | server/index.js:79-92 | Allowed if and only if the origin is absent or empty, ALLOW_ALL_ORIGINS is exactly `"true"`, or the origin is in the allow list. Any other origin gets the "Not allowed by CORS" error. |
| Server.ForeignOriginRefused | server/index.js:84-91 | An unlisted origin is refused unless ALLOW_ALL_ORIGINS is `"true"`, which lets it through. |
| Server.RecordImages | server/index.js:177-189 | One URL `/uploads/<filename>` per uploaded file, in upload order. One image row per file, with the new listing's id, original name, mimetype and that URL. No files gives no URLs and no rows. |
| Server.UploadPathNamesFile | server/index.js:180 | A stored path starts with `/uploads/`, gives back its filename, and distinct filenames give distinct paths. |
| Server.StockStatusToStore | server/index.js:169 | `stock_status` if truthy, else `stockStatus` if truthy, else null. The result is null exactly when neither is truthy. |
| Server.ImageToStore | server/index.js:214 | `images[0]` when `images` is a non-empty array, else `image` if truthy, else null. |
| Server.ImagesStringIgnored | server/index.js:214 | A single path sent as a string in `images` is not an array and is ignored. |
| Server.ProductWritesCopyBody | server/index.js:168-219 | The INSERT binds seven values and the UPDATE nine. Each uncoalesced column binds the body field of its own name. `stock_status` and `image` are the coalesced values. The id comes last. |
| Server.UsedCarWritesCopyBody | server/index.js:288-325 | The INSERT binds make, model, year, price and mileage straight from the body. The UPDATE binds those, then the coalesced image, then the id. |
| Server.Login | server/index.js:350-357 | Success if and only if username and password are strictly equal to the configured values, answered with 200. Otherwise 401 with "Invalid credentials". |
| Server.UnconfiguredLoginAcceptsEmptyBody | server/index.js:353 | With neither credential configured, a body without credentials logs in (`undefined === undefined`). |
| Strings.JoinCons | server/index.js:152 | `[x, ...rest].join(sep)` is `x + sep + rest.join(sep)` for non-empty `rest`. |
| Strings.IndexOf | server/index.js:86 | `indexOf` is -1 exactly when the value is absent, and otherwise is its first position. |
| Strings.NatToString | src/components/AddUsedCarDialog.tsx:28-30 | The decimal text of a natural number is non-empty, all digits, with no leading zero. |
| Strings.ParseNatToString | src/components/AddUsedCarDialog.tsx:28-30 | Reading the decimal text back gives the number. |
| Strings.NatToStringInjective | src/pages/Admin.tsx:56 | Distinct numbers have distinct decimal texts. |
| Strings.IntToString | src/components/EditProductDialog.tsx:29 | `toString()` of an integer is non-empty and starts with `-` exactly for negative values. |
| Strings.ParseIntToString | src/components/EditProductDialog.tsx:29 | Reading an integer's text back gives the integer. |
| QueryString.ParseEncode | src/pages/Index.tsx:131-138 | The server splits the written `key=value&` segments back into exactly the pairs written, as long as keys hold neither `&` nor `=` and values hold no `&`. |
| QueryString.Escape | src/pages/Index.tsx:132 | An escaped value contains no `&`. |
| QueryString.UnescapeEscape | src/pages/Index.tsx:132 | Decoding an escaped value gives the value back, whatever it holds. |
| QueryString.UnescapeSafe | src/pages/Index.tsx:132-138 | A value without `%` or `+` decodes to itself. |
| QueryString.EscapedRoundTrip | src/pages/Index.tsx:131-138 | With every value escaped, the server decodes back exactly the pairs written, for any values. |
| IndexPage.RequestedKey | src/pages/Index.tsx:132-138 | The value written under each key: `name` is the search text when non-empty. `car`, `condition`, `stock_status` and `part` carry their select's value when it is neither empty nor `"all"`. Anything else is absent. |
| IndexPage.RequestedFilter | src/pages/Index.tsx:132-138 | The filter the server reads from the written pairs: the search as name, each select's chosen value or nothing, and no category. |
| IndexPage.RequestedShape | src/pages/Index.tsx:131-138 | No segment is written if and only if the search is empty and no select is chosen. |
| IndexPage.RequestedSafe | src/pages/Index.tsx:132-138 | Values free of `&`, `#`, `%` and `+` give pairs whose segments the server reads back as written. |
| IndexPage.RequestedUrl | src/pages/Index.tsx:131-138 | The URL starts with the products base. It is exactly the base when no filter is in use. For safe values, the server reads back the page's own filter. |
| IndexPage.AppendSegmentIf | src/pages/Index.tsx:132 | One guarded `url += `${key}=${value}&``: when the guard holds the URL grows by exactly that segment, and otherwise it is unchanged. |
| IndexPage.CatalogPage.constructor | src/pages/Index.tsx:113-125 | Initial state: every filter empty, the car-parts tab, both lists empty. |
| IndexPage.CatalogPage.ProductsUrl | src/pages/Index.tsx:131-138 | `fetchProducts`'s URL: base plus the segments of the filters in use, in the order name, car, condition, stock_status, part. It is the bare base exactly when no filter is in use. For safe values the server reads back the page's filter. |
| IndexPage.CatalogPage.Refresh | src/pages/Index.tsx:179-183 | The car-parts tab fetches the products URL and the other tab the used-cars URL. That list becomes the rows of the reply's array, or empty for a non-array or an error. The other list is kept. |
| IndexPage.UsedCarsTabUnfiltered | src/pages/Index.tsx:161-163 | The used-cars URL carries no pair, so the server runs its base query with no parameters. |
| IndexPage.SearchTextSameUrl | src/pages/Index.tsx:132-133 | As written, search text `a&car=b` produces the same URL as search `a` with car `b` selected. |
| IndexPage.SearchTextInjectsCar | src/pages/Index.tsx:132-133 | As written, the server then reads name `a` and car `b` from that search text alone. |
| IndexPage.SearchForAmpersandText | src/pages/Index.tsx:132 | Concretely: searching for `a&car=Ford` is served as name `a`, car `Ford`. |
| IndexPage.EscapedUrlReadsBack | src/pages/Index.tsx:131-138 | Corrected: with escaped values the URL still starts with the base, and the server reads back name = search text and each chosen select, for all inputs. |
| Listings.ListOrEmpty | src/pages/Index.tsx:142-156 | An array reply gives its items. Any other reply, or a thrown error, gives the empty list. |
| Listings.Rows | src/pages/Admin.tsx:19-25 | A list reply is stored item by item as rows, in order. |
| Listings.RemoveById | src/pages/Admin.tsx:59 | `filter(x => x.id !== id)`: an entry is kept exactly when it was in the list and does not have that id (an entry without an id is always kept). The list never grows. |
| Listings.RemoveByIdAppend | src/pages/Admin.tsx:59 | Removing from a concatenation is removing from each part, so the survivors keep their order. |
| Listings.RemoveAbsentId | src/pages/Admin.tsx:59 | Removing an id no entry has leaves the list unchanged. |
| Listings.RemoveByIdIdempotent | src/pages/Admin.tsx:59 | Removing the same id twice is removing it once. |
| Listings.ReplaceById | src/components/EditProductDialog.tsx:45-47 | `map(p => p.id === id ? updated : p)`: the length is the same, entries with the edited id become the reply, and every other entry is unchanged. |
| Listings.ReplaceByIdStable | src/components/EditProductDialog.tsx:46 | Replacing an absent id changes nothing. Replacing with a reply that keeps its id is idempotent. |
| Listings.Append | src/components/AddUsedCarDialog.tsx:42 | `[...prev, x]`: one longer, the old list is an unchanged prefix, and the new car is last. |
| Listings.RemoveUndoesAppend | src/components/AddUsedCarDialog.tsx:42 | Deleting a just-added car whose id is new gives back the list before the add. |
| Listings.FailedUpdateLosesRow | src/components/EditProductDialog.tsx:43-47 | When the update reply is the error object of server/index.js:224, the edited product's place holds that object. The length is kept, and no entry is left with the edited id. |
| Listings.ErrorObjectSurvivesDelete | src/pages/Admin.tsx:59 | An error object stored in a list has no id, so no delete removes it. |
| Admin.AdminPanel.constructor | src/pages/Admin.tsx:10-12 | Both lists start empty, on the car-parts tab. |
| Admin.AdminPanel.Load | src/pages/Admin.tsx:14-53 | The car-parts tab fetches `/api/products` and the other tab `/api/used_cars`. That list becomes the rows of the reply's array, or empty for a non-array or an error. The other list is kept. |
| Admin.AdminPanel.DeleteProduct | src/pages/Admin.tsx:55-61 | DELETE `/api/products/<id>`. Once the request resolves, with any status, every product with that id is dropped. A rejected request changes nothing. |
| Admin.AdminPanel.DeleteUsedCar | src/pages/Admin.tsx:63-69 | The same, on the used-car list and `/api/used_cars/<id>`. |
| Admin.DeleteUrlNamesListing | src/pages/Admin.tsx:56 | Distinct ids give distinct DELETE URLs. |
| Carousel.ImagesOrPlaceholder | src/components/ProductCard.tsx:39 | `images` when non-empty, else `["/placeholder.svg"]`; never empty. |
| Carousel.ImagesOrImage | src/components/UsedCarCard.tsx:34 | `images` if non-empty, else `[image]` if set, else the placeholder; never empty. |
| Carousel.FallbacksAgree | src/components/ProductDetailDialog.tsx:15 | Without `image` the three-way fallback is the card's two-way one. Every image shown is a listing image, its `image`, or the placeholder. |
| Carousel.Next | src/components/ProductCard.tsx:45 | `(i + 1) % len` stays below `len`. It moves to `i + 1`, or wraps to 0 from the last image. |
| Carousel.AdvanceWithin | src/components/ProductCard.tsx:44-46 | Before the end of the list, n firings move the index on by n. |
| Carousel.AdvanceSplit | src/components/ProductCard.tsx:44-46 | a + b firings are a firings followed by b firings. |
| Carousel.AdvanceWraps | src/components/ProductCard.tsx:44-46 | From index i, `len - i` firings come back to the first image. |
| Carousel.CyclesThroughEveryImage | src/components/ProductCard.tsx:44-46 | `len` firings return to the starting image, and every image is reached in fewer than `len` firings. |
| Carousel.GuardSkipsOnlyIdleSteps | src/components/ProductCard.tsx:43-45 | When not paused, the interval is installed if and only if a firing would move the index. When paused, it is never installed. |
| Carousel.Slideshow.constructor | src/components/ProductCard.tsx:35 | The index starts at 0 over a non-empty display list. |
| Carousel.Slideshow.Current | src/components/ProductCard.tsx:85 | `imgs[index]` is always one of the display list. |
| Carousel.Slideshow.Tick | src/components/ProductCard.tsx:43-46 | A firing advances the index to `(index + 1) % len` when not paused and there is more than one image. Otherwise it leaves the index alone. The index stays in bounds. |
| Carousel.Slideshow.SelectDot | src/components/ProductCard.tsx:89-94 | Clicking dot i selects image i. The dots exist only when there are several images. |
| ProductCard.AvailabilityColor | src/components/ProductCard.tsx:57-66 | `in_stock` and `low_stock` get their own classes. Anything else, `out_of_stock` included, gets the muted default. Each class occurs for exactly its statuses. |
| ProductCard.View | src/components/ProductCard.tsx:106-131 | The card shows the fallback image list and the availability colour. The in-stock label appears if and only if the status is `in_stock`, and the low-stock label otherwise. Buy is disabled if and only if the status is `out_of_stock`. |
| ProductCard.OutOfStockReadsLowStock | src/components/ProductCard.tsx:107-131 | Given a `stockStatus` prop, an out-of-stock part is labelled "Low Stock" in the muted colour with Buy disabled. A low-stock part keeps Buy enabled. |
| ProductCard.StorefrontCard | src/pages/Index.tsx:319 | The spread API row has no `stockStatus`, so on the storefront every card reads "Low Stock" in the muted colour and Buy is never disabled. |
| ProductCard.OutOfStockRowStaysBuyable | src/pages/Index.tsx:319 | A row stored as out of stock can still be bought from the storefront, and its badge looks the same as an in-stock row's. |
| ProductCard.StorefrontCardFixed | src/pages/Index.tsx:319 | With the status read from the row's `stock_status`, Buy is disabled if and only if the row is out of stock. The in-stock label appears if and only if it is in stock, and the colour follows the status. |
| Storefront.ResolveImageSrc | src/components/EditProductDialog.tsx:116 | A path under `/uploads/` is prefixed with the API host, and any other source is kept as it is. |
| Storefront.UploadedImageResolves | src/components/UsedCarDetailDialog.tsx:45 | A path stored by the create handlers resolves to the API host's `/uploads/` URL of that very file. |
| Storefront.ResolveImageSrcIdempotent | src/components/EditProductDialog.tsx:116 | Resolving a resolved source changes nothing. |
| Storefront.WhatsAppContact | src/components/ProductCard.tsx:133-144 | UK gives `+447427164150`/`£` and FR gives `+33712345678`/`€`. Every other currency gives the US default `+19714279184`/`$`. |
| Storefront.MileageUnit | src/components/UsedCarDetailDialog.tsx:61 | `"km"` if and only if the language is `"fr"`, else `"miles"`. |
| UsedCarCard.View | src/components/UsedCarCard.tsx:34-48 | The card shows the three-way fallback list, never empty, and the unit `"km"` exactly in French, `"miles"` otherwise. |
| UsedCarCard.BareCarShowsPlaceholder | src/components/UsedCarCard.tsx:34-38 | A car with no images shows only the placeholder and installs no interval. |
| ProductDetailDialog.Shown | src/components/ProductDetailDialog.tsx:13-15 | Nothing is rendered exactly when there is no product. Otherwise the three-way fallback list is shown, never empty. |
| UsedCarDetailDialog.Shown | src/components/UsedCarDetailDialog.tsx:12-14 | Nothing is rendered exactly when there is no car. Otherwise the three-way fallback list is shown, never empty. |
| UsedCarDetailDialog.SrcAt | src/components/UsedCarDetailDialog.tsx:45 | `imgs[index]?.startsWith('/uploads/')`: host-prefixed when it does, as is when it does not, and nothing past the end. |
| UsedCarDetailDialog.ShownUploadResolves | src/components/UsedCarDetailDialog.tsx:45 | A slideshow's current image always has a source, and an uploaded file's path resolves to that file on the API host. |
| FormData.FileEntries | src/components/EditProductDialog.tsx:34-38 | One `"images"` entry per selected file, in file order. None when no files are selected. |
| FormData.AppendFiles | src/components/AddUsedCarDialog.tsx:31-35 | The per-file loop leaves the text entries first and adds exactly the file entries after them. |
| FormData.TextFieldsSnoc | server/index.js:163-168 | A text entry is appended to its key's field: a first value sets it, a second turns it into the array of both, and a later one is pushed onto the array. A file entry leaves the body alone. |
| FormData.TextFieldsSnocNew | server/index.js:163-168 | A text entry under a key not sent before sets that key to its text. |
| FormData.TextFieldsCollect | server/index.js:163-168 | A key is present exactly when some text entry was sent under it. Its field is that one text, or the array of all its texts in order. |
| FormData.RepeatedFieldCollects | server/index.js:163-168 | A key sent twice reaches the handler as the array of both texts, not just the second. |
| FormData.TextFieldsIgnoresFiles | server/index.js:163 | The uploaded files never appear among the body fields. |
| EditProductDialog.EditProductForm.constructor | src/components/EditProductDialog.tsx:18-24 | The form copies the product's fields, takes the stock status from `stock_status`, and starts with no files. |
| EditProductDialog.EditProductForm.Submit | src/components/EditProductDialog.tsx:26-42 | PUT `/api/products/<id>` with name, price (as text), car, condition, stockStatus and part in that order, then the files. No category is sent. |
| EditProductDialog.EditProductForm.ApplyReply | src/components/EditProductDialog.tsx:43-47 | The status is not checked. Whatever the reply parsed to, the server's row or the error object of a failure reply, replaces the entries with the edited id. A reply that never parses changes nothing. |
| EditProductDialog.EditProductForm.CurrentImageSrcs | src/components/EditProductDialog.tsx:113-117 | Each current image is shown host-prefixed exactly when it starts with `/uploads/`. |
| EditProductDialog.EditBodyFields | src/components/EditProductDialog.tsx:28-38 | The body the form would produce holds exactly its six text fields. |
| EditProductDialog.EditBodySent | src/components/EditProductDialog.tsx:28-33 | Reading those fields gives the form's values, price as its decimal text. |
| EditProductDialog.EditBodyMissing | src/components/EditProductDialog.tsx:28-38 | `images`, `image`, `stock_status` and `category` are missing from that body. |
| EditProductDialog.EditedRowWouldClearCategory | server/index.js:202-219 | If the edit form's body reached the products UPDATE, it would bind null for the image and undefined for the category, while stockStatus would supply the stock status. |
| AddUsedCarDialog.AddUsedCarForm.constructor | src/components/AddUsedCarDialog.tsx:17-22 | Make and model start empty, year, price and mileage start at 0, and no files are selected. |
| AddUsedCarDialog.AddUsedCarForm.Submit | src/components/AddUsedCarDialog.tsx:24-39 | POST `/api/used_cars` with make, model, year, price and mileage (numbers as text), then one `"images"` entry per file. |
| AddUsedCarDialog.AddUsedCarForm.ApplyReply | src/components/AddUsedCarDialog.tsx:40-43 | The status is not checked. Whatever the reply parsed to, the new row or the error object of a failure reply (server/index.js:313), is appended to the admin used-car list. A reply that never parses changes nothing. |
| AddUsedCarDialog.AddBodyFields | src/components/AddUsedCarDialog.tsx:26-35 | The body the form produces holds exactly its five text fields. |
| AddUsedCarDialog.AddBodyRead | server/index.js:288-292 | The used-cars INSERT binds the form's make, model and the texts of year, price and mileage. |
| AddUsedCarDialog.StoredCarMatchesForm | server/index.js:288-292 | The bound year, price and mileage texts read back as the form's numbers. |

## Left out

- Database execution is left out: the pool, `RETURNING` rows and the evaluation of `ILIKE`, `=`, `>=` and `<=`. Matching is an abstract row predicate `holds(column, op, value)`.
- Multer disk storage is left out: filename generation from the clock and randomness, directory creation, the 10-file cap and `express.static`. Generated filenames are inputs of `Server.RecordImages`.
- Express wiring is left out: `app.options`, `express.json`, dotenv, `app.listen` and the 500 error paths. `ALLOW_ALL_ORIGINS` and the admin credentials are parameters.
- The path-to-regexp patching in `server/patch-path-to-regexp.js` and server/index.js:1-30 is logging only and is not part of this model.
- Floating point and locale formatting are left out: currency and mileage conversion, `toLocaleString`, `parseFloat`. Prices, years and mileages are integers.
- Timers, event handlers and async ordering are left out. The component hooks that sit after the early `return null` are also not modelled. Only the interval's step and guard (`Carousel.Slideshow.Tick`) and dot clicks are modelled.
- JSX layout, the translations table, `Header.tsx` and `HeroSection.tsx` are rendering only.
- `AddProductDialog.tsx` and `EditUsedCarDialog.tsx` are not well-formed components and are not part of this model.
- `src/data/products.ts` is sample data.
- Fetch and FormData transport are abstract: request bodies are the key/value entries the forms append. The PUT routes have no upload middleware, so `EditProductDialog.EditedRowWouldClearCategory` states what would happen if that body reached the UPDATE.
- The server's query-string parser is modelled as: split on `&`, drop empty pieces, split at the first `=`, first occurrence wins. Repeated keys becoming arrays and bracket syntax are left out.
- QueryString.Unescape: decodes `%XX` to one character of code 0-255 and `+` to a space, with no UTF-8 decoding and no handling of malformed escapes beyond keeping them.
- FormData.TextFields: keys are plain names. The middleware's bracket syntax (`a[b]`, `a[]`) that builds nested objects is not modelled, and the dialogs send no such key.
- Create and update replies: a reply is either the server's row or the error object. A PUT for an id with no row answers `res.json(undefined)`, an empty body on which the client's `res.json()` rejects. That case is the `None` reply of the two `ApplyReply` methods.
- Listings.ListOrEmpty: keeps the array items as they are, without the `parseFloat` price conversion.
- Carousel.Slideshow: the display list is fixed for one slideshow, so the index not being reset when the list changes is not captured.
- ProductDetailDialog.Shown: the dialog reads `stockStatus` and the other display fields, but only the image list is modelled.
- UsedCarCard.View: states the list the card shows, not its `<img>` source. The card uses `imgs[index]` as the source without the `/uploads/` host prefix that the detail dialog adds.

## Findings

| source | as written | input that shows it | evidently intended | confidence | as-written member | corrected member |
|---|---|---|---|---|---|---|
| server/index.js:122-153 | The products query is `SELECT * FROM products` followed by `" AND "` and the predicates, with no `WHERE` | `GET /api/products?condition=used&stock_status=in_stock` gives `SELECT * FROM products AND condition = $1 AND stock_status = $2` | `SELECT * FROM products WHERE condition = $1 AND stock_status = $2` | not executed | Server.ConditionAndStockQuery | Server.ProductQueryFixed |
| src/pages/Index.tsx:319 | Each row is spread into the card's props, but the row's status is `stock_status` and the card reads `stockStatus` | a row with `stock_status = "out_of_stock"` is shown as "Low Stock" with Buy enabled | the card given the row's status, so an out-of-stock part cannot be bought | not executed | ProductCard.OutOfStockRowStaysBuyable | ProductCard.StorefrontCardFixed |
| src/pages/Index.tsx:132-138 | Filter values are written into the URL without encoding | searching for `a&car=Ford` is read by the server as name `a` and car `Ford` | each value encoded, so the server reads back the search text as typed | not executed | IndexPage.SearchTextInjectsCar | IndexPage.EscapedUrlReadsBack |
