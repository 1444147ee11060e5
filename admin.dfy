/** The admin screen: the list its tab loads and the two delete handlers. */
module Admin {
  import opened Strings
  import opened Listings

  const ProductsEndpoint := "https://auto-salvage.onrender.com/api/products"
  const UsedCarsEndpoint := "https://auto-salvage.onrender.com/api/used_cars"

  /** How a DELETE request settles: resolved with some HTTP status, or rejected (network
      failure). */
  datatype Settlement = Resolved(status: int) | Rejected

  /** The state of the admin screen. The lists hold what the handlers stored: the rows of
      the last list reply, and whatever a create or update reply parsed to. */
  class AdminPanel {
    var products: seq<Entry<Product>>
    var usedCars: seq<Entry<UsedCar>>
    var activeTab: Tab

    constructor ()
      ensures products == [] && usedCars == [] && activeTab == CarParts
    {
      products, usedCars, activeTab := [], [], CarParts;
    }

    /** The effect run when the tab changes: the car-parts tab loads the products
        endpoint, the other tab the used-cars endpoint; the reply of that request (given
        here) replaces that list, anything but an array giving the empty list. */
    method Load(productsReply: ListReply<Product>, usedCarsReply: ListReply<UsedCar>) returns (url: string)
      modifies this`products, this`usedCars
      ensures activeTab == CarParts ==>
        url == ProductsEndpoint && products == Rows(ListOrEmpty(productsReply)) && usedCars == old(usedCars)
      ensures activeTab != CarParts ==>
        url == UsedCarsEndpoint && usedCars == Rows(ListOrEmpty(usedCarsReply)) && products == old(products)
    {
      if activeTab == CarParts {
        url := ProductsEndpoint;
        products := Rows(ListOrEmpty(productsReply));
      } else {
        url := UsedCarsEndpoint;
        usedCars := Rows(ListOrEmpty(usedCarsReply));
      }
    }

    /** `handleDeleteProduct`: DELETE `/api/products/<id>`, then, once the request has
        resolved, with whatever status, drop every product with that id. A rejected request
        changes nothing. */
    method DeleteProduct(id: int, settled: Settlement) returns (url: string)
      modifies this`products
      ensures url == ProductsEndpoint + "/" + IntToString(id)
      ensures settled.Resolved? ==> products == RemoveById(old(products), id, ProductId)
      ensures settled.Rejected? ==> products == old(products)
    {
      url := ProductsEndpoint + "/" + IntToString(id);
      if settled.Resolved? {
        products := RemoveById(products, id, ProductId);
      }
    }

    /** `handleDeleteUsedCar`: the same on the used-car list. */
    method DeleteUsedCar(id: int, settled: Settlement) returns (url: string)
      modifies this`usedCars
      ensures url == UsedCarsEndpoint + "/" + IntToString(id)
      ensures settled.Resolved? ==> usedCars == RemoveById(old(usedCars), id, UsedCarId)
      ensures settled.Rejected? ==> usedCars == old(usedCars)
    {
      url := UsedCarsEndpoint + "/" + IntToString(id);
      if settled.Resolved? {
        usedCars := RemoveById(usedCars, id, UsedCarId);
      }
    }
  }

  /** The DELETE URL names the listing: distinct ids give distinct URLs. */
  lemma DeleteUrlNamesListing(id: int, other: int)
    ensures ProductsEndpoint + "/" + IntToString(id) == ProductsEndpoint + "/" + IntToString(other) ==> id == other
  {
    var prefix := ProductsEndpoint + "/";
    if prefix + IntToString(id) == prefix + IntToString(other) {
      assert (prefix + IntToString(id))[|prefix|..] == IntToString(id);
      assert (prefix + IntToString(other))[|prefix|..] == IntToString(other);
      ParseIntToString(id);
      ParseIntToString(other);
    }
  }
}
