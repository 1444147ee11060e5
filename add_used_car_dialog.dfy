/** The admin dialog that adds a used car: its form state, the multipart body it posts,
    what the server's create handler reads from that body, and the list update applied to
    the reply. */
module AddUsedCarDialog {
  import opened Wrappers
  import opened Strings
  import opened Listings
  import opened FormData
  import opened Admin
  import Server

  /** The text entries of `handleSubmit`, in the order it appends them; the numbers are
      sent as their decimal text. */
  function AddTextEntries(make: string, model: string, year: int, price: int, mileage: int): seq<FormEntry>
  {
    [ FormEntry("make", Text(make)), FormEntry("model", Text(model)), FormEntry("year", Text(IntToString(year))),
      FormEntry("price", Text(IntToString(price))), FormEntry("mileage", Text(IntToString(mileage))) ]
  }

  /** The dialog's state: one `useState` per field. */
  class AddUsedCarForm {
    var make: string
    var model: string
    var year: int
    var price: int
    var mileage: int
    var files: Option<seq<LocalFile>>

    /** An empty form: blank texts, zero numbers, no file selected. */
    constructor ()
      ensures make == "" && model == "" && year == 0 && price == 0 && mileage == 0 && files == None
    {
      make, model, year, price, mileage, files := "", "", 0, 0, 0, None;
    }

    /** `handleSubmit`'s request: POST to the used-cars endpoint with the five text
        entries in order and then one "images" entry per selected file. */
    method Submit() returns (url: string, entries: seq<FormEntry>)
      ensures url == UsedCarsEndpoint
      ensures entries == AddTextEntries(make, model, year, price, mileage) + FileEntries(files)
    {
      entries := [];
      entries := entries + [FormEntry("make", Text(make))];
      entries := entries + [FormEntry("model", Text(model))];
      entries := entries + [FormEntry("year", Text(IntToString(year)))];
      entries := entries + [FormEntry("price", Text(IntToString(price)))];
      entries := entries + [FormEntry("mileage", Text(IntToString(mileage)))];
      assert entries == AddTextEntries(make, model, year, price, mileage);
      entries := AppendFiles(entries, files);
      url := UsedCarsEndpoint;
    }

    /** The reply handler: whatever the reply parsed to is appended to the admin's
        used-car list; the status is not looked at, so a failure reply appends its error
        object. A reply that never parses (`None`) changes nothing. */
    method ApplyReply(admin: AdminPanel, reply: Option<Entry<UsedCar>>)
      modifies admin`usedCars
      ensures reply.Some? ==> admin.usedCars == Append(old(admin.usedCars), reply.value)
      ensures reply.None? ==> admin.usedCars == old(admin.usedCars)
    {
      if reply.Some? {
        admin.usedCars := admin.usedCars + [reply.value];
      }
    }
  }

  /** The text fields the create handler reads from the posted body: the five entries,
      keyed as sent; the files go to the upload middleware, not to the fields. */
  lemma AddBodyFields(make: string, model: string, year: int, price: int, mileage: int, files: Option<seq<LocalFile>>)
    ensures TextFields(AddTextEntries(make, model, year, price, mileage) + FileEntries(files)) ==
      map["make" := Server.Str(make), "model" := Server.Str(model), "year" := Server.Str(IntToString(year)),
          "price" := Server.Str(IntToString(price)), "mileage" := Server.Str(IntToString(mileage))]
  {
    var entries := AddTextEntries(make, model, year, price, mileage);
    TextFieldsIgnoresFiles(entries, files);
    var f1 := map["make" := Server.Str(make)];
    var f2 := f1["model" := Server.Str(model)];
    var f3 := f2["year" := Server.Str(IntToString(year))];
    var f4 := f3["price" := Server.Str(IntToString(price))];
    var f5 := f4["mileage" := Server.Str(IntToString(mileage))];
    assert TextFields(entries[..1]) == f1 by {
      TextFieldsSnocNew([], map[], "make", make);
      assert [] + [entries[0]] == entries[..1];
    }
    assert TextFields(entries[..2]) == f2 by {
      TextFieldsSnocNew(entries[..1], f1, "model", model);
      assert entries[..1] + [entries[1]] == entries[..2];
    }
    assert TextFields(entries[..3]) == f3 by {
      TextFieldsSnocNew(entries[..2], f2, "year", IntToString(year));
      assert entries[..2] + [entries[2]] == entries[..3];
    }
    assert TextFields(entries[..4]) == f4 by {
      TextFieldsSnocNew(entries[..3], f3, "price", IntToString(price));
      assert entries[..3] + [entries[3]] == entries[..4];
    }
    assert TextFields(entries) == f5 by {
      TextFieldsSnocNew(entries[..4], f4, "mileage", IntToString(mileage));
      assert entries[..4] + [entries[4]] == entries;
    }
  }

  /** The five fields the create handler destructures, read back as the form sent them. */
  lemma AddBodyRead(make: string, model: string, year: int, price: int, mileage: int, files: Option<seq<LocalFile>>)
    ensures var body := TextFields(AddTextEntries(make, model, year, price, mileage) + FileEntries(files));
      Server.UsedCarInsertParams(body) == [ Server.Str(make), Server.Str(model), Server.Str(IntToString(year)),
                                            Server.Str(IntToString(price)), Server.Str(IntToString(mileage)) ]
  {
    AddBodyFields(make, model, year, price, mileage, files);
  }

  /** The INSERT binds exactly what the form held: make and model as typed, and year,
      price and mileage as decimal texts that read back as the form's numbers. */
  lemma StoredCarMatchesForm(make: string, model: string, year: int, price: int, mileage: int, files: Option<seq<LocalFile>>)
    ensures var params := Server.UsedCarInsertParams(TextFields(AddTextEntries(make, model, year, price, mileage) + FileEntries(files)));
      params == [ Server.Str(make), Server.Str(model), Server.Str(IntToString(year)),
                  Server.Str(IntToString(price)), Server.Str(IntToString(mileage)) ] &&
      ParseInt(params[2].s) == year && ParseInt(params[3].s) == price && ParseInt(params[4].s) == mileage
  {
    AddBodyRead(make, model, year, price, mileage, files);
    ParseIntToString(year);
    ParseIntToString(price);
    ParseIntToString(mileage);
  }
}
