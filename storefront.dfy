/** Decisions the storefront components share: where an uploaded image is served from,
    which WhatsApp number and currency symbol a currency selects, and the mileage unit. */
module Storefront {
  import opened Strings
  import Server

  /** The API host the client talks to. */
  const ApiHost := "https://auto-salvage.onrender.com"

  /** `img?.startsWith('/uploads/') ? `${host}${img}` : img`: a server upload path is
      served by the API host, any other source is used as it is. */
  function ResolveImageSrc(src: string): (url: string)
    ensures StartsWith(src, Server.UploadsRoute) ==> url == ApiHost + src
    ensures !StartsWith(src, Server.UploadsRoute) ==> url == src
  {
    if StartsWith(src, "/uploads/") then ApiHost + src else src
  }

  /** A path built by the create handlers resolves to the API host's `/uploads/` route
      for the very file that was stored. */
  lemma UploadedImageResolves(filename: string)
    ensures ResolveImageSrc(Server.UploadsRoute + filename) == ApiHost + "/uploads/" + filename
  {
    Server.UploadPathNamesFile(filename, filename);
  }

  /** Resolving twice is resolving once: a resolved upload path starts with the host,
      not with `/uploads/`. */
  lemma ResolveImageSrcIdempotent(src: string)
    ensures ResolveImageSrc(ResolveImageSrc(src)) == ResolveImageSrc(src)
  {
    if StartsWith(src, "/uploads/") {
      assert (ApiHost + src)[0] == 'h';
    }
  }

  /** The contact the Buy button opens. */
  datatype Contact = Contact(whatsappNumber: string, currencySymbol: string)

  /** The number and symbol of the Buy button's handler: the US pair unless the currency
      is exactly "UK" or "FR". */
  method WhatsAppContact(currency: string) returns (whatsappNumber: string, currencySymbol: string)
    ensures currency == "UK" ==> whatsappNumber == "+447427164150" && currencySymbol == "£"
    ensures currency == "FR" ==> whatsappNumber == "+33712345678" && currencySymbol == "€"
    ensures currency != "UK" && currency != "FR" ==> whatsappNumber == "+19714279184" && currencySymbol == "$"
    ensures Contact(whatsappNumber, currencySymbol) in KnownContacts()
  {
    whatsappNumber := "+19714279184";
    currencySymbol := "$";
    if currency == "UK" {
      whatsappNumber := "+447427164150";
      currencySymbol := "£";
    } else if currency == "FR" {
      whatsappNumber := "+33712345678";
      currencySymbol := "€";
    }
  }

  /** The three contacts, each number paired with its own currency's symbol. */
  function KnownContacts(): set<Contact>
  {
    {Contact("+19714279184", "$"), Contact("+447427164150", "£"), Contact("+33712345678", "€")}
  }

  /** `language === "fr" ? "km" : "miles"`. */
  function MileageUnit(language: string): (unit: string)
    ensures unit == "km" <==> language == "fr"
    ensures unit != "km" ==> unit == "miles"
  {
    if language == "fr" then "km" else "miles"
  }
}
