/**
 * The part of the home screen that turns a reverse-geocoding answer into a
 * country, and decides whether the questions can be opened.
 */
module Geocoding {

  import opened Wrappers
  import Catalog

  /** The `address` object of the geocoder's reply; only its `country` field is read. */
  datatype Address = Address(country: Option<string>)

  /**
   * `address?.country || null`: the country when the reply has an address
   * whose country is present and non-empty (the empty string is falsy), and
   * null otherwise.
   */
  function ExtractCountry(address: Option<Address>): (country: Option<string>)
    ensures country.Some? <==> address.Some? && address.value.country.Some? && address.value.country.value != ""
    ensures country.Some? ==> country.value == address.value.country.value
  {
    match address
    case None => None
    case Some(a) => if a.country.Some? && a.country.value != "" then a.country else None
  }

  /** `country && questionsData[country]`: the "show questions" button is offered. */
  predicate ShowsQuestions(country: Option<string>)
  {
    country.Some? && country.value != "" && country.value in Catalog.QuestionsData
  }

  /**
   * The button appears exactly when the geocoder names one of the catalog's
   * countries, and then the questions screen has questions to submit.
   */
  lemma GateOpensForCatalogCountries(address: Option<Address>)
    ensures ShowsQuestions(ExtractCountry(address))
        <==> address.Some? && address.value.country.Some?
             && address.value.country.value in {"France", "Japan", "India"}
    ensures ShowsQuestions(ExtractCountry(address))
        ==> |Catalog.Lookup(ExtractCountry(address).value)| == 3
  {
  }

}
