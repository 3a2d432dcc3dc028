/** What a handler of the form asks of the outside world: the REST requests it
    issues, the toast notifications it shows and whether it goes back in the
    browser history. Paths are relative to the API's base URL. */
module Requests {
  import opened BeerModel
  import opened Decimal

  datatype Request =
    | Get(url: string)
    | Post(url: string, body: Beer)
    | Put(url: string, body: Beer)
    | Delete(url: string)

  datatype Notice = Success(message: string) | Error(message: string)

  /** How an awaited create, update or delete request ends: it resolves, or it
      throws an exception carrying a message. */
  datatype Response = Completed | Failed(message: string)

  /** How the awaited `GET /beers/{id}` ends. */
  datatype Fetch = Fetched(data: Beer) | FetchFailed(message: string)

  /** Everything one handler call does besides changing the form's state. */
  datatype Outcome = Outcome(requests: seq<Request>, notices: seq<Notice>, navigatedBack: bool)

  const IdOrBreweryRequired: string := "Beer id or brewery id required"
  const FormHasErrors: string := "Form has validation errors"
  const SavedSuccessfully: string := "Saved successfully"
  const IdRequiredForDelete: string := "Beer id is required for delete"
  const BeerDeleted: string := "Beer deleted"

  const BeersPath: string := "/beers/"
  const BreweriesPath: string := "/breweries/"

  function BeerUrl(beerId: int): (url: string)
    ensures |url| > |BeersPath| && url[..|BeersPath|] == BeersPath && url[|BeersPath|..] == IntToString(beerId)
  {
    BeersPath + IntToString(beerId)
  }

  function BreweryUrl(breweryId: int): (url: string)
    ensures |url| > |BreweriesPath| && url[..|BreweriesPath|] == BreweriesPath && url[|BreweriesPath|..] == IntToString(breweryId)
  {
    BreweriesPath + IntToString(breweryId)
  }

  /** A beer's URL names that beer and no other. */
  lemma BeerUrlInjective(a: int, b: int)
    ensures BeerUrl(a) == BeerUrl(b) <==> a == b
  {
    if BeerUrl(a) == BeerUrl(b) {
      IntToStringInjective(a, b);
    }
  }

  /** A brewery's URL names that brewery and no other. */
  lemma BreweryUrlInjective(a: int, b: int)
    ensures BreweryUrl(a) == BreweryUrl(b) <==> a == b
  {
    if BreweryUrl(a) == BreweryUrl(b) {
      IntToStringInjective(a, b);
    }
  }

  /** A mutating request can never be mistaken for one on another resource
      kind: beer URLs and brewery URLs are disjoint. */
  lemma BeerAndBreweryUrlsDiffer(a: int, b: int)
    ensures BeerUrl(a) != BreweryUrl(b)
  {
    assert BeerUrl(a)[1] == 'b' && BeerUrl(a)[2] == 'e';
    assert BreweryUrl(b)[1] == 'b' && BreweryUrl(b)[2] == 'r';
  }
}
