/** The beer form page: what it renders and the state its handlers update. */
module BeerInfo {
  import opened Decimal
  import opened BeerModel
  import opened Query
  import opened Access
  import opened Validation
  import opened Requests

  function ReviewInfoLink(beerId: int): string {
    "/review-info?beerId=" + IntToString(beerId)
  }

  function ReviewsLink(beerId: int): string {
    "/reviews?beerId=" + IntToString(beerId)
  }

  /** Whether the input of the given name is read-only: the brewery name
      always, the beer name once the beer has an id, the rest unless the
      user may edit. */
  function InputReadOnly(name: string, beer: Beer, isEditable: bool): bool {
    if name == "breweryName" then true
    else if name == "name" then beer.beerId != 0
    else !isEditable
  }

  /** The names of the text controls, in document order. */
  const ControlOrder: seq<string> := ["breweryName", "name", "description", "imgUrl", "abv", "type"]

  /** Where the input bound to a record field sits among the controls. */
  function InputIndex(name: string): (i: nat)
    requires name in InputNames
    ensures 0 < i < |ControlOrder| && ControlOrder[i] == name
  {
    if name == "name" then 1
    else if name == "description" then 2
    else if name == "imgUrl" then 3
    else if name == "abv" then 4
    else 5
  }

  /** The six text controls, in document order. */
  function TextControls(beer: Beer, breweryName: string, isEditable: bool): (cs: seq<Control>)
    ensures |cs| == |ControlOrder|
    ensures forall i :: 0 <= i < |cs| ==> cs[i].Input? && cs[i].Name() == ControlOrder[i]
    ensures cs[0] == Input("breweryName", breweryName, true)
    ensures forall n :: n in InputNames ==>
              cs[InputIndex(n)] == Input(n, FieldValue(beer, n), InputReadOnly(n, beer, isEditable))
    ensures cs[1].readOnly <==> beer.beerId != 0
    ensures forall i :: 2 <= i < |cs| ==> (cs[i].readOnly <==> !isEditable)
  {
    [ Input("breweryName", breweryName, true),
      Input("name", beer.name, InputReadOnly("name", beer, isEditable)),
      Input("description", beer.description, InputReadOnly("description", beer, isEditable)),
      Input("imgUrl", beer.imgUrl, InputReadOnly("imgUrl", beer, isEditable)),
      Input("abv", beer.abv, InputReadOnly("abv", beer, isEditable)),
      Input("type", beer.beerType, InputReadOnly("type", beer, isEditable)) ]
  }

  /** The buttons the current state shows, in document order. */
  function ButtonControls(beer: Beer, isEditable: bool): (cs: seq<Control>)
    ensures forall i :: 0 <= i < |cs| ==> cs[i].Button?
    ensures Button(Save) in cs <==> isEditable
    ensures Button(Cancel) in cs
    ensures Button(Remove) in cs <==> isEditable && beer.beerId > 0
    ensures Button(AddReview(ReviewInfoLink(beer.beerId))) in cs <==> beer.beerId > 0
    ensures Button(ViewReviews(ReviewsLink(beer.beerId))) in cs <==> beer.beerId > 0
  {
    (if isEditable then [Button(Save)] else [])
    + [Button(Cancel)]
    + (if isEditable && beer.beerId > 0 then [Button(Remove)] else [])
    + (if beer.beerId > 0
       then [Button(AddReview(ReviewInfoLink(beer.beerId))),
             Button(ViewReviews(ReviewsLink(beer.beerId)))]
       else [])
  }

  /** The elements of the rendered `beerForm`: the six text controls, then
      the buttons. Every control is a button or has a name of its own, and
      the inputs show the record, read-only as the page decides. */
  function FormControls(beer: Beer, breweryName: string, isEditable: bool): (cs: seq<Control>)
    ensures |cs| >= |ControlOrder|
    ensures forall i :: 0 <= i < |cs| ==> cs[i].Name() == (if i < |ControlOrder| then ControlOrder[i] else "")
    ensures cs[0] == Input("breweryName", breweryName, true)
    ensures forall n :: n in InputNames ==>
              cs[InputIndex(n)] == Input(n, FieldValue(beer, n), InputReadOnly(n, beer, isEditable))
    ensures cs[|ControlOrder|..] == ButtonControls(beer, isEditable)
  {
    var text := TextControls(beer, breweryName, isEditable);
    var buttons := ButtonControls(beer, isEditable);
    var cs := text + buttons;
    assert forall i :: 0 <= i < 6 ==> cs[i] == text[i];
    assert forall i :: 6 <= i < |cs| ==> cs[i] == buttons[i - 6] && cs[i].Name() == "";
    assert cs[6..] == buttons;
    cs
  }

  /** The errors a full validation of the record should report: one entry
      per record field whose value is not acceptable. */
  function ExpectedErrors(beer: Beer, numeric: string -> bool): map<string, string> {
    map n | n in InputNames && ValidateField(n, FieldValue(beer, n), numeric) != "" ::
      ValidateField(n, FieldValue(beer, n), numeric)
  }

  /** Validating the rendered form reports exactly the record's bad fields;
      the brewery name and the buttons never contribute an error. */
  lemma RenderedErrorMap(beer: Beer, breweryName: string, isEditable: bool, numeric: string -> bool)
    ensures ErrorMap(FormControls(beer, breweryName, isEditable), FieldCheck(numeric)) == ExpectedErrors(beer, numeric)
  {
    ErrorMapOfLayout(FormControls(beer, breweryName, isEditable), beer, numeric);
  }

  /** A control sequence laid out like the rendered form. */
  ghost predicate FormLayout(cs: seq<Control>, beer: Beer) {
    && |cs| >= |ControlOrder|
    && (forall i :: 0 <= i < |cs| ==> cs[i].Name() == (if i < |ControlOrder| then ControlOrder[i] else ""))
    && (forall n :: n in InputNames ==> cs[InputIndex(n)].Value() == FieldValue(beer, n))
  }

  /** The same fact for any control sequence laid out like the form. */
  lemma ErrorMapOfLayout(cs: seq<Control>, beer: Beer, numeric: string -> bool)
    requires FormLayout(cs, beer)
    ensures ErrorMap(cs, FieldCheck(numeric)) == ExpectedErrors(beer, numeric)
  {
    var m := ErrorMap(cs, FieldCheck(numeric));
    var e := ExpectedErrors(beer, numeric);
    LayoutKeys(cs, beer, numeric);
    forall k
      ensures k in m <==> k in e
      ensures k in m ==> m[k] == e[k]
    {
      if k in InputNames {
        LayoutEntry(cs, beer, numeric, k);
      }
    }
  }

  lemma LayoutEntry(cs: seq<Control>, beer: Beer, numeric: string -> bool, n: string)
    requires FormLayout(cs, beer)
    requires n in InputNames
    ensures n in ErrorMap(cs, FieldCheck(numeric)) <==> ValidateField(n, FieldValue(beer, n), numeric) != ""
    ensures n in ErrorMap(cs, FieldCheck(numeric)) ==> ErrorMap(cs, FieldCheck(numeric))[n] == ValidateField(n, FieldValue(beer, n), numeric)
  {
    var j := InputIndex(n);
    forall i | 0 <= i < |cs| && i != j
      ensures cs[i].Name() != cs[j].Name()
    {
      ControlOrderDistinct();
    }
    ErrorMapUnique(cs, FieldCheck(numeric), j);
  }

  lemma LayoutKeys(cs: seq<Control>, beer: Beer, numeric: string -> bool)
    requires FormLayout(cs, beer)
    ensures forall k :: k in ErrorMap(cs, FieldCheck(numeric)) ==> k in InputNames
  {
    var check := FieldCheck(numeric);
    forall i | 0 <= i < |cs|
      ensures check(cs[i]) == "" || cs[i].Name() in InputNames
    {
      if i == 0 {
        assert cs[i].Name() == "breweryName";
      } else if i < |ControlOrder| {
        assert cs[i].Name() == ControlOrder[i];
      } else {
        assert cs[i].Name() == "";
      }
    }
    ErrorMapDomain(cs, check);
  }

  lemma ControlOrderDistinct()
    ensures forall i, j :: 0 <= i < j < |ControlOrder| ==> ControlOrder[i] != ControlOrder[j]
  {
  }

  /** The form is valid exactly when the beer has a name, a description,
      an image, a type and a numeric ABV. */
  lemma RenderedFormValid(beer: Beer, breweryName: string, isEditable: bool, numeric: string -> bool)
    ensures ErrorMap(FormControls(beer, breweryName, isEditable), FieldCheck(numeric)) == map[] <==>
              beer.name != "" && beer.description != "" && beer.imgUrl != "" &&
              beer.beerType != "" && beer.abv != "" && numeric(beer.abv)
  {
    RenderedErrorMap(beer, breweryName, isEditable, numeric);
    ExpectedErrorsEmpty(beer, numeric);
  }

  /** No expected error exactly when every record field is acceptable. */
  lemma ExpectedErrorsEmpty(beer: Beer, numeric: string -> bool)
    ensures ExpectedErrors(beer, numeric) == map[] <==>
              beer.name != "" && beer.description != "" && beer.imgUrl != "" &&
              beer.beerType != "" && beer.abv != "" && numeric(beer.abv)
  {
    var e := ExpectedErrors(beer, numeric);
    if e == map[] {
      assert "name" !in e && "description" !in e && "imgUrl" !in e;
      assert "type" !in e && "abv" !in e;
    } else {
      var k :| k in e;
      assert !Acceptable(k, FieldValue(beer, k), numeric);
    }
  }

  /** What `formValid()` concludes about the rendered form, in one place. */
  lemma FormValidity(beer: Beer, breweryName: string, isEditable: bool, numeric: string -> bool)
    ensures var m := ErrorMap(FormControls(beer, breweryName, isEditable), FieldCheck(numeric));
            && m == ExpectedErrors(beer, numeric)
            && (m == map[] <==> forall e :: e in m.Values ==> e == "")
            && (m == map[] <==>
                  beer.name != "" && beer.description != "" && beer.imgUrl != "" &&
                  beer.beerType != "" && beer.abv != "" && numeric(beer.abv))
  {
    RenderedErrorMap(beer, breweryName, isEditable, numeric);
    RenderedFormValid(beer, breweryName, isEditable, numeric);
    ErrorMapValid(FormControls(beer, breweryName, isEditable), FieldCheck(numeric));
  }

  /** The error `handleInputChange` stores for the edited field is the one a
      full validation of the updated record reports for it. */
  lemma InputChangeMatchesFormValid(beer: Beer, name: string, value: string, numeric: string -> bool)
    requires name in InputNames
    ensures var e := ExpectedErrors(SetField(beer, name, value), numeric);
            && (name in e <==> ValidateField(name, value, numeric) != "")
            && (name in e ==> e[name] == ValidateField(name, value, numeric))
  {
  }

  /** The two loops of `formValid()` run over the rendered form: the error
      map holds exactly the record's bad fields, and the form is valid
      exactly when every record field is acceptable. */
  method ValidateForm(beer: Beer, breweryName: string, isEditable: bool, numeric: string -> bool)
    returns (fieldErrors: map<string, string>, valid: bool)
    ensures fieldErrors == ExpectedErrors(beer, numeric)
    ensures valid <==> fieldErrors == map[]
    ensures valid <==>
              beer.name != "" && beer.description != "" && beer.imgUrl != "" &&
              beer.beerType != "" && beer.abv != "" && numeric(beer.abv)
  {
    var fields := FormControls(beer, breweryName, isEditable);
    fieldErrors, valid := ValidateControls(fields, numeric);
    FormValidity(beer, breweryName, isEditable, numeric);
  }

  /** Opened by a `?<beerId>` link, the page starts from a record without a
      brewery (when `Number("0")` is 0), so `getData` fetches the beer; opened
      by a `?breweryId=<id>` link, it starts from a record of brewery
      `Number(<id>)`, which `getData` keeps unless that number is 0. */
  lemma StartingBrewery(beerId: nat, id: string, toNumber: string -> int)
    ensures toNumber("0") == 0 ==>
              EmptyBeer(toNumber(GetBreweryId("?" + NatToString(beerId)))).breweryId == 0
    ensures EmptyBeer(toNumber(GetBreweryId(BreweryIdParam + id))).breweryId == toNumber(id)
  {
    EditLinkBreweryId(beerId);
    NewBeerLinkBreweryId(id);
  }

  /** The state of one `BeerInfo` page. `search` is the page's fixed
      `window.location.search`; `numeric` is the browser's number test for
      the ABV text, which the model leaves abstract. */
  class BeerForm {
    var beer: Beer
    var breweryName: string
    var validationError: map<string, string>
    var isFormValid: bool
    var isEditable: bool
    const search: string
    const numeric: string -> bool

    /** The page as first rendered for the query string `search`: the brewery
        id of the empty record is `Number(getBreweryId())`, with `toNumber`
        standing for JavaScript's `Number`. */
    constructor (search: string, toNumber: string -> int, numeric: string -> bool)
      ensures beer == EmptyBeer(toNumber(GetBreweryId(search))) && breweryName == ""
      ensures validationError == map[] && isFormValid && isEditable
      ensures this.search == search && this.numeric == numeric
    {
      beer := EmptyBeer(toNumber(GetBreweryId(search)));
      breweryName := "";
      validationError := map[];
      isFormValid := true;
      isEditable := true;
      this.search := search;
      this.numeric := numeric;
    }

    /** The effect that recomputes `isEditable` for the signed-in user. */
    method RefreshEditable(user: User)
      modifies this`isEditable
      ensures isEditable == CanEdit(user, beer.breweryId)
    {
      var editable := false;
      if |user.authorities| > 0 {
        var role := user.authorities[0];
        if role.name == AdminAuthority ||
           (role.name == BrewerAuthority && user.breweryId == beer.breweryId) {
          editable := true;
        }
      }
      isEditable := editable;
    }

    /** `getData()`: a page without a query string only reports the missing
        id. Otherwise the guard is the record's brewery id, not the form of
        the query string: when it is not 0 nothing happens, and when it is 0
        the text after `?` is fetched as a beer id. */
    method GetData(fetch: Fetch) returns (o: Outcome)
      modifies this`beer
      ensures !o.navigatedBack
      ensures search == "" ==> o.requests == [] && o.notices == [Error(IdOrBreweryRequired)] && beer == old(beer)
      ensures search != "" && old(beer).breweryId != 0 ==> o.requests == [] && o.notices == [] && beer == old(beer)
      ensures search != "" && old(beer).breweryId == 0 ==>
                && o.requests == [Get(BeersPath + Substring(search, 1))]
                && (fetch.Fetched? ==> beer == fetch.data && o.notices == [])
                && (fetch.FetchFailed? ==> beer == old(beer) && o.notices == [Error(fetch.message)])
    {
      var requests: seq<Request> := [];
      var notices: seq<Notice> := [];
      if search != "" {
        if beer.breweryId == 0 {
          var id := Substring(search, 1);
          requests := requests + [Get(BeersPath + id)];
          match fetch
          case Fetched(data) =>
            beer := data;
          case FetchFailed(message) =>
            notices := notices + [Error(message)];
        }
      } else {
        notices := notices + [Error(IdOrBreweryRequired)];
      }
      o := Outcome(requests, notices, false);
    }

    /** `handleInputChange(event)`: store the typed value in the record and
        re-validate that one field; other fields and other errors stay. */
    method HandleInputChange(name: string, value: string)
      requires name in InputNames
      modifies this`beer, this`validationError
      ensures beer == SetField(old(beer), name, value)
      ensures validationError == old(validationError)[name := ValidateField(name, value, numeric)]
    {
      beer := SetField(beer, name, value);
      validationError := validationError[name := ValidateField(name, value, numeric)];
    }

    /** `formValid()`: validate every control of the form, replace the whole
        error map and record whether it came out empty. */
    method FormValid() returns (valid: bool)
      modifies this`validationError, this`isFormValid
      ensures validationError == ExpectedErrors(old(beer), numeric)
      ensures isFormValid == valid
      ensures valid <==> validationError == map[]
      ensures valid <==>
                old(beer.name != "" && beer.description != "" && beer.imgUrl != "" &&
                    beer.beerType != "" && beer.abv != "" && numeric(beer.abv))
    {
      var record, brewery, editable := beer, breweryName, isEditable;
      var fieldErrors;
      fieldErrors, valid := ValidateForm(record, brewery, editable, numeric);
      validationError := fieldErrors;
      isFormValid := valid;
    }

    /** `handleSubmit(event)`: validate, then create (`beerId == 0`) or update
        the beer; go back only once the request has gone through. */
    method HandleSubmit(response: Response) returns (o: Outcome)
      modifies this`validationError, this`isFormValid
      ensures validationError == ExpectedErrors(old(beer), numeric)
      ensures isFormValid <==> validationError == map[]
      ensures !isFormValid ==> o == Outcome([], [Error(FormHasErrors)], false)
      ensures isFormValid && old(beer.beerId) == 0 ==>
                o.requests == [Post(BreweryUrl(old(beer.breweryId)), old(beer))]
      ensures isFormValid && old(beer.beerId) != 0 ==>
                o.requests == [Put(BeerUrl(old(beer.beerId)), old(beer))]
      ensures isFormValid && response.Completed? ==> o.notices == [Success(SavedSuccessfully)]
      ensures isFormValid && response.Failed? ==> o.notices == [Error(response.message)]
      ensures o.navigatedBack <==> isFormValid && response.Completed?
    {
      var requests: seq<Request> := [];
      var notices: seq<Notice> := [];
      var navigated := false;
      var valid := FormValid();
      if valid {
        if beer.beerId == 0 {
          requests := requests + [Post(BreweryUrl(beer.breweryId), beer)];
        } else {
          requests := requests + [Put(BeerUrl(beer.beerId), beer)];
        }
        match response
        case Completed =>
          notices := notices + [Success(SavedSuccessfully)];
          navigated := true;
        case Failed(message) =>
          notices := notices + [Error(message)];
      } else {
        notices := notices + [Error(FormHasErrors)];
      }
      o := Outcome(requests, notices, navigated);
    }

    /** `handleDelete(event)`: delete the beer by id. Without an id no request
        is sent, yet the page still reports the deletion and goes back. */
    method HandleDelete(response: Response) returns (o: Outcome)
      ensures beer.beerId == 0 ==>
                o == Outcome([], [Error(IdRequiredForDelete), Success(BeerDeleted)], true)
      ensures beer.beerId != 0 ==> o.requests == [Delete(BeerUrl(beer.beerId))]
      ensures beer.beerId != 0 && response.Completed? ==>
                o.notices == [Success(BeerDeleted)] && o.navigatedBack
      ensures beer.beerId != 0 && response.Failed? ==>
                o.notices == [Error(response.message)] && !o.navigatedBack
    {
      var requests: seq<Request> := [];
      var notices: seq<Notice> := [];
      var navigated := false;
      var failed := false;
      if beer.beerId == 0 {
        notices := notices + [Error(IdRequiredForDelete)];
      } else {
        requests := requests + [Delete(BeerUrl(beer.beerId))];
        failed := response.Failed?;
      }
      if failed {
        notices := notices + [Error(response.message)];
      } else {
        notices := notices + [Success(BeerDeleted)];
        navigated := true;
      }
      o := Outcome(requests, notices, navigated);
    }
  }

  /** A page opened by the edit link `?<beerId>` (with `Number("0")` being 0)
      starts from a record without a brewery, so loading it issues exactly
      one GET of that beer, and the fetched record becomes the state. */
  method OpenEditLink(beerId: nat, toNumber: string -> int, numeric: string -> bool, fetch: Fetch)
    returns (form: BeerForm, o: Outcome)
    requires toNumber("0") == 0
    ensures o.requests == [Get(BeerUrl(beerId))]
    ensures fetch.Fetched? ==> form.beer == fetch.data && o.notices == []
    ensures fetch.FetchFailed? ==> form.beer == EmptyBeer(0) && o.notices == [Error(fetch.message)]
    ensures !o.navigatedBack
  {
    var search := "?" + NatToString(beerId);
    StartingBrewery(beerId, "", toNumber);
    EditLinkBreweryId(beerId);
    form := new BeerForm(search, toNumber, numeric);
    o := form.GetData(fetch);
  }

  /** A `?breweryId=<id>` link whose id converts to 0 (such as `?breweryId=0`,
      or `?breweryId=` since `Number("")` is 0) starts from a record without a
      brewery, so loading it still sends a GET of `/beers/` followed by the
      text after `?`, although the link was meant for a new beer. */
  method OpenZeroBreweryLink(id: string, toNumber: string -> int, numeric: string -> bool, fetch: Fetch)
    returns (form: BeerForm, o: Outcome)
    requires toNumber(id) == 0
    ensures o.requests == [Get(BeersPath + "breweryId=" + id)]
    ensures !o.navigatedBack
  {
    var search := BreweryIdParam + id;
    StartingBrewery(0, id, toNumber);
    assert Substring(search, 1) == "breweryId=" + id;
    assert BeersPath + Substring(search, 1) == BeersPath + "breweryId=" + id;
    form := new BeerForm(search, toNumber, numeric);
    assert form.search != "" && form.beer.breweryId == 0;
    o := form.GetData(fetch);
  }
}
