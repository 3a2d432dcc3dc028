# BeerInfo form model

A Dafny model of the beer form page of the brewery web application
(`BeerInfo.js`). The page shows one beer record. On it a user can view the
beer, create it, update it or delete it, and follow links to its reviews.
The model covers the page's own logic:

- the per-field validator `validateField` and the whole-form validator
  `formValid` with its error map and validity flag;
- the rule that decides whether the signed-in user may edit the record;
- the single-field record update `handleInputChange`;
- the create/update decision of `handleSubmit` and the delete decision of
  `handleDelete`, including which notifications fire and whether the page
  goes back in the browser history;
- the query-string parser `getBreweryId` and the fetch guard of `getData`;
- the controls the form renders: which inputs are read-only, which buttons
  show, and the review links.

Modules:

- `BeerModel`: the record (`Beer`) and the elements of the form (`Control`).
- `Decimal`: the decimal text of integer ids pasted into URLs, with its parser.
- `Query`: `indexOf`, `substring` and `getBreweryId` on the query string.
- `Access`: the user, its first authority and the edit rule.
- `Validation`: `validateField`, and the error map built over any sequence of
  controls together with its lemmas.
- `Requests`: request, notice and outcome tags, and the REST paths.
- `BeerInfo`: the rendered form, the validation of the rendered form, and the
  class `BeerForm`. `BeerForm` holds the page state (`beer`, `breweryName`,
  `validationError`, `isFormValid`, `isEditable`) and has one method per handler.

No handler performs effects. `GetData`, `HandleSubmit` and `HandleDelete`
return an `Outcome`, which lists:

- the requests it issues (`Get`, `Post`, `Put` or `Delete`, each with its
  path relative to the API base URL, and the record sent);
- the toast notices it shows (`Success` or `Error`, each with its text);
- whether it calls `window.history.back()`.

`HandleInputChange`, `FormValid` and `RefreshEditable` only update the
page state. The query string `window.location.search` is a constant of the
page, fixed when it is created.

How an awaited request ends is an input of the handler. `Response` either
completes or fails with a message; `Fetch` either delivers a record or fails.

The browser's number test for the ABV text (`isNaN`/`isFinite`) is the
abstract predicate `numeric`. Validation is proved for every choice of that
predicate.

Where the page's behaviour looks unintended, the model keeps it as the code
has it. When the record has no id, `handleDelete` still shows
"Beer deleted" and still goes back, after showing "Beer id is required for
delete". `BeerInfo.BeerForm.HandleDelete` states exactly that.

## Model

| member | source | states |
|---|---|---|
| BeerModel.EmptyBeer | final-capstone/frontend/src/Components/Beers/BeerInfo.js:14-22 | the initial record has id 0, the given brewery id, an empty name, description, image and type, and the ABV text "0" |
| BeerModel.SetField | final-capstone/frontend/src/Components/Beers/BeerInfo.js:82-85 | the named field takes the new value; every other field and both ids keep theirs |
| BeerModel.SetFieldLaws | final-capstone/frontend/src/Components/Beers/BeerInfo.js:82-85 | writing back a field's current value changes nothing, and of two writes to one field the later wins |
| Decimal.NatToString | final-capstone/frontend/src/Components/Beers/BeerInfo.js:174 | the text of an id is a non-empty run of digits with no leading zero |
| Decimal.IntToString | final-capstone/frontend/src/Components/Beers/BeerInfo.js:151 | the text of an integer starts with a minus sign exactly when it is negative, and is digits otherwise |
| Decimal.ParseNatToString | final-capstone/frontend/src/Components/Beers/BeerInfo.js:174 | reading back the digits of a natural number gives that number |
| Decimal.ParseIntToString | final-capstone/frontend/src/Components/Beers/BeerInfo.js:151 | the text of an integer is a well-formed numeral, and reading it back gives the integer |
| Decimal.IntToStringInjective | final-capstone/frontend/src/Components/Beers/BeerInfo.js:148 | two integers have the same text exactly when they are equal |
| Query.IndexFrom | final-capstone/frontend/src/Components/Beers/BeerInfo.js:185 | `indexOf` gives the first position of the pattern, or -1 exactly when the pattern occurs nowhere |
| Query.GetBreweryId | final-capstone/frontend/src/Components/Beers/BeerInfo.js:184-190 | "0" for an empty query string or one without `?breweryId=`; otherwise the text from index 11 on |
| Query.NewBeerLinkBreweryId | final-capstone/frontend/src/Components/Beers/BeerInfo.js:185-186 | a `?breweryId=<id>` query string yields exactly `<id>` |
| Query.MismatchAt | final-capstone/frontend/src/Components/Beers/BeerInfo.js:185 | a pattern does not occur at a position where one of its characters differs |
| Query.EditLinkBreweryId | final-capstone/frontend/src/Components/Beers/BeerInfo.js:184-190 | a `?<beerId>` query string yields brewery id "0", and the text after `?` is the beer id |
| Access.RoleOf | final-capstone/frontend/src/Components/Beers/BeerInfo.js:47-49 | the role read from the first authority: none without authorities, admin or brewer by its name |
| Access.CanEdit | final-capstone/frontend/src/Components/Beers/BeerInfo.js:44-55 | editable exactly when the first authority is ROLE_ADMIN, or ROLE_BREWER with the user's brewery equal to the beer's; never without authorities |
| Validation.ValidateField | final-capstone/frontend/src/Components/Beers/BeerInfo.js:111-138 | "" exactly when the value is acceptable; the fixed message for each empty required field; "ABV is required" and "ABV should be numeric" for the ABV; "" for every unlisted name |
| Validation.FieldCheck | final-capstone/frontend/src/Components/Beers/BeerInfo.js:97-98 | an element of the form has no error exactly when its name and value are acceptable, and a button never has one |
| Validation.ErrorMapDomain | final-capstone/frontend/src/Components/Beers/BeerInfo.js:96-100 | the error map holds exactly the names of the controls whose error is non-empty, and no empty message |
| Validation.ErrorMapUnique | final-capstone/frontend/src/Components/Beers/BeerInfo.js:96-100 | a control whose name is unique has its own error in the map exactly when that error is non-empty |
| Validation.ErrorMapEmpty | final-capstone/frontend/src/Components/Beers/BeerInfo.js:96-100 | the error map is empty exactly when every control passes |
| Validation.NoMessageIffEmpty | final-capstone/frontend/src/Components/Beers/BeerInfo.js:101-105 | a map without empty messages is empty exactly when no message in it is non-empty |
| Validation.ErrorMapValid | final-capstone/frontend/src/Components/Beers/BeerInfo.js:101-105 | the scan of the map's values finds no message exactly when the map is empty |
| Validation.ValidateControls | final-capstone/frontend/src/Components/Beers/BeerInfo.js:96-105 | the first loop builds the error map of the controls; the second finds the form valid exactly when the map is empty, which is when every control passes |
| Requests.BeerUrl | final-capstone/frontend/src/Components/Beers/BeerInfo.js:151 | the path is `/beers/` followed by the text of the id |
| Requests.BreweryUrl | final-capstone/frontend/src/Components/Beers/BeerInfo.js:148 | the path is `/breweries/` followed by the text of the id |
| Requests.BeerUrlInjective | final-capstone/frontend/src/Components/Beers/BeerInfo.js:174 | two beer paths are equal exactly when the ids are |
| Requests.BreweryUrlInjective | final-capstone/frontend/src/Components/Beers/BeerInfo.js:148 | two brewery paths are equal exactly when the ids are |
| Requests.BeerAndBreweryUrlsDiffer | final-capstone/frontend/src/Components/Beers/BeerInfo.js:148-151 | a beer path is never a brewery path |
| BeerInfo.InputIndex | final-capstone/frontend/src/Components/Beers/BeerInfo.js:224-304 | each record field's input sits at its own place among the text controls |
| BeerInfo.TextControls | final-capstone/frontend/src/Components/Beers/BeerInfo.js:215-304 | six inputs in document order; the brewery name is always read-only; each field input shows the record's value, the name input read-only exactly when the beer has an id, the description, image, ABV and type inputs exactly when the page is not editable |
| BeerInfo.ButtonControls | final-capstone/frontend/src/Components/Beers/BeerInfo.js:315-337 | only buttons; Save exactly when editable; Cancel always; Delete exactly when editable and the id is positive; both review links exactly when the id is positive, with the id in their targets |
| BeerInfo.FormControls | final-capstone/frontend/src/Components/Beers/BeerInfo.js:211-338 | the inputs come first, each with its own name, showing the record as `TextControls` says; the buttons follow, with no name |
| BeerInfo.RenderedErrorMap | final-capstone/frontend/src/Components/Beers/BeerInfo.js:90-100 | validating the rendered form yields exactly one entry per bad record field; the brewery name and the buttons never add one |
| BeerInfo.ErrorMapOfLayout | final-capstone/frontend/src/Components/Beers/BeerInfo.js:96-100 | the same for any control sequence laid out like the form |
| BeerInfo.LayoutEntry | final-capstone/frontend/src/Components/Beers/BeerInfo.js:96-100 | a record field's entry is present exactly when its error is non-empty, and is that error |
| BeerInfo.LayoutKeys | final-capstone/frontend/src/Components/Beers/BeerInfo.js:96-100 | only record fields appear in the error map of the form |
| BeerInfo.RenderedFormValid | final-capstone/frontend/src/Components/Beers/BeerInfo.js:101-108 | the form is valid exactly when name, description, image, type and ABV are non-empty and the ABV is numeric |
| BeerInfo.ExpectedErrorsEmpty | final-capstone/frontend/src/Components/Beers/BeerInfo.js:111-138 | no field of the record has an error exactly when all five are acceptable |
| BeerInfo.FormValidity | final-capstone/frontend/src/Components/Beers/BeerInfo.js:90-109 | the three facts above together, for the rendered form |
| BeerInfo.InputChangeMatchesFormValid | final-capstone/frontend/src/Components/Beers/BeerInfo.js:86 | the error stored for an edited field equals what a full validation of the updated record reports for it |
| BeerInfo.ValidateForm | final-capstone/frontend/src/Components/Beers/BeerInfo.js:90-108 | the computed map holds exactly the record's bad fields, and the result is true exactly when the map is empty and when every field is acceptable |
| BeerInfo.BeerForm.constructor | final-capstone/frontend/src/Components/Beers/BeerInfo.js:14-28 | the page state keeps the query string and starts as the empty record of brewery `Number(getBreweryId())` for it, no brewery name, no errors, valid and editable |
| BeerInfo.StartingBrewery | final-capstone/frontend/src/Components/Beers/BeerInfo.js:16 | a `?<beerId>` link starts the page with brewery 0 (when `Number("0")` is 0), so the fetch guard at line 65 lets the GET through; a `?breweryId=<id>` link starts it with brewery `Number(<id>)` |
| BeerInfo.BeerForm.RefreshEditable | final-capstone/frontend/src/Components/Beers/BeerInfo.js:44-55 | `isEditable` becomes the edit rule for the user and the beer's brewery |
| BeerInfo.OpenEditLink | final-capstone/frontend/src/Components/Beers/BeerInfo.js:62-69 | a page opened by `?<beerId>` (with `Number("0")` being 0) issues exactly one GET of `/beers/<beerId>`, and the fetched record becomes the state, or the failure is reported |
| BeerInfo.OpenZeroBreweryLink | final-capstone/frontend/src/Components/Beers/BeerInfo.js:62-69 | a `?breweryId=<id>` page whose id converts to 0 (such as `?breweryId=0`) still sends a GET of `/beers/breweryId=<id>`, because the guard reads the record's brewery id |
| BeerInfo.BeerForm.GetData | final-capstone/frontend/src/Components/Beers/BeerInfo.js:57-77 | without a query string, only the "id required" error; otherwise the record's brewery id decides: not 0, nothing happens; 0 (a `?<beerId>` link, but also `?breweryId=0` or `?breweryId=`), one GET of `/beers/` plus the text after `?`, whose record replaces the state or whose failure is reported |
| BeerInfo.BeerForm.HandleInputChange | final-capstone/frontend/src/Components/Beers/BeerInfo.js:80-87 | the record gets the new field value and the error map gets that field's fresh error; every other field and entry stays |
| BeerInfo.BeerForm.FormValid | final-capstone/frontend/src/Components/Beers/BeerInfo.js:90-109 | the error map is replaced by the errors of the current record, so stale entries go; `isFormValid` and the result say whether it is empty, that is whether every field is acceptable |
| BeerInfo.BeerForm.HandleSubmit | final-capstone/frontend/src/Components/Beers/BeerInfo.js:140-164 | invalid: no request, only "Form has validation errors"; valid with id 0: one POST to the brewery; otherwise one PUT to the beer; success notice and going back exactly when the request completes, its error message otherwise |
| BeerInfo.BeerForm.HandleDelete | final-capstone/frontend/src/Components/Beers/BeerInfo.js:165-182 | id 0: no request, but "Beer id is required for delete", then "Beer deleted" and going back; otherwise one DELETE of `/beers/{id}`, with success and going back if completed and the error message alone if it fails |

## Left out

- The network: axios, the API base URL and request headers. Requests are
  tags in the outcome, and their results are inputs.
- Toast delivery and `window.history.back()`. They are recorded as notices
  and as a flag.
- React hook scheduling. The model has no re-render or effect ordering: each
  handler is a method that runs on the current state, and the state updates
  it makes take effect when it returns.
- The token effect and `setAuthHeader` (lines 35-40). When a token is
  present they set the request header and call `getData`; the model has
  `getData` on its own and does not model the token test.
- Interleaving at `await`. Each awaited request and the code after it run
  as one step, so the model has no state in which the user edits the form
  while the GET of `getData` is pending (lines 68-69, whose `setBeer` would
  then overwrite those edits), and none in which a second Save or Delete
  click sends a second request before the first one ends.
- The `maxLength` and `required` attributes of the inputs (lines 234,
  249-250, 266-267, 284-285, 301-302). The browser enforces them while
  typing; HandleInputChange accepts a value of any length.
- `getBreweryName` (lines 197-202), the asynchronous brewery-name fetch. It
  depends on the network and can race; the model takes `breweryName` as
  state.
- `redirectToCaller` (lines 192-195). It only goes back in the history.
- BeerInfo.BeerForm.constructor: `Number(...)` on the text from
  `getBreweryId` is the abstract function `toNumber`, because it follows
  JavaScript float parsing (NaN, exponents, whitespace); the model's ids
  are integers.
- Validation.ValidateField: the ABV test `isNaN`/`isFinite` is the abstract
  predicate `numeric`, because it depends on JavaScript float parsing.
- BeerModel.EmptyBeer: the ABV starts as the text "0" instead of the number 0.
  The ABV is held as the text its input shows; the two ids are integers.
- Decimal.IntToString: renders every integer in plain decimal. JavaScript
  switches to exponent notation at 10^21 and above.
- BeerModel.Beer: the record field `type` is called `beerType`, because `type`
  is a Dafny keyword. The form name stays "type".
- The DOM query `document.getElementById("beerForm").elements` becomes the
  sequence `FormControls`. It lists the six text controls in document order
  and then the buttons. The buttons have an empty name and value.
- The error messages under each input (lines 236-306) and the image preview
  (line 311). They are display only.
- BeerInfo.BeerForm.HandleInputChange: requires the name of an input that has
  an `onChange` handler. The read-only brewery name input has none, and the
  buttons fire no change event.
- Validation.ValidateControls: the second loop runs over the set of the map's
  values, not the array `Object.values` returns. Duplicate messages and their
  order cannot change the result.
- The `address` rule of `validateField` is modelled. No control of the form
  carries that name.
- The Java data-access classes on the server. Their behaviour lies in SQL run
  by the database.
