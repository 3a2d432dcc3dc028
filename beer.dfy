/** The beer record edited by the form and the controls the form renders. */
module BeerModel {

  /** The record held in the form's state. `beerId == 0` marks a beer not yet
      saved. The source's `type` field is called `beerType` here, because
      `type` is a keyword; `abv` is the text the ABV input shows. */
  datatype Beer = Beer(
    beerId: int,
    breweryId: int,
    name: string,
    description: string,
    imgUrl: string,
    abv: string,
    beerType: string)

  /** The names of the inputs that carry an `onChange` handler. */
  const InputNames: set<string> := {"name", "description", "imgUrl", "abv", "type"}

  /** The record the page starts from: no id, the given brewery id, empty
      name, description, image and type, and the ABV text "0". */
  function EmptyBeer(breweryId: int): (b: Beer)
    ensures b.beerId == 0 && b.breweryId == breweryId && b.abv == "0"
    ensures forall n :: n in InputNames && n != "abv" ==> FieldValue(b, n) == ""
  {
    Beer(0, breweryId, "", "", "", "0", "")
  }

  /** The record property an input of the given name is bound to. */
  function FieldValue(b: Beer, name: string): string
    requires name in InputNames
  {
    if name == "name" then b.name
    else if name == "description" then b.description
    else if name == "imgUrl" then b.imgUrl
    else if name == "abv" then b.abv
    else b.beerType
  }

  /** `{...beer, [name]: value}`: the record with one property replaced. */
  function SetField(b: Beer, name: string, value: string): (r: Beer)
    requires name in InputNames
    ensures r.beerId == b.beerId && r.breweryId == b.breweryId
    ensures FieldValue(r, name) == value
    ensures forall m :: m in InputNames && m != name ==> FieldValue(r, m) == FieldValue(b, m)
  {
    if name == "name" then b.(name := value)
    else if name == "description" then b.(description := value)
    else if name == "imgUrl" then b.(imgUrl := value)
    else if name == "abv" then b.(abv := value)
    else b.(beerType := value)
  }

  /** Writing back the value a field already has leaves the record as it was,
      and of two writes to one field the later wins. */
  lemma SetFieldLaws(b: Beer, name: string, v: string, w: string)
    requires name in InputNames
    ensures SetField(b, name, FieldValue(b, name)) == b
    ensures SetField(SetField(b, name, v), name, w) == SetField(b, name, w)
  {
  }

  /** The buttons of the form; the two review buttons sit inside links. */
  datatype ButtonKind =
    | Save
    | Cancel
    | Remove
    | AddReview(target: string)
    | ViewReviews(target: string)

  /** One element of the form's `elements` collection. A button has neither
      a name nor a value, so both read as the empty string. */
  datatype Control =
    | Input(inputName: string, inputValue: string, readOnly: bool)
    | Button(kind: ButtonKind)
  {
    function Name(): string {
      if Input? then inputName else ""
    }

    function Value(): string {
      if Input? then inputValue else ""
    }
  }
}
