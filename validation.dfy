/** Client-side validation: one field at a time (`validateField`) and the
    error map built over all controls of the form (`formValid`). */
module Validation {
  import opened BeerModel

  /** The fields whose only rule is "must not be empty". The form renders
      no `address` input, but the rule for it is there. */
  predicate Required(name: string) {
    name == "name" || name == "address" || name == "description" || name == "imgUrl" || name == "type"
  }

  function RequiredMessage(name: string): string
    requires Required(name)
  {
    if name == "name" then "Beer Name is required"
    else if name == "address" then "Address is required"
    else if name == "description" then "Description is required"
    else if name == "imgUrl" then "Image is required"
    else "Type is required"
  }

  const AbvRequired: string := "ABV is required"
  const AbvNotNumeric: string := "ABV should be numeric"

  /** What an acceptable value is, per field name, independently of the
      messages: required fields are non-empty, the ABV is non-empty and
      numeric, and a field with any other name is always fine. */
  ghost predicate Acceptable(name: string, value: string, numeric: string -> bool) {
    && (Required(name) ==> value != "")
    && (name == "abv" ==> value != "" && numeric(value))
  }

  /** `validateField(field)`: the error message for one control, or "".
      `numeric` stands for the browser's `!isNaN(v) && isFinite(v)`. */
  function ValidateField(name: string, value: string, numeric: string -> bool): (error: string)
    ensures error == "" <==> Acceptable(name, value, numeric)
    ensures Required(name) ==> error == (if value == "" then RequiredMessage(name) else "")
    ensures name == "abv" && value == "" ==> error == AbvRequired
    ensures name == "abv" && value != "" && !numeric(value) ==> error == AbvNotNumeric
    ensures !Required(name) && name != "abv" ==> error == ""
  {
    if Required(name) then
      (if value == "" then RequiredMessage(name) else "")
    else if name == "abv" then
      (if value == "" then AbvRequired
       else if !numeric(value) then AbvNotNumeric
       else "")
    else ""
  }

  /** `validateField` applied to a control of the form: buttons have an
      empty name and value, so they never carry an error. */
  function FieldCheck(numeric: string -> bool): (check: Control -> string)
    ensures forall c :: check(c) == ValidateField(c.Name(), c.Value(), numeric)
    ensures forall c :: check(c) == "" <==> Acceptable(c.Name(), c.Value(), numeric)
    ensures forall c: Control :: c.Button? ==> check(c) == ""
  {
    (c: Control) => ValidateField(c.Name(), c.Value(), numeric)
  }

  /** The `fieldErrors` object after visiting the controls in order: every
      non-empty error `check` reports is stored under its control's name. */
  function ErrorMap(cs: seq<Control>, check: Control -> string): map<string, string> {
    if cs == [] then map[]
    else
      var m := ErrorMap(cs[..|cs| - 1], check);
      var c := cs[|cs| - 1];
      var e := check(c);
      if |e| > 0 then m[c.Name() := e] else m
  }

  /** The error map holds exactly the names of the controls whose error is
      non-empty, and never an empty message. */
  lemma {:induction false} ErrorMapDomain(cs: seq<Control>, check: Control -> string)
    ensures forall k :: k in ErrorMap(cs, check) <==>
              exists i :: 0 <= i < |cs| && cs[i].Name() == k && check(cs[i]) != ""
    ensures forall k :: k in ErrorMap(cs, check) ==> ErrorMap(cs, check)[k] != ""
  {
    if cs != [] {
      var prefix := cs[..|cs| - 1];
      ErrorMapDomain(prefix, check);
      forall k | k in ErrorMap(cs, check)
        ensures exists i :: 0 <= i < |cs| && cs[i].Name() == k && check(cs[i]) != ""
      {
        if k in ErrorMap(prefix, check) {
          var i :| 0 <= i < |prefix| && prefix[i].Name() == k && check(prefix[i]) != "";
          assert cs[i] == prefix[i];
        }
      }
      forall k | exists i :: 0 <= i < |cs| && cs[i].Name() == k && check(cs[i]) != ""
        ensures k in ErrorMap(cs, check)
      {
        var i :| 0 <= i < |cs| && cs[i].Name() == k && check(cs[i]) != "";
        if i < |prefix| {
          assert prefix[i] == cs[i];
        }
      }
    }
  }

  /** The error of a control whose name no other control shares is in the
      map under that name exactly when it is non-empty. */
  lemma {:induction false} ErrorMapUnique(cs: seq<Control>, check: Control -> string, i: nat)
    requires i < |cs|
    requires forall j :: 0 <= j < |cs| && j != i ==> cs[j].Name() != cs[i].Name()
    ensures cs[i].Name() in ErrorMap(cs, check) <==> check(cs[i]) != ""
    ensures check(cs[i]) != "" ==> ErrorMap(cs, check)[cs[i].Name()] == check(cs[i])
  {
    var prefix := cs[..|cs| - 1];
    if i == |cs| - 1 {
      forall j | 0 <= j < |prefix|
        ensures prefix[j].Name() != cs[i].Name()
      {
        assert prefix[j] == cs[j];
      }
      ErrorMapDomain(prefix, check);
    } else {
      forall j | 0 <= j < |prefix| && j != i
        ensures prefix[j].Name() != prefix[i].Name()
      {
        assert prefix[j] == cs[j];
      }
      ErrorMapUnique(prefix, check, i);
    }
  }

  /** The map is empty exactly when every control passes. */
  lemma ErrorMapEmpty(cs: seq<Control>, check: Control -> string)
    ensures ErrorMap(cs, check) == map[] <==> forall i :: 0 <= i < |cs| ==> check(cs[i]) == ""
  {
    ErrorMapDomain(cs, check);
    var m := ErrorMap(cs, check);
    if m != map[] {
      var k :| k in m;
      var i :| 0 <= i < |cs| && cs[i].Name() == k && check(cs[i]) != "";
    }
    if exists i :: 0 <= i < |cs| && check(cs[i]) != "" {
      var i :| 0 <= i < |cs| && check(cs[i]) != "";
      assert cs[i].Name() in m;
    }
  }

  /** A map that stores no empty message is empty exactly when none of its
      messages is non-empty. */
  lemma NoMessageIffEmpty(m: map<string, string>)
    requires forall k :: k in m ==> m[k] != ""
    ensures m == map[] <==> forall e :: e in m.Values ==> e == ""
  {
    if m != map[] {
      var k :| k in m;
      assert m[k] in m.Values;
    }
  }

  /** Hence the error map is empty exactly when none of its messages is
      non-empty, which is what the second loop of `formValid()` checks. */
  lemma ErrorMapValid(cs: seq<Control>, check: Control -> string)
    ensures ErrorMap(cs, check) == map[] <==> forall e :: e in ErrorMap(cs, check).Values ==> e == ""
  {
    ErrorMapDomain(cs, check);
    NoMessageIffEmpty(ErrorMap(cs, check));
  }

  /** The two loops of `formValid()`: visit the controls in order, storing
      each non-empty error under the control's name, then look for a
      non-empty message among the stored ones. */
  method ValidateControls(fields: seq<Control>, numeric: string -> bool)
    returns (fieldErrors: map<string, string>, valid: bool)
    ensures fieldErrors == ErrorMap(fields, FieldCheck(numeric))
    ensures valid <==> fieldErrors == map[]
    ensures valid <==> forall i :: 0 <= i < |fields| ==> ValidateField(fields[i].Name(), fields[i].Value(), numeric) == ""
  {
    ghost var check := FieldCheck(numeric);
    fieldErrors := map[];
    var i := 0;
    while i < |fields|
      invariant 0 <= i <= |fields|
      invariant fieldErrors == ErrorMap(fields[..i], check)
    {
      assert fields[..i + 1][..i] == fields[..i];
      var error := ValidateField(fields[i].Name(), fields[i].Value(), numeric);
      if |error| > 0 {
        fieldErrors := fieldErrors[fields[i].Name() := error];
      }
      i := i + 1;
    }
    assert fields[..|fields|] == fields;

    var errors := fieldErrors.Values;
    valid := true;
    var rest := errors;
    while rest != {}
      invariant rest <= errors
      invariant valid <==> forall e :: e in errors - rest ==> e == ""
      decreases rest
    {
      var error :| error in rest;
      if |error| > 0 {
        valid := false;
      }
      assert errors - (rest - {error}) == (errors - rest) + {error};
      rest := rest - {error};
    }
    assert errors - rest == errors;
    ErrorMapValid(fields, check);
    ErrorMapEmpty(fields, check);
  }
}
