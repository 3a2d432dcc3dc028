/** The page's query string (`window.location.search`), passed in as a value:
    `?<beerId>` opens an existing beer, `?breweryId=<id>` starts a new one. */
module Query {
  import opened Decimal

  /** JavaScript's `s.substring(start)` for one argument: past the end it
      gives the empty string. */
  function Substring(s: string, start: nat): string {
    if start <= |s| then s[start..] else ""
  }

  predicate OccursAt(s: string, pattern: string, i: nat) {
    i + |pattern| <= |s| && s[i..i + |pattern|] == pattern
  }

  /** The first position at or after `k` where `pattern` occurs, or -1. */
  function IndexFrom(s: string, pattern: string, k: nat): (i: int)
    requires k <= |s|
    ensures i == -1 || (k <= i && OccursAt(s, pattern, i))
    ensures i == -1 ==> forall j :: k <= j <= |s| ==> !OccursAt(s, pattern, j)
    ensures i >= 0 ==> forall j :: k <= j < i ==> !OccursAt(s, pattern, j)
    decreases |s| - k
  {
    if OccursAt(s, pattern, k) then k
    else if k == |s| then -1
    else IndexFrom(s, pattern, k + 1)
  }

  /** JavaScript's `s.indexOf(pattern)`. */
  function IndexOf(s: string, pattern: string): int
  {
    IndexFrom(s, pattern, 0)
  }

  const BreweryIdParam: string := "?breweryId="

  predicate Contains(s: string, pattern: string) {
    exists j :: 0 <= j <= |s| && OccursAt(s, pattern, j)
  }

  /** `getBreweryId()`: everything from index 11 on when the query string
      mentions `?breweryId=` anywhere, otherwise "0". */
  function GetBreweryId(search: string): (id: string)
    ensures search == "" || !Contains(search, BreweryIdParam) ==> id == "0"
    ensures search != "" && Contains(search, BreweryIdParam) ==>
              |search| >= 11 && id == search[11..]
  {
    if search != "" && IndexOf(search, BreweryIdParam) >= 0 then Substring(search, 11) else "0"
  }

  /** A `?breweryId=<id>` link hands `<id>` to the new record. */
  lemma NewBeerLinkBreweryId(id: string)
    ensures GetBreweryId(BreweryIdParam + id) == id
  {
    var search := BreweryIdParam + id;
    assert OccursAt(search, BreweryIdParam, 0);
  }

  /** A pattern does not occur where one of its characters is missing. */
  lemma MismatchAt(s: string, pattern: string, i: nat, k: nat)
    requires i + |pattern| <= |s| ==> k < |pattern| && s[i + k] != pattern[k]
    ensures !OccursAt(s, pattern, i)
  {
    if i + |pattern| <= |s| {
      assert s[i..i + |pattern|][k] == s[i + k];
    }
  }

  /** A `?<beerId>` link names no brewery (the new record's brewery id
      text is "0"), and the text after the `?` is the beer id. */
  lemma EditLinkBreweryId(beerId: nat)
    ensures GetBreweryId("?" + NatToString(beerId)) == "0"
    ensures Substring("?" + NatToString(beerId), 1) == NatToString(beerId)
  {
    var digits := NatToString(beerId);
    var search := "?" + digits;
    forall j | 0 <= j <= |search|
      ensures !OccursAt(search, BreweryIdParam, j)
    {
      if j == 0 {
        assert IsDigit(search[1]);
        MismatchAt(search, BreweryIdParam, 0, 1);
      } else if j < |search| {
        assert IsDigit(search[j]);
        MismatchAt(search, BreweryIdParam, j, 0);
      } else {
        MismatchAt(search, BreweryIdParam, j, 0);
      }
    }
  }
}
