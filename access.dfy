/** Who may edit a beer: the rule behind the form's `isEditable` flag. */
module Access {

  /** A granted authority, as the user record in the store lists it. */
  datatype Authority = Authority(name: string)

  /** The signed-in user: its authorities and the brewery it belongs to. */
  datatype User = User(authorities: seq<Authority>, breweryId: int)

  /** The user's first authority, the only one the form looks at. */
  datatype Role = Admin | Brewer | OtherRole | NoRole

  const AdminAuthority: string := "ROLE_ADMIN"
  const BrewerAuthority: string := "ROLE_BREWER"

  function RoleOf(u: User): (r: Role)
    ensures r == NoRole <==> |u.authorities| == 0
    ensures r == Admin <==> |u.authorities| > 0 && u.authorities[0].name == AdminAuthority
    ensures r == Brewer <==> |u.authorities| > 0 && u.authorities[0].name == BrewerAuthority
  {
    if |u.authorities| == 0 then NoRole
    else if u.authorities[0].name == AdminAuthority then Admin
    else if u.authorities[0].name == BrewerAuthority then Brewer
    else OtherRole
  }

  /** Judged by the first authority alone: an administrator may edit every
      beer, a brewer only the beers of its own brewery, and anybody else or a
      user without authorities none (whatever later authorities it has). */
  function CanEdit(u: User, beerBreweryId: int): (editable: bool)
    ensures editable <==>
              |u.authorities| > 0 &&
              (u.authorities[0].name == AdminAuthority ||
               (u.authorities[0].name == BrewerAuthority && u.breweryId == beerBreweryId))
    ensures |u.authorities| == 0 ==> !editable
  {
    match RoleOf(u)
    case Admin => true
    case Brewer => u.breweryId == beerBreweryId
    case OtherRole => false
    case NoRole => false
  }
}
