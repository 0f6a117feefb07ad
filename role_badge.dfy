/** The role badge (src/components/RoleBadge.jsx): a role value is normalised
    to one of three roles, and the role with the badge `type` picks the label. */
module RoleBadge {
  import opened Js

  predicate IsNormalRole(r: string) {
    r == "photographer" || r == "admin" || r == "customer"
  }

  /** The `normalizedRole` expression: only the exact spellings
      `photographer`, `Photographer`, `admin` and `Admin` are recognised. */
  function NormalizeRole(role: Option<string>): (r: string)
    ensures IsNormalRole(r)
    ensures r == "photographer" <==> role == Some("photographer") || role == Some("Photographer")
    ensures r == "admin" <==> role == Some("admin") || role == Some("Admin")
  {
    if role == Some("photographer") || role == Some("Photographer") then "photographer"
    else if role == Some("admin") || role == Some("Admin") then "admin"
    else "customer"
  }

  /** Normalising a normalised role changes nothing. */
  lemma NormalizeIdempotent(role: Option<string>)
    ensures NormalizeRole(Some(NormalizeRole(role))) == NormalizeRole(role)
  {
  }

  /** `null`, `'ADMIN'` and every other value fall back to customer. */
  lemma UnrecognisedIsCustomer(role: Option<string>)
    requires role != Some("photographer") && role != Some("Photographer")
    requires role != Some("admin") && role != Some("Admin")
    ensures NormalizeRole(role) == "customer"
  {
  }

  /** The rendered badge: its text, and the `title` that mini badges carry. */
  datatype Badge = Badge(text: string, title: Option<string>)

  /** The badge for `role` and `type` (`'mini'` when the prop is absent). */
  function RoleBadge(role: Option<string>, badgeType: string): (b: Badge)
    ensures NormalizeRole(role) == "admin" ==>
      b == if badgeType == "full" then Badge("Admin", None) else Badge("ADM", Some("Admin"))
    ensures NormalizeRole(role) == "photographer" ==>
      b == if badgeType == "full" then Badge("Photographer", None) else Badge("PHO", Some("Photographer"))
    ensures NormalizeRole(role) == "customer" ==>
      b == if badgeType == "full" then Badge("Customer", None) else Badge("CUS", Some("Customer"))
  {
    var normalizedRole := NormalizeRole(role);
    if badgeType == "full" then
      if normalizedRole == "admin" then Badge("Admin", None)
      else if normalizedRole == "photographer" then Badge("Photographer", None)
      else Badge("Customer", None)
    else
      if normalizedRole == "admin" then Badge("ADM", Some("Admin"))
      else if normalizedRole == "photographer" then Badge("PHO", Some("Photographer"))
      else Badge("CUS", Some("Customer"))
  }

  /** The badge depends on nothing but the normalised role and whether the
      type is exactly `'full'`. */
  lemma BadgeDependsOnNormalisedRole(r1: Option<string>, t1: string, r2: Option<string>, t2: string)
    requires NormalizeRole(r1) == NormalizeRole(r2)
    requires (t1 == "full") == (t2 == "full")
    ensures RoleBadge(r1, t1) == RoleBadge(r2, t2)
  {
  }

  /** Full and mini badges of the same role name it the same way: the mini
      badge's title is the full badge's text, and distinct roles get distinct
      badges. */
  lemma BadgesNameTheRole(role: Option<string>, other: Option<string>, t: string)
    ensures RoleBadge(role, "mini").title == Some(RoleBadge(role, "full").text)
    ensures NormalizeRole(role) != NormalizeRole(other) ==> RoleBadge(role, t) != RoleBadge(other, t)
  {
  }
}
