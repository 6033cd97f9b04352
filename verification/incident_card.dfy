/** The incident card: the colour of its status badge, its title, badge
    label, border and location line. */
module IncidentCard {
  import opened Wrappers
  import opened Text
  import opened Reports
  import Queries

  /** `getStatusColor`, on the status as the string the report carries. */
  function StatusColor(status: string): (c: string)
    ensures status == "new" <==> c == "bg-blue-500"
    ensures status == "reviewing" <==> c == "bg-yellow-500"
    ensures status == "resolved" <==> c == "bg-green-500"
    ensures status !in {"new", "reviewing", "resolved"} <==> c == "bg-gray-500"
  {
    if status == "new" then "bg-blue-500"
    else if status == "reviewing" then "bg-yellow-500"
    else if status == "resolved" then "bg-green-500"
    else "bg-gray-500"
  }

  /** Distinct statuses get distinct colours, and the grey default is never used. */
  lemma StatusColorsDistinct(s: Status, t: Status)
    ensures StatusColor(StatusName(s)) != "bg-gray-500"
    ensures StatusColor(StatusName(s)) == StatusColor(StatusName(t)) <==> s == t
  {
  }

  /** The card title: the category, or 'General Report' when it is missing or empty. */
  function Title(r: Report): (t: string)
    ensures t != ""
    ensures Truthy(r.category) ==> t == r.category.value
    ensures !Truthy(r.category) ==> t == "General Report"
  {
    OrElse(r.category, "General Report")
  }

  /** The card's title agrees with the category the list pages filter and
      group on, except for uncategorised reports, which the card calls
      'General Report' and the lists 'Uncategorized'. */
  lemma TitleVersusCategoryKey(r: Report)
    ensures Truthy(r.category) ==> Title(r) == Queries.CategoryKey(r)
    ensures !Truthy(r.category) ==>
      Title(r) == "General Report" && Queries.CategoryKey(r) == "Uncategorized"
  {
  }

  /** The badge label: the status with its first letter upper-cased. */
  function StatusLabel(s: Status): (l: string)
    ensures |l| == |StatusName(s)| && l[1..] == StatusName(s)[1..]
    ensures l[0] == UpperChar(StatusName(s)[0])
  {
    Capitalize(StatusName(s))
  }

  lemma StatusLabels()
    ensures StatusLabel(New) == "New"
    ensures StatusLabel(Reviewing) == "Reviewing"
    ensures StatusLabel(Resolved) == "Resolved"
  {
    assert StatusLabel(New) == ['N'] + "new"[1..];
    assert StatusLabel(Reviewing) == ['R'] + "reviewing"[1..];
    assert StatusLabel(Resolved) == ['R'] + "resolved"[1..];
  }

  /** The card's class: a red double border exactly for emergencies. */
  function CardClass(r: Report): (c: string)
    ensures |c| >= 5 && c[..5] == "mb-4 "
    ensures r.emergency <==> c[5..] == "border-red-500 border-2"
    ensures !r.emergency <==> c == "mb-4 "
  {
    "mb-4 " + (if r.emergency then "border-red-500 border-2" else "")
  }

  /** The location line: the address when it is non-empty, otherwise the
      coordinates, each formatted to six decimals by `fixed6`. */
  function LocationLine(loc: Location, fixed6: real -> string): (line: string)
    ensures Truthy(loc.address) ==> line == loc.address.value
    ensures !Truthy(loc.address) ==> line == fixed6(loc.latitude) + ", " + fixed6(loc.longitude)
  {
    OrElse(loc.address, fixed6(loc.latitude) + ", " + fixed6(loc.longitude))
  }
}
