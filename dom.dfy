/**
 * The navigation affordances of the shell page: the sidebar items and the
 * header links. Only the attributes and classes the scripts read or write
 * are kept: the element id, `data-module`, `data-permission`, and the
 * `active` and `locked` classes.
 */
module Dom {
  import opened Wrappers

  datatype Kind = SidebarItem | HeaderLink

  datatype Affordance = Affordance(
    kind: Kind,
    id: string,
    moduleName: string,  // `data-module`
    permission: Option<string>,  // `data-permission`; None when the attribute is absent
    active: bool,
    locked: bool)

  /** The index of the first element satisfying `p`, as a document-order query returns it. */
  function First(s: seq<Affordance>, p: Affordance -> bool): (r: Option<nat>)
    ensures r.Some? ==> r.value < |s| && p(s[r.value])
    ensures r.Some? ==> forall j :: 0 <= j < r.value ==> !p(s[j])
    ensures r.None? ==> forall j :: 0 <= j < |s| ==> !p(s[j])
  {
    if s == [] then None
    else if p(s[0]) then Some(0)
    else match First(s[1..], p)
      case None => None
      case Some(k) => Some(k + 1)
  }

  /** `document.getElementById(id)`. */
  function ById(s: seq<Affordance>, id: string): (r: Option<nat>)
  {
    First(s, (a: Affordance) => a.id == id)
  }

  /** `document.querySelector(".header-nav a[data-module='m']")`. */
  function HeaderLinkFor(s: seq<Affordance>, m: string): (r: Option<nat>)
  {
    First(s, (a: Affordance) => a.kind == HeaderLink && a.moduleName == m)
  }
}
