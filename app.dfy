/**
 * The module router: `loadModule` marks the navigation affordances for the
 * requested module as active, shows a loading placeholder in the content
 * area, fetches the module's fragment and shows it, or an error surface if
 * the fetch fails. The function is `async`: its synchronous part, up to the
 * `await` on the fetch, is `Router.LoadModule`; the continuation that runs
 * when the fetch settles is `Router.Resolve`.
 */
module App {
  import opened Wrappers
  import opened Strings
  import opened Dom

  /** What the content area shows. */
  datatype Content =
    | Html(html: string)       // markup: the shell's own, or a fetched fragment
    | Loading(name: string)    // the "Loading <name>..." placeholder
    | Failed(name: string)     // the "Could not load the <name> module" surface

  /** How the fetch of a fragment settles: a response, or a thrown fault. */
  datatype FetchOutcome = Response(ok: bool, status: int, body: string) | Fault

  /** The module opened on first page load. */
  const DefaultModule := "hr"

  /**
   * `m.charAt(0).toUpperCase() + m.slice(1)`: the name up to letter case,
   * with no lower-case first letter, and changed nowhere after the first character.
   */
  function Capitalize(m: string): (r: string)
    ensures SameIgnoringCase(r, m)
    ensures |r| > 0 ==> !IsLower(r[0])
    ensures forall i :: 0 < i < |r| ==> r[i] == m[i]
  {
    if m == [] then [] else [UpperChar(m[0])] + m[1..]
  }

  /** Capitalising a capitalised name changes nothing. */
  lemma CapitalizeIdempotent(m: string)
    ensures Capitalize(Capitalize(m)) == Capitalize(m)
  {
  }

  /** The module a fragment URL names: the text between `/modules/` and `.html`, if it has that form. */
  function ModuleOfUrl(u: string): Option<string>
  {
    if |u| >= 14 && u[..9] == "/modules/" && u[|u| - 5..] == ".html" then Some(u[9..|u| - 5]) else None
  }

  /** The URL fetched for module `m`, from which the module name reads back. */
  function ModuleUrl(m: string): (u: string)
    ensures ModuleOfUrl(u) == Some(m)
  {
    "/modules/" + m + ".html"
  }

  /** Distinct modules are fetched from distinct URLs. */
  lemma ModuleUrlInjective(a: string, b: string)
    requires ModuleUrl(a) == ModuleUrl(b)
    ensures a == b
  {
  }

  /** What the content area shows once the fetch for `m` has settled. */
  function Settled(m: string, outcome: FetchOutcome): (c: Content)
    ensures !c.Loading?
    ensures c.Html? <==> outcome.Response? && outcome.ok
    ensures c.Html? ==> c.html == outcome.body
    ensures c.Failed? ==> SameIgnoringCase(c.name, m) && c.name == Capitalize(m)
  {
    match outcome
    case Response(ok, _, body) => if ok then Html(body) else Failed(Capitalize(m))
    case Fault => Failed(Capitalize(m))
  }

  /** Every affordance with its `active` class removed. */
  function Cleared(s: seq<Affordance>): (r: seq<Affordance>)
    ensures |r| == |s|
    ensures forall i :: 0 <= i < |s| ==> r[i] == s[i].(active := false)
  {
    seq(|s|, i requires 0 <= i < |s| => s[i].(active := false))
  }

  /** Activate element `k` (the `classList.add('active')`). */
  function Activate(s: seq<Affordance>, k: nat): (r: seq<Affordance>)
    requires k < |s|
  {
    s[k := s[k].(active := true)]
  }

  /**
   * The affordances after the synchronous part of `loadModule(m)`: all
   * cleared, then the element with id `<m>-nav` and the header link for `m`
   * activated, in that order; when a lookup finds nothing the function
   * throws there and later steps do not happen.
   */
  function Navigated(s: seq<Affordance>, m: string): (r: seq<Affordance>)
  {
    var cleared := Cleared(s);
    match ById(cleared, m + "-nav")
    case None => cleared
    case Some(k) =>
      var marked := Activate(cleared, k);
      match HeaderLinkFor(marked, m)
      case None => marked
      case Some(h) => Activate(marked, h)
  }

  /** The fetch `loadModule(m)` starts: None when it throws before reaching it. */
  function Request(s: seq<Affordance>, m: string): (r: Option<string>)
    ensures r.Some? <==> ById(s, m + "-nav").Some? && HeaderLinkFor(s, m).Some?
    ensures r.Some? ==> r.value == ModuleUrl(m)
  {
    if ById(s, m + "-nav").Some? && HeaderLinkFor(s, m).Some? then Some(ModuleUrl(m)) else None
  }

  /** The lookups do not look at the `active` class. */
  lemma LookupsIgnoreActive(s: seq<Affordance>, t: seq<Affordance>, m: string)
    requires |s| == |t| && forall i :: 0 <= i < |s| ==> t[i] == s[i].(active := t[i].active)
    ensures ById(s, m + "-nav") == ById(t, m + "-nav")
    ensures HeaderLinkFor(s, m) == HeaderLinkFor(t, m)
  {
  }

  /**
   * After `loadModule(m)` only the `active` class has changed, and it is on
   * exactly the element with id `<m>-nav` and the first header link for `m`
   * (each when it exists; the header link only when the first lookup succeeded).
   */
  lemma NavigatedActive(s: seq<Affordance>, m: string)
    ensures |Navigated(s, m)| == |s|
    ensures forall i :: 0 <= i < |s| ==> Navigated(s, m)[i] == s[i].(active := Navigated(s, m)[i].active)
    ensures forall i :: 0 <= i < |s| ==>
      (Navigated(s, m)[i].active <==>
        (ById(s, m + "-nav") == Some(i)) ||
        (ById(s, m + "-nav").Some? && HeaderLinkFor(s, m) == Some(i)))
  {
    var cleared := Cleared(s);
    LookupsIgnoreActive(s, cleared, m);
    match ById(cleared, m + "-nav")
    case None =>
    case Some(k) =>
      var marked := Activate(cleared, k);
      LookupsIgnoreActive(s, marked, m);
  }

  /**
   * A fetch starts exactly when, after the synchronous part of
   * `loadModule(m)`, an element with id `<m>-nav` and a header link for `m`
   * both carry `active`.
   */
  lemma RequestIffBothMarked(s: seq<Affordance>, m: string)
    ensures Request(s, m).Some? <==>
      (exists i :: 0 <= i < |s| && Navigated(s, m)[i].active && Navigated(s, m)[i].id == m + "-nav") &&
      (exists j :: 0 <= j < |s| && Navigated(s, m)[j].active &&
         Navigated(s, m)[j].kind == HeaderLink && Navigated(s, m)[j].moduleName == m)
  {
    NavigatedActive(s, m);
    var n := Navigated(s, m);
    if Request(s, m).Some? {
      var k := ById(s, m + "-nav").value;
      var h := HeaderLinkFor(s, m).value;
      assert n[k].active && n[k].id == m + "-nav";
      assert n[h].active && n[h].kind == HeaderLink && n[h].moduleName == m;
    } else if ById(s, m + "-nav").Some? {
      assert HeaderLinkFor(s, m).None?;
      forall j | 0 <= j < |s| && n[j].active
        ensures !(n[j].kind == HeaderLink && n[j].moduleName == m)
      {
        assert n[j].kind == s[j].kind && n[j].moduleName == s[j].moduleName;
      }
    }
  }

  /** Whether a later load starts its fetch does not depend on an earlier load. */
  lemma RequestIgnoresNavigation(s: seq<Affordance>, a: string, b: string)
    ensures Request(Navigated(s, a), b) == Request(s, b)
  {
    NavigatedActive(s, a);
    LookupsIgnoreActive(s, Navigated(s, a), b);
  }

  /** The content area and the navigation affordances of the shell page. */
  class Router {
    const nav: array<Affordance>
    var content: Content

    constructor (nav: array<Affordance>, shell: string)
      ensures this.nav == nav && content == Html(shell)
    {
      this.nav := nav;
      content := Html(shell);
    }

    /**
     * The synchronous part of `loadModule(m)`: returns the URL whose fetch
     * it starts, or None when a lookup finds no element and the call throws.
     */
    method LoadModule(m: string) returns (request: Option<string>)
      modifies this, nav
      ensures nav[..] == Navigated(old(nav[..]), m)
      ensures request == Request(old(nav[..]), m)
      ensures content == if request.Some? then Loading(Capitalize(m)) else old(content)
    {
      ghost var before := nav[..];
      var i := 0;
      while i < nav.Length
        invariant 0 <= i <= nav.Length
        invariant forall j :: 0 <= j < i ==> nav[j] == before[j].(active := false)
        invariant forall j :: i <= j < nav.Length ==> nav[j] == before[j]
        invariant content == old(content)
      {
        nav[i] := nav[i].(active := false);
        i := i + 1;
      }
      assert nav[..] == Cleared(before);
      LookupsIgnoreActive(before, nav[..], m);
      var side := ById(nav[..], m + "-nav");
      if side.None? {
        return None;
      }
      nav[side.value] := nav[side.value].(active := true);
      assert nav[..] == Activate(Cleared(before), side.value);
      LookupsIgnoreActive(before, nav[..], m);
      var header := HeaderLinkFor(nav[..], m);
      if header.None? {
        return None;
      }
      nav[header.value] := nav[header.value].(active := true);
      content := Loading(Capitalize(m));
      request := Some(ModuleUrl(m));
    }

    /**
     * The continuation of `loadModule(m)` once its fetch settles. It applies
     * whatever was requested since: the last fetch to settle wins.
     */
    method Resolve(m: string, outcome: FetchOutcome)
      modifies this
      ensures content == Settled(m, outcome)
    {
      content := Settled(m, outcome);
    }

    /** A click on affordance `i` loads the module named by its `data-module`. */
    method Click(i: nat) returns (request: Option<string>)
      requires i < nav.Length
      modifies this, nav
      ensures nav[..] == Navigated(old(nav[..]), old(nav[i].moduleName))
      ensures request == Request(old(nav[..]), old(nav[i].moduleName))
      ensures content == if request.Some? then Loading(Capitalize(old(nav[i].moduleName))) else old(content)
    {
      request := LoadModule(nav[i].moduleName);
    }

    /** The first page load opens the default module. */
    method Start() returns (request: Option<string>)
      modifies this, nav
      ensures nav[..] == Navigated(old(nav[..]), DefaultModule)
      ensures request == Request(old(nav[..]), DefaultModule)
      ensures content == if request.Some? then Loading("Hr") else old(content)
    {
      request := LoadModule(DefaultModule);
    }
  }

  /**
   * Two overlapping loads on a page that has the affordances of both
   * modules: "crm" is requested, then "hr", and both fetches start; the "hr"
   * fetch settles first and the "crm" fetch after it. Nothing discards the older
   * response, so the content ends up showing the "crm" outcome.
   */
  method StaleCompletionWins(r: Router, hrOutcome: FetchOutcome, crmOutcome: FetchOutcome)
    requires Request(r.nav[..], "crm").Some? && Request(r.nav[..], "hr").Some?
    modifies r, r.nav
    ensures r.content == Settled("crm", crmOutcome)
    ensures r.nav[..] == Navigated(Navigated(old(r.nav[..]), "crm"), "hr")
  {
    ghost var before := r.nav[..];
    var crm := r.LoadModule("crm");
    RequestIgnoresNavigation(before, "crm", "hr");
    var hr := r.LoadModule("hr");
    assert crm == Some(ModuleUrl("crm")) && hr == Some(ModuleUrl("hr"));
    r.Resolve("hr", hrOutcome);
    r.Resolve("crm", crmOutcome);
  }
}
