/**
 * Session checking, permissions and audit logging. `localStorage` is a map
 * from keys to strings, except for the audit log, which is kept as the
 * sequence of entries its JSON text encodes. Decoding the token (`atob`
 * then `JSON.parse`) is an arbitrary partial function supplied with the
 * browser; the clock, the timestamp and the page path are inputs.
 */
module Security {
  import opened Wrappers
  import opened Strings
  import opened Dom

  /**
   * The claims a token decodes to. `exp` is the claim as `<` coerces it to a
   * number, rounded down (which decides `<` against the integer clock the
   * same way): `null`, `true`, `""`, `[]` and `"5"` all coerce to numbers.
   * It is None when the claim coerces to NaN (absent, an object, a
   * non-numeric string), so that no comparison with it holds.
   */
  datatype Session = Session(
    email: string,
    name: string,
    role: string,
    permissions: seq<string>,
    exp: Option<int>)

  /** One audit record; `details` is the free-form object passed by the caller. */
  datatype Entry = Entry(
    timestamp: string,
    user: string,
    role: string,
    action: string,
    moduleName: string,
    details: map<string, string>)

  const TokenKey := "erp_auth_token"
  const NameKey := "erp_user_name"
  const RoleKey := "erp_user_role"
  const AuditLogKey := "erp_audit_log"
  const LoginPage := "login.html"

  /** The keys `logout` removes. */
  const SessionKeys: set<string> := {TokenKey, NameKey, RoleKey}

  /** The five ways `checkAuth` can end. */
  datatype Verdict =
    | OnLoginPage               // bypass: return null, touch nothing
    | NoToken                   // no token, or an empty one: redirect to the login page
    | Malformed                 // the token does not decode: log out
    | Expired(session: Session) // decoded, but `exp < now`: log out
    | Valid(session: Session)   // decoded and not expired: returned as is

  /** `session.exp < Date.now()`: strict, and false when `exp` coerces to NaN. */
  predicate IsExpired(s: Session, now: int)
  {
    s.exp.Some? && s.exp.value < now
  }

  /** `localStorage.getItem(TokenKey)` is truthy: present and not empty. */
  predicate HasToken(store: map<string, string>)
  {
    TokenKey in store && store[TokenKey] != ""
  }

  /** The decision `checkAuth` takes, from the page path, the store, the clock and the decoder. */
  function Decide(path: string, store: map<string, string>, now: int, decode: string -> Option<Session>): (v: Verdict)
  {
    if Contains(path, LoginPage) then OnLoginPage
    else if !HasToken(store) then NoToken
    else match decode(store[TokenKey])
      case None => Malformed
      case Some(s) => if IsExpired(s, now) then Expired(s) else Valid(s)
  }

  /** What `checkAuth` returns for a verdict: the session exactly when it is valid. */
  function SessionOf(v: Verdict): (r: Option<Session>)
    ensures r.Some? <==> v.Valid?
    ensures r.Some? ==> r.value == v.session
  {
    if v.Valid? then Some(v.session) else None
  }

  /** The store after `logout`: the three session keys gone, every other key as it was. */
  function WithoutSession(store: map<string, string>): (r: map<string, string>)
    ensures r.Keys == store.Keys - SessionKeys
    ensures forall k :: k in r ==> r[k] == store[k]
  {
    store - SessionKeys
  }

  /** The store after `checkAuth`: logged out on a malformed or expired token, unchanged otherwise. */
  function StoreAfter(v: Verdict, store: map<string, string>): (r: map<string, string>)
  {
    if v.Malformed? || v.Expired? then WithoutSession(store) else store
  }

  /** The location after `checkAuth`: the login page unless it bypassed or found a valid session. */
  function HrefAfter(v: Verdict, href: string): (r: string)
  {
    if v.OnLoginPage? || v.Valid? then href else LoginPage
  }

  /** `array.includes(x)`, element by element. */
  function Includes(s: seq<string>, x: string): (r: bool)
    ensures r <==> x in s
  {
    if s == [] then false else s[0] == x || Includes(s[1..], x)
  }

  /** `item.dataset.permission` is truthy: present and not empty. */
  predicate HasRequirement(a: Affordance)
  {
    a.permission.Some? && a.permission.value != ""
  }

  /** `enforceModuleAccess` locks a sidebar item whose required permission the session lacks. */
  predicate ShouldLock(a: Affordance, s: Session)
  {
    a.kind == SidebarItem && HasRequirement(a) && a.permission.value !in s.permissions
  }

  /** On the login page `checkAuth` bypasses everything, whatever the store holds. */
  lemma LoginPageBypass(path: string, store: map<string, string>, now: int, decode: string -> Option<Session>)
    requires Contains(path, LoginPage)
    ensures Decide(path, store, now, decode) == OnLoginPage
    ensures SessionOf(OnLoginPage) == None
    ensures StoreAfter(OnLoginPage, store) == store
  {
  }

  /**
   * Elsewhere, a session is returned exactly when the stored token is
   * non-empty, decodes, and has not expired; it is the decoded session itself.
   */
  lemma ValidIffDecodedAndCurrent(path: string, store: map<string, string>, now: int, decode: string -> Option<Session>)
    requires !Contains(path, LoginPage)
    ensures Decide(path, store, now, decode).Valid? <==>
      HasToken(store) && decode(store[TokenKey]).Some? && !IsExpired(decode(store[TokenKey]).value, now)
    ensures Decide(path, store, now, decode).Valid? ==>
      Decide(path, store, now, decode).session == decode(store[TokenKey]).value
    ensures !HasToken(store) ==> Decide(path, store, now, decode) == NoToken
    ensures HasToken(store) && decode(store[TokenKey]).None? ==> Decide(path, store, now, decode) == Malformed
  {
  }

  /** The expiry test is strict: a session whose `exp` equals the current time is still valid. */
  lemma ExpiryIsStrict(path: string, store: map<string, string>, decode: string -> Option<Session>, s: Session)
    requires !Contains(path, LoginPage) && HasToken(store)
    requires decode(store[TokenKey]) == Some(s) && s.exp.Some?
    ensures Decide(path, store, s.exp.value, decode) == Valid(s)
    ensures Decide(path, store, s.exp.value + 1, decode) == Expired(s)
  {
  }

  /** Logging out twice leaves the same store as logging out once. */
  lemma LogoutIdempotent(store: map<string, string>)
    ensures WithoutSession(WithoutSession(store)) == WithoutSession(store)
  {
  }

  /** A second check right after one that found a valid session decides the same and changes nothing. */
  lemma ValidIsStable(path: string, store: map<string, string>, now: int, decode: string -> Option<Session>)
    requires Decide(path, store, now, decode).Valid?
    ensures StoreAfter(Decide(path, store, now, decode), store) == store
    ensures Decide(path, StoreAfter(Decide(path, store, now, decode), store), now, decode) == Decide(path, store, now, decode)
  {
  }

  /** The browser state the security script reads and writes. */
  class Browser {
    const pathname: string                     // `window.location.pathname`
    const decode: string -> Option<Session>    // `JSON.parse(atob(token))`, None when it throws
    var href: string                           // the last value assigned to `window.location.href`
    var store: map<string, string>             // `localStorage`, without the audit log
    var auditLog: seq<Entry>                   // the entries stored under AuditLogKey

    /** The audit log lives in `auditLog`, never among the plain string entries. */
    ghost predicate Valid()
      reads this
    {
      AuditLogKey !in store
    }

    /** The verdict `checkAuth` would reach now. */
    function VerdictAt(now: int): Verdict
      reads this
    {
      Decide(pathname, store, now, decode)
    }

    constructor (pathname: string, href: string, store: map<string, string>, auditLog: seq<Entry>,
                 decode: string -> Option<Session>)
      requires AuditLogKey !in store
      ensures Valid()
      ensures this.pathname == pathname && this.href == href && this.decode == decode
      ensures this.store == store && this.auditLog == auditLog
    {
      this.pathname := pathname;
      this.decode := decode;
      this.href := href;
      this.store := store;
      this.auditLog := auditLog;
    }

    /** `logout()`: remove the three session keys and go to the login page. */
    method Logout()
      requires Valid()
      modifies this`store, this`href
      ensures Valid()
      ensures store == WithoutSession(old(store))
      ensures href == LoginPage
    {
      store := store - {TokenKey};
      store := store - {NameKey};
      store := store - {RoleKey};
      href := LoginPage;
    }

    /** `checkAuth()`. */
    method CheckAuth(now: int) returns (session: Option<Session>)
      requires Valid()
      modifies this`store, this`href
      ensures Valid()
      ensures session == SessionOf(old(VerdictAt(now)))
      ensures store == StoreAfter(old(VerdictAt(now)), old(store))
      ensures href == HrefAfter(old(VerdictAt(now)), old(href))
    {
      if Contains(pathname, LoginPage) {
        return None;
      }
      if TokenKey !in store || store[TokenKey] == "" {
        href := LoginPage;
        return None;
      }
      var decoded := decode(store[TokenKey]);
      if decoded.None? {
        Logout();
        return None;
      }
      if decoded.value.exp.Some? && decoded.value.exp.value < now {
        Logout();
        return None;
      }
      return decoded;
    }

    /** `hasPermission(permission)`. */
    method HasPermission(permission: string, now: int) returns (granted: bool)
      requires Valid()
      modifies this`store, this`href
      ensures Valid()
      ensures granted <==> old(VerdictAt(now)).Valid? && permission in old(VerdictAt(now)).session.permissions
      ensures store == StoreAfter(old(VerdictAt(now)), old(store))
      ensures href == HrefAfter(old(VerdictAt(now)), old(href))
    {
      var session := CheckAuth(now);
      if session.None? {
        return false;
      }
      granted := Includes(session.value.permissions, permission);
    }

    /** `enforceModuleAccess()` over the page's affordances. */
    method EnforceModuleAccess(items: array<Affordance>, now: int)
      requires Valid()
      modifies this`store, this`href, items
      ensures Valid()
      ensures store == StoreAfter(old(VerdictAt(now)), old(store))
      ensures href == HrefAfter(old(VerdictAt(now)), old(href))
      ensures !old(VerdictAt(now)).Valid? ==> items[..] == old(items[..])
      ensures old(VerdictAt(now)).Valid? ==> forall i :: 0 <= i < items.Length ==>
        items[i] == old(items[i]).(locked := old(items[i]).locked || ShouldLock(old(items[i]), old(VerdictAt(now)).session))
    {
      var session := CheckAuth(now);
      if session.None? {
        return;
      }
      ghost var v := VerdictAt(now);
      ghost var before := items[..];
      var i := 0;
      while i < items.Length
        invariant 0 <= i <= items.Length
        invariant Valid() && VerdictAt(now) == v && store == old(store) && href == old(href)
        invariant forall j :: 0 <= j < i ==>
          items[j] == before[j].(locked := before[j].locked || ShouldLock(before[j], v.session))
        invariant forall j :: i <= j < items.Length ==> items[j] == before[j]
      {
        var item := items[i];
        if item.kind == SidebarItem && item.permission.Some? && item.permission.value != "" {
          var granted := HasPermission(item.permission.value, now);
          if !granted {
            items[i] := item.(locked := true);
          }
        }
        i := i + 1;
      }
    }

    /**
     * `monitorSession()` up to arming its timer: returns whether the
     * 60-second re-check was scheduled.
     */
    method MonitorSession(now: int) returns (started: bool)
      requires Valid()
      modifies this`store, this`href
      ensures Valid()
      ensures started <==> old(VerdictAt(now)).Valid?
      ensures store == StoreAfter(old(VerdictAt(now)), old(store))
      ensures href == HrefAfter(old(VerdictAt(now)), old(href))
    {
      if Contains(pathname, LoginPage) {
        return false;
      }
      var session := CheckAuth(now);
      started := session.Some?;
    }

    /** One firing of the monitor's timer: `checkAuth()`, result discarded. */
    method MonitorTick(now: int)
      requires Valid()
      modifies this`store, this`href
      ensures Valid()
      ensures store == StoreAfter(old(VerdictAt(now)), old(store))
      ensures href == HrefAfter(old(VerdictAt(now)), old(href))
    {
      var _ := CheckAuth(now);
    }

    /** `logAction(action, module, details)`, with `timestamp` the ISO time the clock gave. */
    method LogAction(action: string, moduleName: string, details: map<string, string>, now: int, timestamp: string)
      requires Valid()
      modifies this`store, this`href, this`auditLog
      ensures Valid()
      ensures store == StoreAfter(old(VerdictAt(now)), old(store))
      ensures href == HrefAfter(old(VerdictAt(now)), old(href))
      ensures !old(VerdictAt(now)).Valid? ==> auditLog == old(auditLog)
      ensures old(VerdictAt(now)).Valid? ==> auditLog == old(auditLog) + [Entry(timestamp,
        old(VerdictAt(now)).session.email, old(VerdictAt(now)).session.role, action, moduleName, details)]
    {
      var session := CheckAuth(now);
      if session.None? {
        return;
      }
      var entry := Entry(timestamp, session.value.email, session.value.role, action, moduleName, details);
      var log := auditLog;
      log := log + [entry];
      auditLog := log;
    }
  }
}
