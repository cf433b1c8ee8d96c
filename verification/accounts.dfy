/** `DomainAccount`: the identity value every membership decision compares.
    It is built either from a raw login string or from a SharePoint user
    record, and compared by a deliberately loose equality: two accounts are
    equal when any one of login, SAM account name, SID or display name
    matches case-insensitively. C# `null` fields are modelled as "". */
module Accounts {
  import opened Wrappers
  import opened Strings
  import opened Extensions
  import opened Sids
  import Interop

  /** The claims tokens of the two pseudo-principals. */
  const CLAIM_EVERYONE := "c:0(.s|true"
  const CLAIM_ALL_AUTHENTICATED_USERS := "c:0!.s|windows"

  datatype DomainAccount = DomainAccount(
    isEveryone: bool,
    isAllAuthenticatedUsers: bool,
    userId: int,
    domain: string,
    samAccountName: string,
    email: string,
    displayName: string,
    loginName: string,
    sid: string)
  {
    /** "Everyone" or "all authenticated users". */
    predicate IsPseudo() {
      isEveryone || isAllAuthenticatedUsers
    }
  }

  /** The fields of an `SPUser` the constructor reads. */
  datatype SPUser = SPUser(
    id: int,
    sid: string,
    loginName: string,
    name: string,
    email: string,
    isDomainGroup: bool)

  predicate IsPseudoToken(login: string) {
    login == CLAIM_EVERYONE || login == CLAIM_ALL_AUTHENTICATED_USERS
  }

  /** `d\s` spells `x`, with neither part holding a `\`: the only way a
      string with exactly one `\` splits into two parts. */
  ghost predicate TwoParts(d: string, s: string, x: string) {
    d + "\\" + s == x && '\\' !in d && '\\' !in s
  }

  /** How the domain part and the SAM account name relate to a login: a login
      with exactly one `\` is `domain\sam`; any other login has no domain and
      is its own SAM account name. */
  ghost predicate SplitsLogin(domain: string, sam: string, login: string) {
    && (Count(login, '\\') == 1 ==> TwoParts(domain, sam, login))
    && (Count(login, '\\') != 1 ==> domain == "" && sam == login)
  }

  /** `x.Split('\')` has two parts exactly when `x` holds one `\`, and
      then the parts are the two sides of it. */
  lemma SplitInTwo(x: string)
    ensures |Split(x, '\\')| == 2 <==> Count(x, '\\') == 1
    ensures |Split(x, '\\')| == 2 ==> TwoParts(Split(x, '\\')[0], Split(x, '\\')[1], x)
  {
    var parts := Split(x, '\\');
    SplitCount(x, '\\');
    SplitJoin(x, '\\');
    if |parts| == 2 {
      JoinCons(parts[0], parts[1..], ['\\']);
    }
  }

  /** The two sides of the single `\` are determined by the string. */
  lemma TwoPartsUnique(d1: string, s1: string, d2: string, s2: string, x: string)
    requires TwoParts(d1, s1, x) && TwoParts(d2, s2, x)
    ensures d1 == d2 && s1 == s2
  {
    TwoPartsSplit(d1, s1, x);
    TwoPartsSplit(d2, s2, x);
  }

  lemma TwoPartsSplit(d: string, s: string, x: string)
    requires TwoParts(d, s, x)
    ensures Split(x, '\\') == [d, s]
  {
    JoinCons(d, [s], ['\\']);
    assert [d] + [s] == [d, s];
    JoinSplit([d, s], '\\');
  }

  /** `(domain, sam)` from `login.Split('\')` with the two-part test the
      constructors use. */
  function DomainAndSam(login: string): (r: (string, string))
    ensures SplitsLogin(r.0, r.1, login)
  {
    var parts := Split(login, '\\');
    SplitInTwo(login);
    if |parts| == 2 then (parts[0], parts[1]) else ("", login)
  }

  // ---------------------------------------------------------------------
  // The string constructor `DomainAccount(string loginName)`.

  /** Whether the string constructor has to resolve a SID for `raw`. */
  predicate LoginNeedsResolution(raw: string, parses: string -> bool) {
    !IsPseudoToken(raw) && IsSID(RemoveClaimsPrefixIfPresent(raw), parses)
  }

  /** The account the string constructor builds once any SID in `raw` has
      been resolved to `resolved`. */
  function LoginAccount(raw: string, parses: string -> bool, resolved: string): DomainAccount {
    if IsPseudoToken(raw) then
      DomainAccount(raw == CLAIM_EVERYONE, raw == CLAIM_ALL_AUTHENTICATED_USERS,
                    -1, "", "", "", "", raw, "")
    else
      var login := RemoveClaimsPrefixIfPresent(raw);
      var sid := if IsSID(login, parses) then login else "";
      var name := if IsSID(login, parses) then resolved else login;
      var (domain, sam) := DomainAndSam(name);
      DomainAccount(false, false, -1, domain, sam, "", name, name, sid)
  }

  /** The SID the string constructor records: the claims-stripped login when
      that is a SID, none otherwise. It depends on the login alone. */
  function LoginSid(raw: string, parses: string -> bool): string {
    if LoginNeedsResolution(raw, parses) then RemoveClaimsPrefixIfPresent(raw) else ""
  }

  /** The string constructor with the directory's answer for the SID: the
      reference the cached constructor is measured against. */
  function ParseLogin(raw: string, svc: SidServices): (r: Result<DomainAccount, Exception>)
    ensures IsPseudoToken(raw) ==> r.Success? && r.value.loginName == raw
    ensures raw == CLAIM_EVERYONE ==> r.Success? && r.value.isEveryone && !r.value.isAllAuthenticatedUsers
    ensures raw == CLAIM_ALL_AUTHENTICATED_USERS ==> r.Success? && r.value.isAllAuthenticatedUsers && !r.value.isEveryone
    ensures r.Success? && r.value.IsPseudo() ==> IsPseudoToken(raw)
    ensures r.Success? && !IsPseudoToken(raw) ==>
      var a := r.value;
      var login := RemoveClaimsPrefixIfPresent(raw);
      && a.userId == -1 && a.email == "" && a.displayName == a.loginName
      && SplitsLogin(a.domain, a.samAccountName, a.loginName)
      && (IsSID(login, svc.parses) ==> a.sid == login && Lookup(login, svc) == Success(a.loginName))
      && (!IsSID(login, svc.parses) ==> a.sid == "" && a.loginName == login)
    ensures r.Success? ==> r.value.sid == LoginSid(raw, svc.parses)
    ensures r.Failure? <==>
      LoginNeedsResolution(raw, svc.parses) && Lookup(RemoveClaimsPrefixIfPresent(raw), svc).Failure?
  {
    if LoginNeedsResolution(raw, svc.parses) then
      match Lookup(RemoveClaimsPrefixIfPresent(raw), svc)
      case Success(name) => Success(LoginAccount(raw, svc.parses, name))
      case Failure(e) => Failure(e)
    else
      Success(LoginAccount(raw, svc.parses, ""))
  }

  /** `new DomainAccount(loginName)` with the SID cache: the same account as
      `ParseLogin` whenever the cache agrees with the directory, and the
      cache only grows. */
  function NewDomainAccount(raw: string, svc: SidServices, cache: SidCache): (r: Cached<DomainAccount>)
    ensures Extends(cache, r.cache)
    ensures !LoginNeedsResolution(raw, svc.parses) ==> r.cache == cache && r.value.Success?
    ensures r.value.Success? ==> r.value.value.sid == LoginSid(raw, svc.parses)
    ensures Coherent(cache, svc) ==> Coherent(r.cache, svc) && r.value == ParseLogin(raw, svc)
  {
    if LoginNeedsResolution(raw, svc.parses) then
      var resolved := ResolveSID(RemoveClaimsPrefixIfPresent(raw), svc, cache);
      match resolved.value
      case Success(name) => Cached(Success(LoginAccount(raw, svc.parses, name)), resolved.cache)
      case Failure(e) => Cached(Failure(e), resolved.cache)
    else
      Cached(Success(LoginAccount(raw, svc.parses, "")), cache)
  }

  /** The claims prefix is transparent: `p|name` parses like `name`, unless
      it happens to spell a pseudo-principal token. */
  lemma ParseLoginIgnoresClaimsPrefix(prefix: string, name: string, svc: SidServices)
    requires '|' !in prefix && '|' !in name
    requires !IsPseudoToken(prefix + "|" + name)
    ensures ParseLogin(prefix + "|" + name, svc) == ParseLogin(name, svc)
  {
    RemoveClaimsPrefixOfClaimsLogin(prefix, name, "");
    assert prefix + "|" + name + "" == prefix + "|" + name;
    assert !IsPseudoToken(name) by {
      assert '|' in CLAIM_EVERYONE && '|' in CLAIM_ALL_AUTHENTICATED_USERS by {
        assert CLAIM_EVERYONE[6] == '|' && CLAIM_ALL_AUTHENTICATED_USERS[6] == '|';
      }
    }
  }

  /** Re-parsing the login of a parsed account gives the same account, as
      long as no SID had to be resolved on the way. */
  lemma ParseLoginIdempotent(raw: string, svc: SidServices)
    requires !LoginNeedsResolution(raw, svc.parses)
    ensures ParseLogin(raw, svc).Success?
    ensures ParseLogin(ParseLogin(raw, svc).value.loginName, svc) == ParseLogin(raw, svc)
  {
    var a := ParseLogin(raw, svc).value;
    if !IsPseudoToken(raw) {
      var login := RemoveClaimsPrefixIfPresent(raw);
      assert a.loginName == login;
      assert !IsPseudoToken(login) by {
        assert '|' in CLAIM_EVERYONE && '|' in CLAIM_ALL_AUTHENTICATED_USERS by {
          assert CLAIM_EVERYONE[6] == '|' && CLAIM_ALL_AUTHENTICATED_USERS[6] == '|';
        }
      }
      assert RemoveClaimsPrefixIfPresent(login) == login;
    }
  }

  /** A SID login that the directory maps to `DOM\name` parses into an
      account of domain `DOM` and SAM account name `name`, with the SID
      kept: the resolved name is split like any typed-in login. */
  lemma {:induction false} ResolvedSidGivesDomainAndSam(raw: string, svc: SidServices)
    requires LoginNeedsResolution(raw, svc.parses)
    requires var w := svc.win32(RemoveClaimsPrefixIfPresent(raw));
      && w.converted && w.sizingError == Interop.ERROR_INSUFFICIENT_BUFFER && w.lookedUp
      && |w.domain| > 0 && '\\' !in w.domain && '\\' !in w.account
    ensures ParseLogin(raw, svc).Success?
    ensures var w := svc.win32(RemoveClaimsPrefixIfPresent(raw));
            var a := ParseLogin(raw, svc).value;
            && a.domain == w.domain && a.samAccountName == w.account
            && a.loginName == w.domain + "\\" + w.account
            && a.sid == RemoveClaimsPrefixIfPresent(raw)
  {
    var w := svc.win32(RemoveClaimsPrefixIfPresent(raw));
    var a := ParseLogin(raw, svc).value;
    var name := w.domain + "\\" + w.account;
    assert a.loginName == name;
    TwoPartsSplit(w.domain, w.account, name);
    SplitInTwo(name);
    TwoPartsUnique(a.domain, a.samAccountName, w.domain, w.account, name);
  }

  // ---------------------------------------------------------------------
  // The record constructor `DomainAccount(SPUser spUser)`.

  /** Whether the record constructor has to resolve a SID for `u`: the login
      (claims prefix removed) is a SID and the record carries none. */
  predicate UserNeedsResolution(u: SPUser, parses: string -> bool) {
    !IsPseudoToken(u.loginName) && UserNeedsSid(u, parses)
  }

  /** The record's fields before the login is looked at. */
  function UserBase(u: SPUser): DomainAccount {
    DomainAccount(u.loginName == CLAIM_EVERYONE,
                  u.loginName == CLAIM_ALL_AUTHENTICATED_USERS,
                  u.id, "", "", u.email, u.name, u.loginName, u.sid)
  }

  /** The login (claims prefix removed) is a plain `domain\sam` login with a
      non-empty domain part. */
  ghost predicate LoginGivesDomain(u: SPUser, parses: string -> bool) {
    var login := RemoveClaimsPrefixIfPresent(u.loginName);
    !IsSID(login, parses) && Count(login, '\\') == 1 && login[0] != '\\'
  }

  /** The domain part of `d\s` is empty exactly when the string starts with
      the `\`. */
  lemma TwoPartsEmptyDomain(d: string, s: string, x: string)
    requires TwoParts(d, s, x)
    ensures |x| > 0 && (d == "" <==> x[0] == '\\')
  {
    if d != "" {
      assert x[0] == d[0];
    }
  }

  /** The login step of the record constructor for a non-pseudo login:
      a plain login with one `\` also gives domain and SAM account name, a
      SID login without a record SID becomes the resolved name. */
  function FromUserLogin(u: SPUser, parses: string -> bool, resolved: string): (a: DomainAccount)
    ensures a.email == u.email && a.displayName == u.name && a.userId == u.id
    ensures !a.isEveryone && !a.isAllAuthenticatedUsers
    ensures UserNeedsSid(u, parses) ==>
      a.sid == RemoveClaimsPrefixIfPresent(u.loginName) && a.loginName == resolved
    ensures !UserNeedsSid(u, parses) ==>
      a.sid == u.sid && a.loginName == RemoveClaimsPrefixIfPresent(u.loginName)
    ensures var login := RemoveClaimsPrefixIfPresent(u.loginName);
      if !IsSID(login, parses) && Count(login, '\\') == 1 then TwoParts(a.domain, a.samAccountName, login)
      else a.domain == "" && a.samAccountName == ""
    ensures a.domain != "" <==> LoginGivesDomain(u, parses)
  {
    var base := UserBase(u).(isEveryone := false, isAllAuthenticatedUsers := false);
    var login := RemoveClaimsPrefixIfPresent(u.loginName);
    if !IsSID(login, parses) then
      var parts := Split(login, '\\');
      SplitInTwo(login);
      if |parts| == 2 then
        TwoPartsEmptyDomain(parts[0], parts[1], login);
        base.(loginName := login, domain := parts[0], samAccountName := parts[1])
      else base.(loginName := login)
    else if u.sid == "" then base.(loginName := resolved, sid := login)
    else base.(loginName := login)
  }

  /** The display-name step: without a domain from the login, a record name
      with exactly two `\`-parts supplies domain and SAM account name. */
  function WithNameDomain(a: DomainAccount, name: string): (r: DomainAccount)
    ensures r.(domain := a.domain, samAccountName := a.samAccountName) == a
    ensures a.domain != "" ==> r == a
    ensures a.domain == "" && Count(name, '\\') == 1 ==> TwoParts(r.domain, r.samAccountName, name)
    ensures a.domain == "" && Count(name, '\\') != 1 ==> r == a
  {
    if a.domain == "" then
      var parts := Split(name, '\\');
      SplitInTwo(name);
      if |parts| == 2 then a.(domain := parts[0], samAccountName := parts[1])
      else a
    else a
  }

  /** The login is a SID (claims prefix removed) and the record has none. */
  predicate UserNeedsSid(u: SPUser, parses: string -> bool) {
    IsSID(RemoveClaimsPrefixIfPresent(u.loginName), parses) && u.sid == ""
  }

  /** Where the record constructor takes domain and SAM account name from,
      in order of preference: a plain `domain\sam` login with a non-empty
      domain; else a display name with one `\`; else a plain login `\sam`
      (empty domain); else nowhere. */
  ghost predicate RecordSplits(u: SPUser, parses: string -> bool, domain: string, sam: string) {
    var login := RemoveClaimsPrefixIfPresent(u.loginName);
    if LoginGivesDomain(u, parses) then TwoParts(domain, sam, login)
    else if Count(u.name, '\\') == 1 then TwoParts(domain, sam, u.name)
    else if !IsSID(login, parses) && Count(login, '\\') == 1 then TwoParts(domain, sam, login)
    else domain == "" && sam == ""
  }

  /** The account the record constructor builds once any SID has been
      resolved to `resolved`. */
  function UserAccount(u: SPUser, parses: string -> bool, resolved: string): (a: DomainAccount)
    ensures a.email == u.email && a.displayName == u.name && a.userId == u.id
    ensures a.isEveryone <==> u.loginName == CLAIM_EVERYONE
    ensures a.isAllAuthenticatedUsers <==> u.loginName == CLAIM_ALL_AUTHENTICATED_USERS
    ensures IsPseudoToken(u.loginName) ==>
      a.loginName == u.loginName && a.sid == u.sid && a.domain == "" && a.samAccountName == ""
    ensures !IsPseudoToken(u.loginName) && UserNeedsSid(u, parses) ==>
      a.sid == RemoveClaimsPrefixIfPresent(u.loginName) && a.loginName == resolved
    ensures !IsPseudoToken(u.loginName) && !UserNeedsSid(u, parses) ==>
      a.sid == u.sid && a.loginName == RemoveClaimsPrefixIfPresent(u.loginName)
    ensures !IsPseudoToken(u.loginName) ==> RecordSplits(u, parses, a.domain, a.samAccountName)
  {
    if IsPseudoToken(u.loginName) then UserBase(u)
    else
      WithNameDomain(FromUserLogin(u, parses, resolved), u.name)
  }

  /** The record constructor with the directory's answer for the SID. */
  function AccountFromUser(u: SPUser, svc: SidServices): (r: Result<DomainAccount, Exception>)
    ensures r.Success? ==> r.value.email == u.email && r.value.displayName == u.name
    ensures r.Success? ==> r.value.userId == u.id
    ensures r.Success? ==> (r.value.isEveryone <==> u.loginName == CLAIM_EVERYONE)
    ensures r.Success? ==> (r.value.isAllAuthenticatedUsers <==> u.loginName == CLAIM_ALL_AUTHENTICATED_USERS)
    ensures r.Success? && IsPseudoToken(u.loginName) ==>
      r.value.loginName == u.loginName && r.value.sid == u.sid && r.value.domain == "" && r.value.samAccountName == ""
    ensures r.Success? && !IsPseudoToken(u.loginName) ==>
      var login := RemoveClaimsPrefixIfPresent(u.loginName);
      && (UserNeedsResolution(u, svc.parses) ==>
            r.value.sid == login && Lookup(login, svc) == Success(r.value.loginName))
      && (!UserNeedsResolution(u, svc.parses) ==> r.value.sid == u.sid && r.value.loginName == login)
      && RecordSplits(u, svc.parses, r.value.domain, r.value.samAccountName)
    ensures r.Failure? <==> UserNeedsResolution(u, svc.parses) &&
                            Lookup(RemoveClaimsPrefixIfPresent(u.loginName), svc).Failure?
  {
    if UserNeedsResolution(u, svc.parses) then
      match Lookup(RemoveClaimsPrefixIfPresent(u.loginName), svc)
      case Success(name) => Success(UserAccount(u, svc.parses, name))
      case Failure(e) => Failure(e)
    else
      Success(UserAccount(u, svc.parses, ""))
  }

  /** `new DomainAccount(spUser)` with the SID cache. */
  function NewDomainAccountFromUser(u: SPUser, svc: SidServices, cache: SidCache): (r: Cached<DomainAccount>)
    ensures Extends(cache, r.cache)
    ensures !UserNeedsResolution(u, svc.parses) ==> r.cache == cache
    ensures Coherent(cache, svc) ==> Coherent(r.cache, svc) && r.value == AccountFromUser(u, svc)
  {
    if UserNeedsResolution(u, svc.parses) then
      var resolved := ResolveSID(RemoveClaimsPrefixIfPresent(u.loginName), svc, cache);
      match resolved.value
      case Success(name) => Cached(Success(UserAccount(u, svc.parses, name)), resolved.cache)
      case Failure(e) => Cached(Failure(e), resolved.cache)
    else
      Cached(Success(UserAccount(u, svc.parses, "")), cache)
  }

  /** When the login yields no domain (a SID, no single `\`, or an empty
      domain part), a display name `DOM\name` supplies domain and SAM
      account name: they are the ones the string constructor would read off
      that name. */
  lemma {:induction false} DomainFallsBackToName(u: SPUser, svc: SidServices)
    requires !IsPseudoToken(u.loginName)
    requires !LoginGivesDomain(u, svc.parses)
    requires Count(u.name, '\\') == 1
    ensures !UserNeedsResolution(u, svc.parses) ==> AccountFromUser(u, svc).Success?
    ensures AccountFromUser(u, svc).Success? ==>
      var a := AccountFromUser(u, svc).value;
      (a.domain, a.samAccountName) == DomainAndSam(u.name)
  {
    if AccountFromUser(u, svc).Success? {
      var a := AccountFromUser(u, svc).value;
      var r := DomainAndSam(u.name);
      TwoPartsUnique(a.domain, a.samAccountName, r.0, r.1, u.name);
    }
  }

  /** For a plain `domain\sam` login both constructors agree on domain, SAM
      account name and login, whatever the record's display name. */
  lemma {:induction false} ConstructorsAgreeOnPlainLogins(u: SPUser, svc: SidServices)
    requires !IsPseudoToken(u.loginName)
    requires LoginGivesDomain(u, svc.parses)
    ensures AccountFromUser(u, svc).Success? && ParseLogin(u.loginName, svc).Success?
    ensures var a := AccountFromUser(u, svc).value;
            var b := ParseLogin(u.loginName, svc).value;
            a.domain == b.domain && a.samAccountName == b.samAccountName && a.loginName == b.loginName
  {
    var a := AccountFromUser(u, svc).value;
    var b := ParseLogin(u.loginName, svc).value;
    TwoPartsUnique(a.domain, a.samAccountName, b.domain, b.samAccountName, b.loginName);
  }

  /** A SID login is resolved only when the record has no SID of its own:
      with a SID on the record, nothing is looked up and login and SID are
      taken as they are. */
  lemma RecordSidSuppressesResolution(u: SPUser, svc: SidServices, cache: SidCache)
    requires u.sid != ""
    ensures NewDomainAccountFromUser(u, svc, cache).cache == cache
    ensures NewDomainAccountFromUser(u, svc, cache).value.Success?
    ensures var a := NewDomainAccountFromUser(u, svc, cache).value.value;
            a.sid == u.sid
            && (IsPseudoToken(u.loginName) || a.loginName == RemoveClaimsPrefixIfPresent(u.loginName))
  {
  }

  /** No account, from either constructor, is both pseudo-principals. */
  lemma PseudoFlagsExclusive(raw: string, u: SPUser, svc: SidServices, cache: SidCache)
    ensures var r := NewDomainAccount(raw, svc, cache);
            r.value.Success? ==> !(r.value.value.isEveryone && r.value.value.isAllAuthenticatedUsers)
    ensures var r := NewDomainAccountFromUser(u, svc, cache);
            r.value.Success? ==> !(r.value.value.isEveryone && r.value.value.isAllAuthenticatedUsers)
  {
  }

  // ---------------------------------------------------------------------
  // Equality and hashing.

  /** One field of the receiver matches the other account's: it is non-empty
      and equal ignoring case. */
  predicate FieldMatches(mine: string, theirs: string) {
    mine != "" && EqualsIgnoreCase(mine, theirs)
  }

  /** `DomainAccount.Equals`: an OR over login, SAM account name, SID and
      display name. */
  predicate Equals(a: DomainAccount, b: DomainAccount): (r: bool)
    ensures r ==> a.loginName != "" || a.samAccountName != "" || a.sid != "" || a.displayName != ""
    ensures r ==> |a.loginName| == |b.loginName| || |a.samAccountName| == |b.samAccountName|
                  || |a.sid| == |b.sid| || |a.displayName| == |b.displayName|
  {
    || FieldMatches(a.loginName, b.loginName)
    || FieldMatches(a.samAccountName, b.samAccountName)
    || FieldMatches(a.sid, b.sid)
    || FieldMatches(a.displayName, b.displayName)
  }

  /** `Equals(object)`: false for `null` (other types are not modelled). */
  predicate EqualsObject(a: DomainAccount, obj: Option<DomainAccount>) {
    obj.Some? && Equals(a, obj.value)
  }

  lemma FieldMatchesSymmetric(x: string, y: string)
    ensures FieldMatches(x, y) <==> FieldMatches(y, x)
  {
    if FieldMatches(x, y) {
      assert |Lower(x)| == |x| && |Lower(y)| == |y|;
    }
    if FieldMatches(y, x) {
      assert |Lower(x)| == |x| && |Lower(y)| == |y|;
    }
  }

  /** Equality is symmetric. */
  lemma EqualsSymmetric(a: DomainAccount, b: DomainAccount)
    ensures Equals(a, b) <==> Equals(b, a)
  {
    FieldMatchesSymmetric(a.loginName, b.loginName);
    FieldMatchesSymmetric(a.samAccountName, b.samAccountName);
    FieldMatchesSymmetric(a.sid, b.sid);
    FieldMatchesSymmetric(a.displayName, b.displayName);
  }

  /** An account equals itself exactly when one compared field is non-empty. */
  lemma EqualsReflexiveIff(a: DomainAccount)
    ensures Equals(a, a) <==>
      a.loginName != "" || a.samAccountName != "" || a.sid != "" || a.displayName != ""
  {
  }

  /** Equality is not transitive: `a` and `b` share a SID, `b` and `c` a
      display name, and `a` and `c` share nothing. */
  lemma EqualsNotTransitive()
    ensures exists a, b, c :: Equals(a, b) && Equals(b, c) && !Equals(a, c)
  {
    var a := DomainAccount(false, false, -1, "", "", "", "A", "", "s-1");
    var b := DomainAccount(false, false, -1, "", "", "", "B", "", "s-1");
    var c := DomainAccount(false, false, -1, "", "", "", "B", "", "s-2");
    assert Lower("A") == "a" && Lower("B") == "b";
    assert Lower("s-1") != Lower("s-2") by { assert Lower("s-1")[2] == '1'; }
    assert Equals(a, b) && Equals(b, c) && !Equals(a, c);
  }

  /** Two's-complement 32-bit wrap-around of C#'s unchecked `int` addition. */
  function Wrap32(x: int): (r: int)
    ensures -0x8000_0000 <= r < 0x8000_0000
    ensures (r - x) % 0x1_0000_0000 == 0
    ensures -0x8000_0000 <= x < 0x8000_0000 ==> r == x
  {
    (x + 0x8000_0000) % 0x1_0000_0000 - 0x8000_0000
  }

  /** `GetHashCode`: the sum, wrapped to 32 bits, of the hashes of the
      lower-cased non-empty compared fields; `hash` stands for
      `string.GetHashCode`. */
  function GetHashCode(a: DomainAccount, hash: string -> int): (r: int)
    ensures -0x8000_0000 <= r < 0x8000_0000
    ensures a.loginName == "" && a.samAccountName == "" && a.sid == "" && a.displayName == "" ==> r == 0
  {
    Wrap32(FieldHash(a.loginName, hash) + FieldHash(a.samAccountName, hash)
           + FieldHash(a.sid, hash) + FieldHash(a.displayName, hash))
  }

  function FieldHash(s: string, hash: string -> int): int {
    if s == "" then 0 else hash(Lower(s))
  }

  /** Changing the case of the compared fields does not change the hash. */
  lemma HashIgnoresCase(a: DomainAccount, b: DomainAccount, hash: string -> int)
    requires EqualsIgnoreCase(a.loginName, b.loginName)
    requires EqualsIgnoreCase(a.samAccountName, b.samAccountName)
    requires EqualsIgnoreCase(a.sid, b.sid)
    requires EqualsIgnoreCase(a.displayName, b.displayName)
    ensures GetHashCode(a, hash) == GetHashCode(b, hash)
  {
    assert |a.loginName| == |Lower(a.loginName)| == |Lower(b.loginName)| == |b.loginName|;
    assert |a.samAccountName| == |b.samAccountName|;
    assert |a.sid| == |Lower(a.sid)| == |Lower(b.sid)| == |b.sid|;
    assert |a.displayName| == |Lower(a.displayName)| == |Lower(b.displayName)| == |b.displayName|;
    assert |Lower(a.samAccountName)| == |Lower(b.samAccountName)|;
  }

  /** The hash does not follow the loose equality: with a length hash, two
      accounts equal by login have different hash codes. */
  lemma HashNotConsistentWithEquals()
    ensures var a := DomainAccount(false, false, -1, "", "", "", "", "x", "s-1");
            var b := DomainAccount(false, false, -1, "", "", "", "", "x", "s-10");
            var h := (s: string) => |s|;
            Equals(a, b) && GetHashCode(a, h) != GetHashCode(b, h)
  {
    var h := (s: string) => |s|;
    assert |Lower("s-1")| == 3 && |Lower("s-10")| == 4 && |Lower("x")| == 1;
  }
}
