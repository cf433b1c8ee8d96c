/** `MembershipService`: the web-service operations. Each checks its
    parameters, runs the membership logic and wraps the outcome in a result
    envelope; no exception leaves an operation. */
module Service {
  import opened Wrappers
  import opened Strings
  import opened Extensions
  import opened Sids
  import opened Accounts
  import opened AdHelper
  import opened AdUsers
  import opened AdGroups
  import opened Results
  import opened SpHelper

  /** What the service talks to: the current site's root web, the domain
      for user lookups and the domain for group lookups. */
  datatype Environment = Environment(web: Web, dir: Directory, groups: GroupDirectory)

  /** A response together with the SID cache after computing it. */
  datatype Served<T> = Served(response: T, cache: SidCache)

  /** `Environment.NewLine` on the Windows servers the service runs on. */
  const NEW_LINE := "\r\n"

  /** `EnsureParameter`: a blank value (C# `null` included) is refused with
      an exception naming the parameter. */
  function EnsureParameter(parameterName: string, value: string): (r: Option<Exception>)
    ensures r.None? <==> !IsNullOrWhiteSpace(value)
    ensures r.Some? ==> r.value.message == "Parameter '" + parameterName + "' missing." && r.value.inner.None?
  {
    if IsNullOrWhiteSpace(value) then Some(Exception("Parameter '" + parameterName + "' missing.", None))
    else None
  }

  /** The first refusal among the login and the group parameter. */
  function EnsureLoginAndGroup(loginName: string, groupName: string): (r: Option<Exception>)
    ensures r.None? <==> !IsNullOrWhiteSpace(loginName) && !IsNullOrWhiteSpace(groupName)
    ensures IsNullOrWhiteSpace(loginName) ==> r == EnsureParameter("login", loginName)
  {
    if EnsureParameter("login", loginName).Some? then EnsureParameter("login", loginName)
    else EnsureParameter("group", groupName)
  }

  /** A decision or its failure as a `BoolResultWrapper`. */
  function BoolFrom(decision: Result<bool, Exception>): (r: BoolResult)
    ensures r.success <==> decision.Success?
    ensures r.result <==> decision == Success(true)
  {
    match decision
    case Success(b) => BoolOf(b, None)
    case Failure(e) => BoolOf(false, Some(e))
  }

  /** The logins of a list of accounts, in order. */
  function Logins(accounts: seq<DomainAccount>): (r: seq<string>)
    ensures |r| == |accounts|
    ensures forall i :: 0 <= i < |accounts| ==> r[i] == accounts[i].loginName
  {
    if accounts == [] then [] else [accounts[0].loginName] + Logins(accounts[1..])
  }

  // ---------------------------------------------------------------------
  // IsUserInADGroup.

  /** The reference decision: the group parses to a pseudo-principal, or
      one of the user's AD groups equals it. */
  function ADGroupDecision(loginName: string, adGroupName: string, dir: Directory): Result<bool, Exception> {
    match ParseLogin(adGroupName, dir.sids)
    case Failure(e) => Failure(e)
    case Success(group) =>
      if group.IsPseudo() then Success(true)
      else
        match UserGroups(loginName, dir)
        case Failure(e) => Failure(e)
        case Success(groups) => Success(AnyEquals(groups, group))
  }

  /** `IsUserInADGroup`. */
  function IsUserInADGroup(loginName: string, adGroupName: string, dir: Directory, cache: SidCache): (r: Served<BoolResult>)
    ensures Extends(cache, r.cache)
    ensures Coherent(cache, dir.sids) ==> Coherent(r.cache, dir.sids)
    ensures r.response.result ==> r.response.success
    ensures EnsureLoginAndGroup(loginName, adGroupName).Some? ==>
      r == Served(BoolOf(false, EnsureLoginAndGroup(loginName, adGroupName)), cache)
    ensures EnsureLoginAndGroup(loginName, adGroupName).None? && IsPseudoToken(adGroupName) ==>
      r == Served(BoolOf(true, None), cache)
    ensures EnsureLoginAndGroup(loginName, adGroupName).None? && Coherent(cache, dir.sids) ==>
      r.response == BoolFrom(ADGroupDecision(loginName, adGroupName, dir))
  {
    match EnsureLoginAndGroup(loginName, adGroupName)
    case Some(e) => Served(BoolOf(false, Some(e)), cache)
    case None =>
      var made := NewDomainAccount(adGroupName, dir.sids, cache);
      match made.value
      case Failure(e) => Served(BoolOf(false, Some(e)), made.cache)
      case Success(group) =>
        if group.IsPseudo() then Served(BoolOf(true, None), made.cache)
        else
          UserGroupsFromCache(loginName, dir, made.cache);
          var groups := GetUserAdGroups(loginName, dir, made.cache);
          match groups.value
          case Failure(e) => Served(BoolOf(false, Some(e)), groups.cache)
          case Success(gs) => Served(BoolOf(AnyEquals(gs, group), None), groups.cache)
  }

  /** The answer is a successful `true` exactly when both parameters are
      given, the group parses, and it is a pseudo-principal or equal to one
      of the user's AD groups; a non-match is a successful `false`. */
  lemma IsUserInADGroupIff(loginName: string, adGroupName: string, dir: Directory, cache: SidCache)
    requires Coherent(cache, dir.sids)
    ensures var r := IsUserInADGroup(loginName, adGroupName, dir, cache).response;
      r.success && r.result <==>
        && !IsNullOrWhiteSpace(loginName) && !IsNullOrWhiteSpace(adGroupName)
        && ParseLogin(adGroupName, dir.sids).Success?
        && (ParseLogin(adGroupName, dir.sids).value.IsPseudo()
            || (UserGroups(loginName, dir).Success?
                && exists i :: 0 <= i < |UserGroups(loginName, dir).value|
                     && Equals(UserGroups(loginName, dir).value[i], ParseLogin(adGroupName, dir.sids).value)))
  {
  }

  // ---------------------------------------------------------------------
  // IsUserInSiteGroup.

  predicate AnyPseudo(members: seq<DomainAccount>) {
    exists i :: 0 <= i < |members| && members[i].IsPseudo()
  }

  /** Some AD group of the user equals some member (the member is the
      receiver). */
  predicate AnyGroupIsMember(members: seq<DomainAccount>, userGroups: seq<DomainAccount>) {
    exists j :: 0 <= j < |userGroups| && AnyEquals(members, userGroups[j])
  }

  /** The decision of `IsUserInSiteGroup` once members and user are known: a
      pseudo-principal member or a member equal to the user decides without
      the user's AD groups; otherwise some AD group of the user has to equal
      some member. */
  function SiteDecision(members: seq<DomainAccount>, user: DomainAccount,
                        userGroups: Result<seq<DomainAccount>, Exception>): (r: Result<bool, Exception>)
    ensures AnyPseudo(members) || AnyEquals(members, user) ==> r == Success(true)
    ensures r == Success(true) <==>
      AnyPseudo(members) || AnyEquals(members, user)
      || (userGroups.Success? && AnyGroupIsMember(members, userGroups.value))
  {
    if AnyPseudo(members) || AnyEquals(members, user) then Success(true)
    else
      match userGroups
      case Failure(e) => Failure(e)
      case Success(gs) => Success(AnyGroupIsMember(members, gs))
  }

  /** Adding members never turns a positive decision negative. */
  lemma SiteDecisionMonotone(members: seq<DomainAccount>, more: seq<DomainAccount>, user: DomainAccount,
                             userGroups: Result<seq<DomainAccount>, Exception>)
    requires forall m :: m in members ==> m in more
    requires SiteDecision(members, user, userGroups) == Success(true)
    ensures SiteDecision(more, user, userGroups) == Success(true)
  {
    if AnyPseudo(members) {
      var i :| 0 <= i < |members| && members[i].IsPseudo();
      assert members[i] in more;
    } else if AnyEquals(members, user) {
      var i :| 0 <= i < |members| && Equals(members[i], user);
      assert members[i] in more;
    } else {
      var j :| 0 <= j < |userGroups.value| && AnyEquals(members, userGroups.value[j]);
      var i :| 0 <= i < |members| && Equals(members[i], userGroups.value[j]);
      assert members[i] in more;
      var k :| 0 <= k < |more| && more[k] == members[i];
      assert AnyEquals(more, userGroups.value[j]);
    }
  }

  /** The reference for the whole operation with parameters given: the
      ensured user, its account, the group's accounts and the user's AD
      groups, all as the directory and the web report them. */
  function SiteGroupDecision(loginName: string, groupName: string, env: Environment): Result<bool, Exception> {
    match env.web.ensureUser(loginName)
    case Failure(e) => Failure(e)
    case Success(spUser) =>
      match AccountFromUser(spUser, env.dir.sids)
      case Failure(e) => Failure(e)
      case Success(user) =>
        match env.web.siteGroup(groupName)
        case Failure(e) => Failure(e)
        case Success(group) =>
          match AccountsOf(group.users, env.dir.sids)
          case Failure(e) => Failure(e)
          case Success(members) => SiteDecision(members, user, UserGroups(user.loginName, env.dir))
  }

  /** `IsUserInSiteGroup`: the user's AD groups are looked up only when
      neither a pseudo-principal member nor a member equal to the user
      decides. */
  function IsUserInSiteGroup(loginName: string, groupName: string, env: Environment, cache: SidCache): (r: Served<BoolResult>)
    ensures Extends(cache, r.cache)
    ensures Coherent(cache, env.dir.sids) ==> Coherent(r.cache, env.dir.sids)
    ensures r.response.result ==> r.response.success
    ensures EnsureLoginAndGroup(loginName, groupName).Some? ==>
      r == Served(BoolOf(false, EnsureLoginAndGroup(loginName, groupName)), cache)
    ensures EnsureLoginAndGroup(loginName, groupName).None? && Coherent(cache, env.dir.sids) ==>
      r.response == BoolFrom(SiteGroupDecision(loginName, groupName, env))
  {
    match EnsureLoginAndGroup(loginName, groupName)
    case Some(e) => Served(BoolOf(false, Some(e)), cache)
    case None =>
      match env.web.ensureUser(loginName)
      case Failure(e) => Served(BoolOf(false, Some(e)), cache)
      case Success(spUser) =>
        var made := NewDomainAccountFromUser(spUser, env.dir.sids, cache);
        match made.value
        case Failure(e) => Served(BoolOf(false, Some(e)), made.cache)
        case Success(user) =>
          var members := SpHelper.GetSiteGroupMembers(env.web, groupName, env.dir.sids, made.cache);
          match members.value
          case Failure(e) => Served(BoolOf(false, Some(e)), members.cache)
          case Success(ms) =>
            if AnyPseudo(ms) || AnyEquals(ms, user) then Served(BoolOf(true, None), members.cache)
            else
              UserGroupsFromCache(user.loginName, env.dir, members.cache);
              var groups := GetUserAdGroups(user.loginName, env.dir, members.cache);
              match groups.value
              case Failure(e) => Served(BoolOf(false, Some(e)), groups.cache)
              case Success(gs) => Served(BoolOf(AnyGroupIsMember(ms, gs), None), groups.cache)
  }

  /** When a pseudo-principal member or the user itself decides, the user
      lookup in the directory is not made: any two directories that agree
      on SIDs give the same answer and the same cache. */
  lemma SiteShortCircuitSkipsLookup(loginName: string, groupName: string, env: Environment,
                                    findUser: string -> UserSearch, cache: SidCache,
                                    user: SPUser, account: DomainAccount, members: seq<DomainAccount>,
                                    afterUser: SidCache, afterMembers: SidCache)
    requires EnsureLoginAndGroup(loginName, groupName).None?
    requires env.web.ensureUser(loginName) == Success(user)
    requires NewDomainAccountFromUser(user, env.dir.sids, cache) == Cached(Success(account), afterUser)
    requires SpHelper.GetSiteGroupMembers(env.web, groupName, env.dir.sids, afterUser)
          == Cached(Success(members), afterMembers)
    requires AnyPseudo(members) || AnyEquals(members, account)
    ensures IsUserInSiteGroup(loginName, groupName, env, cache)
         == IsUserInSiteGroup(loginName, groupName, env.(dir := env.dir.(findUser := findUser)), cache)
    ensures IsUserInSiteGroup(loginName, groupName, env, cache).response == BoolOf(true, None)
  {
  }

  // ---------------------------------------------------------------------
  // The list operations.

  /** `GetADGroupsOfUser`: the logins of the user's AD groups; on failure
      an empty list. */
  function GetADGroupsOfUser(loginName: string, dir: Directory, cache: SidCache): (r: Served<StringListResult>)
    ensures Extends(cache, r.cache)
    ensures !r.response.success ==> r.response.result == [] && r.response.error.Some?
    ensures EnsureParameter("login", loginName).Some? ==>
      r == Served(StringListOf([], EnsureParameter("login", loginName)), cache)
    ensures EnsureParameter("login", loginName).None? && Coherent(cache, dir.sids) ==>
      var groups := UserGroups(RemoveClaimsPrefixIfPresent(loginName), dir);
      && (r.response.success <==> groups.Success?)
      && (r.response.success ==> r.response.result == Logins(groups.value))
  {
    match EnsureParameter("login", loginName)
    case Some(e) => Served(StringListOf([], Some(e)), cache)
    case None =>
      var name := RemoveClaimsPrefixIfPresent(loginName);
      RemoveClaimsPrefixIdempotent(loginName);
      UserGroupsFromCache(name, dir, cache);
      var groups := GetUserAdGroups(name, dir, cache);
      match groups.value
      case Failure(e) => Served(StringListOf([], Some(e)), groups.cache)
      case Success(gs) => Served(StringListOf(Logins(gs), None), groups.cache)
  }

  /** `GetAllSiteGroups`: the names of all site groups, in order. */
  function GetAllSiteGroups(env: Environment): (r: StringListResult)
    ensures r.success && r.error.None?
    ensures |r.result| == |env.web.siteGroups|
    ensures forall i :: 0 <= i < |r.result| ==> r.result[i] == env.web.siteGroups[i].name
  {
    StringListOf(GroupNames(env.web.siteGroups), None)
  }

  function GroupNames(groups: seq<SiteGroup>): (r: seq<string>)
    ensures |r| == |groups|
    ensures forall i :: 0 <= i < |groups| ==> r[i] == groups[i].name
  {
    if groups == [] then [] else [groups[0].name] + GroupNames(groups[1..])
  }

  /** `GetSiteGroupsOfUser`: the names of the site groups that list the
      user; on failure an empty list. */
  function GetSiteGroupsOfUser(loginName: string, env: Environment, cache: SidCache): (r: Served<StringListResult>)
    ensures Extends(cache, r.cache)
    ensures !r.response.success ==> r.response.result == [] && r.response.error.Some?
    ensures EnsureParameter("login", loginName).Some? ==>
      r == Served(StringListOf([], EnsureParameter("login", loginName)), cache)
    ensures EnsureParameter("login", loginName).None? && Coherent(cache, env.dir.sids) && env.web.ensureUser(loginName).Success? ==>
      var expected := GroupsListed(env.web.siteGroups, env.web.ensureUser(loginName).value.id,
                                   UserGroups(loginName, env.dir), env.dir.sids);
      && (r.response.success <==> expected.Success?)
      && (r.response.success ==> r.response.result == expected.value)
    ensures EnsureParameter("login", loginName).None? && env.web.ensureUser(loginName).Failure? ==>
      r.response == StringListOf([], Some(env.web.ensureUser(loginName).error))
  {
    match EnsureParameter("login", loginName)
    case Some(e) => Served(StringListOf([], Some(e)), cache)
    case None =>
      var names := SpHelper.GetSiteGroupsOfUser(env.web, loginName, env.dir, cache);
      match names.value
      case Failure(e) => Served(StringListOf([], Some(e)), names.cache)
      case Success(ns) => Served(StringListOf(ns, None), names.cache)
  }

  /** `GetSiteGroupMembers`: the logins of the group's users, one per user
      in order; on failure an empty list. */
  function GetSiteGroupMembers(groupName: string, env: Environment, cache: SidCache): (r: Served<StringListResult>)
    ensures Extends(cache, r.cache)
    ensures !r.response.success ==> r.response.result == [] && r.response.error.Some?
    ensures EnsureParameter("group", groupName).Some? ==>
      r == Served(StringListOf([], EnsureParameter("group", groupName)), cache)
    ensures EnsureParameter("group", groupName).None? && env.web.siteGroup(groupName).Success? && r.response.success ==>
      |r.response.result| == |env.web.siteGroup(groupName).value.users|
    ensures EnsureParameter("group", groupName).None? && env.web.siteGroup(groupName).Failure? ==>
      r.response == StringListOf([], Some(env.web.siteGroup(groupName).error))
    ensures EnsureParameter("group", groupName).None? && env.web.siteGroup(groupName).Success? && Coherent(cache, env.dir.sids) ==>
      var members := AccountsOf(env.web.siteGroup(groupName).value.users, env.dir.sids);
      && (r.response.success <==> members.Success?)
      && (r.response.success ==> r.response.result == Logins(members.value))
  {
    match EnsureParameter("group", groupName)
    case Some(e) => Served(StringListOf([], Some(e)), cache)
    case None =>
      var members := SpHelper.GetSiteGroupMembers(env.web, groupName, env.dir.sids, cache);
      match members.value
      case Failure(e) => Served(StringListOf([], Some(e)), members.cache)
      case Success(ms) => Served(StringListOf(Logins(ms), None), members.cache)
  }

  // ---------------------------------------------------------------------
  // ResolveADGroup and GetADGroupMembers.

  /** The wrapper of a failed `ResolveADGroup`: the exception chain joined
      with new lines. */
  function ResolveFailed(e: Exception): (r: ADGroupResult)
    ensures !r.success && r.result.None?
    ensures r.error == Some(Join(Messages(e), NEW_LINE))
  {
    EmptyADGroupResult().(error := Some(GetAllMessages(e, NEW_LINE)), success := false)
  }

  /** `ResolveADGroup`: the ensured principal must be a domain group; its
      account is resolved into an `ADGroup` with its members. Failures of the
      member lookup stay inside the group's `ErrorMessages`. */
  function ResolveADGroup(adGroupName: string, env: Environment, cache: SidCache): (r: Served<ADGroupResult>)
    ensures Extends(cache, r.cache)
    ensures r.response.success <==> r.response.result.Some?
    ensures !r.response.success ==> r.response.error.Some?
    ensures r.response.success ==> r.response.error.None? && r.response.result.value.memberCount == |r.response.result.value.users|
    ensures EnsureParameter("group", adGroupName).None? && env.web.ensureUser(adGroupName).Success?
            && !env.web.ensureUser(adGroupName).value.isDomainGroup ==>
      r == Served(ADGroupResult(false, Some(adGroupName + " is not the name of an AD group."), None), cache)
    ensures r.response.success ==>
      && EnsureParameter("group", adGroupName).None?
      && env.web.ensureUser(adGroupName).Success?
      && env.web.ensureUser(adGroupName).value.isDomainGroup
    ensures EnsureParameter("group", adGroupName).Some? ==>
      r == Served(ResolveFailed(EnsureParameter("group", adGroupName).value), cache)
    ensures EnsureParameter("group", adGroupName).None? && env.web.ensureUser(adGroupName).Failure? ==>
      r == Served(ResolveFailed(env.web.ensureUser(adGroupName).error), cache)
    ensures EnsureParameter("group", adGroupName).None? && env.web.ensureUser(adGroupName).Success?
            && env.web.ensureUser(adGroupName).value.isDomainGroup && Coherent(cache, env.dir.sids) ==>
      var made := AccountFromUser(env.web.ensureUser(adGroupName).value, env.dir.sids);
      && (made.Failure? ==> r.response == ResolveFailed(made.error))
      && (made.Success? ==> r.response == ADGroupResult(true, None, Some(NewADGroup(made.value, true, env.groups))))
  {
    match EnsureParameter("group", adGroupName)
    case Some(e) => Served(ResolveFailed(e), cache)
    case None =>
      match env.web.ensureUser(adGroupName)
      case Failure(e) => Served(ResolveFailed(e), cache)
      case Success(user) =>
        if user.isDomainGroup then
          var made := NewDomainAccountFromUser(user, env.dir.sids, cache);
          match made.value
          case Failure(e) => Served(ResolveFailed(e), made.cache)
          case Success(account) =>
            Served(ADGroupResult(true, None, Some(NewADGroup(account, true, env.groups))), made.cache)
        else
          Served(ADGroupResult(false, Some(adGroupName + " is not the name of an AD group."), None), cache)
  }

  /** With a coherent cache, `ResolveADGroup` succeeds exactly when the
      name is given, names a domain group, and that group's account can be
      built; a group whose members cannot be read still succeeds. */
  lemma ResolveADGroupSucceedsIff(adGroupName: string, env: Environment, cache: SidCache)
    requires Coherent(cache, env.dir.sids)
    ensures ResolveADGroup(adGroupName, env, cache).response.success <==>
      && EnsureParameter("group", adGroupName).None?
      && env.web.ensureUser(adGroupName).Success?
      && env.web.ensureUser(adGroupName).value.isDomainGroup
      && AccountFromUser(env.web.ensureUser(adGroupName).value, env.dir.sids).Success?
  {
  }

  /** The logins of a list of users, in order. */
  function UserLogins(users: seq<AdUser>): (r: seq<string>)
    ensures |r| == |users|
    ensures forall i :: 0 <= i < |users| ==> r[i] == users[i].login
  {
    if users == [] then [] else [users[0].login] + UserLogins(users[1..])
  }

  /** `GetADGroupMembers`: the members' logins, sorted, or the resolution
      error with an empty list. */
  function GetADGroupMembers(adGroupName: string, env: Environment, cache: SidCache): (r: Served<StringListResult>)
    ensures Extends(cache, r.cache)
    ensures r.response.success ==> r.response.error.None?
    ensures r.response.success ==>
      forall i, j :: 0 <= i < j < |r.response.result| ==> LexLe(r.response.result[i], r.response.result[j])
    ensures r.response.success <==> ResolveADGroup(adGroupName, env, cache).response.success
    ensures r.response.success ==>
      var users := ResolveADGroup(adGroupName, env, cache).response.result.value.users;
      |r.response.result| == |users| && forall i :: 0 <= i < |users| ==> r.response.result[i] == users[i].login
    ensures !r.response.success ==>
      r.response.result == [] && r.response.error == ResolveADGroup(adGroupName, env, cache).response.error
    ensures EnsureParameter("group", adGroupName).None? && env.web.ensureUser(adGroupName).Success?
            && !env.web.ensureUser(adGroupName).value.isDomainGroup ==>
      r.response == StringListResult(false, Some(adGroupName + " is not the name of an AD group."), [])
  {
    var resolved := ResolveADGroup(adGroupName, env, cache);
    if resolved.response.success then
      Served(StringListOf(UserLogins(resolved.response.result.value.users), None), resolved.cache)
    else
      Served(StringListFromMessage(resolved.response.error), resolved.cache)
  }

  /** A group whose member lookup failed is still reported as a success,
      with no members: the failure is only visible in the group's
      `ErrorMessages`, which `GetADGroupMembers` drops. */
  lemma MemberLookupFailureIsEmptySuccess(adGroupName: string, env: Environment, cache: SidCache)
    requires EnsureParameter("group", adGroupName).None?
    requires env.web.ensureUser(adGroupName).Success? && env.web.ensureUser(adGroupName).value.isDomainGroup
    requires NewDomainAccountFromUser(env.web.ensureUser(adGroupName).value, env.dir.sids, cache).value.Success?
    requires var account := NewDomainAccountFromUser(env.web.ensureUser(adGroupName).value, env.dir.sids, cache).value.value;
      env.groups.contextError(account.domain).Some?
    ensures ResolveADGroup(adGroupName, env, cache).response.result.value.errorMessages.Some?
    ensures GetADGroupMembers(adGroupName, env, cache).response == StringListResult(true, None, [])
  {
  }
}
