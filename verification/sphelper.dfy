/** `SPHelper`: the members of a SharePoint site group as accounts, and the
    site groups a user belongs to, directly or through one of the AD groups
    the user is a member of. */
module SpHelper {
  import opened Wrappers
  import opened Extensions
  import opened Sids
  import opened Accounts
  import opened AdHelper

  datatype SiteGroup = SiteGroup(name: string, users: seq<SPUser>)

  /** The root web of the site: `EnsureUser`, the `SiteGroups[name]`
      indexer (which throws for an unknown name) and the enumeration of all
      site groups. */
  datatype Web = Web(
    ensureUser: string -> Result<SPUser, Exception>,
    siteGroup: string -> Result<SiteGroup, Exception>,
    siteGroups: seq<SiteGroup>)

  // ---------------------------------------------------------------------
  // Group members.

  /** One account per user, in order, or the first constructor failure. */
  function AccountsOf(users: seq<SPUser>, svc: SidServices): (r: Result<seq<DomainAccount>, Exception>)
    ensures r.Success? <==> forall i :: 0 <= i < |users| ==> AccountFromUser(users[i], svc).Success?
    ensures r.Success? ==> |r.value| == |users|
    ensures r.Success? ==> forall i :: 0 <= i < |users| ==> r.value[i] == AccountFromUser(users[i], svc).value
    ensures r.Failure? ==> exists i :: 0 <= i < |users| && AccountFromUser(users[i], svc) == Failure(r.error)
    decreases |users|
  {
    if users == [] then Success([])
    else
      var tail := users[1..];
      assert forall i :: 0 <= i < |tail| ==> tail[i] == users[i + 1];
      match AccountFromUser(users[0], svc)
      case Failure(e) => Failure(e)
      case Success(a) =>
        match AccountsOf(tail, svc)
        case Failure(e) => Failure(e)
        case Success(rest) => Success([a] + rest)
  }

  /** The loop of `GetSiteGroupMembers`: `new DomainAccount(user)` for each
      user, with the SID cache. */
  function AccountsFromUsers(users: seq<SPUser>, svc: SidServices, cache: SidCache): (r: Cached<seq<DomainAccount>>)
    ensures Extends(cache, r.cache)
    ensures Coherent(cache, svc) ==> Coherent(r.cache, svc) && r.value == AccountsOf(users, svc)
    ensures r.value.Success? ==> |r.value.value| == |users|
    decreases |users|
  {
    if users == [] then Cached(Success([]), cache)
    else
      var first := NewDomainAccountFromUser(users[0], svc, cache);
      match first.value
      case Failure(e) => Cached(Failure(e), first.cache)
      case Success(a) =>
        var rest := AccountsFromUsers(users[1..], svc, first.cache);
        match rest.value
        case Failure(e) => Cached(Failure(e), rest.cache)
        case Success(accounts) => Cached(Success([a] + accounts), rest.cache)
  }

  /** `SPHelper.GetSiteGroupMembers`: the group's users as accounts, one per
      user in enumeration order; an unknown group or a failing constructor
      fails the whole call. */
  function GetSiteGroupMembers(web: Web, groupName: string, svc: SidServices, cache: SidCache): (r: Cached<seq<DomainAccount>>)
    ensures Extends(cache, r.cache)
    ensures web.siteGroup(groupName).Failure? ==> r == Cached(Failure(web.siteGroup(groupName).error), cache)
    ensures web.siteGroup(groupName).Success? && Coherent(cache, svc) ==>
      Coherent(r.cache, svc) && r.value == AccountsOf(web.siteGroup(groupName).value.users, svc)
    ensures Coherent(cache, svc) ==> Coherent(r.cache, svc)
  {
    match web.siteGroup(groupName)
    case Failure(e) => Cached(Failure(e), cache)
    case Success(group) => AccountsFromUsers(group.users, svc, cache)
  }

  // ---------------------------------------------------------------------
  // The site groups of a user: the decision rule.

  /** Some account of the list `Equals` the given one (the list's element is
      the receiver). */
  predicate AnyEquals(accounts: seq<DomainAccount>, other: DomainAccount) {
    exists i :: 0 <= i < |accounts| && Equals(accounts[i], other)
  }

  /** A domain-group member admits the user when one of the user's AD
      groups equals it, or when it is a pseudo-principal. */
  predicate Admits(adGroup: DomainAccount, userGroups: seq<DomainAccount>) {
    AnyEquals(userGroups, adGroup) || adGroup.IsPseudo()
  }

  /** One member of a site group decides for the user: the user itself
      (compared by `ID`) when it is not a domain group, an admitting AD
      group when it is. */
  predicate Matches(m: SPUser, userId: int, userGroups: seq<DomainAccount>, svc: SidServices) {
    if m.isDomainGroup then AccountFromUser(m, svc).Success? && Admits(AccountFromUser(m, svc).value, userGroups)
    else m.id == userId
  }

  /** `Matches` when the user's AD groups may be a failure: a domain-group
      member can only match when they are known. */
  predicate MatchesWith(m: SPUser, userId: int, userGroups: Result<seq<DomainAccount>, Exception>, svc: SidServices) {
    if m.isDomainGroup then userGroups.Success? && Matches(m, userId, userGroups.value, svc)
    else m.id == userId
  }

  /** The reference scan of one site group's members: the first deciding
      member lists the group; a member that is a domain group needs its
      account and the user's AD groups, and a failure of either ends the
      scan with that failure. */
  function MemberListed(members: seq<SPUser>, userId: int, userGroups: Result<seq<DomainAccount>, Exception>,
                        svc: SidServices): (r: Result<bool, Exception>)
    ensures r == Success(true) ==> exists k :: 0 <= k < |members| && MatchesWith(members[k], userId, userGroups, svc)
    decreases |members|
  {
    if members == [] then Success(false)
    else
      var m := members[0];
      assert forall k :: 0 <= k < |members[1..]| ==> members[1..][k] == members[k + 1];
      if m.isDomainGroup then
        match AccountFromUser(m, svc)
        case Failure(e) => Failure(e)
        case Success(a) =>
          match userGroups
          case Failure(e) => Failure(e)
          case Success(gs) =>
            if Admits(a, gs) then Success(true) else MemberListed(members[1..], userId, userGroups, svc)
      else if m.id == userId then Success(true)
      else MemberListed(members[1..], userId, userGroups, svc)
  }

  /** Whether every domain-group member's account can be built. */
  predicate DomainGroupsBuild(members: seq<SPUser>, svc: SidServices) {
    forall k :: 0 <= k < |members| && members[k].isDomainGroup ==> AccountFromUser(members[k], svc).Success?
  }

  /** When nothing fails, a site group lists the user exactly when one of
      its members matches. */
  lemma {:induction false} MemberListedIff(members: seq<SPUser>, userId: int, userGroups: seq<DomainAccount>, svc: SidServices)
    requires DomainGroupsBuild(members, svc)
    ensures MemberListed(members, userId, Success(userGroups), svc) ==
      Success(exists k :: 0 <= k < |members| && Matches(members[k], userId, userGroups, svc))
    decreases |members|
  {
    if members != [] {
      var tail := members[1..];
      assert forall k :: 0 <= k < |tail| ==> tail[k] == members[k + 1];
      MemberListedIff(tail, userId, userGroups, svc);
      if !Matches(members[0], userId, userGroups, svc) {
        if exists k :: 0 <= k < |members| && Matches(members[k], userId, userGroups, svc) {
          var k :| 0 <= k < |members| && Matches(members[k], userId, userGroups, svc);
          assert k > 0 && Matches(tail[k - 1], userId, userGroups, svc);
        }
      }
    }
  }

  /** The reference result: the names of the listing site groups, in
      site-group order, or the first failure. */
  function GroupsListed(groups: seq<SiteGroup>, userId: int, userGroups: Result<seq<DomainAccount>, Exception>,
                        svc: SidServices): (r: Result<seq<string>, Exception>)
    ensures r.Success? ==> |r.value| <= |groups|
    ensures r.Success? ==> forall n :: n in r.value ==> exists i :: 0 <= i < |groups| && groups[i].name == n
    decreases |groups|
  {
    if groups == [] then Success([])
    else
      match MemberListed(groups[0].users, userId, userGroups, svc)
      case Failure(e) => Failure(e)
      case Success(listed) =>
        match GroupsListed(groups[1..], userId, userGroups, svc)
        case Failure(e) => Failure(e)
        case Success(names) =>
          assert forall i :: 0 <= i < |groups[1..]| ==> groups[1..][i] == groups[i + 1];
          Success((if listed then [groups[0].name] else []) + names)
  }

  /** One site group lists the user when one of its members matches. */
  predicate GroupLists(g: SiteGroup, userId: int, userGroups: seq<DomainAccount>, svc: SidServices) {
    exists k :: 0 <= k < |g.users| && Matches(g.users[k], userId, userGroups, svc)
  }

  /** The names of the listing groups as a filter of the site groups: a
      name is reported exactly when a group of that name lists the user,
      and with distinct group names no name is reported twice. */
  function ListingNames(groups: seq<SiteGroup>, userId: int, userGroups: seq<DomainAccount>,
                        svc: SidServices): (r: seq<string>)
    ensures |r| <= |groups|
    ensures forall n :: n in r <==>
      exists i :: 0 <= i < |groups| && groups[i].name == n && GroupLists(groups[i], userId, userGroups, svc)
    ensures (forall i, j :: 0 <= i < j < |groups| ==> groups[i].name != groups[j].name) ==>
      forall i, j :: 0 <= i < j < |r| ==> r[i] != r[j]
    decreases |groups|
  {
    if groups == [] then []
    else
      var tail := groups[1..];
      assert forall i :: 0 <= i < |tail| ==> tail[i] == groups[i + 1];
      var rest := ListingNames(tail, userId, userGroups, svc);
      var head := if GroupLists(groups[0], userId, userGroups, svc) then [groups[0].name] else [];
      assert forall n :: n in head + rest <==> n in head || n in rest;
      assert (forall i, j :: 0 <= i < j < |groups| ==> groups[i].name != groups[j].name) ==>
               forall i, j :: 0 <= i < j < |head + rest| ==> (head + rest)[i] != (head + rest)[j] by {
        if forall i, j :: 0 <= i < j < |groups| ==> groups[i].name != groups[j].name {
          assert groups[0].name !in rest;
          PrependDistinct(head, rest);
        }
      }
      head + rest
  }

  /** At most one new name in front of a list without repetitions keeps it
      without repetitions. */
  lemma PrependDistinct(head: seq<string>, rest: seq<string>)
    requires |head| <= 1 && (head != [] ==> head[0] !in rest)
    requires forall i, j :: 0 <= i < j < |rest| ==> rest[i] != rest[j]
    ensures forall i, j :: 0 <= i < j < |head + rest| ==> (head + rest)[i] != (head + rest)[j]
  {
    forall i, j | 0 <= i < j < |head + rest|
      ensures (head + rest)[i] != (head + rest)[j]
    {
      if head != [] && i == 0 {
        assert (head + rest)[j] == rest[j - 1];
      } else {
        assert (head + rest)[i] == rest[i - |head|] && (head + rest)[j] == rest[j - |head|];
      }
    }
  }

  /** When every domain-group member's account can be built and the user's
      AD groups are known, the scan lists exactly the filter: each listing
      group once, in site-group order. */
  lemma {:induction false} GroupsListedIff(groups: seq<SiteGroup>, userId: int, userGroups: seq<DomainAccount>,
                                          svc: SidServices)
    requires forall i :: 0 <= i < |groups| ==> DomainGroupsBuild(groups[i].users, svc)
    ensures GroupsListed(groups, userId, Success(userGroups), svc) == Success(ListingNames(groups, userId, userGroups, svc))
    decreases |groups|
  {
    if groups != [] {
      var tail := groups[1..];
      assert forall i :: 0 <= i < |tail| ==> tail[i] == groups[i + 1];
      MemberListedIff(groups[0].users, userId, userGroups, svc);
      GroupsListedIff(tail, userId, userGroups, svc);
    }
  }

  /** The user's AD groups as the directory reports them; with a coherent
      SID cache `GetUserAdGroups` gives exactly this, whatever the cache
      holds. */
  function UserGroups(loginName: string, dir: Directory): Result<seq<DomainAccount>, Exception> {
    GetUserAdGroups(loginName, dir, map[]).value
  }

  lemma UserGroupsFromCache(loginName: string, dir: Directory, cache: SidCache)
    ensures Coherent(cache, dir.sids) ==> GetUserAdGroups(loginName, dir, cache).value == UserGroups(loginName, dir)
  {
    if Coherent(cache, dir.sids) {
      GroupsCacheIndependent(loginName, dir, cache, map[]);
    }
  }

  /** Which groups the directory reports: for a user whose `tokenGroups`
      entries are all SIDs, one account per distinct SID, in first-occurrence
      order, each the account the string constructor makes from that SID. */
  lemma UserGroupsAreTokenGroups(loginName: string, dir: Directory)
    ensures var search := dir.findUser(RemoveClaimsPrefixIfPresent(loginName));
      var groups := UserGroups(loginName, dir);
      search.UserFound? && search.entry.Some? && search.entry.value.tokenGroups.Some?
      && WellFormedSids(search.entry.value.tokenGroups.value.sids, dir.sids.parses) && groups.Success? ==>
        && SidsOf(groups.value) == DistinctFrom(Converted(search.entry.value.tokenGroups.value.sids), [])
        && forall i :: 0 <= i < |groups.value| ==> ParseLogin(groups.value[i].sid, dir.sids) == Success(groups.value[i])
  {
    var empty: SidCache := map[];
    assert Coherent(empty, dir.sids);
  }

  // ---------------------------------------------------------------------
  // The site groups of a user: the loop with the lazy AD lookup.

  /** What the loop carries: the user's AD groups once fetched. */
  type Fetched = Option<seq<DomainAccount>>

  /** A fetched list agrees with the directory. */
  predicate FetchedAgrees(fetched: Fetched, loginName: string, dir: Directory) {
    fetched.Some? ==> UserGroups(loginName, dir) == Success(fetched.value)
  }

  /** The inner loop over one group's members. The user's AD groups are
      fetched at the first domain-group member whose account could be built,
      and never again. */
  function ScanMembers(members: seq<SPUser>, userId: int, loginName: string, dir: Directory,
                       fetched: Fetched, cache: SidCache): (r: Cached<(bool, Fetched)>)
    ensures Extends(cache, r.cache)
    ensures Coherent(cache, dir.sids) ==> Coherent(r.cache, dir.sids)
    ensures r.value.Success? && fetched.Some? ==> r.value.value.1 == fetched
    ensures r.value.Success? && r.value.value.1.Some? && fetched.None? ==>
      exists k :: 0 <= k < |members| && members[k].isDomainGroup
    ensures (forall k :: 0 <= k < |members| ==> !members[k].isDomainGroup) ==>
      r == Cached(Success((exists k :: 0 <= k < |members| && members[k].id == userId, fetched)), cache)
    decreases |members|
  {
    if members == [] then Cached(Success((false, fetched)), cache)
    else
      var m := members[0];
      var tail := members[1..];
      assert forall k :: 0 <= k < |tail| ==> tail[k] == members[k + 1];
      if m.isDomainGroup then
        var made := NewDomainAccountFromUser(m, dir.sids, cache);
        match made.value
        case Failure(e) => Cached(Failure(e), made.cache)
        case Success(adGroup) =>
          var got := if fetched.Some? then Cached(Success(fetched.value), made.cache)
                     else GetUserAdGroups(loginName, dir, made.cache);
          match got.value
          case Failure(e) => Cached(Failure(e), got.cache)
          case Success(groups) =>
            if Admits(adGroup, groups) then Cached(Success((true, Some(groups))), got.cache)
            else ScanMembers(tail, userId, loginName, dir, Some(groups), got.cache)
      else if m.id == userId then Cached(Success((true, fetched)), cache)
      else ScanMembers(tail, userId, loginName, dir, fetched, cache)
  }

  /** While the cache agrees with the directory and any list already
      fetched is the user's AD groups, the scan decides as `MemberListed`
      does on the user's AD groups, and what it fetches is that list. */
  lemma {:induction false} ScanMembersAgrees(members: seq<SPUser>, userId: int, loginName: string, dir: Directory,
                                            fetched: Fetched, cache: SidCache)
    ensures var r := ScanMembers(members, userId, loginName, dir, fetched, cache);
      Coherent(cache, dir.sids) && FetchedAgrees(fetched, loginName, dir) ==>
        && (r.value.Success? ==> FetchedAgrees(r.value.value.1, loginName, dir))
        && Listing(r.value) == MemberListed(members, userId, UserGroups(loginName, dir), dir.sids)
    decreases |members|
  {
    if members != [] && Coherent(cache, dir.sids) && FetchedAgrees(fetched, loginName, dir) {
      var m := members[0];
      var tail := members[1..];
      if m.isDomainGroup {
        var made := NewDomainAccountFromUser(m, dir.sids, cache);
        if made.value.Success? {
          UserGroupsFromCache(loginName, dir, made.cache);
          var got := if fetched.Some? then Cached(Success(fetched.value), made.cache)
                     else GetUserAdGroups(loginName, dir, made.cache);
          if got.value.Success? {
            ScanMembersAgrees(tail, userId, loginName, dir, Some(got.value.value), got.cache);
          }
        }
      } else {
        ScanMembersAgrees(tail, userId, loginName, dir, fetched, cache);
      }
    }
  }

  /** The decision of a scan, without what it carries. */
  function Listing<T>(r: Result<(T, Fetched), Exception>): Result<T, Exception> {
    match r
    case Success(p) => Success(p.0)
    case Failure(e) => Failure(e)
  }

  /** The outer loop over the site groups. */
  function ScanGroups(groups: seq<SiteGroup>, userId: int, loginName: string, dir: Directory,
                      fetched: Fetched, cache: SidCache): (r: Cached<(seq<string>, Fetched)>)
    ensures Extends(cache, r.cache)
    ensures Coherent(cache, dir.sids) ==> Coherent(r.cache, dir.sids)
    ensures r.value.Success? && fetched.Some? ==> r.value.value.1 == fetched
    ensures Coherent(cache, dir.sids) && FetchedAgrees(fetched, loginName, dir) ==>
      Listing(r.value) == GroupsListed(groups, userId, UserGroups(loginName, dir), dir.sids)
    decreases |groups|
  {
    if groups == [] then Cached(Success(([], fetched)), cache)
    else
      var scanned := ScanMembers(groups[0].users, userId, loginName, dir, fetched, cache);
      ScanMembersAgrees(groups[0].users, userId, loginName, dir, fetched, cache);
      match scanned.value
      case Failure(e) => Cached(Failure(e), scanned.cache)
      case Success((listed, fetched')) =>
        var rest := ScanGroups(groups[1..], userId, loginName, dir, fetched', scanned.cache);
        match rest.value
        case Failure(e) => Cached(Failure(e), rest.cache)
        case Success((names, fetched'')) =>
          Cached(Success(((if listed then [groups[0].name] else []) + names, fetched'')), rest.cache)
  }

  /** `SPHelper.GetSiteGroupsOfUser`. */
  function GetSiteGroupsOfUser(web: Web, loginName: string, dir: Directory, cache: SidCache): (r: Cached<seq<string>>)
    ensures Extends(cache, r.cache)
    ensures Coherent(cache, dir.sids) ==> Coherent(r.cache, dir.sids)
    ensures web.ensureUser(loginName).Failure? ==> r == Cached(Failure(web.ensureUser(loginName).error), cache)
    ensures Coherent(cache, dir.sids) && web.ensureUser(loginName).Success? ==>
      r.value == GroupsListed(web.siteGroups, web.ensureUser(loginName).value.id, UserGroups(loginName, dir), dir.sids)
  {
    match web.ensureUser(loginName)
    case Failure(e) => Cached(Failure(e), cache)
    case Success(user) =>
      var scanned := ScanGroups(web.siteGroups, user.id, loginName, dir, None, cache);
      Cached(Listing(scanned.value), scanned.cache)
  }

  /** A site without domain-group members never asks the directory for the
      user's AD groups: the groups listed are those holding the user. */
  lemma {:induction false} NoDomainGroupsNoLookup(groups: seq<SiteGroup>, userId: int, loginName: string,
                                                 dir: Directory, fetched: Fetched, cache: SidCache)
    requires forall i, k :: 0 <= i < |groups| && 0 <= k < |groups[i].users| ==> !groups[i].users[k].isDomainGroup
    ensures var r := ScanGroups(groups, userId, loginName, dir, fetched, cache);
      && r.cache == cache
      && r.value.Success?
      && r.value.value.1 == fetched
      && forall n :: n in r.value.value.0 ==>
           exists i, k :: 0 <= i < |groups| && 0 <= k < |groups[i].users| && groups[i].name == n && groups[i].users[k].id == userId
    decreases |groups|
  {
    if groups != [] {
      var tail := groups[1..];
      assert forall i :: 0 <= i < |tail| ==> tail[i] == groups[i + 1];
      NoDomainGroupsNoLookup(tail, userId, loginName, dir, fetched, cache);
    }
  }
}
