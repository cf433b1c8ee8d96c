/** `ADHelper`: the AD groups of a user, read from the `tokenGroups`
    attribute of the user's directory entry. Every group SID becomes a
    `DomainAccount` through the string constructor (so it is resolved through
    the SID cache), and a SID already collected is skipped. */
module AdHelper {
  import opened Wrappers
  import opened Strings
  import opened Extensions
  import opened Sids
  import opened Accounts

  /** The `tokenGroups` attribute: its value as `String.Format` renders it,
      and for each entry the outcome of converting it to SDDL form. */
  datatype TokenGroups = TokenGroups(valueText: string, sids: seq<Result<string, Exception>>)

  /** A user's directory entry after `RefreshCache`: the error that call
      raised, if any, the schema class, and the `tokenGroups` attribute when
      it could be read. */
  datatype DirectoryEntry = DirectoryEntry(
    name: string,
    refreshError: Option<Exception>,
    schemaClassName: string,
    tokenGroups: Option<TokenGroups>)

  /** `UserPrincipal.FindByIdentity` and `GetUnderlyingObject`: the search
      fails, finds nobody, or finds a principal whose underlying object may
      not be a directory entry. */
  datatype UserSearch =
    | UserSearchFailed(error: Exception)
    | UserNotFound
    | UserFound(entry: Option<DirectoryEntry>)

  /** The domain as the helper sees it. */
  datatype Directory = Directory(sids: SidServices, findUser: string -> UserSearch)

  /** `groups.Find(d => d.Sid == sddl) != null`: an account with SID `sddl`
      is already collected. An account without SID (C# `null`) never
      matches. */
  predicate HasSid(groups: seq<DomainAccount>, sddl: string) {
    exists i :: 0 <= i < |groups| && groups[i].sid != "" && groups[i].sid == sddl
  }

  /** The SIDs of a list of accounts, in order. */
  function SidsOf(groups: seq<DomainAccount>): (r: seq<string>)
    ensures |r| == |groups|
    ensures forall i :: 0 <= i < |groups| ==> r[i] == groups[i].sid
  {
    if groups == [] then [] else [groups[0].sid] + SidsOf(groups[1..])
  }

  /** `xs` with every element of `seen` and every repetition dropped; the
      first occurrence of each element is kept. */
  function DistinctFrom(xs: seq<string>, seen: seq<string>): (r: seq<string>)
    ensures forall x :: x in r ==> x in xs && x !in seen
    ensures forall i, j :: 0 <= i < j < |r| ==> r[i] != r[j]
  {
    if xs == [] then []
    else if xs[0] in seen then DistinctFrom(xs[1..], seen)
    else
      var tail := DistinctFrom(xs[1..], seen + [xs[0]]);
      assert forall j :: 0 <= j < |tail| ==> tail[j] != xs[0] by {
        forall j | 0 <= j < |tail| ensures tail[j] != xs[0] {
          assert tail[j] in tail;
        }
      }
      [xs[0]] + tail
  }

  /** An entry that can make the loop fail: its conversion failed, or it is
      a SID the account constructor has to look up. */
  predicate MayFail(entry: Result<string, Exception>, parses: string -> bool) {
    entry.Failure? || LoginNeedsResolution(entry.value, parses)
  }

  /** A failing entry of the tail is a failing entry of the list. */
  lemma FailureWitness(sids: seq<Result<string, Exception>>, tailFails: bool, parses: string -> bool)
    requires sids != []
    requires tailFails ==> exists i :: 0 <= i < |sids[1..]| && MayFail(sids[1..][i], parses)
    ensures tailFails ==> exists i :: 0 <= i < |sids| && MayFail(sids[i], parses)
  {
    if tailFails {
      var i :| 0 <= i < |sids[1..]| && MayFail(sids[1..][i], parses);
      assert sids[1..][i] == sids[i + 1];
    }
  }

  /** The loop over `tokenGroups`: each converted SID not yet collected is
      turned into an account and appended; the first failure, of a
      conversion or of the account constructor, ends the loop. */
  function CollectGroups(sids: seq<Result<string, Exception>>, groups: seq<DomainAccount>,
                         svc: SidServices, cache: SidCache): (r: Cached<seq<DomainAccount>>)
    ensures Extends(cache, r.cache)
    ensures Coherent(cache, svc) ==> Coherent(r.cache, svc)
    ensures r.value.Success? ==> |groups| <= |r.value.value| <= |groups| + |sids|
    ensures r.value.Success? ==> r.value.value[..|groups|] == groups
    ensures r.value.Failure? ==> exists i :: 0 <= i < |sids| && MayFail(sids[i], svc.parses)
    decreases |sids|
  {
    if sids == [] then Cached(Success(groups), cache)
    else
      match sids[0]
      case Failure(e) => Cached(Failure(e), cache)
      case Success(sddl) =>
        if HasSid(groups, sddl) then
          var rest := CollectGroups(sids[1..], groups, svc, cache);
          FailureWitness(sids, rest.value.Failure?, svc.parses);
          rest
        else
          var made := NewDomainAccount(sddl, svc, cache);
          match made.value
          case Failure(e) => Cached(Failure(e), made.cache)
          case Success(a) =>
            var rest := CollectGroups(sids[1..], groups + [a], svc, made.cache);
            FailureWitness(sids, rest.value.Failure?, svc.parses);
            assert rest.value.Success? ==> rest.value.value[..|groups|] == groups by {
              if rest.value.Success? {
                assert rest.value.value[..|groups|] == rest.value.value[..|groups + [a]|][..|groups|];
              }
            }
            rest
  }

  /** The error every failure inside `GetGroupsFromADObject` is wrapped in. */
  function GroupsError(user: DirectoryEntry, inner: Exception): Exception {
    Exception("Failed to determine AD groups for user '" + user.name + "'", Some(inner))
  }

  const NOT_A_USER := Exception("The object is not a user account!", None)
  const TOKEN_GROUPS_DENIED := Exception("Access was denied on the \"tokenGroups\" attribute!", None)

  /** `GetGroupsFromADObject` on an existing entry: a failed refresh, a
      class other than `user` or a missing `tokenGroups` attribute fails, as
      does any failure in the loop, wrapped in a conversion error; all of
      them are wrapped once more in `GroupsError`. A list is returned only
      when every step succeeded. */
  function GetGroupsFromADObject(user: DirectoryEntry, svc: SidServices, cache: SidCache): (r: Cached<seq<DomainAccount>>)
    ensures Extends(cache, r.cache)
    ensures Coherent(cache, svc) ==> Coherent(r.cache, svc)
    ensures r.value.Failure? ==>
      r.value.error.message == "Failed to determine AD groups for user '" + user.name + "'"
      && r.value.error.inner.Some?
    ensures r.value.Success? ==>
      user.refreshError.None? && user.schemaClassName == "user" && user.tokenGroups.Some?
    ensures user.refreshError.Some? ==> r == Cached(Failure(GroupsError(user, user.refreshError.value)), cache)
    ensures user.refreshError.None? && user.schemaClassName != "user" ==>
      r == Cached(Failure(GroupsError(user, NOT_A_USER)), cache)
    ensures user.refreshError.None? && user.schemaClassName == "user" && user.tokenGroups.None? ==>
      r == Cached(Failure(GroupsError(user, TOKEN_GROUPS_DENIED)), cache)
    ensures user.refreshError.None? && user.schemaClassName == "user" && user.tokenGroups.Some? && user.tokenGroups.value.sids == [] ==>
      r == Cached(Success([]), cache)
    ensures r.value.Success? && user.tokenGroups.Some? && WellFormedSids(user.tokenGroups.value.sids, svc.parses) ==>
      SidsOf(r.value.value) == DistinctFrom(Converted(user.tokenGroups.value.sids), [])
    ensures r.value.Success? && user.tokenGroups.Some? && WellFormedSids(user.tokenGroups.value.sids, svc.parses)
            && Coherent(cache, svc) ==>
      forall i :: 0 <= i < |r.value.value| ==> ParseLogin(r.value.value[i].sid, svc) == Success(r.value.value[i])
  {
    if user.refreshError.Some? then Cached(Failure(GroupsError(user, user.refreshError.value)), cache)
    else if user.schemaClassName != "user" then Cached(Failure(GroupsError(user, NOT_A_USER)), cache)
    else
      match user.tokenGroups
      case None => Cached(Failure(GroupsError(user, TOKEN_GROUPS_DENIED)), cache)
      case Some(tg) =>
        var collected := CollectGroups(tg.sids, [], svc, cache);
        match collected.value
        case Success(groups) =>
          CollectedFromNothing(tg.sids, svc, cache);
          collected
        case Failure(e) =>
          var conversion := Exception("Error converting SID from TokenGroups attribute '" + tg.valueText + "'.", Some(e));
          Cached(Failure(GroupsError(user, conversion)), collected.cache)
  }

  /** `ADHelper.GetUserAdGroups`: look the user up by the claims-stripped
      name; an unknown user fails with a "not found" message, a principal
      without a directory entry has no groups. */
  function GetUserAdGroups(userName: string, dir: Directory, cache: SidCache): (r: Cached<seq<DomainAccount>>)
    ensures Extends(cache, r.cache)
    ensures Coherent(cache, dir.sids) ==> Coherent(r.cache, dir.sids)
    ensures var name := RemoveClaimsPrefixIfPresent(userName);
      && (dir.findUser(name).UserNotFound? ==>
            r == Cached(Failure(Exception("Benutzer " + name + " nicht gefunden.", None)), cache))
      && (dir.findUser(name).UserSearchFailed? ==> r == Cached(Failure(dir.findUser(name).error), cache))
      && (dir.findUser(name) == UserFound(None) ==> r == Cached(Success([]), cache))
      && (dir.findUser(name).UserFound? && dir.findUser(name).entry.Some? ==>
            r == GetGroupsFromADObject(dir.findUser(name).entry.value, dir.sids, cache))
  {
    var name := RemoveClaimsPrefixIfPresent(userName);
    match dir.findUser(name)
    case UserSearchFailed(e) => Cached(Failure(e), cache)
    case UserNotFound => Cached(Failure(Exception("Benutzer " + name + " nicht gefunden.", None)), cache)
    case UserFound(None) => Cached(Success([]), cache)
    case UserFound(Some(entry)) => GetGroupsFromADObject(entry, dir.sids, cache)
  }

  /** The issuer part of a claims login does not matter: `p|name` has the
      groups of `name`. */
  lemma GroupsIgnoreClaimsPrefix(prefix: string, name: string, dir: Directory, cache: SidCache)
    requires '|' !in prefix && '|' !in name
    ensures GetUserAdGroups(prefix + "|" + name, dir, cache) == GetUserAdGroups(name, dir, cache)
  {
    RemoveClaimsPrefixOfClaimsLogin(prefix, name, "");
    assert prefix + "|" + name + "" == prefix + "|" + name;
  }

  /** For a non-empty SID, `HasSid` is membership in the collected SIDs. */
  lemma HasSidIff(groups: seq<DomainAccount>, sddl: string)
    requires sddl != ""
    ensures HasSid(groups, sddl) <==> sddl in SidsOf(groups)
  {
    if sddl in SidsOf(groups) {
      var i :| 0 <= i < |groups| && SidsOf(groups)[i] == sddl;
      assert groups[i].sid == sddl;
    }
  }

  /** The entries of a token-group list, all converted. */
  function Converted(sids: seq<Result<string, Exception>>): (r: seq<string>)
    requires forall i :: 0 <= i < |sids| ==> sids[i].Success?
    ensures |r| == |sids|
    ensures forall i :: 0 <= i < |sids| ==> r[i] == sids[i].value
  {
    if sids == [] then [] else [sids[0].value] + Converted(sids[1..])
  }

  /** Every entry converted to a SID string without a claims bar, as SDDL
      SIDs are. */
  predicate WellFormedSids(sids: seq<Result<string, Exception>>, parses: string -> bool) {
    forall i :: 0 <= i < |sids| ==>
      sids[i].Success? && IsSID(sids[i].value, parses) && '|' !in sids[i].value
  }

  /** When every entry converts to a SID, the collected accounts carry
      exactly the distinct SIDs of the list, in first-occurrence order,
      after those already collected. */
  lemma {:induction false} CollectDistinct(sids: seq<Result<string, Exception>>, groups: seq<DomainAccount>,
                                           svc: SidServices, cache: SidCache)
    requires WellFormedSids(sids, svc.parses)
    ensures var r := CollectGroups(sids, groups, svc, cache);
      r.value.Success? ==>
        SidsOf(r.value.value) == SidsOf(groups) + DistinctFrom(Converted(sids), SidsOf(groups))
    decreases |sids|
  {
    var r := CollectGroups(sids, groups, svc, cache);
    var seen := SidsOf(groups);
    if sids == [] {
      assert Converted(sids) == [];
      assert seen + [] == seen;
    } else {
      var sddl := sids[0].value;
      var xs := Converted(sids);
      assert xs[0] == sddl && xs[1..] == Converted(sids[1..]);
      WellFormedTail(sids, svc.parses);
      HasSidIff(groups, sddl);
      CollectStep(sids, groups, svc, cache);
      DistinctStep(xs, seen);
      if HasSid(groups, sddl) {
        CollectDistinct(sids[1..], groups, svc, cache);
      } else {
        var made := NewDomainAccount(sddl, svc, cache);
        if made.value.Success? {
          var a := made.value.value;
          SddlAccountSid(sddl, svc, cache);
          SidsOfSnoc(groups, a);
          CollectDistinct(sids[1..], groups + [a], svc, made.cache);
          AppendAssoc(seen, [sddl], DistinctFrom(xs[1..], seen + [sddl]));
        }
      }
    }
  }

  /** With a coherent cache and every entry a SID, each account the loop
      appends is the one the string constructor makes from its SID. */
  lemma {:induction false} CollectParses(sids: seq<Result<string, Exception>>, groups: seq<DomainAccount>,
                                         svc: SidServices, cache: SidCache)
    requires WellFormedSids(sids, svc.parses)
    ensures var r := CollectGroups(sids, groups, svc, cache);
      r.value.Success? && Coherent(cache, svc) ==>
        forall i :: |groups| <= i < |r.value.value| ==> ParseLogin(r.value.value[i].sid, svc) == Success(r.value.value[i])
    decreases |sids|
  {
    var r := CollectGroups(sids, groups, svc, cache);
    if sids != [] && r.value.Success? && Coherent(cache, svc) {
      var sddl := sids[0].value;
      WellFormedTail(sids, svc.parses);
      CollectStep(sids, groups, svc, cache);
      if HasSid(groups, sddl) {
        CollectParses(sids[1..], groups, svc, cache);
      } else {
        var made := NewDomainAccount(sddl, svc, cache);
        assert made.value.Success?;
        var a := made.value.value;
        var rest := CollectGroups(sids[1..], groups + [a], svc, made.cache);
        assert r == rest;
        var gs := r.value.value;
        assert gs[..|groups + [a]|] == groups + [a];
        CollectParses(sids[1..], groups + [a], svc, made.cache);
        NewAccountParses(groups, a, gs, sddl, svc, cache);
        forall i | |groups| <= i < |gs| ensures ParseLogin(gs[i].sid, svc) == Success(gs[i]) {
          if i > |groups| {
            assert |groups + [a]| <= i;
          }
        }
      }
    }
  }

  /** The loop started from no groups, as `GetGroupsFromADObject` runs it. */
  lemma CollectedFromNothing(sids: seq<Result<string, Exception>>, svc: SidServices, cache: SidCache)
    ensures var r := CollectGroups(sids, [], svc, cache);
      r.value.Success? && WellFormedSids(sids, svc.parses) ==>
        && SidsOf(r.value.value) == DistinctFrom(Converted(sids), [])
        && (Coherent(cache, svc) ==>
              forall i :: 0 <= i < |r.value.value| ==> ParseLogin(r.value.value[i].sid, svc) == Success(r.value.value[i]))
  {
    if WellFormedSids(sids, svc.parses) {
      CollectDistinct(sids, [], svc, cache);
      CollectParses(sids, [], svc, cache);
      assert SidsOf([]) == [];
    }
  }

  /** The account appended for `sddl` is the parse of its own SID, and it
      sits right after the accounts collected before it. */
  lemma NewAccountParses(groups: seq<DomainAccount>, a: DomainAccount, r: seq<DomainAccount>,
                         sddl: string, svc: SidServices, cache: SidCache)
    requires IsSID(sddl, svc.parses) && '|' !in sddl && Coherent(cache, svc)
    requires NewDomainAccount(sddl, svc, cache).value == Success(a)
    requires |groups| < |r| && r[..|groups| + 1] == groups + [a]
    ensures r[|groups|] == a && ParseLogin(r[|groups|].sid, svc) == Success(r[|groups|])
  {
    assert r[|groups|] == r[..|groups| + 1][|groups|];
    SddlAccountSid(sddl, svc, cache);
  }

  /** One step of the collecting loop on a converted entry. */
  lemma CollectStep(sids: seq<Result<string, Exception>>, groups: seq<DomainAccount>,
                    svc: SidServices, cache: SidCache)
    requires sids != [] && sids[0].Success?
    ensures var sddl := sids[0].value;
            var r := CollectGroups(sids, groups, svc, cache);
            var made := NewDomainAccount(sddl, svc, cache);
            && (HasSid(groups, sddl) ==> r == CollectGroups(sids[1..], groups, svc, cache))
            && (!HasSid(groups, sddl) && made.value.Failure? ==> r.value.Failure?)
            && (!HasSid(groups, sddl) && made.value.Success? ==>
                  r == CollectGroups(sids[1..], groups + [made.value.value], svc, made.cache))
  {
  }

  /** One step of `DistinctFrom`. */
  lemma DistinctStep(xs: seq<string>, seen: seq<string>)
    requires xs != []
    ensures xs[0] in seen ==> DistinctFrom(xs, seen) == DistinctFrom(xs[1..], seen)
    ensures xs[0] !in seen ==> DistinctFrom(xs, seen) == [xs[0]] + DistinctFrom(xs[1..], seen + [xs[0]])
  {
  }

  lemma SidsOfSnoc(groups: seq<DomainAccount>, a: DomainAccount)
    ensures SidsOf(groups + [a]) == SidsOf(groups) + [a.sid]
  {
    var l := SidsOf(groups + [a]);
    var r := SidsOf(groups) + [a.sid];
    assert |l| == |r|;
    forall i | 0 <= i < |l| ensures l[i] == r[i] {
      if i < |groups| {
        assert (groups + [a])[i] == groups[i];
      }
    }
  }

  lemma AppendAssoc(a: seq<string>, b: seq<string>, c: seq<string>)
    ensures a + b + c == a + (b + c)
  {
  }

  lemma WellFormedTail(sids: seq<Result<string, Exception>>, parses: string -> bool)
    requires sids != [] && WellFormedSids(sids, parses)
    ensures WellFormedSids(sids[1..], parses)
  {
    forall i | 0 <= i < |sids[1..]| ensures sids[1..][i] == sids[i + 1] { }
  }

  /** The account built for an SDDL SID carries that SID. */
  lemma SddlAccountSid(sddl: string, svc: SidServices, cache: SidCache)
    requires IsSID(sddl, svc.parses) && '|' !in sddl
    ensures var made := NewDomainAccount(sddl, svc, cache);
      made.value.Success? ==> made.value.value.sid == sddl
  {
    assert !IsPseudoToken(sddl) by {
      assert CLAIM_EVERYONE[6] == '|' && CLAIM_ALL_AUTHENTICATED_USERS[6] == '|';
    }
    assert LoginSid(sddl, svc.parses) == sddl;
  }

  /** Hence the groups of a user whose token groups are all SIDs hold at
      most one account per SID. */
  lemma GroupsHaveDistinctSids(user: DirectoryEntry, svc: SidServices, cache: SidCache)
    requires user.tokenGroups.Some? && WellFormedSids(user.tokenGroups.value.sids, svc.parses)
    ensures var r := GetGroupsFromADObject(user, svc, cache);
      r.value.Success? ==>
        forall i, j :: 0 <= i < j < |r.value.value| ==> r.value.value[i].sid != r.value.value[j].sid
  {
    var r := GetGroupsFromADObject(user, svc, cache);
    if r.value.Success? {
      var ids := SidsOf(r.value.value);
      assert ids == DistinctFrom(Converted(user.tokenGroups.value.sids), []);
      forall i, j | 0 <= i < j < |r.value.value|
        ensures r.value.value[i].sid != r.value.value[j].sid
      {
        assert ids[i] != ids[j];
      }
    }
  }

  /** A SID that occurs several times in `tokenGroups` is looked up and
      added once: the repeated entry changes neither the result nor the
      cache. */
  lemma RepeatedSidIsSkipped(sddl: string, groups: seq<DomainAccount>, i: nat,
                             rest: seq<Result<string, Exception>>, svc: SidServices, cache: SidCache)
    requires i < |groups| && groups[i].sid == sddl && sddl != ""
    ensures CollectGroups([Success(sddl)] + rest, groups, svc, cache) == CollectGroups(rest, groups, svc, cache)
  {
    assert HasSid(groups, sddl);
    assert ([Success(sddl)] + rest)[1..] == rest;
  }

  /** The SID cache changes nothing but the number of directory lookups:
      started from any two caches that agree with the directory, the groups
      come out the same. */
  lemma {:induction false} CollectCacheIndependent(sids: seq<Result<string, Exception>>, groups: seq<DomainAccount>,
                                                   svc: SidServices, c1: SidCache, c2: SidCache)
    requires Coherent(c1, svc) && Coherent(c2, svc)
    ensures CollectGroups(sids, groups, svc, c1).value == CollectGroups(sids, groups, svc, c2).value
    decreases |sids|
  {
    if sids != [] && sids[0].Success? {
      var sddl := sids[0].value;
      if HasSid(groups, sddl) {
        CollectCacheIndependent(sids[1..], groups, svc, c1, c2);
      } else {
        var m1 := NewDomainAccount(sddl, svc, c1);
        var m2 := NewDomainAccount(sddl, svc, c2);
        assert m1.value == m2.value == ParseLogin(sddl, svc);
        if m1.value.Success? {
          CollectCacheIndependent(sids[1..], groups + [m1.value.value], svc, m1.cache, m2.cache);
        }
      }
    }
  }

  /** The same for a whole user lookup. */
  lemma GroupsCacheIndependent(userName: string, dir: Directory, c1: SidCache, c2: SidCache)
    requires Coherent(c1, dir.sids) && Coherent(c2, dir.sids)
    ensures GetUserAdGroups(userName, dir, c1).value == GetUserAdGroups(userName, dir, c2).value
  {
    var name := RemoveClaimsPrefixIfPresent(userName);
    var search := dir.findUser(name);
    if search.UserFound? && search.entry.Some? {
      var user := search.entry.value;
      if user.refreshError.None? && user.schemaClassName == "user" && user.tokenGroups.Some? {
        CollectCacheIndependent(user.tokenGroups.value.sids, [], dir.sids, c1, c2);
      }
    }
  }
}
