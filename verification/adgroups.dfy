/** `ADGroup`: the members of an AD group, looked up by the best key the
    group account offers, keyed by SID (a later member replaces an earlier
    one with the same SID) and sorted by login. Every failure is captured in
    `ErrorMessages` instead of being thrown. */
module AdGroups {
  import opened Wrappers
  import opened Strings
  import opened Extensions
  import opened Accounts
  import opened AdUsers

  /** The identity types the group search uses. */
  datatype IdentityType = SamAccountName | Sid | Name

  /** The members `GetMembers(true)` enumerates, and the exception the
      enumeration ends with, if any. */
  datatype Members = Members(principals: seq<Principal>, enumerationError: Option<Exception>)

  /** `GroupPrincipal.FindByIdentity` and `GetMembers`. */
  datatype GroupSearch =
    | GroupSearchFailed(error: Exception)
    | GroupNotFound
    | GroupFound(query: Result<Members, Exception>)

  /** The domain as the group code sees it: whether a principal context for
      a domain can be created, the group search, and the two elapsed times
      as they are printed into the log. */
  datatype GroupDirectory = GroupDirectory(
    contextError: string -> Option<Exception>,
    findGroup: (string, IdentityType, string) -> GroupSearch,
    queryTime: string,
    resolveTime: string)

  datatype ADGroup = ADGroup(
    memberCount: int,
    account: DomainAccount,
    users: seq<AdUser>,
    errorMessages: Option<string>,
    log: seq<string>)

  /** The key the group is looked up by, with its log label. */
  datatype GroupKey = GroupKey(kind: IdentityType, title: string, key: string)

  /** The lookup key: the SAM account name if there is one, else the SID,
      else the display name, else the login. */
  function KeyOf(a: DomainAccount): (k: GroupKey)
    ensures a.samAccountName != "" ==> k == GroupKey(SamAccountName, "SamAccountName", a.samAccountName)
    ensures a.samAccountName == "" && a.sid != "" ==> k == GroupKey(Sid, "Sid", a.sid)
    ensures a.samAccountName == "" && a.sid == "" && a.displayName != "" ==>
      k == GroupKey(Name, "DisplayName", a.displayName)
    ensures a.samAccountName == "" && a.sid == "" && a.displayName == "" ==>
      k == GroupKey(Name, "LoginName", a.loginName)
  {
    if a.samAccountName != "" then GroupKey(SamAccountName, "SamAccountName", a.samAccountName)
    else if a.sid != "" then GroupKey(Sid, "Sid", a.sid)
    else if a.displayName != "" then GroupKey(Name, "DisplayName", a.displayName)
    else GroupKey(Name, "LoginName", a.loginName)
  }

  function ReadingLine(a: DomainAccount): string {
    "Reading members of AD group '" + a.loginName + "'."
  }

  function KeyLine(k: GroupKey): string {
    "Using " + k.title + " " + k.key + " to find group."
  }

  // ---------------------------------------------------------------------
  // The member dictionary.

  /** `Dictionary<string, AdUser>` as its entries in enumeration order. */
  type UserDict = seq<(string, AdUser)>

  function KeySet(d: UserDict): (ks: set<string>)
    ensures forall i :: 0 <= i < |d| ==> d[i].0 in ks
  {
    if d == [] then {} else {d[0].0} + KeySet(d[1..])
  }

  function Values(d: UserDict): (vs: seq<AdUser>)
    ensures |vs| == |d|
    ensures forall i :: 0 <= i < |d| ==> vs[i] == d[i].1
  {
    if d == [] then [] else [d[0].1] + Values(d[1..])
  }

  /** No key occurs twice. */
  predicate DistinctKeys(d: UserDict) {
    d == [] || (d[0].0 !in KeySet(d[1..]) && DistinctKeys(d[1..]))
  }

  /** `dict[key]`, if present. */
  function Get(d: UserDict, key: string): (r: Option<AdUser>)
    ensures r.Some? <==> key in KeySet(d)
  {
    if d == [] then None
    else if d[0].0 == key then Some(d[0].1)
    else Get(d[1..], key)
  }

  /** `dict[key] = value`: an existing key keeps its place and takes the new
      value, a new key is appended. */
  function Upsert(d: UserDict, key: string, value: AdUser): (r: UserDict)
    requires DistinctKeys(d)
    ensures DistinctKeys(r)
    ensures KeySet(r) == KeySet(d) + {key}
    ensures |r| == if key in KeySet(d) then |d| else |d| + 1
    ensures forall e :: e in r ==> e in d || e == (key, value)
    ensures forall k :: Get(r, k) == if k == key then Some(value) else Get(d, k)
  {
    if d == [] then [(key, value)]
    else if d[0].0 == key then [(key, value)] + d[1..]
    else
      var rest := Upsert(d[1..], key, value);
      assert ([d[0]] + rest)[1..] == rest;
      [d[0]] + rest
  }

  /** A dictionary has as many entries as keys. */
  lemma {:induction false} DistinctKeysCard(d: UserDict)
    requires DistinctKeys(d)
    ensures |KeySet(d)| == |d|
  {
    if d != [] {
      DistinctKeysCard(d[1..]);
    }
  }

  predicate IsUser(m: Principal) {
    m.structuralObjectClass == "user"
  }

  /** The loop over the members: a `user` member is stored under its SID,
      any other member is skipped. */
  function CollectUsers(members: seq<Principal>, d: UserDict): (r: UserDict)
    requires DistinctKeys(d)
    ensures DistinctKeys(r)
    decreases |members|
  {
    if members == [] then d
    else
      var m := members[0];
      CollectUsers(members[1..], if IsUser(m) then Upsert(d, m.sid, FromPrincipal(m)) else d)
  }

  /** The SIDs of the `user` members. */
  function UserSids(members: seq<Principal>): set<string> {
    if members == [] then {}
    else (if IsUser(members[0]) then {members[0].sid} else {}) + UserSids(members[1..])
  }

  /** The last `user` member with SID `key`, if any. */
  function LastUser(members: seq<Principal>, key: string): (r: Option<Principal>)
    ensures r.Some? ==> r.value in members && IsUser(r.value) && r.value.sid == key
    ensures r.Some? <==> key in UserSids(members)
  {
    if members == [] then None
    else
      match LastUser(members[1..], key)
      case Some(p) => Some(p)
      case None => if IsUser(members[0]) && members[0].sid == key then Some(members[0]) else None
  }

  /** The dictionary holds one entry per SID of a `user` member, and under
      each SID the user made from the LAST `user` member with that SID: a
      later member overwrites an earlier one. */
  lemma {:induction false} CollectUsersLastWins(members: seq<Principal>, d: UserDict, key: string)
    requires DistinctKeys(d)
    ensures KeySet(CollectUsers(members, d)) == KeySet(d) + UserSids(members)
    ensures Get(CollectUsers(members, d), key) ==
      match LastUser(members, key)
      case Some(p) => Some(FromPrincipal(p))
      case None => Get(d, key)
    decreases |members|
  {
    if members != [] {
      var m := members[0];
      CollectUsersLastWins(members[1..], if IsUser(m) then Upsert(d, m.sid, FromPrincipal(m)) else d, key);
    }
  }

  /** Every value the loop stores is made from a `user` member of `pool`,
      if the values it starts with are. */
  lemma {:induction false} ValuesFromMembers(members: seq<Principal>, d: UserDict, pool: seq<Principal>)
    requires DistinctKeys(d)
    requires forall e :: e in d ==> exists m :: m in pool && IsUser(m) && e.1 == FromPrincipal(m)
    requires forall m :: m in members && IsUser(m) ==> m in pool
    ensures forall e :: e in CollectUsers(members, d) ==>
      exists m :: m in pool && IsUser(m) && e.1 == FromPrincipal(m)
    decreases |members|
  {
    if members != [] {
      var m := members[0];
      var next := if IsUser(m) then Upsert(d, m.sid, FromPrincipal(m)) else d;
      assert forall x :: x in members[1..] ==> x in members;
      ValuesFromMembers(members[1..], next, pool);
    }
  }

  // ---------------------------------------------------------------------
  // Sorting by login.

  predicate SortedByLogin(us: seq<AdUser>) {
    forall i, j :: 0 <= i < j < |us| ==> LexLe(us[i].login, us[j].login)
  }

  /** A user whose login is below the first of a sorted list is below all. */
  lemma LoginBelowAll(u: AdUser, us: seq<AdUser>)
    requires SortedByLogin(us) && us != [] && !LexLe(us[0].login, u.login)
    ensures forall j :: 0 <= j < |us| ==> LexLe(u.login, us[j].login)
    ensures SortedByLogin([u] + us)
  {
    LexLeTotal(u.login, us[0].login);
    forall j | 0 <= j < |us| ensures LexLe(u.login, us[j].login) {
      if j > 0 { LexLeTransitive(u.login, us[0].login, us[j].login); }
    }
    forall i, j | 0 <= i < j < |[u] + us|
      ensures LexLe(([u] + us)[i].login, ([u] + us)[j].login)
    {
      assert ([u] + us)[j] == us[j - 1];
      if i > 0 {
        assert ([u] + us)[i] == us[i - 1];
      }
    }
  }

  lemma SortedTail(us: seq<AdUser>)
    requires SortedByLogin(us) && us != []
    ensures SortedByLogin(us[1..])
  {
    forall i, j | 0 <= i < j < |us[1..]|
      ensures LexLe(us[1..][i].login, us[1..][j].login)
    {
      assert us[1..][i] == us[i + 1] && us[1..][j] == us[j + 1];
    }
  }

  /** A head below every element of a sorted tail and below the inserted
      user stays a sorted head after the insertion. */
  lemma HeadBelowInsert(x: AdUser, u: AdUser, tail: seq<AdUser>, rest: seq<AdUser>)
    requires SortedByLogin([x] + tail) && LexLe(x.login, u.login)
    requires SortedByLogin(rest) && multiset(rest) == multiset(tail) + multiset{u}
    ensures SortedByLogin([x] + rest)
  {
    forall j | 0 <= j < |rest| ensures LexLe(x.login, rest[j].login) {
      assert rest[j] in multiset(rest);
      if rest[j] != u {
        assert rest[j] in multiset(tail);
        var k :| 0 <= k < |tail| && tail[k] == rest[j];
        assert ([x] + tail)[0] == x && ([x] + tail)[k + 1] == rest[j];
      }
    }
    forall i, j | 0 <= i < j < |[x] + rest|
      ensures LexLe(([x] + rest)[i].login, ([x] + rest)[j].login)
    {
      if i > 0 {
        assert ([x] + rest)[i] == rest[i - 1] && ([x] + rest)[j] == rest[j - 1];
      } else {
        assert ([x] + rest)[j] == rest[j - 1];
      }
    }
  }

  /** Insert `u` after every user whose login is not greater, as a stable
      sort does. */
  function InsertByLogin(u: AdUser, us: seq<AdUser>): (r: seq<AdUser>)
    requires SortedByLogin(us)
    ensures SortedByLogin(r)
    ensures multiset(r) == multiset(us) + multiset{u}
    ensures |r| == |us| + 1
  {
    if us == [] then [u]
    else if !LexLe(us[0].login, u.login) then
      LoginBelowAll(u, us);
      [u] + us
    else
      SortedTail(us);
      var rest := InsertByLogin(u, us[1..]);
      assert us == [us[0]] + us[1..];
      HeadBelowInsert(us[0], u, us[1..], rest);
      assert multiset([us[0]] + rest) == multiset{us[0]} + multiset(rest);
      [us[0]] + rest
  }

  /** `OrderBy(user => user.Login)`, ordinal. */
  function SortByLogin(us: seq<AdUser>): (r: seq<AdUser>)
    ensures SortedByLogin(r)
    ensures multiset(r) == multiset(us)
    ensures |r| == |us|
  {
    if us == [] then []
    else
      var init := us[..|us| - 1];
      assert us == init + [us[|us| - 1]];
      InsertByLogin(us[|us| - 1], SortByLogin(init))
  }

  /** The users with login `x`, in their order in `us`. */
  function WithLogin(us: seq<AdUser>, x: string): (r: seq<AdUser>)
    ensures forall u :: u in r ==> u in us && u.login == x
  {
    if us == [] then [] else (if us[0].login == x then [us[0]] else []) + WithLogin(us[1..], x)
  }

  lemma {:induction false} WithLoginAppend(a: seq<AdUser>, b: seq<AdUser>, x: string)
    ensures WithLogin(a + b, x) == WithLogin(a, x) + WithLogin(b, x)
  {
    if a == [] {
      assert a + b == b;
    } else {
      assert (a + b)[1..] == a[1..] + b;
      WithLoginAppend(a[1..], b, x);
    }
  }

  lemma {:induction false} WithLoginNone(us: seq<AdUser>, x: string)
    requires forall j :: 0 <= j < |us| ==> us[j].login != x
    ensures WithLogin(us, x) == []
  {
    if us != [] {
      WithLoginNone(us[1..], x);
    }
  }

  lemma WithLoginCons(v: AdUser, us: seq<AdUser>, x: string)
    ensures WithLogin([v] + us, x) == (if v.login == x then [v] else []) + WithLogin(us, x)
  {
    assert ([v] + us)[1..] == us;
  }

  /** No user of a sorted list starting above `u` shares its login. */
  lemma AboveHeadNoneEqual(u: AdUser, us: seq<AdUser>)
    requires SortedByLogin(us) && us != [] && !LexLe(us[0].login, u.login)
    ensures forall j :: 0 <= j < |us| ==> us[j].login != u.login
  {
    LexLeReflexive(u.login);
    forall j | 0 <= j < |us| ensures us[j].login != u.login {
      if j > 0 {
        assert LexLe(us[0].login, us[j].login);
      }
    }
  }

  /** The inserted user comes after every user with the same login. */
  lemma {:induction false} InsertByLoginStable(u: AdUser, us: seq<AdUser>, x: string)
    requires SortedByLogin(us)
    ensures WithLogin(InsertByLogin(u, us), x) == WithLogin(us, x) + (if u.login == x then [u] else [])
    decreases |us|, 1
  {
    if us == [] {
      assert InsertByLogin(u, us) == [u];
      WithLoginCons(u, [], x);
    } else if !LexLe(us[0].login, u.login) {
      InsertInFront(u, us, x);
    } else {
      InsertBehindHead(u, us, x);
    }
  }

  lemma InsertInFront(u: AdUser, us: seq<AdUser>, x: string)
    requires SortedByLogin(us) && us != [] && !LexLe(us[0].login, u.login)
    ensures WithLogin(InsertByLogin(u, us), x) == WithLogin(us, x) + (if u.login == x then [u] else [])
  {
    assert InsertByLogin(u, us) == [u] + us;
    WithLoginCons(u, us, x);
    if u.login == x {
      AboveHeadNoneEqual(u, us);
      WithLoginNone(us, x);
    }
  }

  lemma {:induction false} InsertBehindHead(u: AdUser, us: seq<AdUser>, x: string)
    requires SortedByLogin(us) && us != [] && LexLe(us[0].login, u.login)
    ensures WithLogin(InsertByLogin(u, us), x) == WithLogin(us, x) + (if u.login == x then [u] else [])
    decreases |us|, 0
  {
    var rest := InsertByLogin(u, us[1..]);
    var head := if us[0].login == x then [us[0]] else [];
    var tail := if u.login == x then [u] else [];
    calc {
      WithLogin(InsertByLogin(u, us), x);
      WithLogin([us[0]] + rest, x);
      { WithLoginCons(us[0], rest, x); }
      head + WithLogin(rest, x);
      { InsertByLoginStable(u, us[1..], x); }
      head + (WithLogin(us[1..], x) + tail);
      (head + WithLogin(us[1..], x)) + tail;
      { WithLoginCons(us[0], us[1..], x); assert [us[0]] + us[1..] == us; }
      WithLogin(us, x) + tail;
    }
  }

  /** The sort is stable: users with the same login keep the order they had
      in the input. */
  lemma {:induction false} SortByLoginStable(us: seq<AdUser>, x: string)
    ensures WithLogin(SortByLogin(us), x) == WithLogin(us, x)
  {
    if us != [] {
      var init := us[..|us| - 1];
      var last := us[|us| - 1];
      assert us == init + [last];
      assert SortByLogin(us) == InsertByLogin(last, SortByLogin(init));
      SortByLoginStable(init, x);
      InsertByLoginStable(last, SortByLogin(init), x);
      WithLoginAppend(init, [last], x);
    }
  }

  // ---------------------------------------------------------------------
  // The group.

  function QueryLine(dir: GroupDirectory): string {
    "AD Query took " + dir.queryTime + " seconds."
  }

  function ResolvedLine(n: nat, dir: GroupDirectory): string {
    NatToString(n) + " members resolved, this took " + dir.resolveTime + " seconds."
  }

  /** The log of a complete run that resolved `n` members; a run that
      fails writes a prefix of it. */
  function FullLog(account: DomainAccount, dir: GroupDirectory, n: nat): seq<string> {
    [ReadingLine(account), KeyLine(KeyOf(account)), QueryLine(dir), ResolvedLine(n, dir)]
  }

  /** The group value after a failure: no users, no count, the messages of
      the exception chain joined with `<br/>`, the log written so far. */
  function Failed(account: DomainAccount, log: seq<string>, e: Exception): ADGroup {
    ADGroup(0, account, [], Some(GetAllMessages(e, "<br/>")), log)
  }

  /** `ADGroup.Resolve`. */
  function Resolve(account: DomainAccount, dir: GroupDirectory): (g: ADGroup)
    ensures g.account == account
    ensures g.memberCount == |g.users|
    ensures SortedByLogin(g.users)
    ensures g.errorMessages.Some? ==> g.users == []
    ensures 1 <= |g.log| && g.log <= FullLog(account, dir, g.memberCount)
    ensures dir.contextError(account.domain).Some? ==>
      g == Failed(account, [ReadingLine(account)], dir.contextError(account.domain).value)
    ensures dir.contextError(account.domain).None? ==> |g.log| >= 2
    ensures dir.contextError(account.domain).None? &&
            dir.findGroup(account.domain, KeyOf(account).kind, KeyOf(account).key).GroupNotFound? ==>
      g == ADGroup(0, account, [], None, [ReadingLine(account), KeyLine(KeyOf(account))])
    ensures var search := dir.findGroup(account.domain, KeyOf(account).kind, KeyOf(account).key);
      dir.contextError(account.domain).None? && search.GroupSearchFailed? ==>
      g == Failed(account, [ReadingLine(account), KeyLine(KeyOf(account))], search.error)
    ensures var search := dir.findGroup(account.domain, KeyOf(account).kind, KeyOf(account).key);
      dir.contextError(account.domain).None? && search.GroupFound? && search.query.Failure? ==>
      g == Failed(account, [ReadingLine(account), KeyLine(KeyOf(account))], search.query.error)
    ensures var search := dir.findGroup(account.domain, KeyOf(account).kind, KeyOf(account).key);
      dir.contextError(account.domain).None? && search.GroupFound? && search.query.Success? &&
      search.query.value.enumerationError.Some? ==>
      g == Failed(account, [ReadingLine(account), KeyLine(KeyOf(account)), QueryLine(dir)],
                  search.query.value.enumerationError.value)
  {
    var log0 := [ReadingLine(account)];
    match dir.contextError(account.domain)
    case Some(e) => Failed(account, log0, e)
    case None =>
      var k := KeyOf(account);
      var log1 := log0 + [KeyLine(k)];
      match dir.findGroup(account.domain, k.kind, k.key)
      case GroupSearchFailed(e) => Failed(account, log1, e)
      case GroupNotFound => ADGroup(0, account, [], None, log1)
      case GroupFound(Failure(e)) => Failed(account, log1, e)
      case GroupFound(Success(members)) => Enumerate(account, dir, members)
  }

  /** The steps of `Resolve` after `GetMembers` answered: enumerate the
      members into the dictionary and sort its users, or fail with the
      three log lines written so far. */
  function Enumerate(account: DomainAccount, dir: GroupDirectory, members: Members): (g: ADGroup)
    ensures g.account == account
    ensures g.memberCount == |g.users|
    ensures SortedByLogin(g.users)
    ensures g.errorMessages.Some? ==> g.users == []
    ensures 3 <= |g.log| && g.log <= FullLog(account, dir, g.memberCount)
    ensures members.enumerationError.Some? ==>
      g == Failed(account, [ReadingLine(account), KeyLine(KeyOf(account)), QueryLine(dir)],
                  members.enumerationError.value)
    ensures members.enumerationError.None? ==> g.errorMessages.None?
  {
    var log2 := [ReadingLine(account), KeyLine(KeyOf(account)), QueryLine(dir)];
    match members.enumerationError
    case Some(e) => Failed(account, log2, e)
    case None =>
      var d := CollectUsers(members.principals, []);
      ADGroup(|d|, account, SortByLogin(Values(d)), None, log2 + [ResolvedLine(|d|, dir)])
  }

  /** A group carries error messages exactly when some directory step threw:
      opening the context, the search, `GetMembers`, or the enumeration. A
      group that is simply not found has none. */
  lemma ResolveErrorIff(account: DomainAccount, dir: GroupDirectory)
    ensures var search := dir.findGroup(account.domain, KeyOf(account).kind, KeyOf(account).key);
      Resolve(account, dir).errorMessages.Some? <==>
        || dir.contextError(account.domain).Some?
        || search.GroupSearchFailed?
        || (search.GroupFound? && search.query.Failure?)
        || (search.GroupFound? && search.query.Success? && search.query.value.enumerationError.Some?)
  {
  }

  /** `new ADGroup(account, resolveUsers)`: without `resolveUsers` nothing
      is looked up and users and log stay empty. */
  function NewADGroup(account: DomainAccount, resolveUsers: bool, dir: GroupDirectory): (g: ADGroup)
    ensures g.account == account
    ensures g.memberCount == |g.users|
    ensures SortedByLogin(g.users)
    ensures !resolveUsers ==> g == ADGroup(0, account, [], None, [])
    ensures resolveUsers ==> g == Resolve(account, dir)
  {
    if resolveUsers then Resolve(account, dir) else ADGroup(0, account, [], None, [])
  }

  /** Without `resolveUsers` the directory is not consulted at all. */
  lemma UnresolvedIgnoresDirectory(account: DomainAccount, d1: GroupDirectory, d2: GroupDirectory)
    ensures NewADGroup(account, false, d1) == NewADGroup(account, false, d2)
  {
  }

  /** The first characters of the four log lines. */
  lemma LogLineHeads(account: DomainAccount, dir: GroupDirectory, n: nat)
    ensures var full := FullLog(account, dir, n);
      && StartsWith(full[1], "Using ")
      && full[0][0] == 'R' && full[2][0] == 'A' && '0' <= full[3][0] <= '9'
  {
    var key := KeyLine(KeyOf(account));
    assert key == "Using " + (KeyOf(account).title + " " + KeyOf(account).key + " to find group.");
    assert key[..6] == "Using ";
    var digits := NatToString(n);
    assert ResolvedLine(n, dir)[0] == digits[0];
  }

  /** In a prefix of length at least two of a complete log, exactly the
      second line starts with "Using ". */
  lemma KeyLineOnlySecond(log: seq<string>, account: DomainAccount, dir: GroupDirectory, n: nat)
    requires 2 <= |log| && log <= FullLog(account, dir, n)
    ensures forall i :: 0 <= i < |log| ==> (StartsWith(log[i], "Using ") <==> i == 1)
  {
    var full := FullLog(account, dir, n);
    LogLineHeads(account, dir, n);
    forall i | 0 <= i < |log|
      ensures StartsWith(log[i], "Using ") <==> i == 1
    {
      assert log[i] == full[i];
    }
  }

  /** The log names exactly one lookup key: the second line, and no other
      line starts with "Using ". */
  lemma OneKeyLine(account: DomainAccount, dir: GroupDirectory)
    requires dir.contextError(account.domain).None?
    ensures var g := Resolve(account, dir);
      forall i :: 0 <= i < |g.log| ==> (StartsWith(g.log[i], "Using ") <==> i == 1)
  {
    var g := Resolve(account, dir);
    KeyLineOnlySecond(g.log, account, dir, g.memberCount);
  }

  /** A found group whose members could all be enumerated. */
  lemma ResolveFound(account: DomainAccount, dir: GroupDirectory, members: Members)
    requires dir.contextError(account.domain).None?
    requires dir.findGroup(account.domain, KeyOf(account).kind, KeyOf(account).key) == GroupFound(Success(members))
    requires members.enumerationError.None?
    ensures var d := CollectUsers(members.principals, []);
      Resolve(account, dir) == ADGroup(|d|, account, SortByLogin(Values(d)), None, FullLog(account, dir, |d|))
  {
  }

  /** The users of a resolved group: one per distinct SID among the `user`
      members, each made from the last `user` member with that SID, and no
      others. */
  lemma ResolvedUsers(account: DomainAccount, dir: GroupDirectory, members: Members)
    requires dir.contextError(account.domain).None?
    requires dir.findGroup(account.domain, KeyOf(account).kind, KeyOf(account).key) == GroupFound(Success(members))
    requires members.enumerationError.None?
    ensures var g := Resolve(account, dir);
      && g.errorMessages.None?
      && g.memberCount == |UserSids(members.principals)|
      && (forall key :: key in UserSids(members.principals) ==>
            FromPrincipal(LastUser(members.principals, key).value) in g.users)
      && (forall u :: u in g.users ==> exists m :: m in members.principals && IsUser(m) && u == FromPrincipal(m))
  {
    var d := CollectUsers(members.principals, []);
    ResolveFound(account, dir, members);
    UsersOfDict(members.principals);
  }

  /** The sorted values of the member dictionary, without the group
      around them. */
  lemma UsersOfDict(members: seq<Principal>)
    ensures var d := CollectUsers(members, []);
      var users := SortByLogin(Values(d));
      && |d| == |UserSids(members)|
      && (forall key :: key in UserSids(members) ==> FromPrincipal(LastUser(members, key).value) in users)
      && (forall u :: u in users ==> exists m :: m in members && IsUser(m) && u == FromPrincipal(m))
  {
    var d := CollectUsers(members, []);
    DistinctKeysCard(d);
    CollectUsersLastWins(members, [], "");
    assert KeySet(d) == UserSids(members);
    forall key | key in UserSids(members)
      ensures FromPrincipal(LastUser(members, key).value) in SortByLogin(Values(d))
    {
      LastUserKept(members, key);
    }
    UsersFromMembers(members);
  }

  lemma LastUserKept(members: seq<Principal>, key: string)
    requires key in UserSids(members)
    ensures FromPrincipal(LastUser(members, key).value) in SortByLogin(Values(CollectUsers(members, [])))
  {
    var d := CollectUsers(members, []);
    CollectUsersLastWins(members, [], key);
    GetIsValue(d, key);
    assert Get(d, key).value in multiset(Values(d));
  }

  lemma UsersFromMembers(members: seq<Principal>)
    ensures forall u :: u in SortByLogin(Values(CollectUsers(members, []))) ==>
      exists m :: m in members && IsUser(m) && u == FromPrincipal(m)
  {
    var d := CollectUsers(members, []);
    ValuesFromMembers(members, [], members);
    forall u | u in SortByLogin(Values(d))
      ensures exists m :: m in members && IsUser(m) && u == FromPrincipal(m)
    {
      assert u in multiset(SortByLogin(Values(d)));
      assert u in multiset(Values(d));
      var i :| 0 <= i < |d| && Values(d)[i] == u;
      assert d[i] in d;
    }
  }

  /** A present key's value is one of the dictionary's values. */
  lemma {:induction false} GetIsValue(d: UserDict, key: string)
    requires key in KeySet(d)
    ensures Get(d, key).value in Values(d)
  {
    if d[0].0 != key {
      GetIsValue(d[1..], key);
    }
  }
}
