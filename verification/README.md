# MGL.SharePoint.Membership in Dafny

A Dafny model of the membership service of MGL.SharePoint.Membership, a
SharePoint web service. The service answers questions like these:
- is a user in an AD group?
- is a user in a SharePoint site group, directly or through an AD group?
- which AD groups or site groups hold a user?
- who are the members of a site group or an AD group?

The model covers four layers:

- **Login strings**: claims-prefix stripping, domain detection and
  stripping, user-name normalisation, and removal of control characters from
  display names (`Extensions`, `Helper`, `AdUsers`).
- **The identity value `DomainAccount`**:
  - both constructors (raw login and SharePoint user record);
  - the two pseudo-principal claim tokens;
  - SID detection and resolution through a SID-to-name cache;
  - the loose field-wise `Equals` and `GetHashCode` (`Sids`, `Accounts`).
- **Directory helpers**:
  - the token-group walk of a user with SID deduplication (`AdHelper`);
  - AD group member resolution, with lookup-key precedence, last-wins
    deduplication by SID, sorting by login, member count and captured
    errors (`AdGroups`);
  - the Win32 result decoding (`Interop`).
- **The decision procedures and the service**:
  - the site-group scan with its lazy, at-most-once AD lookup (`SpHelper`);
  - the result envelopes (`Results`);
  - the eight web operations (`Service`).

Modelling choices:

- Every call into SharePoint, Active Directory or Win32 is a function-typed
  field of a datatype (`SidServices`, `Directory`, `GroupDirectory`, `Web`).
- Exceptions are `Result<T, Exception>`, where `Exception` is a message with
  an optional inner exception.
- A C# `null` string on an account is `""`. The code tests those fields
  with `IsNullOrEmpty` everywhere, so the two behave alike. Where `null`
  matters as a value, `Option` is used.
- The process-wide SID cache is a `map<string, string>`. Every operation
  that may fill it takes it and returns it (`Cached`, `Served`).
- Two predicates describe the cache:
  - `Extends` says the cache only grows and no entry ever changes;
  - `Coherent` says every entry is what the directory answers for that SID.
- With a coherent cache, each cached operation is proved equal to a
  cache-free reference (`ParseLogin`, `AccountFromUser`, `AccountsOf`,
  `GroupsListed`, `ADGroupDecision`, `SiteGroupDecision`).
- Case-insensitive comparison is ASCII case folding. `string.GetHashCode`
  is a parameter. The 32-bit wrap of the hash sum is explicit (`Wrap32`).
  `OrderBy(Login)` is a stable sort in ordinal (code-unit) order.

Observations about the code that a reader of its names alone would not expect:
- The string constructor does not reject an empty login; only the service's
  parameter check does.
- A failing SID lookup propagates its exception. Only an unmapped SID
  (`ERROR_NONE_MAPPED`) comes back as itself.
- `GetHashCode` is not consistent with `Equals`
  (`Accounts.HashNotConsistentWithEquals`).
- Group members that are not users are skipped, not rejected.

## Model

| member | source | states |
|---|---|---|
| Extensions.Messages | Membership/Extensions.cs:21-31 | the messages of an exception chain start with the outer message |
| Extensions.GetAllMessages | Membership/Extensions.cs:21-31 | the text is the chain's messages, outermost first, joined with the delimiter |
| Extensions.AllMessagesSplit | Membership/Extensions.cs:21-31 | with a one-character delimiter absent from the messages, the text splits back into exactly the messages and holds n - 1 delimiters for a chain of n |
| Extensions.RemoveClaimsPrefixIfPresent | Membership/Extensions.cs:12-19 | no pipe in the result; a login without a pipe is returned unchanged; otherwise the result is the segment after the first pipe |
| Extensions.RemoveClaimsPrefixIdempotent | Membership/Extensions.cs:12-19 | stripping twice equals stripping once |
| Extensions.RemoveClaimsPrefixOfClaimsLogin | Membership/Extensions.cs:14-16 | a login of issuer, pipe, name, and optionally a further pipe and rest gives the name |
| Extensions.HasDomain | Membership/Extensions.cs:33-36 | true exactly when the login contains `\` |
| Extensions.RemoveDomain | Membership/Extensions.cs:37-45 | no `\` in the result; the segment after the last `\`, or the login itself without one |
| Extensions.RemoveDomainIdempotent | Membership/Extensions.cs:37-45 | removing the domain twice equals removing it once |
| Helper.NormalizeUserName | Membership/Helper.cs:5-28 | with `keepDomain` it is claims stripping; without, the result has neither pipe nor `\` and is the segment after the first `\` of the stripped name |
| Helper.NormalizePlainName | Membership/Helper.cs:9-27 | a name with neither pipe nor `\` is a fixed point for both flag values |
| Helper.NormalizeIdempotent | Membership/Helper.cs:5-28 | normalising without the domain is idempotent |
| Helper.NormalizeDiffersFromRemoveDomain | Membership/Helper.cs:18-26 | for any `x\y\z` whose segments hold neither a backslash nor the claims bar, normalisation keeps `y` where `RemoveDomain` keeps `z` |
| Helper.IsClaimsUser | Membership/Helper.cs:30-33 | true exactly when the login contains a pipe; a login that is not a claims login is left alone by `RemoveClaimsPrefixIfPresent` |
| Helper.IsUserWithDomain | Membership/Helper.cs:35-38 | true exactly when the login contains `\`, agreeing with `HasDomain` |
| Sids.IsSID | Membership/ADHelper.cs:112-131 | false for blank strings and strings not starting with `s-` in either case; otherwise the parser decides |
| Sids.Lookup | Membership/InteropHelper.cs:624-704 | a successful name is exactly the name `LookupAccount` returns, and a failure is its exception; an unmapped SID names itself |
| Sids.TryAdd | Membership/ADHelper.cs:142 | inserts only when the key is absent; existing entries are kept |
| Sids.ResolveSID | Membership/ADHelper.cs:133-145 | a hit returns the cached name and leaves the cache; a miss asks the directory once and adds a successful answer; the cache only grows; coherence is kept and the answer is then the directory's |
| Sids.ExtendsTransitive | Membership/ADHelper.cs:133-145 | cache growth composes over successive calls |
| Sids.CacheHitIgnoresDirectory | Membership/ADHelper.cs:135-138 | a cached SID is answered without consulting the directory |
| Sids.ResolveTwice | Membership/ADHelper.cs:133-145 | a second resolution of a resolved SID returns the same name and leaves the cache unchanged |
| Sids.UnmappedSidResolvesToItself | Membership/InteropHelper.cs:649-654 | an unmapped SID resolves to itself, is cached as itself, and resolves so again |
| Interop.FlagsAreDistinctSingleBits | Membership/InteropHelper.cs:413-427 | each accessor's flag is one bit and no two accessors share one |
| Interop.DomainControllerInfo.DomainControllerNameIsDnsFormat | Membership/InteropHelper.cs:188-194 | yes exactly when bit 29 of the flags is set |
| Interop.DomainControllerInfo.DomainNameIsDnsFormat | Membership/InteropHelper.cs:202-208 | yes exactly when bit 30 of the flags is set |
| Interop.DomainControllerInfo.DnsForestNameIsDnsFormat | Membership/InteropHelper.cs:216-222 | yes exactly when bit 31 of the flags is set |
| Interop.DomainControllerInfo.DomainControllerIsDsServer | Membership/InteropHelper.cs:230-236 | yes exactly when bit 4 of the flags is set |
| Interop.DomainControllerInfo.DomainControllerIsGcServer | Membership/InteropHelper.cs:244-250 | yes exactly when bit 2 of the flags is set |
| Interop.DomainControllerInfo.DomainControllerIsKerberosKeyDistributionCenter | Membership/InteropHelper.cs:258-264 | yes exactly when bit 5 of the flags is set |
| Interop.DomainControllerInfo.DomainControllerIsPDC | Membership/InteropHelper.cs:272-278 | yes exactly when bit 0 of the flags is set |
| Interop.DomainControllerInfo.DomainControllerRunsTimeService | Membership/InteropHelper.cs:286-292 | yes exactly when bit 6 of the flags is set |
| Interop.DomainControllerInfo.DomainControllerIsWritable | Membership/InteropHelper.cs:300-306 | yes exactly when bit 8 of the flags is set |
| Interop.AccessorReadsFlag | Membership/InteropHelper.cs:188-306 | accessor k answers yes exactly when the word holds the k-th flag |
| Interop.HighBitsAgree | Membership/InteropHelper.cs:425-427 | words that agree above the ping flags agree on every DNS-format bit |
| Interop.PingBitsAgree | Membership/InteropHelper.cs:413-423 | words that agree on the ping flags agree on every role bit |
| Interop.DnsFlagsIndependentOfPingFlags | Membership/InteropHelper.cs:188-222 | the three DNS-format answers do not depend on the low ping flags |
| Interop.RoleFlagsAreWithinPingFlags | Membership/InteropHelper.cs:230-306 | the six role answers depend only on the ping flags |
| Interop.EachAccessorReadsItsOwnBit | Membership/InteropHelper.cs:188-306 | for all nine accessors and all nine flags: in a word holding only flag k, accessor j answers yes exactly when j is k |
| Interop.GetLastError | Membership/InteropHelper.cs:522-555 | no exception exactly for code 0; otherwise the system message, or "Unknown Error: " and the code |
| Interop.LookupAccount | Membership/InteropHelper.cs:624-704 | null for null; an unmapped SID returns itself; otherwise `domain\account`, or the bare account when the domain is empty; failure exactly when conversion fails, the sizing call reports anything but "none mapped" or "insufficient buffer", or the second call fails; the failures carry "Unable to convert SDDL SID '...'" or "Unable to resolve SID" with the matching Win32 error inside |
| Interop.GetDC | Membership/InteropHelper.cs:340-356 | null exactly when the API fails; otherwise the `\`-free segments of the name glued together in order, shorter by the number of `\` |
| Interop.RemoveCharCount | Membership/InteropHelper.cs:355 | removing a character shortens the text by its number of occurrences |
| Interop.RemoveCharAppend | Membership/InteropHelper.cs:355 | removing a character distributes over concatenation |
| Interop.RemoveCharIsJoinOfSplit | Membership/InteropHelper.cs:355 | removing every `c` equals joining the segments of the split on `c` with nothing between them |
| Accounts.DomainAndSam | Membership/AD/DomainAccount.cs:87-97 | a login with exactly one `\` is `domain\sam`; any other login has no domain and is its own SAM account name |
| Accounts.SplitInTwo | Membership/AD/DomainAccount.cs:121-127 | the split has two parts exactly when the text holds one `\`, and then they are the two sides of it |
| Accounts.TwoPartsUnique | Membership/AD/DomainAccount.cs:121-127 | the two sides of a single `\` are determined by the text |
| Accounts.ParseLogin | Membership/AD/DomainAccount.cs:67-101 | the pseudo tokens are matched exactly before stripping and keep the raw login; otherwise `UserId` is -1, `Email` is empty and `DisplayName` is the login; a SID login records the SID and takes the directory's name; failure happens exactly when a needed lookup fails |
| Accounts.NewDomainAccount | Membership/AD/DomainAccount.cs:67-101 | the cache only grows and is untouched when no SID needs resolving; the recorded SID depends on the login alone; with a coherent cache the result equals `ParseLogin` |
| Accounts.ParseLoginIgnoresClaimsPrefix | Membership/AD/DomainAccount.cs:81 | a claims login (issuer, pipe, name) parses like the bare name unless it spells a pseudo token |
| Accounts.ParseLoginIdempotent | Membership/AD/DomainAccount.cs:67-101 | re-parsing a parsed login without SID gives the same account |
| Accounts.ResolvedSidGivesDomainAndSam | Membership/AD/DomainAccount.cs:79-97 | a SID login the directory maps to `DOM\name` parses into domain `DOM`, SAM account name `name` and that login, with the SID kept |
| Accounts.FromUserLogin | Membership/AD/DomainAccount.cs:116-135 | email, name and ID come from the record; a non-SID login with one `\` gives domain and SAM account name as its two sides, any other login gives neither; the domain is non-empty exactly for a plain login with a non-empty domain part; a SID login without record SID takes the resolved name, otherwise the record's SID and the stripped login are kept |
| Accounts.WithNameDomain | Membership/AD/DomainAccount.cs:136-144 | with an empty domain and a record name holding one `\`, domain and SAM account name become the two sides of the name; otherwise nothing changes; no other field ever changes |
| Accounts.UserAccount | Membership/AD/DomainAccount.cs:103-148 | email, display name and ID come from the record; each pseudo flag is set exactly for its token and a pseudo account keeps login and SID with no domain; otherwise login and SID as in the login step, and domain and SAM account name taken from the login, else from the record name, else from a `\sam` login, else empty |
| Accounts.AccountFromUser | Membership/AD/DomainAccount.cs:103-148 | the record constructor: email, display name and ID from the record, pseudo flags for the exact tokens, SID resolved only when the record has none, domain and SAM account name by the same order of preference as `UserAccount`, failure exactly when that lookup fails |
| Accounts.NewDomainAccountFromUser | Membership/AD/DomainAccount.cs:103-148 | the cache only grows and is untouched without resolution; with a coherent cache the result equals `AccountFromUser` |
| Accounts.DomainFallsBackToName | Membership/AD/DomainAccount.cs:136-144 | when the login gives no domain (a SID, no single `\`, or an empty domain part), a record name with one `\` gives the domain and SAM account name that `DomainAndSam` reads off it |
| Accounts.ConstructorsAgreeOnPlainLogins | Membership/AD/DomainAccount.cs:116-127 | for a plain `domain\sam` login both constructors give the same domain, SAM account name and login, whatever the record name |
| Accounts.RecordSidSuppressesResolution | Membership/AD/DomainAccount.cs:128-135 | with a SID on the record nothing is looked up and the record's SID is kept |
| Accounts.PseudoFlagsExclusive | Membership/AD/DomainAccount.cs:71-78 | no account from either constructor is both pseudo-principals |
| Accounts.Equals | Membership/AD/DomainAccount.cs:150-166 | an account with all four compared fields empty equals nothing; an equal pair agrees in the length of at least one compared field |
| Accounts.FieldMatchesSymmetric | Membership/AD/DomainAccount.cs:158-165 | one field comparison is symmetric |
| Accounts.EqualsSymmetric | Membership/AD/DomainAccount.cs:158-165 | equality is symmetric |
| Accounts.EqualsReflexiveIff | Membership/AD/DomainAccount.cs:158-165 | an account equals itself exactly when one compared field is non-empty |
| Accounts.EqualsNotTransitive | Membership/AD/DomainAccount.cs:158-165 | a triple with a = b and b = c but not a = c exists |
| Accounts.Wrap32 | Membership/AD/DomainAccount.cs:170-173 | the 32-bit two's-complement value congruent to the sum |
| Accounts.GetHashCode | Membership/AD/DomainAccount.cs:168-174 | a 32-bit value; an account with all four compared fields empty hashes to 0 |
| Accounts.HashIgnoresCase | Membership/AD/DomainAccount.cs:168-174 | changing the case of the compared fields leaves the hash unchanged |
| Accounts.HashNotConsistentWithEquals | Membership/AD/DomainAccount.cs:168-174 | two equal accounts with different hash codes exist |
| AdHelper.SidsOf | Membership/ADHelper.cs:77 | the SIDs of the collected accounts, in order |
| AdHelper.DistinctFrom | Membership/ADHelper.cs:73-81 | first occurrences of the new SIDs only: no repeats and nothing already collected |
| AdHelper.CollectGroups | Membership/ADHelper.cs:73-81 | the collected list only grows and keeps the earlier accounts in front; failure only at an entry that may fail; the cache only grows and stays coherent (which accounts are appended: CollectDistinct and CollectParses) |
| AdHelper.GetGroupsFromADObject | Membership/ADHelper.cs:51-110 | refresh errors, non-user objects, a missing `tokenGroups` and loop failures all fail, wrapped with the user's name; a list comes back only when every step succeeded; when every entry is a SID, the list holds one account per distinct SID in first-occurrence order, and with a coherent cache each is `new DomainAccount(sid)` |
| AdHelper.GetUserAdGroups | Membership/ADHelper.cs:24-47 | the claims-stripped name is looked up; an unknown user fails with the not-found message; a principal without entry has no groups |
| AdHelper.GroupsIgnoreClaimsPrefix | Membership/ADHelper.cs:26 | a claims login and its bare name give the same groups |
| AdHelper.HasSidIff | Membership/ADHelper.cs:77 | the duplicate test is membership in the collected SIDs |
| AdHelper.Converted | Membership/ADHelper.cs:73-76 | the converted SIDs, one per entry, in order |
| AdHelper.CollectDistinct | Membership/ADHelper.cs:73-81 | the collected SIDs are the earlier ones followed by the distinct new SIDs in first-occurrence order |
| AdHelper.CollectParses | Membership/ADHelper.cs:76-80 | with a coherent cache, every appended account is the one the string constructor parses from its own SID |
| AdHelper.CollectedFromNothing | Membership/ADHelper.cs:71-81 | the loop started from an empty list yields exactly the distinct SIDs of the entries, each as its parsed account |
| AdHelper.WellFormedTail | Membership/ADHelper.cs:73-81 | well-formedness of the entries carries to the rest of the loop |
| AdHelper.SddlAccountSid | Membership/ADHelper.cs:79 | an account made from a SID records that SID |
| AdHelper.GroupsHaveDistinctSids | Membership/ADHelper.cs:73-81 | the result holds at most one account per SID |
| AdHelper.RepeatedSidIsSkipped | Membership/ADHelper.cs:77-80 | a SID already collected changes neither the result nor the cache |
| AdHelper.CollectCacheIndependent | Membership/ADHelper.cs:73-81 | from two coherent caches the loop collects the same accounts |
| AdHelper.GroupsCacheIndependent | Membership/ADHelper.cs:24-47 | from two coherent caches a user's groups are the same |
| AdUsers.StripControls | Membership/AD/AdUser.cs:65-72 | no control character remains, and every kept character was in the input |
| AdUsers.Fix | Membership/AD/AdUser.cs:59-73 | null gives ""; otherwise the text without control characters |
| AdUsers.StripControlsAppend | Membership/AD/AdUser.cs:65-72 | stripping works piecewise, so kept characters keep their order |
| AdUsers.StripControlsIdentity | Membership/AD/AdUser.cs:59-73 | control-free text is unchanged |
| AdUsers.FixIdempotent | Membership/AD/AdUser.cs:59-73 | `Fix` is idempotent and the identity on control-free text |
| AdUsers.DropAll | Membership/AD/AdUser.cs:69 | the kept characters are from the text and outside the dropped set |
| AdUsers.RemoveCharDropAll | Membership/AD/AdUser.cs:69 | one more `Replace` drops one more character |
| AdUsers.DropAllControls | Membership/AD/AdUser.cs:65-72 | dropping all occurring control characters is stripping |
| AdUsers.DropAllNone | Membership/AD/AdUser.cs:59-73 | dropping nothing keeps the text |
| AdUsers.FixByReplace | Membership/AD/AdUser.cs:59-73 | the `Replace` loop over the original's characters computes `Fix` |
| AdUsers.FromDomainAccount | Membership/AD/AdUser.cs:42-46 | the login is copied verbatim; the display name is `Fix` of the account's display name (control characters stripped), never longer, unchanged when clean |
| AdUsers.FromPrincipal | Membership/AD/AdUser.cs:48-52 | the login is context name, `\`, SAM account name; the display name is the principal's display name with control characters stripped, or "" when it is null |
| AdUsers.PrincipalLoginRoundTrip | Membership/AD/AdUser.cs:50 | splitting the login on `\` gives back context and SAM account name |
| AdGroups.KeyOf | Membership/AD/ADGroup.cs:75-95 | SAM account name if non-empty, else SID, else display name, else login name |
| AdGroups.KeySet | Membership/AD/ADGroup.cs:71 | every entry's key is in the key set |
| AdGroups.Values | Membership/AD/ADGroup.cs:117-120 | the dictionary's values in order |
| AdGroups.Get | Membership/AD/ADGroup.cs:109 | a value is found exactly for present keys |
| AdGroups.Upsert | Membership/AD/ADGroup.cs:109 | the indexer set: keys stay distinct, the key set grows by the key, lookups see the new value for that key and old values elsewhere |
| AdGroups.DistinctKeysCard | Membership/AD/ADGroup.cs:117-120 | with distinct keys the count of keys is the count of entries |
| AdGroups.CollectUsers | Membership/AD/ADGroup.cs:104-115 | keys stay distinct |
| AdGroups.LastUser | Membership/AD/ADGroup.cs:104-115 | for a SID held by some user member, the last such member |
| AdGroups.CollectUsersLastWins | Membership/AD/ADGroup.cs:104-115 | the keys are the SIDs of the user members; each maps to the user made from the last member with that SID |
| AdGroups.ValuesFromMembers | Membership/AD/ADGroup.cs:106-114 | every value is made from a user member; non-users never enter |
| AdGroups.InsertByLogin | Membership/AD/ADGroup.cs:119 | insertion keeps order by login and is a permutation |
| AdGroups.SortByLogin | Membership/AD/ADGroup.cs:119 | sorted by login and a permutation of the input |
| AdGroups.WithLogin | Membership/AD/ADGroup.cs:119 | the users with a given login, taken from the input |
| AdGroups.InsertByLoginStable | Membership/AD/ADGroup.cs:119 | the inserted user comes after every user with the same login |
| AdGroups.SortByLoginStable | Membership/AD/ADGroup.cs:119 | the sort is stable: users with the same login keep their input order |
| AdGroups.Resolve | Membership/AD/ADGroup.cs:67-126 | users sorted by login; `MemberCount` is the user count; on error no users; the log is a prefix of the full log; a context failure, a search failure, a `GetMembers` failure and an enumeration failure each set `ErrorMessages` to the chain joined with `<br/>` and keep the log lines written before it; a group not found gives no users and no error |
| AdGroups.Enumerate | Membership/AD/ADGroup.cs:96-126 | after `GetMembers`: sorted users, count, a log of at least three lines; an enumeration failure is captured with three log lines; without one there are no error messages |
| AdGroups.ResolveErrorIff | Membership/AD/ADGroup.cs:67-126 | error messages are present exactly when the context, the search, `GetMembers` or the enumeration threw; a group not found has none |
| AdGroups.NewADGroup | Membership/AD/ADGroup.cs:56-65 | without resolving: no users, no log, count 0; with it, `Resolve` |
| AdGroups.UnresolvedIgnoresDirectory | Membership/AD/ADGroup.cs:56-65 | without resolving, the directory is not consulted |
| AdGroups.LogLineHeads | Membership/AD/ADGroup.cs:72-117 | the four log lines start differently |
| AdGroups.KeyLineOnlySecond | Membership/AD/ADGroup.cs:76-95 | in any log prefix only the second line starts with "Using " |
| AdGroups.OneKeyLine | Membership/AD/ADGroup.cs:76-95 | once the context exists, exactly one "Using ... to find group." line is written |
| AdGroups.ResolveFound | Membership/AD/ADGroup.cs:96-120 | a found group's users and count come from the member dictionary |
| AdGroups.ResolvedUsers | Membership/AD/ADGroup.cs:104-120 | the count is the number of distinct user SIDs; each appears via its last member; every user comes from a user member |
| AdGroups.UsersOfDict | Membership/AD/ADGroup.cs:104-120 | the sorted values hold one user per SID and only users made from members |
| AdGroups.LastUserKept | Membership/AD/ADGroup.cs:108-109 | the last member for a SID survives into the sorted users |
| AdGroups.UsersFromMembers | Membership/AD/ADGroup.cs:106-119 | every sorted user is made from some user member |
| AdGroups.GetIsValue | Membership/AD/ADGroup.cs:109-119 | a stored value is among the dictionary's values |
| Results.StringListOf | Membership/ResultWrapper.cs:17-29 | success exactly without exception; the list is kept even on failure; the error is the chain joined with one space |
| Results.StringListFromMessage | Membership/ResultWrapper.cs:31-36 | failure with an empty list and the given error |
| Results.BoolOf | Membership/ResultWrapper.cs:65-77 | success exactly without exception; on failure the result is false whatever was passed |
| Results.EmptyADGroupResult | Membership/ResultWrapper.cs:48-53 | no success, no error, no group |
| Results.ErrorTextOfShortChains | Membership/ResultWrapper.cs:65-77 | one exception gives its message; two give both around a space |
| SpHelper.AccountsOf | Membership/SPHelper.cs:10-28 | one account per user in order, or a constructor's failure |
| SpHelper.AccountsFromUsers | Membership/SPHelper.cs:16-20 | the cache only grows; with a coherent cache the result equals `AccountsOf` |
| SpHelper.GetSiteGroupMembers | Membership/SPHelper.cs:10-28 | an unknown group fails; otherwise the group's users as accounts |
| SpHelper.MemberListed | Membership/SPHelper.cs:53-81 | a group is listed only when some member matches |
| SpHelper.MemberListedIff | Membership/SPHelper.cs:53-81 | without failures, a group is listed exactly when a member matches: a non-group member by ID, a domain-group member by equality with an AD group of the user or as a pseudo-principal |
| SpHelper.GroupsListed | Membership/SPHelper.cs:51-82 | the listed names are names of site groups, no more than there are groups |
| SpHelper.ListingNames | Membership/SPHelper.cs:51-82 | a name is listed exactly when a group of that name lists the user; with distinct group names no name is listed twice |
| SpHelper.GroupsListedIff | Membership/SPHelper.cs:51-82 | without failures the scan lists exactly the listing groups, once each, in site-group order |
| SpHelper.UserGroupsFromCache | Membership/SPHelper.cs:58-61 | with a coherent cache the user's AD groups do not depend on the cache |
| SpHelper.UserGroupsAreTokenGroups | Membership/ADHelper.cs:71-81 | the AD groups every web operation uses are one account per distinct `tokenGroups` SID, in order, each parsed from its SID |
| SpHelper.ScanMembers | Membership/SPHelper.cs:53-81 | the AD groups are fetched at most once and only after a domain-group member; without domain groups nothing is fetched |
| SpHelper.ScanMembersAgrees | Membership/SPHelper.cs:53-81 | with a coherent cache the scan decides as `MemberListed` on the user's AD groups, and the list it fetches is that list |
| SpHelper.ScanGroups | Membership/SPHelper.cs:51-82 | a fetched list is reused across groups; the scan equals `GroupsListed` |
| SpHelper.GetSiteGroupsOfUser | Membership/SPHelper.cs:43-85 | an `EnsureUser` failure fails; with a coherent cache the result is `GroupsListed` for the ensured user's ID |
| SpHelper.NoDomainGroupsNoLookup | Membership/SPHelper.cs:46-61 | a site without domain-group members never asks for the user's AD groups |
| Service.EnsureParameter | ISAPI/MGL/Membership.svc.cs:227-233 | refusal exactly for blank values, naming the parameter |
| Service.EnsureLoginAndGroup | ISAPI/MGL/Membership.svc.cs:21-22 | refusal exactly when either is blank, the login checked first |
| Service.BoolFrom | ISAPI/MGL/Membership.svc.cs:38-42 | success exactly for a decision; true only for a successful `true` |
| Service.Logins | ISAPI/MGL/Membership.svc.cs:104 | the logins of the accounts, in order |
| Service.IsUserInADGroup | ISAPI/MGL/Membership.svc.cs:16-43 | a blank parameter gives success false and result false; a pseudo group gives true with no lookup; with a coherent cache the answer is `ADGroupDecision` |
| Service.IsUserInADGroupIff | ISAPI/MGL/Membership.svc.cs:24-35 | a successful `true` exactly when parameters are given, the group parses, and it is a pseudo-principal or equal to one of the user's AD groups |
| Service.SiteDecision | ISAPI/MGL/Membership.svc.cs:64-84 | true exactly for a pseudo member, a member equal to the user, or a member equal to an AD group of the user; the first two decide without the groups |
| Service.SiteDecisionMonotone | ISAPI/MGL/Membership.svc.cs:64-84 | adding members never turns a true answer false |
| Service.IsUserInSiteGroup | ISAPI/MGL/Membership.svc.cs:45-93 | blank parameters give success false and result false; with a coherent cache the answer is `SiteGroupDecision` |
| Service.SiteShortCircuitSkipsLookup | ISAPI/MGL/Membership.svc.cs:64-74 | when a pseudo member or the user itself decides, the answer is true and independent of the user lookup |
| Service.GetADGroupsOfUser | ISAPI/MGL/Membership.svc.cs:95-113 | failure gives an empty list with the error; with a coherent cache success lists the logins of the stripped name's AD groups |
| Service.GetAllSiteGroups | ISAPI/MGL/Membership.svc.cs:115-132 | success with the names of all site groups, in order |
| Service.GroupNames | Membership/SPHelper.cs:35-38 | one name per group, in order |
| Service.GetSiteGroupsOfUser | ISAPI/MGL/Membership.svc.cs:134-152 | failure gives an empty list with the error; an `EnsureUser` failure gives its exception; with a coherent cache success is exactly `GroupsListed` |
| Service.GetSiteGroupMembers | ISAPI/MGL/Membership.svc.cs:154-176 | an unknown group gives an empty list with the error; with a coherent cache success lists one login per group user |
| Service.ResolveADGroup | ISAPI/MGL/Membership.svc.cs:178-212 | a blank name or an `EnsureUser` failure gives the failure wrapper of that exception; a non-group principal gives "... is not the name of an AD group."; with a coherent cache a domain group whose account builds succeeds with `NewADGroup(account, true)`, and an account failure gives its exception |
| Service.ResolveFailed | ISAPI/MGL/Membership.svc.cs:206-210 | no success, no group, and the error is the chain's messages joined with a new line |
| Service.ResolveADGroupSucceedsIff | ISAPI/MGL/Membership.svc.cs:178-212 | with a coherent cache: success exactly when the name is given, names a domain group, and the group's account builds |
| Service.UserLogins | ISAPI/MGL/Membership.svc.cs:219 | the users' logins, in order |
| Service.GetADGroupMembers | ISAPI/MGL/Membership.svc.cs:214-225 | success lists the group's logins sorted; a failure returns the resolution error with an empty list, including the non-group case |
| Service.MemberLookupFailureIsEmptySuccess | ISAPI/MGL/Membership.svc.cs:214-225 | a group whose member lookup failed is reported as success with no members |

## Left out

- The browser test page, the WCF contract interfaces and the behaviour-free
  `ResolveGroupResult` record: they carry no logic.
- `Extensions.HasPermissionsAssigned`: a SharePoint role query outside the
  membership logic.
- `SPContext`, `SPSite`/`SPWeb` creation, `RunWithElevatedPrivileges`,
  `AllowUnsafeUpdates`:
  - the current site is the `Environment` parameter;
  - a failure to reach the current site, which happens outside the `try`
    in `IsUserInSiteGroup`, is not modelled.
- The directory and SharePoint calls are oracle fields:
  `PrincipalContext`, `FindByIdentity`, `GetMembers`, `RefreshCache`,
  `EnsureUser` and `SiteGroups`.
- Win32 plumbing:
  - buffer sizing, `LocalFree`;
  - `GetTokenGroups`, `LookupSid`, `ConvertSidToSDDL`,
    `GetDomainControllerInfo`;
  - the SID grammar behind `SecurityIdentifier`, which is a parser
    parameter.
- Concurrency of the `ConcurrentDictionary` cache: calls are sequential,
  and `TryAdd` is insert-if-absent.
- Stopwatch timings are given text in the `GroupDirectory`. `Debug.WriteLine`
  and `Debugger.Break` have no effect.
- Culture-aware case folding is ASCII folding; `string.GetHashCode` is a
  parameter.
- `DomainAccount.Equals` against an object of another type; only `null` is
  modelled (`Accounts.EqualsObject`).
- The `null` check of `GetGroupsFromADObject`: its only caller never passes
  `null`.
- A group member principal with a `null` SID: the SID is a plain string.
- Accounts.ParseLogin: a pseudo-principal from the string constructor has
  empty email and display name where the code leaves them `null`.
- AdGroups.Resolve: the log states only the line prefixes and the seconds
  as given text, not the floating-point formatting of the elapsed time.
- Accounts.Equals: its contract states consequences of the field-wise
  OR (no match without a non-empty field, a length agreement on some
  field); the OR itself is its definition, and its algebra is stated by
  `EqualsSymmetric`, `EqualsReflexiveIff` and `EqualsNotTransitive`.
- AdGroups.SortByLogin: `OrderBy` uses the culture-sensitive default string
  comparer; the model sorts in ordinal (code-unit) order, so mixed-case
  logins such as `DOM\alice` and `DOM\Bob` come out in a different order.
- AdHelper.GetGroupsFromADObject: the `tokenGroups` oracle stands for the
  entries the loop walks. In .NET an attribute with no value or one value
  is not an array, so the loop throws and the call fails with the wrapped
  conversion error, where the model returns no group or one group. The
  access-denied branch, which .NET never reaches because the property
  collection never yields `null`, is kept as the code writes it. Which
  accounts come back is stated for entries that all convert to SID text
  (`WellFormedSids`), the only form `ConvertSidToStringSid` produces.
- SpHelper.MemberListed: its contract gives one direction only; the
  equivalence is `SpHelper.MemberListedIff`, which assumes every
  domain-group member's account can be built.
- Service.IsUserInSiteGroup: "at most one AD lookup" is stated through
  `SiteShortCircuitSkipsLookup` and the reference decision, not as a count
  of directory calls.
