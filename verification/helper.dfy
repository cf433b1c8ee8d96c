/** `Helper`: user-name normalisation and the two login-shape tests. */
module Helper {
  import opened Strings
  import Extensions

  /** `NormalizeUserName(loginName, keepDomain)`: the claims prefix is cut off
      as in `RemoveClaimsPrefixIfPresent`; without `keepDomain` the name is
      further cut to the segment after the first `\` (not the last one, unlike
      `RemoveDomain`). */
  function NormalizeUserName(loginName: string, keepDomain: bool): (r: string)
    ensures keepDomain ==> r == Extensions.RemoveClaimsPrefixIfPresent(loginName)
    ensures !keepDomain ==> '|' !in r && '\\' !in r
    ensures !keepDomain ==>
      var u := Extensions.RemoveClaimsPrefixIfPresent(loginName);
      ('\\' !in u ==> r == u) && ('\\' in u ==> SegmentAfterFirst(u, '\\', r))
  {
    var userName :=
      if IndexOf(loginName, '|') != -1 then Split(loginName, '|')[1] else loginName;
    if !keepDomain && IndexOf(userName, '\\') != -1 then
      SplitSecond(userName, '\\');
      Split(userName, '\\')[1]
    else
      userName
  }

  /** A name with neither `|` nor `\` is left alone whatever `keepDomain` says. */
  lemma NormalizePlainName(s: string, keepDomain: bool)
    requires '|' !in s && '\\' !in s
    ensures NormalizeUserName(s, keepDomain) == s
  {
  }

  /** Normalising without the domain is idempotent. */
  lemma NormalizeIdempotent(s: string)
    ensures NormalizeUserName(NormalizeUserName(s, false), false) == NormalizeUserName(s, false)
  {
    NormalizePlainName(NormalizeUserName(s, false), false);
  }

  /** With two backslashes the two domain strippers disagree:
      `NormalizeUserName` keeps the second segment, `RemoveDomain` the last. */
  lemma NormalizeDiffersFromRemoveDomain(x: string, y: string, z: string)
    requires '\\' !in x && '\\' !in y && '\\' !in z
    requires '|' !in x && '|' !in y && '|' !in z
    ensures NormalizeUserName(x + "\\" + y + "\\" + z, false) == y
    ensures Extensions.RemoveDomain(x + "\\" + y + "\\" + z) == z
  {
    var s := x + "\\" + y + "\\" + z;
    assert s == x + ['\\'] + y + ['\\'] + z;
    SplitThreeSegments(x, y, z, '\\');
    assert '|' !in s;
  }

  lemma SplitThreeSegments(x: string, y: string, z: string, c: char)
    requires c !in x && c !in y && c !in z
    ensures Split(x + [c] + y + [c] + z, c) == [x, y, z]
  {
    SplitAfter(y, c, z);
    assert IndexOf(z, c) == -1;
    assert x + [c] + y + [c] + z == x + [c] + (y + [c] + z);
    SplitAfter(x, c, y + [c] + z);
  }

  /** `IsClaimsUser`: the login carries a claims `|`. */
  function IsClaimsUser(loginName: string): (r: bool)
    ensures r <==> '|' in loginName
    ensures !r ==> Extensions.RemoveClaimsPrefixIfPresent(loginName) == loginName
  {
    IndexOf(loginName, '|') != -1
  }

  /** `IsUserWithDomain`: the login carries a `\`, as `HasDomain` says. */
  function IsUserWithDomain(loginName: string): (r: bool)
    ensures r <==> '\\' in loginName
    ensures r == Extensions.HasDomain(loginName)
  {
    IndexOf(loginName, '\\') != -1
  }
}
