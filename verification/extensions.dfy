/** String extension methods of the membership library: claims-prefix and
    domain handling of login names, and flattening of an exception chain
    into one message. */
module Extensions {
  import opened Wrappers
  import opened Strings

  /** A .NET exception as far as the library looks at it: its message and
      the exception it wraps, if any. */
  datatype Exception = Exception(message: string, inner: Option<Exception>)

  /** The messages of an exception chain, outermost first. */
  function Messages(ex: Exception): (ms: seq<string>)
    ensures |ms| >= 1 && ms[0] == ex.message
    decreases ex
  {
    match ex.inner
    case None => [ex.message]
    case Some(e) => [ex.message] + Messages(e)
  }

  /** `ex.GetAllMessages(delimiter)`: the outer message, then for each inner
      exception in chain order the delimiter and its message. */
  function GetAllMessages(ex: Exception, delimiter: string): (r: string)
    ensures r == Join(Messages(ex), delimiter)
    decreases ex
  {
    match ex.inner
    case None => ex.message
    case Some(e) =>
      var rest := GetAllMessages(e, delimiter);
      JoinCons(ex.message, Messages(e), delimiter);
      ex.message + delimiter + rest
  }

  /** When no message contains the one-character delimiter, the flattened
      text splits back into exactly the chain's messages, so a chain of n
      exceptions carries exactly n - 1 delimiters. */
  lemma AllMessagesSplit(ex: Exception, d: char)
    requires forall i :: 0 <= i < |Messages(ex)| ==> d !in Messages(ex)[i]
    ensures Split(GetAllMessages(ex, [d]), d) == Messages(ex)
    ensures Count(GetAllMessages(ex, [d]), d) == |Messages(ex)| - 1
  {
    JoinSplit(Messages(ex), d);
    SplitCount(GetAllMessages(ex, [d]), d);
  }

  /** `RemoveClaimsPrefixIfPresent`: a claims login `issuer|name|...` is cut
      down to the segment after the first `|`; other logins are returned as
      they are. */
  function RemoveClaimsPrefixIfPresent(claimsLogin: string): (r: string)
    ensures '|' !in r
    ensures '|' !in claimsLogin ==> r == claimsLogin
    ensures '|' in claimsLogin ==> SegmentAfterFirst(claimsLogin, '|', r)
  {
    if IndexOf(claimsLogin, '|') != -1 then
      SplitSecond(claimsLogin, '|');
      Split(claimsLogin, '|')[1]
    else
      claimsLogin
  }

  /** Stripping the claims prefix twice is the same as stripping it once. */
  lemma RemoveClaimsPrefixIdempotent(s: string)
    ensures RemoveClaimsPrefixIfPresent(RemoveClaimsPrefixIfPresent(s))
         == RemoveClaimsPrefixIfPresent(s)
  {
  }

  /** The issuer part of a claims login never survives: `p|x` and `p|x|y`
      both give `x`. */
  lemma RemoveClaimsPrefixOfClaimsLogin(prefix: string, name: string, rest: string)
    requires '|' !in prefix && '|' !in name
    requires |rest| == 0 || rest[0] == '|'
    ensures RemoveClaimsPrefixIfPresent(prefix + "|" + name + rest) == name
  {
    var s := prefix + "|" + name + rest;
    assert s == prefix + ['|'] + (name + rest);
    SplitAfter(prefix, '|', name + rest);
    SplitFirstSegment(name, '|', rest);
  }

  /** `HasDomain`: the login carries a `\`. */
  function HasDomain(loginName: string): (r: bool)
    ensures r <==> '\\' in loginName
  {
    IndexOf(loginName, '\\') != -1
  }

  /** `RemoveDomain`: the part after the last `\`, or the login itself. */
  function RemoveDomain(loginName: string): (r: string)
    ensures '\\' !in r
    ensures !HasDomain(loginName) ==> r == loginName
    ensures HasDomain(loginName) ==> SegmentAfterLast(loginName, '\\', r)
  {
    if HasDomain(loginName) then
      var parts := Split(loginName, '\\');
      SplitLast(loginName, '\\');
      parts[|parts| - 1]
    else
      loginName
  }

  /** `RemoveDomain` is idempotent. */
  lemma RemoveDomainIdempotent(s: string)
    ensures RemoveDomain(RemoveDomain(s)) == RemoveDomain(s)
  {
  }
}
