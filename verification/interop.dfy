/** The logic of the Win32 wrappers: decoding of the `DOMAIN_CONTROLLER_INFO`
    flags, turning an error code into an exception, composing the result of
    a SID-to-account lookup, and cleaning a domain controller name. The
    Win32 calls themselves are parameters. */
module Interop {
  import opened Wrappers
  import opened Strings
  import opened Extensions

  const NERR_SUCCESS := 0
  const ERROR_INSUFFICIENT_BUFFER := 122
  const ERROR_NONE_MAPPED := 1332

  // Values for `Flags` returned by DsGetDcName.
  const DS_PDC_FLAG: bv32 := 0x0000_0001
  const DS_GC_FLAG: bv32 := 0x0000_0004
  const DS_LDAP_FLAG: bv32 := 0x0000_0008
  const DS_DS_FLAG: bv32 := 0x0000_0010
  const DS_KDC_FLAG: bv32 := 0x0000_0020
  const DS_TIMESERV_FLAG: bv32 := 0x0000_0040
  const DS_CLOSEST_FLAG: bv32 := 0x0000_0080
  const DS_WRITABLE_FLAG: bv32 := 0x0000_0100
  const DS_GOOD_TIMESERV_FLAG: bv32 := 0x0000_0200
  const DS_NDNC_FLAG: bv32 := 0x0000_0400
  const DS_PING_FLAGS: bv32 := 0x0000_FFFF
  const DS_DNS_CONTROLLER_FLAG: bv32 := 0x2000_0000
  const DS_DNS_DOMAIN_FLAG: bv32 := 0x4000_0000
  const DS_DNS_FOREST_FLAG: bv32 := 0x8000_0000

  /** The part of `DOMAIN_CONTROLLER_INFO` the accessors read. */
  datatype DomainControllerInfo = DomainControllerInfo(domainControllerName: string, flags: bv32)
  {
    /** Bit 29 of the flags. */
    function DomainControllerNameIsDnsFormat(): (r: bool)
      ensures r <==> (flags >> 29) & 1 == 1
    {
      flags & DS_DNS_CONTROLLER_FLAG != 0
    }

    /** Bit 30 of the flags. */
    function DomainNameIsDnsFormat(): (r: bool)
      ensures r <==> (flags >> 30) & 1 == 1
    {
      flags & DS_DNS_DOMAIN_FLAG != 0
    }

    /** Bit 31 of the flags. */
    function DnsForestNameIsDnsFormat(): (r: bool)
      ensures r <==> (flags >> 31) & 1 == 1
    {
      flags & DS_DNS_FOREST_FLAG != 0
    }

    /** Bit 4 of the flags. */
    function DomainControllerIsDsServer(): (r: bool)
      ensures r <==> (flags >> 4) & 1 == 1
    {
      flags & DS_DS_FLAG != 0
    }

    /** Bit 2 of the flags. */
    function DomainControllerIsGcServer(): (r: bool)
      ensures r <==> (flags >> 2) & 1 == 1
    {
      flags & DS_GC_FLAG != 0
    }

    /** Bit 5 of the flags. */
    function DomainControllerIsKerberosKeyDistributionCenter(): (r: bool)
      ensures r <==> (flags >> 5) & 1 == 1
    {
      flags & DS_KDC_FLAG != 0
    }

    /** Bit 0 of the flags. */
    function DomainControllerIsPDC(): (r: bool)
      ensures r <==> (flags >> 0) & 1 == 1
    {
      flags & DS_PDC_FLAG != 0
    }

    /** Bit 6 of the flags. */
    function DomainControllerRunsTimeService(): (r: bool)
      ensures r <==> (flags >> 6) & 1 == 1
    {
      flags & DS_TIMESERV_FLAG != 0
    }

    /** Bit 8 of the flags. */
    function DomainControllerIsWritable(): (r: bool)
      ensures r <==> (flags >> 8) & 1 == 1
    {
      flags & DS_WRITABLE_FLAG != 0
    }
  }

  /** Every flag an accessor reads is a single bit, and no two accessors
      read the same bit. */
  lemma FlagsAreDistinctSingleBits()
    ensures forall c | c in AccessorFlags() :: c != 0 && c & (c - 1) == 0
    ensures forall i, j | 0 <= i < j < |AccessorFlagList()| ::
              AccessorFlagList()[i] & AccessorFlagList()[j] == 0
  {
  }

  function AccessorFlagList(): seq<bv32> {
    [DS_PDC_FLAG, DS_GC_FLAG, DS_DS_FLAG, DS_KDC_FLAG, DS_TIMESERV_FLAG, DS_WRITABLE_FLAG,
     DS_DNS_CONTROLLER_FLAG, DS_DNS_DOMAIN_FLAG, DS_DNS_FOREST_FLAG]
  }

  function AccessorFlags(): set<bv32> {
    set c | c in AccessorFlagList()
  }

  /** Two flag words that agree above the ping flags agree on every bit
      that lies above them. */
  lemma HighBitsAgree(f: bv32, g: bv32, c: bv32)
    requires f & !DS_PING_FLAGS == g & !DS_PING_FLAGS
    requires c & DS_PING_FLAGS == 0
    ensures f & c == g & c
  {
  }

  /** Two flag words that agree on the ping flags agree on every bit among
      them. */
  lemma PingBitsAgree(f: bv32, g: bv32, c: bv32)
    requires f & DS_PING_FLAGS == g & DS_PING_FLAGS
    requires c & !DS_PING_FLAGS == 0
    ensures f & c == g & c
  {
  }

  /** The three DNS-format answers depend only on the bits above the ping
      flags: changing any ping flag changes none of them. */
  lemma DnsFlagsIndependentOfPingFlags(f: bv32, g: bv32)
    requires f & !DS_PING_FLAGS == g & !DS_PING_FLAGS
    ensures DomainControllerInfo("", f).DomainControllerNameIsDnsFormat()
        == DomainControllerInfo("", g).DomainControllerNameIsDnsFormat()
    ensures DomainControllerInfo("", f).DomainNameIsDnsFormat()
        == DomainControllerInfo("", g).DomainNameIsDnsFormat()
    ensures DomainControllerInfo("", f).DnsForestNameIsDnsFormat()
        == DomainControllerInfo("", g).DnsForestNameIsDnsFormat()
  {
    HighBitsAgree(f, g, DS_DNS_CONTROLLER_FLAG);
    HighBitsAgree(f, g, DS_DNS_DOMAIN_FLAG);
    HighBitsAgree(f, g, DS_DNS_FOREST_FLAG);
  }

  /** The six role answers depend only on the ping flags. */
  lemma RoleFlagsAreWithinPingFlags(f: bv32, g: bv32)
    requires f & DS_PING_FLAGS == g & DS_PING_FLAGS
    ensures DomainControllerInfo("", f).DomainControllerIsPDC()
        == DomainControllerInfo("", g).DomainControllerIsPDC()
    ensures DomainControllerInfo("", f).DomainControllerIsGcServer()
        == DomainControllerInfo("", g).DomainControllerIsGcServer()
    ensures DomainControllerInfo("", f).DomainControllerIsDsServer()
        == DomainControllerInfo("", g).DomainControllerIsDsServer()
    ensures DomainControllerInfo("", f).DomainControllerIsKerberosKeyDistributionCenter()
        == DomainControllerInfo("", g).DomainControllerIsKerberosKeyDistributionCenter()
    ensures DomainControllerInfo("", f).DomainControllerRunsTimeService()
        == DomainControllerInfo("", g).DomainControllerRunsTimeService()
    ensures DomainControllerInfo("", f).DomainControllerIsWritable()
        == DomainControllerInfo("", g).DomainControllerIsWritable()
  {
    PingBitsAgree(f, g, DS_PDC_FLAG);
    PingBitsAgree(f, g, DS_GC_FLAG);
    PingBitsAgree(f, g, DS_DS_FLAG);
    PingBitsAgree(f, g, DS_KDC_FLAG);
    PingBitsAgree(f, g, DS_TIMESERV_FLAG);
    PingBitsAgree(f, g, DS_WRITABLE_FLAG);
  }

  /** The nine accessors, numbered in the order of `AccessorFlagList`. */
  function Accessor(info: DomainControllerInfo, k: nat): bool
    requires k < 9
  {
    match k
    case 0 => info.DomainControllerIsPDC()
    case 1 => info.DomainControllerIsGcServer()
    case 2 => info.DomainControllerIsDsServer()
    case 3 => info.DomainControllerIsKerberosKeyDistributionCenter()
    case 4 => info.DomainControllerRunsTimeService()
    case 5 => info.DomainControllerIsWritable()
    case 6 => info.DomainControllerNameIsDnsFormat()
    case 7 => info.DomainNameIsDnsFormat()
    case _ => info.DnsForestNameIsDnsFormat()
  }

  /** Accessor `k` answers yes exactly when the word holds flag `k`. */
  lemma AccessorReadsFlag(info: DomainControllerInfo, k: nat)
    requires k < 9
    ensures Accessor(info, k) <==> info.flags & AccessorFlagList()[k] != 0
  {
  }

  /** Each accessor answers for exactly its own bit: in a word holding only
      the flag of accessor `k`, accessor `k` says yes and the other eight say
      no. */
  lemma EachAccessorReadsItsOwnBit()
    ensures forall k: nat, j: nat | k < 9 && j < 9 ::
      Accessor(DomainControllerInfo("", AccessorFlagList()[k]), j) <==> j == k
  {
    forall k: nat, j: nat | k < 9 && j < 9
      ensures Accessor(DomainControllerInfo("", AccessorFlagList()[k]), j) <==> j == k
    {
      AccessorReadsFlag(DomainControllerInfo("", AccessorFlagList()[k]), j);
      FlagsAreDistinctSingleBits();
      if j != k {
        assert AccessorFlagList()[k] & AccessorFlagList()[j] == 0 by {
          if j < k {
            assert AccessorFlagList()[j] & AccessorFlagList()[k] == 0;
          }
        }
      }
    }
  }

  /** `GetLastError(errorCode)`: no exception for success, otherwise one
      carrying the system message, or "Unknown Error: <code>" when the system
      has none. `formatMessage` stands for `FormatMessageA`. */
  function GetLastError(errorCode: int, formatMessage: int -> Option<string>): (r: Option<Exception>)
    ensures r.None? <==> errorCode == NERR_SUCCESS
    ensures r.Some? ==> r.value.inner.None?
    ensures r.Some? && formatMessage(errorCode).Some? ==>
              r.value.message == formatMessage(errorCode).value
    ensures r.Some? && formatMessage(errorCode).None? ==>
              r.value.message == "Unknown Error: " + IntToString(errorCode)
  {
    if errorCode != NERR_SUCCESS then
      match formatMessage(errorCode)
      case Some(message) => Some(Exception(message, None))
      case None => Some(Exception("Unknown Error: " + IntToString(errorCode), None))
    else
      None
  }

  /** What the Win32 side of `LookupAccount` reports for one SID: whether
      `ConvertStringSidToSid` succeeded, the last error after the sizing call
      of `LookupAccountSid`, whether the second call succeeded, and the
      domain and account names it returned. */
  datatype SidLookup = SidLookup(
    converted: bool,
    convertError: int,
    sizingError: int,
    lookedUp: bool,
    lookupError: int,
    domain: string,
    account: string)

  /** `LookupAccount(sidString, machineName)`: null for null; the SID itself
      when the directory does not map it; otherwise `domain\account`, or the
      bare account when the domain is empty. Every other outcome throws. */
  function LookupAccount(sidString: Option<string>, win32: string -> SidLookup,
                         formatMessage: int -> Option<string>): (r: Result<Option<string>, Exception>)
    ensures sidString.None? ==> r == Success(None)
    ensures sidString.Some? && r.Success? ==> r.value.Some?
    ensures sidString.Some? && r.Success? ==>
      var w := win32(sidString.value);
      var name := r.value.value;
      && w.converted
      && (w.sizingError == ERROR_NONE_MAPPED ==> name == sidString.value)
      && (w.sizingError != ERROR_NONE_MAPPED ==>
            w.sizingError == ERROR_INSUFFICIENT_BUFFER && w.lookedUp
            && (|w.domain| == 0 ==> name == w.account)
            && (|w.domain| > 0 ==> name == w.domain + "\\" + w.account))
    ensures sidString.Some? ==>
      var w := win32(sidString.value);
      r.Failure? <==> !w.converted || (w.sizingError != ERROR_NONE_MAPPED &&
                                       (w.sizingError != ERROR_INSUFFICIENT_BUFFER || !w.lookedUp))
    ensures sidString.Some? && !win32(sidString.value).converted ==>
      r == Failure(Exception("Unable to convert SDDL SID '" + sidString.value + "'",
                             GetLastError(win32(sidString.value).convertError, formatMessage)))
    ensures sidString.Some? && r.Failure? && win32(sidString.value).converted ==>
      var w := win32(sidString.value);
      && r.error.message == "Unable to resolve SID"
      && (w.sizingError != ERROR_INSUFFICIENT_BUFFER ==> r.error.inner == GetLastError(w.sizingError, formatMessage))
      && (w.sizingError == ERROR_INSUFFICIENT_BUFFER ==> r.error.inner == GetLastError(w.lookupError, formatMessage))
  {
    match sidString
    case None => Success(None)
    case Some(sid) =>
      var w := win32(sid);
      if !w.converted then
        Failure(Exception("Unable to convert SDDL SID '" + sid + "'",
                          GetLastError(w.convertError, formatMessage)))
      else if w.sizingError == ERROR_NONE_MAPPED then
        Success(Some(sid))
      else if w.sizingError != ERROR_INSUFFICIENT_BUFFER then
        Failure(Exception("Unable to resolve SID", GetLastError(w.sizingError, formatMessage)))
      else if !w.lookedUp then
        Failure(Exception("Unable to resolve SID", GetLastError(w.lookupError, formatMessage)))
      else if |w.domain| == 0 then
        Success(Some(w.account))
      else
        Success(Some(w.domain + "\\" + w.account))
  }

  /** `GetDC(domain)`: null when `NetGetDCName` fails, otherwise the name it
      returned with every `\` removed. */
  function GetDC(netGetDcNameResult: int, dcName: string): (r: Option<string>)
    ensures r.None? <==> netGetDcNameResult != 0
    ensures r.Some? ==> '\\' !in r.value && |r.value| == |dcName| - Count(dcName, '\\')
    ensures r.Some? && '\\' !in dcName ==> r.value == dcName
    ensures r.Some? ==> r.value == Join(Split(dcName, '\\'), "")
  {
    if netGetDcNameResult != 0 then None
    else
      RemoveCharCount(dcName, '\\');
      RemoveCharIsJoinOfSplit(dcName, '\\');
      Some(RemoveChar(dcName, '\\'))
  }

  /** Removing a character shortens the text by its number of occurrences. */
  lemma {:induction false} RemoveCharCount(s: string, c: char)
    ensures |RemoveChar(s, c)| == |s| - Count(s, c)
    ensures c !in s ==> RemoveChar(s, c) == s
  {
    if |s| > 0 {
      RemoveCharCount(s[1..], c);
    }
  }

  /** Removing a character distributes over concatenation. */
  lemma {:induction false} RemoveCharAppend(a: string, b: string, c: char)
    ensures RemoveChar(a + b, c) == RemoveChar(a, c) + RemoveChar(b, c)
  {
    if |a| > 0 {
      assert (a + b)[1..] == a[1..] + b;
      RemoveCharAppend(a[1..], b, c);
    } else {
      assert a + b == b;
    }
  }

  /** Removing every `c` is the same as gluing the `c`-free segments of the
      text back together with nothing between them. */
  lemma {:induction false} RemoveCharIsJoinOfSplit(s: string, c: char)
    ensures RemoveChar(s, c) == Join(Split(s, c), "")
    decreases |s|
  {
    var i := IndexOf(s, c);
    if i < 0 {
      RemoveCharAbsent(s, c);
    } else {
      var rest := s[i + 1..];
      assert s == s[..i] + ([c] + rest);
      RemoveCharAppend(s[..i], [c] + rest, c);
      RemoveCharAbsent(s[..i], c);
      assert ([c] + rest)[1..] == rest;
      RemoveCharIsJoinOfSplit(rest, c);
      JoinCons(s[..i], Split(rest, c), "");
    }
  }
}
