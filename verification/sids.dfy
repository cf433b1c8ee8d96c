/** SID recognition and the process-wide SID-to-name cache of `ADHelper`.
    The cache is a map threaded through every operation that may fill it;
    `TryAdd` inserts only when the key is absent, so an entry, once written,
    never changes. */
module Sids {
  import opened Wrappers
  import opened Strings
  import opened Extensions
  import Interop

  /** The collaborators SID handling consults: whether `SecurityIdentifier`
      accepts a string, what the Win32 SID lookup reports, and
      `FormatMessageA`. */
  datatype SidServices = SidServices(
    parses: string -> bool,
    win32: string -> Interop.SidLookup,
    formatMessage: int -> Option<string>)

  /** `ADHelper.IsSID`: not blank, starts with "s-" ignoring case, and
      accepted by the SID parser. */
  function IsSID(s: string, parses: string -> bool): (r: bool)
    ensures r ==> |s| >= 2 && (s[0] == 's' || s[0] == 'S') && s[1] == '-'
    ensures IsNullOrWhiteSpace(s) ==> !r
    ensures |s| >= 2 && (s[0] == 's' || s[0] == 'S') && s[1] == '-' ==> r == parses(s)
  {
    if IsNullOrWhiteSpace(s) || !StartsWith(Lower(s), "s-") then false
    else parses(s)
  }

  /** The directory's answer for one SID: `LookupAccount(sid, "")`. */
  function Lookup(sid: string, svc: SidServices): (r: Result<string, Exception>)
    ensures r.Success? && svc.win32(sid).sizingError == Interop.ERROR_NONE_MAPPED ==> r.value == sid
    ensures r.Success? ==> Interop.LookupAccount(Some(sid), svc.win32, svc.formatMessage) == Success(Some(r.value))
    ensures r.Failure? ==> Interop.LookupAccount(Some(sid), svc.win32, svc.formatMessage) == Failure(r.error)
  {
    match Interop.LookupAccount(Some(sid), svc.win32, svc.formatMessage)
    case Success(name) => Success(name.GetOr(sid))
    case Failure(e) => Failure(e)
  }

  type SidCache = map<string, string>

  /** A result together with the cache after computing it. */
  datatype Cached<+T> = Cached(value: Result<T, Exception>, cache: SidCache)

  /** `after` keeps every entry of `before` unchanged. */
  ghost predicate Extends(before: SidCache, after: SidCache) {
    forall k | k in before :: k in after && after[k] == before[k]
  }

  /** Every cached name is what the directory answers for that SID. */
  ghost predicate Coherent(cache: SidCache, svc: SidServices) {
    forall k | k in cache :: Lookup(k, svc) == Success(cache[k])
  }

  lemma ExtendsTransitive(a: SidCache, b: SidCache, c: SidCache)
    requires Extends(a, b) && Extends(b, c)
    ensures Extends(a, c)
  {
  }

  /** `ConcurrentDictionary.TryAdd`, run alone: insert only if absent. */
  function TryAdd(cache: SidCache, key: string, value: string): (r: SidCache)
    ensures Extends(cache, r)
    ensures key in r && r.Keys == cache.Keys + {key}
    ensures key !in cache ==> r[key] == value
  {
    if key in cache then cache else cache[key := value]
  }

  /** `ADHelper.ResolveSID`: a cached SID is answered from the cache without
      asking the directory; otherwise the directory is asked once and a
      successful answer is added with `TryAdd` and returned. */
  function ResolveSID(sid: string, svc: SidServices, cache: SidCache): (r: Cached<string>)
    ensures Extends(cache, r.cache)
    ensures sid in cache ==> r == Cached(Success(cache[sid]), cache)
    ensures sid !in cache ==> r.value == Lookup(sid, svc)
    ensures sid !in cache && r.value.Success? ==> r.cache == cache[sid := r.value.value]
    ensures sid !in cache && r.value.Failure? ==> r.cache == cache
    ensures Coherent(cache, svc) ==> Coherent(r.cache, svc) && r.value == Lookup(sid, svc)
  {
    if sid in cache then Cached(Success(cache[sid]), cache)
    else
      match Lookup(sid, svc)
      case Success(account) => Cached(Success(account), TryAdd(cache, sid, account))
      case Failure(e) => Cached(Failure(e), cache)
  }

  /** A cache hit does not consult the directory at all: any directory gives
      the same answer. */
  lemma CacheHitIgnoresDirectory(sid: string, svc1: SidServices, svc2: SidServices, cache: SidCache)
    requires sid in cache
    ensures ResolveSID(sid, svc1, cache) == ResolveSID(sid, svc2, cache)
  {
  }

  /** Two successive resolutions of one SID give the same name, and the
      second leaves the cache as the first left it. */
  lemma ResolveTwice(sid: string, svc: SidServices, cache: SidCache)
    ensures var first := ResolveSID(sid, svc, cache);
            first.value.Success? ==>
              ResolveSID(sid, svc, first.cache) == first
  {
  }

  /** An unmapped SID resolves to itself, and so does every later resolution
      of it. */
  lemma UnmappedSidResolvesToItself(sid: string, svc: SidServices)
    requires svc.win32(sid).converted
    requires svc.win32(sid).sizingError == Interop.ERROR_NONE_MAPPED
    ensures var first := ResolveSID(sid, svc, map[]);
            && first == Cached(Success(sid), map[sid := sid])
            && ResolveSID(sid, svc, first.cache) == first
  {
  }
}
