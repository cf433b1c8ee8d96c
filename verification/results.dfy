/** The result envelopes the service returns: every failure becomes
    `Success = false` with the messages of the exception chain. */
module Results {
  import opened Wrappers
  import opened Strings
  import opened Extensions
  import AdGroups

  datatype StringListResult = StringListResult(success: bool, error: Option<string>, result: seq<string>)

  datatype BoolResult = BoolResult(success: bool, error: Option<string>, result: bool)

  datatype ADGroupResult = ADGroupResult(success: bool, error: Option<string>, result: Option<AdGroups.ADGroup>)

  /** `new StringListResultWrapper(result, ex)`: the list is kept even on
      failure; the error is the exception chain joined with single spaces. */
  function StringListOf(result: seq<string>, ex: Option<Exception>): (r: StringListResult)
    ensures r.success <==> ex.None?
    ensures r.result == result
    ensures ex.None? ==> r.error.None?
    ensures ex.Some? ==> r.error == Some(Join(Messages(ex.value), " "))
  {
    match ex
    case None => StringListResult(true, None, result)
    case Some(e) => StringListResult(false, Some(GetAllMessages(e, " ")), result)
  }

  /** `new StringListResultWrapper(errorMessage)`: a failure with an empty
      list. */
  function StringListFromMessage(errorMessage: Option<string>): (r: StringListResult)
    ensures !r.success && r.result == [] && r.error == errorMessage
  {
    StringListResult(false, errorMessage, [])
  }

  /** `new BoolResultWrapper(result, ex)`: on failure the result is false,
      whatever was passed. */
  function BoolOf(result: bool, ex: Option<Exception>): (r: BoolResult)
    ensures r.success <==> ex.None?
    ensures r.result <==> ex.None? && result
    ensures ex.None? ==> r.error.None?
    ensures ex.Some? ==> r.error == Some(Join(Messages(ex.value), " "))
  {
    match ex
    case None => BoolResult(true, None, result)
    case Some(e) => BoolResult(false, Some(GetAllMessages(e, " ")), false)
  }

  /** `new ADGroupResultWrapper()`. */
  function EmptyADGroupResult(): (r: ADGroupResult)
    ensures !r.success && r.error.None? && r.result.None?
  {
    ADGroupResult(false, None, None)
  }

  /** A single-exception failure carries exactly its message, and a two-level
      chain its two messages around one space. */
  lemma ErrorTextOfShortChains(outer: string, inner: string)
    ensures BoolOf(true, Some(Exception(outer, None))).error == Some(outer)
    ensures BoolOf(true, Some(Exception(outer, Some(Exception(inner, None))))).error
         == Some(outer + " " + inner)
  {
  }
}
