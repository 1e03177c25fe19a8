/**
 * The src variant of the search form: the same four state cells and the same
 * mask, but a submit handler with no length check and a single error message.
 * It is split at the request exactly as the app variant is.
 */
module SrcSearch {
  import opened Wrappers
  import opened CnpjRecord
  import opened CnpjMask
  import opened Lookup

  /**
   * The one message the src variant shows for any failure, spelled as its two
   * sentences joined for the same reason as the messages in Lookup.
   */
  const FailureMessage := "Erro ao buscar dados do CNPJ. " + "Verifique se o CNPJ é válido."

  /**
   * How a submit of the src variant ends: the body becomes the data as it is,
   * even when empty, or the single failure message is shown.
   */
  function SrcOutcome(reply: Reply): (r: Result<Option<CnpjData>, string>)
    ensures r.Success? <==> reply.Ok?
    ensures r.Success? ==> r.value == reply.body
    ensures r.Failure? ==> r.error == FailureMessage != ""
  {
    match reply
    case Ok(body) => Success(body)
    case _ => Failure(FailureMessage)
  }

  class CnpjSearch {
    var cnpj: string
    var data: Option<CnpjData>
    var loading: bool
    var error: string
    /** Keys of the lookup requests issued so far, oldest first. */
    ghost var requests: seq<string>
    /** The key of the request the handler is suspended on, if any. */
    ghost var awaiting: Option<string>
    /** The digits the field holds: the first 14 digits of the last text typed. */
    ghost var digits: string

    /**
     * The field always shows the grouping of at most 14 digits; loading is
     * true exactly while a request is outstanding, and then neither a record
     * nor an error is shown; a record and an error are never shown together.
     */
    ghost predicate Valid()
      reads this
    {
      && AllDigits(digits) && |digits| <= CnpjDigits && cnpj == Grouped(digits)
      && (loading <==> awaiting.Some?)
      && (awaiting.Some? ==> data.None? && error == "" && |awaiting.value| <= CnpjDigits)
      && !(data.Some? && error != "")
    }

    /** The initial state (lines 7-10). */
    constructor ()
      ensures Valid()
      ensures cnpj == "" && data.None? && !loading && error == ""
      ensures requests == [] && awaiting.None?
    {
      cnpj := "";
      data := None;
      loading := false;
      error := "";
      requests := [];
      awaiting := None;
      digits := "";
    }

    /** The submit button is enabled exactly while no request is outstanding (line 58). */
    predicate SubmitEnabled()
      reads this
    {
      !loading
    }

    /** handleCnpjChange (lines 22-25): the field shows the mask of the typed text. */
    method ChangeCnpj(typed: string)
      requires Valid()
      modifies this`cnpj, this`digits
      ensures Valid() && cnpj == FormatCnpj(typed)
    {
      FormatCnpjIsGrouping(typed);
      Take14Digits(StripNonDigits(typed));
      cnpj := FormatCnpj(typed);
      digits := Take14(StripNonDigits(typed));
    }

    /**
     * handleSubmit up to the request (lines 28-35): it clears the panel, sets
     * loading and always issues one request, keyed by whatever digits the field
     * holds, from none to 14.
     */
    method Submit() returns (sent: string)
      requires Valid() && SubmitEnabled()
      modifies this
      ensures Valid() && cnpj == old(cnpj) && digits == old(digits)
      ensures sent == StripNonDigits(cnpj) && |sent| <= CnpjDigits
      ensures requests == old(requests) + [sent] && awaiting == Some(sent)
      ensures loading && !SubmitEnabled() && data.None? && error == ""
    {
      loading := true;
      error := "";
      data := None;
      var clean := StripNonDigits(cnpj);
      GroupedDigits(digits);
      requests := requests + [clean];
      awaiting := Some(clean);
      sent := clean;
    }

    /**
     * handleSubmit after the request has ended (lines 36-41): the body is set
     * as the data, or the single message is shown; loading is cleared.
     */
    method Resume(reply: Reply)
      requires Valid() && awaiting.Some?
      modifies this
      ensures Valid() && cnpj == old(cnpj) && digits == old(digits) && requests == old(requests)
      ensures awaiting.None? && !loading && SubmitEnabled()
      ensures SrcOutcome(reply) == (if error == "" then Success(data) else Failure(error))
    {
      if reply.Ok? {
        data := reply.body;
      } else {
        error := FailureMessage;
      }
      loading := false;
      awaiting := None;
    }

    /**
     * The whole handler (lines 27-42) for a request that ends in `reply`: one
     * request is always issued, loading is cleared, and the panel shows what
     * SrcOutcome says.
     */
    method HandleSubmit(reply: Reply)
      requires Valid() && SubmitEnabled()
      modifies this
      ensures Valid() && cnpj == old(cnpj) && digits == old(digits) && !loading && awaiting.None?
      ensures requests == old(requests) + [StripNonDigits(cnpj)]
      ensures SrcOutcome(reply) == (if error == "" then Success(data) else Failure(error))
    {
      var sent := Submit();
      Resume(reply);
    }
  }

  /**
   * Where the two variants agree and where they differ, for the same digits and
   * the same reply: a 14-digit lookup with a body shows that body in both; every
   * failed request shows an error in both, one fixed text here; an empty body is
   * an error in the app variant but shows neither record nor error here; and
   * digits that are not 14 never reach the reply in the app variant, while here
   * the reply alone decides.
   */
  lemma VariantsCompared(clean: string, reply: Reply)
    ensures |clean| == CnpjDigits && reply.Ok? && reply.body.Some? ==>
      AppOutcome(clean, reply) == Success(reply.body.value) && SrcOutcome(reply) == Success(reply.body)
    ensures !reply.Ok? ==> AppOutcome(clean, reply).Failure? && SrcOutcome(reply) == Failure(FailureMessage)
    ensures reply == Ok(None) ==> SrcOutcome(reply) == Success(None) && AppOutcome(clean, reply).Failure?
    ensures |clean| != CnpjDigits ==> AppOutcome(clean, reply) == Failure(InvalidCnpjMessage)
  {
    AppOutcomeMatchesVerdict(clean, reply);
  }
}
