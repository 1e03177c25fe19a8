/**
 * The app variant of the search form: four state cells (`cnpj`, `data`,
 * `loading`, `error`) and the submit handler that updates them, with client-side
 * length validation and one message per kind of failure.
 *
 * The handler is asynchronous with one suspension point, the lookup request.
 * Submit runs it up to that point (or to its end, when validation fails) and
 * Resume runs the rest once the request has ended; HandleSubmit is the two in
 * sequence.  The ghost fields record what the component cannot show: the keys
 * of the requests issued and the request being awaited.
 */
module AppSearch {
  import opened Wrappers
  import opened CnpjRecord
  import opened CnpjMask
  import opened Lookup

  class CnpjSearch {
    var cnpj: string
    var data: Option<CnpjData>
    var loading: bool
    var error: string
    /** Keys of the lookup requests issued so far, oldest first. */
    ghost var requests: seq<string>
    /** The key of the request the handler is suspended on, if any. */
    ghost var awaiting: Option<string>
    /** The digits the field holds: the first 14 digits of the last text typed. */
    ghost var digits: string

    /**
     * The field always shows the grouping of at most 14 digits; loading is
     * true exactly while a request is outstanding, and then neither a record
     * nor an error is shown; a record and an error are never shown together.
     */
    ghost predicate Valid()
      reads this
    {
      && AllDigits(digits) && |digits| <= CnpjDigits && cnpj == Grouped(digits)
      && (loading <==> awaiting.Some?)
      && (awaiting.Some? ==> data.None? && error == "" && |awaiting.value| == CnpjDigits)
      && !(data.Some? && error != "")
    }

    /** The initial state (lines 9-12). */
    constructor ()
      ensures Valid()
      ensures cnpj == "" && data.None? && !loading && error == ""
      ensures requests == [] && awaiting.None?
    {
      cnpj := "";
      data := None;
      loading := false;
      error := "";
      requests := [];
      awaiting := None;
      digits := "";
    }

    /** The submit button is enabled exactly while no request is outstanding (line 102). */
    predicate SubmitEnabled()
      reads this
    {
      !loading
    }

    /** handleCnpjChange (lines 35-38): the field shows the mask of the typed text. */
    method ChangeCnpj(typed: string)
      requires Valid()
      modifies this`cnpj, this`digits
      ensures Valid() && cnpj == FormatCnpj(typed)
    {
      FormatCnpjIsGrouping(typed);
      Take14Digits(StripNonDigits(typed));
      cnpj := FormatCnpj(typed);
      digits := Take14(StripNonDigits(typed));
    }

    /**
     * handleSubmit up to the request (lines 41-59).  It clears the panel and
     * sets loading; with 14 digits it issues one request keyed by them and
     * suspends; otherwise it issues none and ends with the validation message
     * (the catch and finally blocks, lines 66-85).
     */
    method Submit() returns (sent: Option<string>)
      requires Valid() && SubmitEnabled()
      modifies this
      ensures Valid() && cnpj == old(cnpj) && digits == old(digits)
      ensures sent == (if |StripNonDigits(cnpj)| == CnpjDigits then Some(StripNonDigits(cnpj)) else None)
      ensures requests == old(requests) + (if sent.Some? then [sent.value] else [])
      ensures awaiting == sent
      ensures sent.Some? ==> loading && !SubmitEnabled() && data.None? && error == ""
      ensures sent.None? ==> !loading && data.None? && error == InvalidCnpjMessage
    {
      loading := true;
      error := "";
      data := None;
      var clean := StripNonDigits(cnpj);
      GroupedDigits(digits);
      if |clean| != CnpjDigits {
        assert CatchMessage(WithNeither(InvalidCnpjMessage)) == InvalidCnpjMessage;
        error := CatchMessage(WithNeither(InvalidCnpjMessage));
        loading := false;
        sent := None;
      } else {
        requests := requests + [clean];
        awaiting := Some(clean);
        sent := Some(clean);
      }
    }

    /**
     * handleSubmit after the request has ended (lines 61-85): a body is shown
     * as the record; an empty body or a failed request is caught and shown as
     * its message; loading is cleared whatever happened.
     */
    method Resume(reply: Reply)
      requires Valid() && awaiting.Some?
      modifies this
      ensures Valid() && cnpj == old(cnpj) && digits == old(digits) && requests == old(requests)
      ensures awaiting.None? && !loading && SubmitEnabled()
      ensures AppOutcome(old(awaiting.value), reply) == (if data.Some? then Success(data.value) else Failure(error))
      ensures data.Some? <==> error == ""
    {
      var thrown: Option<Thrown> := None;
      if reply.Ok? {
        if reply.body.Some? {
          data := reply.body;
        } else {
          thrown := Some(WithNeither(EmptyBodyMessage));
        }
      } else {
        thrown := Some(Rejection(reply));
      }
      if thrown.Some? {
        error := CatchMessage(thrown.value);
      }
      loading := false;
      awaiting := None;
    }

    /**
     * The whole handler (lines 40-86) for a request that ends in `reply`:
     * exactly one of record and error is shown, as AppOutcome says, loading is
     * cleared, and a request was issued exactly when the digits numbered 14.
     */
    method HandleSubmit(reply: Reply)
      requires Valid() && SubmitEnabled()
      modifies this
      ensures Valid() && cnpj == old(cnpj) && digits == old(digits) && !loading && awaiting.None?
      ensures var clean := StripNonDigits(cnpj);
        && requests == old(requests) + (if |clean| == CnpjDigits then [clean] else [])
        && AppOutcome(clean, reply) == (if data.Some? then Success(data.value) else Failure(error))
      ensures data.Some? <==> error == ""
    {
      var sent := Submit();
      if sent.Some? {
        Resume(reply);
      }
    }
  }
}
