/**
 * How one lookup ends, and what the app variant's submit handler makes of it.
 *
 * The HTTP GET itself (URL, headers, timeout) is not modelled: its result is
 * the input Reply.  The handler's try block either yields the record or throws;
 * the catch block inspects `err.response`, then `err.request`, then
 * `err.message`.  Thrown keeps exactly those three properties.
 */
module Lookup {
  import opened Wrappers
  import opened CnpjRecord
  import opened CnpjMask

  /** How the registry request ended, with the HTTP client's rejection rule folded in. */
  datatype Reply =
    | Ok(body: Option<CnpjData>)      // a 2xx response; None when its body is empty (falsy)
    | HttpStatus(status: nat)         // a response the client rejects: `err.response.status`
    | NoResponse                      // sent, but nothing came back: `err.request` without `err.response`
    | PreSendError(message: string)   // the client failed before sending: `err.message`

  /** The error reaching the catch block, by the property the handler finds on it first. */
  datatype Thrown =
    | WithResponse(status: nat)       // `err.response` is set
    | WithRequestOnly                 // only `err.request` is set
    | WithNeither(message: string)    // a plain `new Error(message)`, or a client error before sending

  // The exact texts the handler shows.  A two-sentence message is spelled as its
  // two sentences joined (the same string), because the verifier reads characters
  // out of a short literal but not out of a long one, and the lemmas below do.
  const InvalidCnpjMessage := "CNPJ inválido. " + "O CNPJ deve conter 14 dígitos."
  const EmptyBodyMessage := "Nenhum dado encontrado para este CNPJ."
  const NotFoundMessage := "CNPJ não encontrado."
  const RateLimitMessage := "Limite de requisições excedido. " + "Por favor, tente novamente mais tarde."
  const NetworkMessage := "Erro de conexão. " + "Verifique sua internet e tente novamente."
  const DefaultMessage := "Erro ao buscar dados do CNPJ."
  const StatusMessagePrefix := "Erro ao buscar dados do CNPJ: "

  function DigitChar(n: nat): (c: char)
    requires n < 10
    ensures IsDigit(c) && c as int - '0' as int == n
  {
    ('0' as int + n) as char
  }

  /** `${n}` for a natural number: its decimal digits without leading zeros. */
  function DecimalString(n: nat): (r: string)
    ensures r != [] && AllDigits(r)
    ensures r[0] == '0' ==> n == 0
  {
    if n < 10 then [DigitChar(n)] else DecimalString(n / 10) + [DigitChar(n % 10)]
  }

  /** The number a string of decimal digits denotes. */
  function DecimalValue(s: string): nat
    requires AllDigits(s)
  {
    if s == [] then 0
    else DecimalValue(s[..|s| - 1]) * 10 + (s[|s| - 1] as int - '0' as int)
  }

  /** Reading the decimal text back gives the number: the status in a message is exact. */
  lemma {:induction false} DecimalRoundTrip(n: nat)
    ensures DecimalValue(DecimalString(n)) == n
  {
    var s := DecimalString(n);
    if n >= 10 {
      DecimalRoundTrip(n / 10);
      assert s[..|s| - 1] == DecimalString(n / 10);
    }
  }

  /** The catch block (lines 67-82): the one message shown for each kind of error. */
  function CatchMessage(err: Thrown): (r: string)
    ensures r != ""
  {
    match err
    case WithResponse(status) =>
      if status == 404 then NotFoundMessage
      else if status == 429 then RateLimitMessage
      else StatusMessagePrefix + DecimalString(status)
    case WithRequestOnly => NetworkMessage
    case WithNeither(message) => if message != "" then message else DefaultMessage
  }

  /** What the HTTP client throws when the request fails. */
  function Rejection(reply: Reply): Thrown
    requires !reply.Ok?
  {
    match reply
    case HttpStatus(status) => WithResponse(status)
    case NoResponse => WithRequestOnly
    case PreSendError(message) => WithNeither(message)
  }

  /** The try block of the app variant (lines 46-65): the record, or what it throws. */
  function AppTry(clean: string, reply: Reply): Result<CnpjData, Thrown> {
    if |clean| != CnpjDigits then Failure(WithNeither(InvalidCnpjMessage))
    else
      match reply
      case Ok(body) => if body.Some? then Success(body.value) else Failure(WithNeither(EmptyBodyMessage))
      case _ => Failure(Rejection(reply))
  }

  /** How a submit of the app variant ends, given the digits submitted and the reply: the record shown, or the message shown. */
  function AppOutcome(clean: string, reply: Reply): Result<CnpjData, string> {
    match AppTry(clean, reply)
    case Success(record) => Success(record)
    case Failure(err) => Failure(CatchMessage(err))
  }

  // ---------------------------------------------------------------------------
  // The closed set of outcomes, stated independently of the try/catch path
  // ---------------------------------------------------------------------------

  /** Every way a lookup can end. */
  datatype Verdict =
    | Found(record: CnpjData)
    | InvalidLength
    | NotFound
    | RateLimited
    | UpstreamError(status: nat)
    | NetworkError
    | EmptyResult
    | UnknownError(message: string)

  /** The outcome category of a submit: the length check first, then the reply. */
  function Classify(clean: string, reply: Reply): Verdict {
    if |clean| != CnpjDigits then InvalidLength
    else
      match reply
      case Ok(body) => if body.Some? then Found(body.value) else EmptyResult
      case HttpStatus(status) =>
        if status == 404 then NotFound else if status == 429 then RateLimited else UpstreamError(status)
      case NoResponse => NetworkError
      case PreSendError(message) => UnknownError(message)
  }

  /** The user-facing message of each failure category. */
  function VerdictMessage(v: Verdict): string
    requires !v.Found?
  {
    match v
    case InvalidLength => InvalidCnpjMessage
    case NotFound => NotFoundMessage
    case RateLimited => RateLimitMessage
    case UpstreamError(status) => StatusMessagePrefix + DecimalString(status)
    case NetworkError => NetworkMessage
    case EmptyResult => EmptyBodyMessage
    case UnknownError(message) => if message == "" then DefaultMessage else message
  }

  /**
   * The handler's try/catch routing yields, for every submit, the record when
   * the digits have length 14 and the reply has a body, and otherwise exactly
   * the message of the outcome's category; the validation error and the empty
   * body reach the `err.message` branch, not the response or request branches.
   */
  lemma AppOutcomeMatchesVerdict(clean: string, reply: Reply)
    ensures AppOutcome(clean, reply).Success? <==> Classify(clean, reply).Found?
    ensures AppOutcome(clean, reply).Success? ==>
      reply.Ok? && reply.body == Some(AppOutcome(clean, reply).value)
    ensures AppOutcome(clean, reply).Failure? ==>
      AppOutcome(clean, reply).error == VerdictMessage(Classify(clean, reply)) != ""
  {
  }

  /** No request outcome can change the result of a submit whose digits are not 14. */
  lemma BadLengthIgnoresReply(clean: string, reply: Reply, other: Reply)
    requires |clean| != CnpjDigits
    ensures AppOutcome(clean, reply) == AppOutcome(clean, other) == Failure(InvalidCnpjMessage)
  {
  }

  lemma StatusMessageInjective(a: nat, b: nat)
    requires StatusMessagePrefix + DecimalString(a) == StatusMessagePrefix + DecimalString(b)
    ensures a == b
  {
    var p := StatusMessagePrefix;
    assert DecimalString(a) == (p + DecimalString(a))[|p|..];
    assert DecimalString(b) == (p + DecimalString(b))[|p|..];
    DecimalRoundTrip(a);
    DecimalRoundTrip(b);
  }

  /**
   * Each fixed category has its own message: two different failures other than
   * an unknown error never show the same text, so the message tells the user
   * which case occurred (and, for an upstream error, which status).
   */
  lemma VerdictMessagesDistinct(v: Verdict, w: Verdict)
    requires !v.Found? && !w.Found? && !v.UnknownError? && !w.UnknownError?
    requires v != w
    ensures VerdictMessage(v) != VerdictMessage(w)
  {
    if v.UpstreamError? && w.UpstreamError? {
      if VerdictMessage(v) == VerdictMessage(w) {
        StatusMessageInjective(v.status, w.status);
      }
    } else if v.UpstreamError? {
      UpstreamMessageIsNotFixed(v.status, w);
    } else if w.UpstreamError? {
      UpstreamMessageIsNotFixed(w.status, v);
    }
  }

  lemma UpstreamMessageIsNotFixed(status: nat, w: Verdict)
    requires !w.Found? && !w.UnknownError? && !w.UpstreamError?
    ensures StatusMessagePrefix + DecimalString(status) != VerdictMessage(w)
  {
    var p := StatusMessagePrefix;
    var m := p + DecimalString(status);
    assert m[0] == p[0] == 'E';
    assert m[5] == p[5] == 'a';
    match w
    case InvalidLength => assert InvalidCnpjMessage[0] == 'C';
    case NotFound => assert NotFoundMessage[0] == 'C';
    case RateLimited => assert RateLimitMessage[0] == 'L';
    case EmptyResult => assert EmptyBodyMessage[0] == 'N';
    case NetworkError => assert NetworkMessage[5] == 'd';
  }
}
