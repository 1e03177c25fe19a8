# CNPJ search form — a verified model of its logic

The repository is one React form, in two variants (`app/` and `src/`). It takes a
Brazilian company registry number (CNPJ), masks it as the user types, looks it up
in a public registry service, and shows either the company record or an error.
This project models the logic inside that form:

- **the input mask** `formatCnpj`, shared by both variants (`cnpj_mask.dfy`,
  module `CnpjMask`). `FormatCnpj` follows the source's chain of regular-expression
  replacements one step at a time. `Leftmost` stands for the regex engine's
  leftmost-match search. `Grouped` is the positional rule `NN.NNN.NNN/NNNN-NN`,
  where each separator appears only when a digit follows it. The lemma
  `FormatCnpjIsGrouping` proves that the chain computes `Grouped` of the first 14
  digits, for every input. The other mask properties are proved from that.
- **the display formatters** of the app variant (`display.dfy`, module `Display`):
  `formatPhone` with its left padding, the CEP (postal code) hyphenation, and the
  tax-regime label. The phone and CEP lines show `Não informado` when their data
  is missing. The regime label shows `Não Optante pelo Simples` when the `simples`
  flag is absent or is not `Sim`.
- **the outcome of a lookup** (`lookup.dfy`, module `Lookup`). The HTTP request is
  not modelled. Its result is an input value, `Reply`: a 2xx response with or
  without a body, a rejected HTTP status, no response, or a failure before sending.
  `AppTry` and `CatchMessage` follow the app handler's `try`/`catch` path.
  `Classify` and `VerdictMessage` state the closed set of outcomes on their own.
  `AppOutcomeMatchesVerdict` proves that the two agree.
- **the submit handlers** as classes over the component's four state cells
  `cnpj`, `data`, `loading` and `error` (`app_search.dfy` and `src_search.dfy`).
  The handler has one suspension point, the request. `Submit` runs it up to that
  point, and `Resume` runs the rest once the request has ended. `HandleSubmit`
  runs the two in sequence. Two ghost fields keep what the screen cannot show:
  `requests` (the keys sent so far) and `awaiting` (the request still
  outstanding). A third ghost field, `digits`, holds the digits the field shows.

`cnpj_record.dfy` declares the part of the registry record that the formatters
read. Every nested object is optional there, because the app variant reads it
through optional chaining. `wrappers.dfy` holds `Option` and `Result`.

The two variants behave differently, and each model follows its own variant's code:

- In the src variant, a successful response with an empty body shows neither a
  record nor an error. The data is set to the empty body and the error stays
  empty (`SrcSearch.CnpjSearch.Resume`, `SrcSearch.VariantsCompared`). Only the
  app variant treats an empty body as an error.
- The src variant sends a request for any number of digits, from 0 to 14. It
  never checks the length. Only the app variant rejects a length other than 14,
  and then it makes no request.

## Model

| member | source | states |
|---|---|---|
| CnpjMask.FormatCnpj | app/components/CnpjSearch.tsx:14-22 | no contract of its own: the five chained replacements, each at its leftmost match; stated by `FormatCnpjIsGrouping`, `FormatCnpjDigits`, `FormatCnpjShape` and `FormatCnpjIdempotent` |
| CnpjMask.InsertAfterRun | app/components/CnpjSearch.tsx:17-20 | no contract of its own: one non-global `replace` that puts a separator after the first k digits of the leftmost run of k + 1 digits; stated by `Step1` to `Step4` and `InsertKeepsDigits` |
| CnpjMask.TrimAfterHyphen | app/components/CnpjSearch.tsx:21 | no contract of its own: the final `replace` that keeps two digits after the hyphen; stated by `Trim` |
| CnpjMask.StripNonDigits | app/components/CnpjSearch.tsx:16 | the result of `replace(/\D/g, '')` has only ASCII digits and is never longer than its input |
| CnpjMask.StripIdentity | app/components/CnpjSearch.tsx:47 | stripping changes a string exactly when the string holds a non-digit |
| CnpjMask.StripConcat | app/components/CnpjSearch.tsx:16 | stripping works piece by piece: the digits of `a + b` are the digits of `a` followed by those of `b` |
| CnpjMask.Leftmost | app/components/CnpjSearch.tsx:17-21 | a non-global replace rewrites at the leftmost match: the position returned matches, no earlier position does, and when nothing is returned no position matches |
| CnpjMask.Step1 | app/components/CnpjSearch.tsx:17 | on a digit string, the first replacement puts `.` after digit 2, and only when a third digit exists |
| CnpjMask.Step2 | app/components/CnpjSearch.tsx:18 | the second replacement's leftmost run is the one after the first dot, so `.` goes after digit 5, and only when a sixth digit exists |
| CnpjMask.Step3 | app/components/CnpjSearch.tsx:19 | the third replacement puts `/` after digit 8, and only when a ninth digit exists |
| CnpjMask.Step4 | app/components/CnpjSearch.tsx:20 | the fourth replacement puts `-` after digit 12, and only when a thirteenth digit exists |
| CnpjMask.Trim | app/components/CnpjSearch.tsx:21 | the last replacement cuts every digit after the 14th and leaves shorter inputs unchanged |
| CnpjMask.InsertKeepsDigits | app/components/CnpjSearch.tsx:17-20 | each inserting replacement leaves the digits of the string, in order, unchanged |
| CnpjMask.FormatCnpjIsGrouping | app/components/CnpjSearch.tsx:14-22 | for every input, the regex chain equals the positional grouping `NN.NNN.NNN/NNNN-NN` of the input's first 14 digits |
| CnpjMask.GroupedDigits | app/components/CnpjSearch.tsx:14-22 | masking invents and loses no digit: the digits of the grouped string are exactly the digits it was built from |
| CnpjMask.GroupedLayout | app/components/CnpjSearch.tsx:14-22 | a masked CNPJ has `.` at positions 2 and 6, `/` at 10 and `-` at 15 when that far, a digit everywhere else, every separator followed by a digit, and length digits + separators ≤ 18 |
| CnpjMask.FormatCnpjDigits | app/components/CnpjSearch.tsx:14-21 | the digits of the masked text are the first min(n, 14) digits of the input, in order |
| CnpjMask.FormatCnpjShape | app/components/CnpjSearch.tsx:14-22 | the masked text has at most 18 characters (the field's `maxLength`), holds digits and separators only at their fixed positions, and is empty exactly when the input has no digit |
| CnpjMask.FormatCnpjIdempotent | app/components/CnpjSearch.tsx:35-38 | re-masking a masked text changes nothing |
| CnpjMask.MaskedRoundTrip | app/components/CnpjSearch.tsx:47 | stripping a masked text at submit time and masking the digits again gives back the text the field showed |
| CnpjMask.FormatCnpjComplete | app/components/CnpjSearch.tsx:14-22 | an input with exactly 14 digits masks to `NN.NNN.NNN/NNNN-NN`, 18 characters long, and stripping that gives back the same 14 digits |
| CnpjMask.MaskedDigitsAtMost14 | src/components/CnpjSearch.tsx:34 | every text the mask produces has at most 14 digits, so the key sent at submit time has at most 14 digits |
| CnpjMask.GroupedIsMasked | src/components/CnpjSearch.tsx:12-20 | every grouping of at most 14 digits is a fixed point of the mask, so it is a text the field can show |
| Display.PadStart | app/components/CnpjSearch.tsx:26 | `padStart` never truncates: the result has max(width, \|s\|) characters, ends with `s` and is filled on the left |
| Display.FormatPhone | app/components/CnpjSearch.tsx:24-28 | no contract of its own; stated by `FormatPhoneSpec` |
| Display.FormatPhoneSpec | app/components/CnpjSearch.tsx:24-28 | `Não informado` appears exactly when the area code or the number is empty; otherwise the text is `(ddd) ` followed by the number padded with 9s to 9 characters, with `-` after its fifth character, and the whole number kept |
| Display.MainPhoneDisplay | app/components/CnpjSearch.tsx:191 | a missing establishment, area code or number shows `Não informado`; when both are present the line is `formatPhone` of them and never the fallback |
| Display.HyphenateCep | app/components/CnpjSearch.tsx:176 | no contract of its own: the anchored `replace` on the CEP; stated by `HyphenateCepSpec` |
| Display.CepDisplay | app/components/CnpjSearch.tsx:176 | no contract of its own: the CEP line with its fallback; stated by `CepDisplaySpec` |
| Display.HyphenateCepSpec | app/components/CnpjSearch.tsx:176 | an eight-digit CEP becomes `NNNNN-NNN`, and dropping the hyphen gives it back; any other value is unchanged |
| Display.CepDisplaySpec | app/components/CnpjSearch.tsx:176 | an absent or empty CEP shows `Não informado`; eight digits show as `NNNNN-NNN` with the same digits; any other present value is shown unchanged |
| Display.RegimeDisplay | app/components/CnpjSearch.tsx:153-154 | no contract of its own; stated by `RegimeDisplaySpec` |
| Display.RegimeDisplaySpec | app/components/CnpjSearch.tsx:153-154 | the label is the regime head followed by the optional MEI suffix, with exactly their combined length: it starts with `Simples Nacional` exactly when `simples` is `Sim` and with `Não Optante pelo Simples` otherwise, and ends with ` - MEI` exactly when `mei` is `Sim` |
| Lookup.DecimalString | app/components/CnpjSearch.tsx:74 | a status renders as a non-empty digit string with no leading zero |
| Lookup.DecimalRoundTrip | app/components/CnpjSearch.tsx:74 | reading the rendered status back gives the status |
| Lookup.Rejection | app/components/CnpjSearch.tsx:53-59 | no contract of its own: what the HTTP client throws for each failed reply; used by `AppTry` |
| Lookup.AppTry | app/components/CnpjSearch.tsx:46-65 | no contract of its own: the try block, yielding the record or the error it throws; stated by `AppOutcomeMatchesVerdict` |
| Lookup.AppOutcome | app/components/CnpjSearch.tsx:46-85 | no contract of its own: the try block followed by the catch block; stated by `AppOutcomeMatchesVerdict` and `BadLengthIgnoresReply`, and used by the handler's contracts |
| Lookup.CatchMessage | app/components/CnpjSearch.tsx:66-82 | every error that reaches the catch block shows a non-empty message, including a thrown error with an empty message |
| Lookup.AppOutcomeMatchesVerdict | app/components/CnpjSearch.tsx:46-82 | the try/catch path shows the record exactly for 14 digits with a 2xx reply that has a body, and that record is the body; every other case shows the one message of its category (invalid length, 404, 429, other status, no response, empty body, other error) |
| Lookup.BadLengthIgnoresReply | app/components/CnpjSearch.tsx:49-51 | for digits that are not 14, every reply gives the same result, the invalid-CNPJ message |
| Lookup.StatusMessageInjective | app/components/CnpjSearch.tsx:74 | two different statuses never produce the same upstream-error message |
| Lookup.VerdictMessagesDistinct | app/components/CnpjSearch.tsx:66-82 | two different outcome categories, unknown errors aside, never show the same message |
| Lookup.UpstreamMessageIsNotFixed | app/components/CnpjSearch.tsx:69-78 | no upstream-error message equals a fixed message of another category |
| AppSearch.CnpjSearch.SubmitEnabled | app/components/CnpjSearch.tsx:102 | no contract of its own: the submit button is enabled exactly when not loading; used in the handler's contracts |
| AppSearch.CnpjSearch.constructor | app/components/CnpjSearch.tsx:9-12 | the form starts empty and idle, with no record, no error and no request |
| AppSearch.CnpjSearch.ChangeCnpj | app/components/CnpjSearch.tsx:35-38 | the field shows the mask of the typed text, and the invariant is kept |
| AppSearch.CnpjSearch.Submit | app/components/CnpjSearch.tsx:40-59 | with 14 digits, one request keyed by them is issued and the handler suspends with loading set, the button disabled, and no record or error; otherwise no request is issued and it ends with loading cleared and the invalid-CNPJ message |
| AppSearch.CnpjSearch.Resume | app/components/CnpjSearch.tsx:61-85 | after the request, loading is cleared and the panel shows exactly what `AppOutcome` gives for the key and the reply; a record is shown exactly when the error is empty |
| AppSearch.CnpjSearch.HandleSubmit | app/components/CnpjSearch.tsx:40-86 | a request is issued exactly when the field holds 14 digits; afterwards loading is false and exactly one of record and error is shown, as `AppOutcome` gives |
| SrcSearch.SrcOutcome | src/components/CnpjSearch.tsx:33-41 | a 2xx reply always succeeds with its body as it is, even an empty one; every other reply fails with the one fixed message |
| SrcSearch.CnpjSearch.SubmitEnabled | src/components/CnpjSearch.tsx:58 | no contract of its own: the submit button is enabled exactly when not loading; used in the handler's contracts |
| SrcSearch.CnpjSearch.constructor | src/components/CnpjSearch.tsx:7-10 | the form starts empty and idle, with no record, no error and no request |
| SrcSearch.CnpjSearch.ChangeCnpj | src/components/CnpjSearch.tsx:22-25 | the field shows the mask of the typed text, and the invariant is kept |
| SrcSearch.CnpjSearch.Submit | src/components/CnpjSearch.tsx:28-35 | with no length check, one request is always issued, keyed by the field's digits (0 to 14 of them); loading is set, the button disabled, and no record or error is shown |
| SrcSearch.CnpjSearch.Resume | src/components/CnpjSearch.tsx:36-41 | after the request, loading is cleared and the panel shows what `SrcOutcome` gives |
| SrcSearch.CnpjSearch.HandleSubmit | src/components/CnpjSearch.tsx:27-42 | every submit issues exactly one request; afterwards loading is false and the panel shows what `SrcOutcome` gives |
| SrcSearch.VariantsCompared | src/components/CnpjSearch.tsx:27-42 | both variants show the body for 14 digits and a body; both show an error for every failed request; an empty body is an error only in the app variant; digits that are not 14 fail only in the app variant |

## Left out

- The HTTP request: its URL, headers and 10-second timeout are network I/O in a foreign library. Its result is the `Reply` parameter.
- The HTTP client's rule that a non-2xx status is thrown with `err.response` set is library behaviour. It is folded into `Reply.HttpStatus`. The model does not forbid a 2xx code there, which the client never produces.
- `formatDate` is not modelled, because it uses JavaScript date parsing and `pt-BR` locale formatting. This covers the dates in both variants.
- The capital amount is not modelled, because it uses `parseFloat` and locale formatting (floating point).
- JSX rendering, CSS classes, the secondary-phone block and the lists of activities, partners and state registrations are presentation only.
- React's scheduling of state updates and the `async`/`await` machinery are not modelled. The handler is split at its one `await` into `Submit` and `Resume`, and the setters run in source order.
- Overlapping submits are not modelled. `Submit` and `HandleSubmit` require `SubmitEnabled()`, because the submit button is disabled while loading, and a form whose submit button is disabled does not submit.
- The browser's `maxLength` limit on typed text is not modelled. The model only proves that the mask's output fits in 18 characters.
- String lengths are counted in Unicode code points, where JavaScript counts UTF-16 code units. They differ only outside the Basic Multilingual Plane. Among the modelled operations this matters only for the phone formatter, through both `padStart` and the two `slice` calls that place the hyphen: on a number holding such a character, the model's padding and hyphen position can differ from the browser's.
- The record type is reduced to the fields the modelled formatters read. The other type declarations in `src/types/CnpjTypes.ts` carry no behaviour.
- CNPJ check digits are never validated by the source, so the model has no checksum.
