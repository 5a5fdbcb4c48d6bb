# Smart check-in: a verified model of the guest check-in core

This project models, in Dafny, the parts of the smart check-in web application
that carry logic rather than layout:

- **Secret-code entry** (`SecretCodeInput.dfy`). The keystroke formatter
  `formatSecretCode` upper-cases the input and keeps only `A–Z0–9`. It groups the
  rest in threes joined by `-` and truncates to 11 characters. The model also
  covers the submit-button rule and the decision taken on the check-in reply,
  including the "already checked in" reply that still carries a PIN. The loop
  is a method proved against a specification function. A closed form `Layout`
  is the reference from which the promised properties are proved: length,
  alphabet, dash positions, dash removal, idempotence, and insensitivity to
  case and delimiters.
- **Check-in step machine** (`CheckinPage.dfy`). The page moves through the
  steps biometric → secret code → complete, and carries the reservation id
  and the door PIN. The handlers are methods of a `Page` class. A pure
  transition function and the render guards (`Wired`) describe which handler
  the rendered page can reach. Lemmas over runs of handler calls prove that
  fields stay consistent with the step and that the complete step is entered
  only from the secret-code step. They also cover the progress bar.
- **Admin route guard** (`AdminGuard.dfy`). The middleware is a pure function
  from path, method and cookies to pass, redirect to `/admin/login`, or 401.
  It is characterised against a reference predicate `Guarded`.
- **Registration options** (`GenerateOptions.dfy`, `Utf8.dfy`). The
  `generate-options` endpoint runs a ladder of early returns: 400, then 404,
  then 409. It then builds the argument record for the W3C Web Authentication
  options and saves exactly one challenge. The user handle is the UTF-8
  encoding of the reservation id. `Utf8.dfy` models `TextEncoder` on strings of
  Unicode scalar values and proves, with a decoder, that on those strings the
  encoding is injective. The passkey check uses `.single()`, so it rejects a
  reservation only when exactly one passkey row matches; with several rows the
  model, like the route, goes on to build options and save a challenge.

`JsValues.dfy` holds the shared `Option`/`Result` types and JavaScript truthiness
of optional strings (`null`, `undefined` and `""` are falsy).

The page keeps the door PIN in its state until start-over. The reservation id
handed over by the biometric step may be missing; the page stores it as it is,
and the secret-code component is then not rendered.

## Model

| member | source | states |
|---|---|---|
| SecretCodeInput.ToUpper | src/app/checkin/components/SecretCodeInput.tsx:49 | a lower-case ASCII letter becomes its upper-case letter, 32 code points lower; every other character is unchanged |
| SecretCodeInput.Chunks | src/app/checkin/components/SecretCodeInput.tsx:50-53 | the slices pushed by the loop, laid end to end, give back the cleaned input |
| SecretCodeInput.ChunkSizes | src/app/checkin/components/SecretCodeInput.tsx:50-53 | every slice has one to three characters, and every slice but the last has exactly three |
| SecretCodeInput.Join | src/app/checkin/components/SecretCodeInput.tsx:54 | joining no parts gives the empty string; otherwise the result is as long as the parts together plus one separator between each two |
| SecretCodeInput.Clean | src/app/checkin/components/SecretCodeInput.tsx:49 | the cleaned input holds only `A–Z` and `0–9` and is no longer than the input |
| SecretCodeInput.Format | src/app/checkin/components/SecretCodeInput.tsx:48-55 | the formatted code is never longer than 11 characters |
| SecretCodeInput.FormatSecretCode | src/app/checkin/components/SecretCodeInput.tsx:48-55 | the loop that pushes slices of three, then joins and truncates, returns exactly `Format(value)`, at most 11 characters |
| SecretCodeInput.FormatIsLayout | src/app/checkin/components/SecretCodeInput.tsx:49-54 | the formatted code is the cleaned input laid out as up to three groups of three with dashes between them, everything past the ninth character dropped |
| SecretCodeInput.FormatAlphabet | src/app/checkin/components/SecretCodeInput.tsx:49-54 | every character of the output is `A–Z`, `0–9` or `-` |
| SecretCodeInput.FormatGrouping | src/app/checkin/components/SecretCodeInput.tsx:50-54 | dashes occur exactly at indices 3 and 7, each is followed by a character, and the length is never 4 or 8, so every group but the last has three characters |
| SecretCodeInput.FormatRemoveDashes | src/app/checkin/components/SecretCodeInput.tsx:49-54 | removing the dashes gives the first min(9, n) characters of the cleaned input |
| SecretCodeInput.FormatIdempotent | src/app/checkin/components/SecretCodeInput.tsx:48-58 | formatting a formatted code changes nothing |
| SecretCodeInput.FormatIgnoresCase | src/app/checkin/components/SecretCodeInput.tsx:49 | inputs equal up to letter case format identically |
| SecretCodeInput.FormatIgnoresDelimiter | src/app/checkin/components/SecretCodeInput.tsx:49 | inserting any character that is not a letter or digit anywhere leaves the formatted code unchanged |
| SecretCodeInput.SubmitEnabled | src/app/checkin/components/SecretCodeInput.tsx:106 | the button is enabled iff nothing is loading and the code has at least 11 characters |
| SecretCodeInput.SubmitEnabledIffComplete | src/app/checkin/components/SecretCodeInput.tsx:106 | for a formatted field, submit is enabled iff nothing is loading and the input holds at least nine letters and digits |
| SecretCodeInput.DecideOutcome | src/app/checkin/components/SecretCodeInput.tsx:32-40 | the PIN is delivered iff the reply is ok, or it is an error marked already-checked-in with a truthy PIN, and then the PIN is the reply's; otherwise the message is the reply's truthy error or the fallback, and never empty |
| SecretCodeInput.SecretCodeForm.constructor | src/app/checkin/components/SecretCodeInput.tsx:14-16 | the form starts with an empty code, not loading and no error, and the empty code is a formatted code |
| SecretCodeInput.SecretCodeForm.HandleSecretCodeChange | src/app/checkin/components/SecretCodeInput.tsx:57-59 | the field becomes the formatted input and stays a fixed point of the formatter |
| SecretCodeInput.SecretCodeForm.CanSubmit | src/app/checkin/components/SecretCodeInput.tsx:106 | the button is enabled iff not loading and the code has its full length of 11 |
| SecretCodeInput.SecretCodeForm.HandleSubmit | src/app/checkin/components/SecretCodeInput.tsx:18-46 | the outcome is the reply decision, the error shown is its message on failure and empty otherwise, and loading ends |
| CheckinPage.Page.constructor | src/app/checkin/page.tsx:11-13 | the page starts at the biometric step with no reservation id and no PIN |
| CheckinPage.Page.HandleBiometricSuccess | src/app/checkin/page.tsx:15-18 | the given id, possibly missing, is stored and the step becomes secret code; the PIN is untouched |
| CheckinPage.Page.HandleCheckinSuccess | src/app/checkin/page.tsx:20-23 | the given PIN is stored and the step becomes complete; the reservation id is untouched |
| CheckinPage.Page.HandleStartOver | src/app/checkin/page.tsx:25-29 | whatever the prior state, the step becomes biometric and both fields are cleared |
| CheckinPage.Page.Progress | src/app/checkin/page.tsx:31-36 | the progress index is below 3 and names the current step's position in the steps array |
| CheckinPage.Handle | src/app/checkin/page.tsx:15-29 | the step becomes complete iff the check-in handler ran; the biometric handler moves to secret code, stores the given id and keeps the PIN; the check-in handler stores the given PIN and keeps the reservation id; start-over gives the initial state |
| CheckinPage.Wired | src/app/checkin/page.tsx:84-131 | a wired handler belongs to the current step: the biometric handler to the biometric step, the check-in handler to the secret-code step, start-over to the complete step |
| CheckinPage.PinPanelShown | src/app/checkin/page.tsx:95 | the PIN panel shows only on the last step and only with a truthy PIN |
| CheckinPage.HelpShown | src/app/checkin/page.tsx:135 | help shows iff the step is before the last in the progress bar |
| CheckinPage.CheckMark | src/app/checkin/page.tsx:69 | a check mark is shown only on a step before the current one, and never on the last step |
| CheckinPage.ConnectorFilled | src/app/checkin/page.tsx:75-76 | the connector after step i is filled iff step i shows a check mark |
| CheckinPage.CurrentIndex | src/app/checkin/page.tsx:31-36 | `findIndex` always finds the step: the index is in 0..2, the step sits there and at no earlier index |
| CheckinPage.InitialConsistent | src/app/checkin/page.tsx:11-13 | the initial state satisfies the field/step invariant and has progress index 0 |
| CheckinPage.HelpOnlyBeforeComplete | src/app/checkin/page.tsx:135 | help and the PIN panel never show together; help shows iff the step is before the last |
| CheckinPage.HandleKeepsConsistent | src/app/checkin/page.tsx:84-95 | a wired handler preserves the invariant: no fields in the biometric step, no PIN in the secret-code step, a truthy id in the complete step |
| CheckinPage.RunKeepsConsistent | src/app/checkin/page.tsx:84-95 | every state of a run of wired handlers satisfies the invariant |
| CheckinPage.WiredHandlerAdvances | src/app/checkin/page.tsx:57-79 | a wired handler other than start-over raises the progress index by exactly one and keeps every check mark shown |
| CheckinPage.StartOverResets | src/app/checkin/page.tsx:25-29 | start-over yields the initial state from any state and clears every check mark |
| CheckinPage.CompleteOnlyFromSecretCode | src/app/checkin/page.tsx:84-92 | a wired handler that enters the complete step is the check-in handler called in the secret-code step |
| CheckinPage.EntersCompleteFromSecretCode | src/app/checkin/page.tsx:84-95 | in any wired run, each entry into the complete step comes from the secret-code step with a truthy reservation id, by the check-in handler |
| CheckinPage.InitialToCompleteVisitsSecretCode | src/app/checkin/page.tsx:84-92 | a wired run from the first render that ends complete passed through the secret-code step and holds a truthy reservation id |
| CheckinPage.CompleteWithoutPinIsFinal | src/app/checkin/page.tsx:95-131 | in the complete step without a truthy PIN no handler is wired, so the page cannot start over |
| AdminGuard.HandleAdminAuth | src/middleware.ts:27-42 | pass iff the session cookie is `authenticated`; otherwise a redirect to `/admin/login` iff the path is not under `/api/`, else 401 |
| AdminGuard.Middleware | src/middleware.ts:6-25 | a redirect always goes to `/admin/login` and only for a path under `/admin`; a 401 is given only to POST or DELETE on `/api/reservations` |
| AdminGuard.MiddlewareDecides | src/middleware.ts:6-42 | pass iff the request is not guarded or the session is `authenticated`; redirect to `/admin/login` iff guarded, unauthenticated and under `/admin`; 401 iff guarded, unauthenticated and `/api/reservations` |
| AdminGuard.LoginPageOpen | src/middleware.ts:10-12 | `/admin/login` passes with any method and any cookies |
| AdminGuard.AdminPagesRedirect | src/middleware.ts:14-38 | an unauthenticated request to any other path starting with `/admin` is redirected to the login page, never answered 401 |
| AdminGuard.ReservationsApiGuard | src/middleware.ts:19-41 | `/api/reservations` passes for methods other than POST and DELETE; for those two without the session it gets 401 |
| AdminGuard.SessionPassesEverything | src/middleware.ts:28-32 | with the cookie value `authenticated`, every request passes |
| AdminGuard.UnmatchedPathsPass | src/middleware.ts:24 | a path under neither rule passes unconditionally |
| Utf8.Encode | src/app/api/webauthn/register/generate-options/route.ts:53 | the encoding takes one to four bytes per character |
| Utf8.DecodeEncode | src/app/api/webauthn/register/generate-options/route.ts:53 | decoding the encoding gives back the string's scalar values |
| Utf8.EncodeInjective | src/app/api/webauthn/register/generate-options/route.ts:53 | two strings with the same encoding are equal |
| Utf8.EncodeAscii | src/app/api/webauthn/register/generate-options/route.ts:53 | an ASCII string encodes to one byte per character with the same value |
| GenerateOptions.Validate | src/app/api/webauthn/register/generate-options/route.ts:13-49 | 400 iff the id is falsy; 404 iff it is truthy and unknown; 409 iff known and exactly one passkey row matches; success iff none of these holds, yielding the reservation row |
| GenerateOptions.Matching | src/app/api/webauthn/register/generate-options/route.ts:38-42 | the rows the passkey query selects are exactly the table's rows for the reservation, each as many times as it occurs in the table |
| GenerateOptions.OnePasskeyRejects | src/app/api/webauthn/register/generate-options/route.ts:37-49 | a known reservation with exactly one passkey row, wherever it stands in the table, is rejected with 409 |
| GenerateOptions.NoPasskeyPasses | src/app/api/webauthn/register/generate-options/route.ts:37-49 | a known reservation without any passkey row passes the ladder with its row |
| GenerateOptions.SeveralPasskeysPass | src/app/api/webauthn/register/generate-options/route.ts:37-49 | a known reservation with two or more passkey rows also passes, because `.single()` then yields no row |
| GenerateOptions.MissingIdIgnoresTables | src/app/api/webauthn/register/generate-options/route.ts:15-20 | a falsy id is rejected with 400 whatever both tables hold |
| GenerateOptions.NotFoundIgnoresPasskeys | src/app/api/webauthn/register/generate-options/route.ts:22-35 | an unknown reservation is rejected with 404 whatever the passkeys table holds |
| GenerateOptions.OptionsFor | src/app/api/webauthn/register/generate-options/route.ts:53-66 | resident key and user verification required, platform attachment, attestation `none`, no excluded credentials, `userID` the UTF-8 encoding of the id, `userName` the truthy guest name or else the id |
| GenerateOptions.UserIdsDistinct | src/app/api/webauthn/register/generate-options/route.ts:53-58 | distinct reservation ids get distinct user handles |
| GenerateOptions.Backend.SaveChallenge | src/app/api/webauthn/register/generate-options/route.ts:69 | the challenge is appended to the store and its fresh id designates it |
| GenerateOptions.Backend.Post | src/app/api/webauthn/register/generate-options/route.ts:11-81 | an unparseable body gives 500 and each rejection gives its status and message, all with the challenge store unchanged; on success the reply carries the options and the id of a save of exactly `options.challenge`, the one change to the store |

## Left out

- Unicode case mapping: `ToUpper` maps only `a–z`. Characters outside ASCII stay as they are and are then dropped by the `[A-Z0-9]` filter. The few non-ASCII characters whose upper case falls in `A–Z`, such as `ß` becoming `SS`, are not modelled.
- Network I/O of `handleSubmit`: the fetch and JSON parsing are left out, and the model starts from the parsed reply. A thrown fetch or parse error carries a message from the runtime and is not modelled. `alreadyCheckedIn` is modelled by its truthiness.
- `isLoading` as a double-submit guard across concurrent submissions is left out. `HandleSubmit` is one atomic step.
- Rendering: JSX, CSS classes, labels and the timestamp display are left out. Only the guards that decide which handler is reachable, the progress index, check marks, connectors and help visibility are modelled.
- The browser WebAuthn calls in the biometric and registration components are left out. The biometric step is modelled by the id it hands to the page.
- Next.js `config.matcher` globs (src/middleware.ts:44-49) are left out. The guard assumes the middleware was invoked. The redirect's absolute URL is modelled by its path.
- Supabase queries are modelled as a map of reservations and a sequence of passkey rows. A database error on the reservation lookup is not modelled; the route answers 404 for it, as for a missing row.
- A failed passkeys query is not modelled. The route discards that query's error (src/app/api/webauthn/register/generate-options/route.ts:38), so a failure lets registration proceed as if no passkey existed.
- EncodeInjective: `Utf8.EncodeInjective` holds for strings of Unicode scalar values only. A JavaScript string may hold lone surrogates, which `TextEncoder` replaces by U+FFFD, so `"\ud800"` and `"\ufffd"` encode alike. Dafny's `char` cannot hold a surrogate, so such strings are not modelled.
- UserIdsDistinct: `GenerateOptions.UserIdsDistinct` inherits the same restriction. Two reservation ids that differ only in a lone surrogate versus U+FFFD would get the same user handle, and this is not modelled.
- `generateRegistrationOptions` is foreign library code. Its random challenge is a parameter of `Post`, and the options it returns are the argument record plus that challenge.
- Exceptions thrown by the options generator or by `saveChallenge` are not modelled. Only an unparseable body reaches the 500 reply.
- `saveChallenge` internals are not part of this model. Saving appends to a sequence and returns the new position as the id. Expiry and redemption are not modelled.
- A `reservationId` that is a JSON value other than a string is not modelled.
- `rpName` and `rpID` come from a configuration file that is not part of this model. They are constructor parameters of `Backend`.
- The admin login route, reservation creation and listing, the email text, and the check-in, authentication and registration-verification endpoints are not part of this model.
- Challenge expiry and single redemption, and the ceremony verification endpoints, are not part of this model.
