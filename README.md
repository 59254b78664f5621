# Contact form API — a verified model of its submission pipeline

The service accepts contact-form submissions over HTTP. The model covers:

- the validator that checks a submission and normalises its fields;
- the `contacts` table with its repository operations;
- the route handlers under `/api/contacts` (POST, GET list, GET by id, DELETE);
- the e-mail notification to the administrator (subject, plain-text and HTML bodies, lazy transport with a sandbox fallback);
- the error classification (`ApiError` and the global error handler).

Express, SQLite, nodemailer and the configuration loader are replaced by abstract models. What they would decide becomes a parameter:

- `engineError` is an error the database raises;
- `readError` is an error the database raises when `create` reads the new row back, after the INSERT has succeeded;
- `now` is the database clock;
- `account` is the outcome of creating a sandbox test account;
- `delivery` is the outcome of sending the mail;
- `admitted` is the rate limiter's verdict.

Modules, one per file:

| module | file | models |
|---|---|---|
| `Wrappers` | `wrappers.dfy` | `Option`, `Result` |
| `JsText` | `js_text.dfy` | JavaScript strings as UTF-16 code units; `trim`, `trimStart`, ASCII `toLowerCase`, `join`, `indexOf` and `parseInt(s, 10)` |
| `Schema` | `schema.dfy` | the `contacts` row and the validated submission |
| `ApiErrors` | `api_error.dfy` | `ApiError` and its four factories |
| `Http` | `http.dfy` | response bodies and statuses |
| `ErrorHandling` | `error_handler.dfy` | `errorHandler` |
| `Validation` | `validate.dfy` | `EMAIL_REGEX` and `validateContact` |
| `ContactRepository` | `contact_repository.dfy` | `create`, `findById`, `findAll`, `deleteById` over a table class |
| `MailService` | `mail_service.dfy` | subject, plain text, HTML, `getTransporter`, `sendAdminNotification` |
| `ContactRoutes` | `contact_routes.dfy` | query clamping, status selection, and the four handlers |

Each imperative part of the source is a method proved against a pure function:

- `validateContact` pushes errors one by one and then overwrites `req.body`. It is modelled by `CollectErrors` and `ValidateContact`, both proved against `Validate`.
- The repository is a `ContactTable` class. It holds:
  - `rows`;
  - `nextId`, the autoincrement counter;
  - a ghost set of every id ever issued.
- `getTransporter` updates a module-level cache and the mail configuration. It becomes the `Mailer` class, proved against the function `Obtain`.
- The handlers are methods whose responses are proved equal to pure outcome functions. Those functions carry the status-selection lemmas.

## Model

| member | source | states |
|---|---|---|
| `ApiErrors.BadRequest` | src/utils/ApiError.js:8-10 | `ApiError.badRequest(message = "Bad request")`: status 400 |
| `ApiErrors.NotFound` | src/utils/ApiError.js:12-14 | `ApiError.notFound(message = "Resource not found")`: status 404 |
| `ApiErrors.TooMany` | src/utils/ApiError.js:16-18 | `ApiError.tooMany(message = "Too many requests, please try again later")`: status 429 |
| `ApiErrors.Internal` | src/utils/ApiError.js:20-22 | `ApiError.internal(message = "Internal server error")`: status 500 |
| `ApiErrors.FactoryContracts` | src/utils/ApiError.js:1-22 | `badRequest`/`notFound`/`tooMany`/`internal` give 400/404/429/500; a supplied message is kept verbatim, an omitted one becomes the factory's default text; the error's name is "ApiError" |
| `ErrorHandling.ErrorHandler` | src/middlewares/errorHandler.js:3-17 | every response the handler produces has an error body with `success:false` |
| `ErrorHandling.ApiErrorAnswered` | src/middlewares/errorHandler.js:4-9 | an `ApiError` is answered with its own status code and message, and nothing is logged |
| `ErrorHandling.UnclassifiedHidesDetail` | src/middlewares/errorHandler.js:11-16 | any other error gives 500 "Internal server error"; two errors with different details get the same response, and the detail goes only to the log |
| `ErrorHandling.FactoriesThroughHandler` | src/middlewares/errorHandler.js:4-16 | each factory's error reaches the client with that factory's status; `internal()` with no argument is indistinguishable from an unclassified error |
| `JsText.Trim` | src/middlewares/validate.js:37-39 | `trim` returns a text with no whitespace at either end and no longer than its input |
| `JsText.ToLowerAscii` | src/middlewares/validate.js:38 | `toLowerCase` keeps the length, one code unit for one; A–Z become a–z and every other unit is kept |
| `JsText.ParseInt` | src/routes/contactRoutes.js:189-190 | `parseInt(s, 10)`: leading whitespace skipped, an optional sign, the longest run of decimal digits, NaN (`None`) when there is none; its properties are the `ParseInt…` lemmas |
| `JsText.TrimCutsWhiteSpace` | src/middlewares/validate.js:37-39 | `trim` returns the contiguous middle of the string with no whitespace at either end, and only whitespace was cut from each side |
| `JsText.TrimIdempotent` | src/middlewares/validate.js:37-39 | trimming a trimmed value changes nothing |
| `JsText.LowerIdempotent` | src/middlewares/validate.js:38 | lower-casing a lower-cased value changes nothing |
| `JsText.ParseIntSkipsWhiteSpace` | src/routes/contactRoutes.js:189 | leading whitespace does not change what `parseInt` reads |
| `JsText.ParseIntOfUnsigned` | src/routes/contactRoutes.js:189 | `parseInt` of a decimal numeral followed by any non-digit text yields that number |
| `JsText.ParseIntOfNegative` | src/routes/contactRoutes.js:189 | `parseInt` of `-` and a numeral followed by any non-digit text yields its negation |
| `JsText.ParseIntNaN` | src/routes/contactRoutes.js:189 | text that does not start (after whitespace) with a sign or digit parses to NaN |
| `Validation.EmailShape` | src/middlewares/validate.js:3 | the executable test for `^[^\s@]+@[^\s@]+\.[^\s@]+$`: no whitespace, exactly one `@` with text before it, and after it a dot with text on both sides; `EmailShapeIsPattern` proves it equal to the pattern |
| `Validation.Violations` | src/middlewares/validate.js:9-31 | the rules that fail, in the order the six checks run |
| `Validation.Errors` | src/middlewares/validate.js:7-31 | the messages of those rules, in that order |
| `Validation.Validate` | src/middlewares/validate.js:5-42 | the validator's verdict: a 400 `ApiError` with all messages joined by one space when any check fails, otherwise the trimmed fields with the email lower-cased; its properties are `ValidateCases` and the lemmas after it |
| `Validation.EmailShapeIsPattern` | src/middlewares/validate.js:3 | the executable shape test holds exactly when the text is three non-empty runs without whitespace or `@`, joined by `@` and a dot |
| `Validation.EmailShapeMatches` | src/middlewares/validate.js:3 | a text passing the shape test splits into the three runs of the pattern |
| `Validation.PatternHasShape` | src/middlewares/validate.js:3 | any text matching the pattern passes the shape test |
| `Validation.LowerKeepsShape` | src/middlewares/validate.js:38 | lower-casing a valid email keeps it valid |
| `Validation.NoViolationsIff` | src/middlewares/validate.js:7-33 | no error is collected exactly when all six checks pass |
| `Validation.PassesIff` | src/middlewares/validate.js:9-31 | passing means that no rule is violated |
| `Validation.ViolationsAreFailingChecks` | src/middlewares/validate.js:9-31 | a rule is reported exactly when its check fails |
| `Validation.ErrorsInOrder` | src/middlewares/validate.js:7-31 | the collected messages are the name, email, message, name-max, email-max, message-max failures, in that order, each at most once |
| `Validation.ValidateCases` | src/middlewares/validate.js:33-39 | the validator accepts iff all checks pass; on acceptance the three fields are strings and are replaced by their normalised values; on rejection the error is a 400 whose message is all messages joined by one space |
| `Validation.RejectionReportsEveryViolation` | src/middlewares/validate.js:33-35 | a rejection's message lists the message of every violated rule, not only the first |
| `Validation.LengthChecks` | src/middlewares/validate.js:9-31 | a field passes its minimum and maximum checks iff it is a string whose trimmed length reaches the minimum and whose raw length is within the maximum |
| `Validation.EmailChecks` | src/middlewares/validate.js:13-27 | the email passes iff it is a string whose trimmed value has the pattern's shape and whose raw length is at most 254 |
| `Validation.PassesWithinBounds` | src/middlewares/validate.js:9-31 | all checks pass iff name has trimmed length ≥ 2 and raw length ≤ 100, the email is well-formed after trimming with raw length ≤ 254, and the message has trimmed length ≥ 10 and raw length ≤ 5000 |
| `Validation.AcceptedIff` | src/middlewares/validate.js:9-35 | the validator accepts exactly under those bounds |
| `Validation.NormalizedBounds` | src/middlewares/validate.js:37-39 | an accepted body's normalised name is 2–100 long and message 10–5000, all three are trimmed, and the email is lower-case, well-formed and at most 254 long |
| `Validation.NormalizedPasses` | src/middlewares/validate.js:9-31 | trimmed fields within those bounds pass every check |
| `Validation.ValidateIdempotent` | src/middlewares/validate.js:5-42 | validating an already-normalised body accepts it unchanged |
| `Validation.NameBoundaries` | src/middlewares/validate.js:9-23 | names of 2 and 100 code units pass; 1 violates only the minimum; 101 violates only the maximum |
| `Validation.MessageBoundaries` | src/middlewares/validate.js:17-31 | messages of 10 and 5000 code units pass; 9 violates only the minimum; 5001 violates only the maximum |
| `Validation.FirstThreeViolated` | src/middlewares/validate.js:9-31 | a too-short name, an email without `@` within its length and a too-short message violate exactly the first three rules |
| `Validation.ExampleViolations` | src/middlewares/validate.js:7-31 | `{name:"a", email:"bad", message:"short"}` collects exactly three messages: name, email, message |
| `Validation.RejectionOfFirstThree` | src/middlewares/validate.js:33-35 | those three violations produce one 400 error with the three messages joined by spaces |
| `Validation.ExampleRejection` | src/middlewares/validate.js:7-35 | the example body is rejected with exactly that error |
| `Validation.Push` | src/middlewares/validate.js:9-11 | one check appends its message when it fails and nothing otherwise |
| `Validation.CollectErrors` | src/middlewares/validate.js:7-31 | the six checks run in sequence collect exactly the specified errors |
| `Validation.ValidateContact` | src/middlewares/validate.js:5-42 | on a violation, the body is untouched and one 400 error is passed on; otherwise name and message become trimmed and email trimmed and lower-cased; other body properties never change |
| `ContactRepository.IntegerText` | src/db/contactRepository.js:16 | the integer a text bound against the `INTEGER PRIMARY KEY` column stands for under SQLite's numeric affinity: surrounding spaces skipped, an optional sign, an integer or real numeral (digits, optional fraction, optional exponent) whose value is whole; anything else matches no rowid |
| `ContactRepository.KeyOf` | src/db/contactRepository.js:16 | the integer `id = ?` compares with: an integer binds as itself, a text as `IntegerText` reads it |
| `ContactRepository.KeyOfDecimal` | src/routes/contactRoutes.js:238 | an id arriving as its decimal text in the route path selects that id |
| `ContactRepository.KeyOfPointZero` | src/db/contactRepository.js:16 | the text "1.0" selects id 1, as a real equal to the integer does |
| `ContactRepository.KeyOfExponent` | src/db/contactRepository.js:16 | the text "1e0" selects id 1 |
| `ContactRepository.KeyOfSpaced` | src/db/contactRepository.js:16 | the text " 1 " selects id 1: surrounding spaces are ignored |
| `ContactRepository.KeyOfFraction` | src/db/contactRepository.js:16 | the text "1.5" selects no row |
| `ContactRepository.Lookup` | src/db/contactRepository.js:14-17 | the lookup finds a row carrying that id when one exists and returns nothing iff no row has it |
| `ContactRepository.LookupFindsRow` | src/db/contactRepository.js:14-17 | with unique ascending ids, looking up any row's id returns that row |
| `ContactRepository.Without` | src/db/contactRepository.js:40-42 | deleting by id keeps exactly the rows with other ids |
| `ContactRepository.WithoutKeepsOrder` | src/db/contactRepository.js:40-42 | deleting keeps ids unique and ascending |
| `ContactRepository.WithoutRemovesOnly` | src/db/contactRepository.js:40-43 | after deleting an id it is not found, and every other id is found exactly as before |
| `ContactRepository.WithoutCount` | src/db/contactRepository.js:40-43 | the table shrinks by one row when the id existed and is unchanged otherwise |
| `ContactRepository.InsertByTimeAdds` | src/db/contactRepository.js:24 | inserting into the newest-first order adds exactly that row |
| `ContactRepository.NewestFirst` | src/db/contactRepository.js:24 | `ORDER BY created_at DESC` yields a permutation of the table with `created_at` non-increasing |
| `ContactRepository.NewestFirstTiesByRowid` | src/db/contactRepository.js:24 | rows of equal `created_at` come out in ascending rowid order, the one order the model gives SQLite for ties |
| `ContactRepository.CeilDiv` | src/db/contactRepository.js:35 | `totalPages` is the least number of pages of `limit` rows that covers `total` |
| `ContactRepository.Page` | src/db/contactRepository.js:19-37 | `findAll` returns at most `limit` rows of the table, newest first, the full row count as `total`, and echoes `page` and `limit` |
| `ContactRepository.Window` | src/db/contactRepository.js:24-25 | `LIMIT limit OFFSET offset` on the ordered rows returns at most `limit` rows |
| `ContactRepository.WindowSize` | src/db/contactRepository.js:24-25 | `LIMIT … OFFSET …` returns nothing past the end, else the smaller of `limit` and what remains |
| `ContactRepository.PageArithmetic` | src/db/contactRepository.js:21-35 | the offset `(page-1)*limit` is inside the table iff `page ≤ totalPages`, and every page before the last is full |
| `ContactRepository.PageSize` | src/db/contactRepository.js:19-36 | a page is non-empty iff `page ≤ totalPages`; earlier pages hold `limit` rows; a page past the end is empty |
| `ContactRepository.TotalPagesZero` | src/db/contactRepository.js:35 | `totalPages` is 0 exactly for an empty table |
| `ContactRepository.PagesPartitionTable` | src/db/contactRepository.js:19-36 | pages 1 to `totalPages`, concatenated, are the whole table in newest-first order, each row exactly once |
| `ContactRepository.NewestOnFirstPage` | src/db/contactRepository.js:24 | the first row of page 1 is at least as new as every row |
| `ContactRepository.StrictlyNewestComesFirst` | src/db/contactRepository.js:24 | a row strictly newer than all others heads page 1 |
| `ContactRepository.PagingOfTwentyFive` | src/db/contactRepository.js:19-36 | 25 rows in pages of 10 give 3 pages of 10, 10 and 5 rows, and page 4 is empty |
| `ContactRepository.Listed` | src/db/contactRepository.js:19-26 | `findAll` succeeds iff the database raises nothing and both the limit and the offset `(page-1)*limit` lie strictly inside the 64-bit range; otherwise it fails with the engine's error or "datatype mismatch", and on success yields the page with the requested page number |
| `ContactRepository.Inserted` | src/db/contactRepository.js:6-10 | the INSERT succeeds iff the database raises nothing and rowids are not used up, and then stores a row with the new id, the clock's time, the given address and the submitted fields |
| `ContactRepository.Created` | src/db/contactRepository.js:4-16 | `create` returns the stored row iff the INSERT succeeds and the read-back raises nothing; a failed INSERT's error is returned as is; a read-back error is returned although the row is stored |
| `ContactRepository.Selected` | src/db/contactRepository.js:14-17 | a row found by `findById` is in the table and carries the id the bound value converts to under numeric affinity |
| `ContactRepository.ContactTable.constructor` | src/db/database.js:28-35 | a fresh table is empty and its autoincrement counter starts at 1 |
| `ContactRepository.ContactTable.Create` | src/db/contactRepository.js:4-16 | the result is `Created`'s; when the INSERT succeeds, exactly one row is appended with an id greater than every id ever issued, deleted ones included, and `findById` of that id finds it, even if the read-back then fails; when the INSERT fails nothing changes |
| `ContactRepository.ContactTable.FindById` | src/db/contactRepository.js:14-17 | returns the selected row or nothing, without an error unless the database raises one, and without changing the table |
| `ContactRepository.ContactTable.FindAll` | src/db/contactRepository.js:19-38 | returns `Listed` for the given or default (1, 20) `page` and `limit` without changing the table: the page, unless the limit or the offset `(page-1)*limit` falls outside the 64-bit range, where SQLite fails with "datatype mismatch" |
| `ContactRepository.ContactTable.DeleteById` | src/db/contactRepository.js:40-44 | returns true iff a row with that id existed; that row is removed and every other row, the counter and the issued ids are kept |
| `MailService.Subject` | src/services/mailService.js:39 | the subject `New Contact Form Submission from ${name}` |
| `MailService.SubjectNamesSender` | src/services/mailService.js:39 | the subject is exactly the fixed prefix followed by the sender's name: the name can be read back, and only that subject yields it |
| `MailService.PlainText` | src/services/mailService.js:54-63 | `buildPlainText`: the six lines joined by line feeds |
| `MailService.PlainTextLayout` | src/services/mailService.js:54-63 | the plain text is the header, the underline, an empty line and the three labelled lines, separated by single line feeds |
| `MailService.PlainTextRoundTrip` | src/services/mailService.js:54-63 | the three fields can be read back from the plain text when the name and email hold no line feed |
| `MailService.ParsedPlainTextRenders` | src/services/mailService.js:54-63 | any text from which fields are read back is exactly the plain text of those fields |
| `MailService.Html` | src/services/mailService.js:65-89 | `buildHtml`: the template with the name, the mailto link and the message put in |
| `MailService.RenderEmbedsFields` | src/services/mailService.js:65-89 | the HTML holds the name, the mailto link and the message verbatim, without escaping, each right after its template piece |
| `MailService.MailtoLinkShowsEmail` | src/services/mailService.js:79 | the link holds the email both as its `href` target and as its text |
| `MailService.Obtain` | src/services/mailService.js:6-31 | `getTransporter` as a function of the cache, the configuration and the test-account outcome: the transport (or the error) and the new configuration |
| `MailService.ObtainReusesCache` | src/services/mailService.js:4-7 | once a transport exists it is returned as is and the configuration is untouched |
| `MailService.ObtainSwitchesToSandbox` | src/services/mailService.js:10-18 | with an empty SMTP user, the configuration switches to smtp.ethereal.email, port 587, insecure, with the test account's credentials, and the transport is built from them; sender and admin addresses are kept |
| `MailService.ObtainConfigured` | src/services/mailService.js:6-31 | with a configured user the transport is built from the configuration unchanged; a failed test-account creation yields that error and leaves the configuration; sender and admin addresses never change |
| `MailService.PreviewOrNull` | src/services/mailService.js:46-51 | `previewUrl` is null iff the transport gives no or an empty preview URL, and otherwise that URL |
| `MailService.AdminMail` | src/services/mailService.js:36-42 | `mailOptions`: from `config.mail.from` to `config.mail.adminEmail`, with the subject, the plain text and the HTML |
| `MailService.AdminMailAddressed` | src/services/mailService.js:36-42 | the mail goes from `config.mail.from` to `config.mail.adminEmail`, its subject names the sender, and the sandbox switch does not change it |
| `MailService.Mailer.constructor` | src/services/mailService.js:4 | a fresh service has no transport and has sent nothing |
| `MailService.Mailer.GetTransporter` | src/services/mailService.js:6-31 | the result and the new configuration follow the cache and sandbox rules, a new transport is cached, and no mail is sent |
| `MailService.Mailer.SendAdminNotification` | src/services/mailService.js:33-52 | the admin mail is sent exactly when a transport is obtained; the result carries the message id and the preview URL or null, or the error that stopped the send |
| `ContactRoutes.EffectivePage` | src/routes/contactRoutes.js:189 | the page used is always at least 1 |
| `ContactRoutes.EffectiveLimit` | src/routes/contactRoutes.js:190 | the limit used is always within [1, 100] |
| `ContactRoutes.QueryText` | src/routes/contactRoutes.js:189-190 | the text `parseInt` reads from a query parameter: "undefined" when missing, the value itself, a repeated key's values joined by commas, "[object Object]" for a bracketed key |
| `ContactRoutes.OrDefault` | src/routes/contactRoutes.js:189-190 | the logical-or fallback after `parseInt`: NaN and 0 give the default, any other number is kept |
| `ContactRoutes.PageByCases` | src/routes/contactRoutes.js:189 | NaN or 0 gives page 1, a negative parse gives 1, any positive parse is used as is |
| `ContactRoutes.LimitByCases` | src/routes/contactRoutes.js:190 | NaN or 0 gives 20, a negative parse gives 1, above 100 gives 100, otherwise the parse |
| `ContactRoutes.MissingParameters` | src/routes/contactRoutes.js:189-190 | missing or object-valued parameters give page 1 and limit 20 |
| `ContactRoutes.NumericParameters` | src/routes/contactRoutes.js:189-190 | a numeral, optionally followed by non-digit text, sets page and limit by its value, with 0 falling back and limits capped at 100 |
| `ContactRoutes.NegativeParameters` | src/routes/contactRoutes.js:189-190 | a negative numeral gives page 1 and limit 1, while `-0` gives limit 20 |
| `ContactRoutes.RepeatedParameter` | src/routes/contactRoutes.js:189-190 | a repeated parameter acts like its first value |
| `ContactRoutes.FoundResponse` | src/routes/contactRoutes.js:240-247 | GET by id's answer for what `findById` returned: 404 "Contact not found." or 200 with the row |
| `ContactRoutes.DeletedResponse` | src/routes/contactRoutes.js:291-298 | DELETE's answer for what `deleteById` returned: 404 "Contact not found." or 200 "Contact deleted successfully." |
| `ContactRoutes.FoundResponseIff` | src/routes/contactRoutes.js:236-251 | GET by id answers 404 "Contact not found." iff no row is found, and otherwise 200 with that row |
| `ContactRoutes.DeletedResponseIff` | src/routes/contactRoutes.js:287-302 | DELETE answers 404 "Contact not found." iff nothing was deleted, and otherwise 200 "Contact deleted successfully." |
| `ContactRoutes.DeleteTwice` | src/routes/contactRoutes.js:287-302 | deleting an existing id answers 200, and deleting it again answers 404 |
| `ContactRoutes.PostOutcome` | src/routes/contactRoutes.js:125-145 | POST's answer as a function of admission, body, counter and database outcomes: 429 from the limiter, the validator's error through the error handler, or the handler's answer |
| `ContactRoutes.SubmitOutcome` | src/routes/contactRoutes.js:129-145 | the handler's answer for validated fields: 201 with the row `create` returned, or `create`'s error through the error handler |
| `ContactRoutes.StoredRow` | src/routes/contactRoutes.js:125-131 | a POST stores a row iff the limiter admits it, the body passes and the INSERT succeeds; the row holds the trimmed name and message, the trimmed lower-cased email, the counter's id, the address and the clock's time |
| `ContactRoutes.PostOutcomeCases` | src/routes/contactRoutes.js:125-145 | POST answers: 429 iff the rate limiter refuses; 400 iff the body fails validation, with the joined messages; 500 "Internal server error" iff the INSERT or the read-back fails; otherwise 201 with the confirmation and the stored row of normalised fields; success is true only for 201 |
| `ContactRoutes.PostStoresRow` | src/routes/contactRoutes.js:129-144 | a 201 carries exactly the stored row; a read-back failure after a successful INSERT answers 500 while the row stays stored |
| `ContactRoutes.ListContacts` | src/routes/contactRoutes.js:187-201 | the response is `ListOutcome`: the repository's page for the clamped `page` and `limit`, and any error `findAll` throws, including an offset out of range, goes to the error handler |
| `ContactRoutes.ListOutcome` | src/routes/contactRoutes.js:187-201 | GET `/`'s answer as a function of the rows, the query parameters and the database outcome |
| `ContactRoutes.ListOutcomeCases` | src/routes/contactRoutes.js:187-201 | 500 "Internal server error" iff the database raises an error or the offset `(page-1)*limit` reaches 2^63-1; otherwise 200 with the newest-first page for the clamped parameters |
| `ContactRoutes.HugePageFails` | src/routes/contactRoutes.js:189-199 | `?page=1000000000000000000` with the default limit answers 500 "Internal server error" |
| `ContactRoutes.GetContact` | src/routes/contactRoutes.js:236-251 | the response follows the row selected by the path's id; a database error goes to the error handler |
| `ContactRoutes.DeleteContact` | src/routes/contactRoutes.js:287-302 | the response says whether a row with the path's id existed, and that row alone is removed |
| `ContactRoutes.Submit` | src/routes/contactRoutes.js:126-145 | after validation: the notification is started only after `create` returns the row, with the normalised fields; the response is fixed before and independent of the notification; a failed INSERT changes nothing; a failed read-back leaves the row stored and sends nothing |
| `ContactRoutes.PostContact` | src/routes/contactRoutes.js:125-145 | rate limit, validate, create, notify, respond: the response is a function of admission, body, counter and database only; the table gains exactly `StoredRow`'s row, or nothing when there is none; any answer other than 201 leaves the mailer unchanged |

## Left out

- Express routing, helmet, CORS, body parsing, the 404 fallback, `listen` and the signal handlers (src/server.js) are framework and process plumbing. They are not part of this model.
- Environment loading (src/config/env.js) is not modelled. The mail configuration is a plain record parameter.
- The Swagger definitions (src/config/swagger.js and the JSDoc blocks) generate documentation only.
- The rate limiter's window and counting are not modelled. Its verdict is the `admitted` flag in front of POST, with the limiter's own 429 message.
- better-sqlite3, the connection singleton, the directory creation and the WAL pragma are not modelled. Database failures are the `engineError` parameter. `created_at` is the `now` parameter, in seconds.
- SQL fixes no order among rows of equal `created_at`. The model assumes SQLite returns them in ascending rowid order, and in that same order in every query (`NewestFirstTiesByRowid`). `Page`, `FindAll` and `PagesPartitionTable` rely on this fixed order.
- SQLite converts a real-valued id text through a double. The model reads the numeral exactly, so texts whose value a double cannot hold exactly (more than 15 significant digits, or exponents past the double range) are not modelled as SQLite would round them.
- `lastInsertRowid` beyond 2^53 losing precision as a JavaScript number is not modelled. Ids are unbounded integers up to SQLite's maximum rowid, and past it an insert fails.
- nodemailer (`createTestAccount`, `createTransport`, `sendMail`, `getTestMessageUrl`) is foreign code. Their outcomes are the `account` and `delivery` parameters, and the sent mail is recorded in `Mailer.sent`.
- The fire-and-forget scheduling of the notification and all `console` logging are not modelled. The notification runs to completion before the response in the model. The response is proved not to depend on its outcome.
- Unicode behaviour of `toLowerCase` beyond ASCII is not modelled. Only A–Z are lower-cased, and string lengths count UTF-16 code units.
- `parseInt`, the page number and the offset `(page - 1) * limit` are doubles in JavaScript; the model computes them exactly. A page number past 2^53 is echoed exactly where JavaScript would round it, and an offset that a double rounds across 2^63 is judged by its exact value. An offset of 2^63 or more is modelled: SQLite rejects it and the listing answers 500.
- ContactRepository.ContactTable.FindAll: requires `limit ≥ 1`. Its only caller clamps the limit to [1, 100]. A zero or negative limit would make `totalPages` Infinity or NaN in JavaScript, which the model does not represent.
- ContactRepository.Page: requires `limit ≥ 1`, for the same reason.
- ContactRepository.Listed: requires `limit ≥ 1`, for the same reason.
- MailService.PlainTextRoundTrip: requires that the name and email hold no line feed. With one, the plain text is ambiguous, so the fields cannot be read back uniquely.
- `req.body` values that are non-string JSON are represented only by their truthiness and `length` property, which are all the validator reads.
