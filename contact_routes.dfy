/**
 * The `/api/contacts` routes: submitting a contact (behind the rate limiter
 * and the validator), listing contacts page by page, reading one by id and
 * deleting one by id. Errors thrown by the repository are forwarded to the
 * error handler, whose response is the one sent.
 */
module ContactRoutes {
  import opened Wrappers
  import opened JsText
  import opened Schema
  import opened ContactRepository
  import opened ApiErrors
  import opened Http
  import opened ErrorHandling
  import opened Validation
  import MailService

  const CREATED_MESSAGE: JsString := Lit("Your message has been received. We will get back to you soon!")
  const CONTACT_NOT_FOUND: JsString := Lit("Contact not found.")
  const CONTACT_DELETED: JsString := Lit("Contact deleted successfully.")
  /** The body the rate limiter sends once a client is over its quota. */
  const RATE_LIMITED_MESSAGE: JsString := Lit("Too many submissions. Please try again later.")

  const MAX_LIMIT: int := 100

  // ---------------------------------------------------------------------------
  // Query parameters

  /**
   * A query parameter as the query parser hands it over: missing, one value,
   * a repeated key (an array), or a bracketed key (an object).
   */
  datatype QueryValue = Absent | Text(t: JsString) | Repeated(values: seq<JsString>) | Nested

  /** `String(q)`, which `parseInt` applies to its argument first. */
  function QueryText(q: QueryValue): JsString {
    match q
    case Absent => Lit("undefined")
    case Text(t) => t
    case Repeated(values) => Join(values, [COMMA])
    case Nested => Lit("[object Object]")
  }

  /** `parsed || fallback`: NaN and 0 are falsy, so both give the fallback. */
  function OrDefault(parsed: Option<int>, fallback: int): int {
    if parsed.Some? && parsed.value != 0 then parsed.value else fallback
  }

  function Max(a: int, b: int): int {
    if a >= b then a else b
  }

  /** `Math.max(1, parseInt(req.query.page, 10) || 1)`. */
  function EffectivePage(q: QueryValue): (page: int)
    ensures page >= 1
  {
    Max(1, OrDefault(ParseInt(QueryText(q)), DEFAULT_PAGE))
  }

  /** `Math.min(100, Math.max(1, parseInt(req.query.limit, 10) || 20))`. */
  function EffectiveLimit(q: QueryValue): (limit: int)
    ensures 1 <= limit <= MAX_LIMIT
  {
    Min(MAX_LIMIT, Max(1, OrDefault(ParseInt(QueryText(q)), DEFAULT_LIMIT)))
  }

  /**
   * The page by cases: a parsed number of at least 1 is taken as it is;
   * anything else (NaN, zero, a negative number) gives page 1.
   */
  lemma PageByCases(q: QueryValue)
    ensures EffectivePage(q) == match ParseInt(QueryText(q))
      case None => 1
      case Some(v) => if v >= 1 then v else 1
  {
  }

  /**
   * The limit by cases: NaN and zero give the default 20, a negative number
   * gives 1, a number above 100 gives 100, and anything else is taken as it is.
   */
  lemma LimitByCases(q: QueryValue)
    ensures EffectiveLimit(q) == match ParseInt(QueryText(q))
      case None => 20
      case Some(v) => if v == 0 then 20 else if v < 1 then 1 else if v > 100 then 100 else v
  {
  }

  /** A missing or bracketed parameter reads as NaN: page 1, limit 20. */
  lemma MissingParameters()
    ensures EffectivePage(Absent) == 1 && EffectiveLimit(Absent) == 20
    ensures EffectivePage(Nested) == 1 && EffectiveLimit(Nested) == 20
  {
    var u := Lit("undefined");
    assert u[0] == 0x75;
    assert TrimStart(u) == u;
    var o := Lit("[object Object]");
    assert o[0] == 0x5B;
    assert TrimStart(o) == o;
  }

  /**
   * A number followed by anything that is not a digit (`"37abc"`, `"12.5"`):
   * the digits are the page, at least 1; as a limit, 0 is the default 20 and
   * anything above 100 is 100.
   */
  lemma NumericParameters(n: nat, rest: JsString)
    requires rest == [] || !IsDigit(rest[0])
    ensures EffectivePage(Text(Decimal(n) + rest)) == if n == 0 then 1 else n
    ensures EffectiveLimit(Text(Decimal(n) + rest)) == if n == 0 then 20 else if n > 100 then 100 else n
  {
    ParseIntOfUnsigned(n, rest);
  }

  /**
   * A negative number gives page 1 and limit 1, except that `"-0"` parses to
   * a falsy zero and so gives the default limit 20.
   */
  lemma NegativeParameters(n: nat, rest: JsString)
    requires rest == [] || !IsDigit(rest[0])
    ensures EffectivePage(Text([MINUS] + Decimal(n) + rest)) == 1
    ensures EffectiveLimit(Text([MINUS] + Decimal(n) + rest)) == if n == 0 then 20 else 1
  {
    ParseIntOfNegative(n, rest);
  }

  /** A repeated key is read as its values joined with commas, so the first number wins. */
  lemma RepeatedParameter(n: nat, others: seq<JsString>)
    ensures EffectivePage(Repeated([Decimal(n)] + others)) == EffectivePage(Text(Decimal(n)))
    ensures EffectiveLimit(Repeated([Decimal(n)] + others)) == EffectiveLimit(Text(Decimal(n)))
  {
    var parts := [Decimal(n)] + others;
    var rest: JsString := if others == [] then [] else [COMMA] + Join(others, [COMMA]);
    assert Join(parts, [COMMA]) == Decimal(n) + rest by {
      if others != [] {
        assert parts[1..] == others;
      }
    }
    ParseIntOfUnsigned(n, rest);
    ParseIntOfUnsigned(n, []);
    assert Decimal(n) + [] == Decimal(n);
  }

  // ---------------------------------------------------------------------------
  // Responses

  /** What the error handler sends for an error passed to `next`. */
  function Forwarded(err: Error): Response {
    ErrorHandler(err).response
  }

  /** GET `/:id`: 404 "Contact not found." without a row, else 200 with it. */
  function FoundResponse(found: Option<Contact>): Response {
    if found.None? then Response(404, ErrorBody(CONTACT_NOT_FOUND))
    else Response(200, ItemBody(found.value))
  }

  /** DELETE `/:id`: 404 "Contact not found." when nothing was deleted, else 200. */
  function DeletedResponse(deleted: bool): Response {
    if !deleted then Response(404, ErrorBody(CONTACT_NOT_FOUND))
    else Response(200, MessageBody(CONTACT_DELETED))
  }

  /** GET `/`: `{ success: true, ...result }`. */
  function ListResponse(result: PageResult): Response {
    Response(200, ListBody(result.data, result.pagination))
  }

  /** GET `/` as a function of the rows, the query parameters and the database's behaviour. */
  function ListOutcome(rows: seq<Contact>, page: QueryValue, limit: QueryValue, engineError: Option<JsString>): Response {
    match Listed(rows, EffectivePage(page), EffectiveLimit(limit), engineError)
    case Failure(e) => Forwarded(Unclassified(e))
    case Success(result) => ListResponse(result)
  }

  /**
   * POST `/` as a function of what decides it: whether the rate limiter
   * admits the request, the submitted fields, the table's id counter and the
   * database's behaviour. The notification is not among its arguments: the
   * response never depends on how sending the mail turns out.
   */
  function PostOutcome(admitted: bool, f: Fields, nextId: int, ipAddress: Option<JsString>, now: Timestamp,
                       engineError: Option<JsString>, readError: Option<JsString>): Response
  {
    if !admitted then Response(429, ErrorBody(RATE_LIMITED_MESSAGE))
    else
      match Validate(f)
      case Failure(e) => Forwarded(Api(e))
      case Success(n) => SubmitOutcome(n, nextId, ipAddress, now, engineError, readError)
  }

  /** The handler's answer for validated fields: 201 with the stored row, or the storage error forwarded. */
  function SubmitOutcome(n: Submission, nextId: int, ipAddress: Option<JsString>, now: Timestamp,
                         engineError: Option<JsString>, readError: Option<JsString>): Response
  {
    match Created(nextId, n, ipAddress, now, engineError, readError)
    case Failure(detail) => Forwarded(Unclassified(detail))
    case Success(c) => Response(201, CreatedBody(CREATED_MESSAGE, c))
  }

  /**
   * The row a POST leaves in the table: the normalised fields under the
   * counter's id, when the limiter admits the request, the fields pass and
   * the INSERT succeeds, whatever the response then is.
   */
  function StoredRow(admitted: bool, f: Fields, nextId: int, ipAddress: Option<JsString>, now: Timestamp,
                     engineError: Option<JsString>): (r: Option<Contact>)
    ensures r.Some? <==> admitted && Passes(f) && engineError.None? && nextId <= MAX_ROWID
    ensures r.Some? ==>
      r.value == Contact(nextId, Trim(f.name.s), ToLowerAscii(Trim(f.email.s)), Trim(f.message.s), ipAddress, now)
  {
    ValidateCases(f);
    if !admitted then None
    else
      match Validate(f)
      case Failure(_) => None
      case Success(n) =>
        match Inserted(nextId, n, ipAddress, now, engineError)
        case Failure(_) => None
        case Success(c) => Some(c)
  }

  /** 404 exactly when there is no row; otherwise 200 with that very row. */
  lemma FoundResponseIff(found: Option<Contact>)
    ensures FoundResponse(found).status == 404 <==> found.None?
    ensures found.None? ==> FoundResponse(found).body == ErrorBody(Lit("Contact not found."))
    ensures found.Some? ==> FoundResponse(found) == Response(200, ItemBody(found.value))
    ensures FoundResponse(found).body.Success() <==> found.Some?
  {
  }

  /** 404 exactly when nothing was deleted; otherwise 200 with the confirmation. */
  lemma DeletedResponseIff(deleted: bool)
    ensures DeletedResponse(deleted).status == 404 <==> !deleted
    ensures !deleted ==> DeletedResponse(deleted).body == ErrorBody(Lit("Contact not found."))
    ensures deleted ==> DeletedResponse(deleted) == Response(200, MessageBody(Lit("Contact deleted successfully.")))
  {
  }

  /**
   * Deleting the same id twice: the first delete answers 200 exactly when the
   * row was there, the second always answers 404.
   */
  lemma DeleteTwice(rows: seq<Contact>, id: int)
    ensures DeletedResponse(Lookup(rows, id).Some?).status == 200 <==> Lookup(rows, id).Some?
    ensures DeletedResponse(Lookup(Without(rows, id), id).Some?).status == 404
  {
    WithoutRemovesOnly(rows, id, id);
  }

  /**
   * The POST outcomes: 429 when the limiter refuses; 400 with every
   * validation message when a rule fails; 500 "Internal server error" when
   * storing fails; otherwise 201 with the confirmation and the stored row,
   * whose fields are the normalised ones and whose id is the counter's.
   */
  lemma PostOutcomeCases(admitted: bool, f: Fields, nextId: int, ipAddress: Option<JsString>, now: Timestamp,
                         engineError: Option<JsString>, readError: Option<JsString>)
    ensures var r := PostOutcome(admitted, f, nextId, ipAddress, now, engineError, readError);
      && (r.status == 429 <==> !admitted)
      && (r.status == 400 <==> admitted && !Passes(f))
      && (r.status == 500 <==> admitted && Passes(f) && (engineError.Some? || nextId > MAX_ROWID || readError.Some?))
      && (r.status == 201 <==> admitted && Passes(f) && engineError.None? && nextId <= MAX_ROWID && readError.None?)
      && (r.status == 400 ==> r.body == ErrorBody(Join(Errors(f), SEPARATOR)))
      && (r.status == 500 ==> r.body == ErrorBody(Lit("Internal server error")))
      && (r.status == 201 ==>
            r.body == CreatedBody(Lit("Your message has been received. We will get back to you soon!"),
              Contact(nextId, Trim(f.name.s), ToLowerAscii(Trim(f.email.s)), Trim(f.message.s), ipAddress, now)))
      && (r.body.Success() <==> r.status == 201)
  {
    ValidateCases(f);
  }

  /**
   * The GET `/` outcomes: 500 "Internal server error" when the database
   * raises an error or the offset `(page - 1) * limit` reaches 2^63 - 1, so
   * that SQLite rejects it; otherwise 200 with the newest-first page for the
   * clamped parameters.
   */
  lemma ListOutcomeCases(rows: seq<Contact>, page: QueryValue, limit: QueryValue, engineError: Option<JsString>)
    ensures var r := ListOutcome(rows, page, limit, engineError);
      var p := EffectivePage(page);
      var l := EffectiveLimit(limit);
      && (r.status == 500 <==> engineError.Some? || Offset(p, l) >= MAX_ROWID)
      && (r.status == 200 <==> engineError.None? && Offset(p, l) < MAX_ROWID)
      && (r.status == 500 ==> r.body == ErrorBody(Lit("Internal server error")))
      && (r.status == 200 ==> r == ListResponse(Page(rows, p, l)))
  {
    var p := EffectivePage(page);
    var l := EffectiveLimit(limit);
    assert Offset(p, l) >= 0 by { MulMonotone(0, p - 1, l); }
    match Listed(rows, p, l, engineError)
    case Failure(e) => UnclassifiedHidesDetail(e, e);
    case Success(_) =>
  }

  /**
   * `?page=1000000000000000000` with the default limit: the offset is about
   * 2 * 10^19, beyond the 64-bit range, so the listing answers 500.
   */
  lemma HugePageFails(rows: seq<Contact>)
    ensures ListOutcome(rows, Text(Decimal(1_000_000_000_000_000_000)), Absent, None)
         == Response(500, ErrorBody(Lit("Internal server error")))
  {
    var q := Text(Decimal(1_000_000_000_000_000_000));
    assert Decimal(1_000_000_000_000_000_000) + [] == Decimal(1_000_000_000_000_000_000);
    NumericParameters(1_000_000_000_000_000_000, []);
    MissingParameters();
    ListOutcomeCases(rows, q, Absent, None);
  }

  /**
   * What a POST answers against what it stores: a 201 carries exactly the
   * stored row, and a read-back failure after a successful INSERT leaves the
   * row stored while the client is told 500.
   */
  lemma PostStoresRow(admitted: bool, f: Fields, nextId: int, ipAddress: Option<JsString>, now: Timestamp,
                      engineError: Option<JsString>, readError: Option<JsString>)
    ensures var r := PostOutcome(admitted, f, nextId, ipAddress, now, engineError, readError);
      var stored := StoredRow(admitted, f, nextId, ipAddress, now, engineError);
      && (r.status == 201 <==> stored.Some? && readError.None?)
      && (r.status == 201 ==> r.body == CreatedBody(CREATED_MESSAGE, stored.value))
      && (stored.Some? && readError.Some? ==> r == Forwarded(Unclassified(readError.value)) && r.status == 500)
  {
    ValidateCases(f);
  }

  // ---------------------------------------------------------------------------
  // Handlers

  /** GET `/`: list one page of contacts, newest first. */
  method ListContacts(table: ContactTable, page: QueryValue, limit: QueryValue, engineError: Option<JsString>)
    returns (resp: Response)
    requires table.Valid()
    ensures resp == ListOutcome(table.rows, page, limit, engineError)
  {
    var p := EffectivePage(page);
    var l := EffectiveLimit(limit);
    var result := table.FindAll(Some(p), Some(l), engineError);
    if result.Failure? {
      return Forwarded(Unclassified(result.error));
    }
    resp := Response(200, ListBody(result.value.data, result.value.pagination));
  }

  /** GET `/:id`: one contact by the id in the path. */
  method GetContact(table: ContactTable, id: JsString, engineError: Option<JsString>) returns (resp: Response)
    requires table.Valid()
    ensures resp == match engineError
      case Some(e) => Forwarded(Unclassified(e))
      case None => FoundResponse(Selected(table.rows, TextValue(id)))
  {
    var found := table.FindById(TextValue(id), engineError);
    if found.Failure? {
      return Forwarded(Unclassified(found.error));
    }
    var contact := found.value;
    if contact.None? {
      return Response(404, ErrorBody(CONTACT_NOT_FOUND));
    }
    resp := Response(200, ItemBody(contact.value));
  }

  /** DELETE `/:id`: delete one contact by the id in the path. */
  method DeleteContact(table: ContactTable, id: JsString, engineError: Option<JsString>) returns (resp: Response)
    requires table.Valid()
    modifies table
    ensures table.Valid()
    ensures table.nextId == old(table.nextId) && table.issued == old(table.issued)
    ensures resp == match engineError
      case Some(e) => Forwarded(Unclassified(e))
      case None => DeletedResponse(Selected(old(table.rows), TextValue(id)).Some?)
    ensures table.rows == match KeyOf(TextValue(id))
      case Some(key) => if engineError.None? then Without(old(table.rows), key) else old(table.rows)
      case None => old(table.rows)
  {
    var deleted := table.DeleteById(TextValue(id), engineError);
    if deleted.Failure? {
      return Forwarded(Unclassified(deleted.error));
    }
    if !deleted.value {
      return Response(404, ErrorBody(CONTACT_NOT_FOUND));
    }
    resp := Response(200, MessageBody(CONTACT_DELETED));
  }

  /**
   * The POST handler proper, reached with the validated, normalised fields:
   * store the contact, start the admin notification with the stored fields,
   * and answer 201. Whatever the notification yields is only logged.
   * `account` and `delivery` stand for what the mail library would yield.
   */
  method Submit(table: ContactTable, mailer: MailService.Mailer, submission: Submission,
                ipAddress: Option<JsString>, now: Timestamp,
                engineError: Option<JsString>, readError: Option<JsString>,
                account: Result<MailService.TestAccount, JsString>,
                delivery: Result<MailService.SentInfo, JsString>)
    returns (resp: Response)
    requires table.Valid()
    modifies table, mailer
    ensures table.Valid()
    ensures resp == SubmitOutcome(submission, old(table.nextId), ipAddress, now, engineError, readError)
    ensures match Inserted(old(table.nextId), submission, ipAddress, now, engineError)
      case Failure(_) =>
        table.rows == old(table.rows) && table.nextId == old(table.nextId) && table.issued == old(table.issued)
      case Success(c) =>
        table.rows == old(table.rows) + [c] && table.nextId == old(table.nextId) + 1
    ensures Created(old(table.nextId), submission, ipAddress, now, engineError, readError).Failure? ==>
      && mailer.transporter == old(mailer.transporter) && mailer.config == old(mailer.config)
      && mailer.sent == old(mailer.sent)
    ensures Created(old(table.nextId), submission, ipAddress, now, engineError, readError).Success? ==>
      var (transport, config) := MailService.Obtain(old(mailer.transporter), old(mailer.config), account);
      && mailer.config == config
      && mailer.sent == old(mailer.sent)
           + (if transport.Success? then [MailService.AdminMail(old(mailer.config), submission)] else [])
  {
    var created := table.Create(submission, ipAddress, now, engineError, readError);
    if created.Failure? {
      return Forwarded(Unclassified(created.error));
    }
    var contact := created.value;
    // fire and forget: the outcome is only logged, and the response below does not look at it
    var notified := mailer.SendAdminNotification(submission, account, delivery);
    resp := Response(201, CreatedBody(CREATED_MESSAGE, contact));
  }

  /**
   * POST `/`: the rate limiter, then the validator (which normalises the
   * body in place), then the handler with the fields the body then holds.
   */
  method PostContact(table: ContactTable, mailer: MailService.Mailer, body: RequestBody, admitted: bool,
                     ipAddress: Option<JsString>, now: Timestamp,
                     engineError: Option<JsString>, readError: Option<JsString>,
                     account: Result<MailService.TestAccount, JsString>,
                     delivery: Result<MailService.SentInfo, JsString>)
    returns (resp: Response)
    requires table.Valid()
    modifies table, mailer, body`name, body`email, body`message
    ensures table.Valid()
    ensures resp == PostOutcome(admitted, old(body.Values()), old(table.nextId), ipAddress, now, engineError, readError)
    ensures body.others == old(body.others)
    ensures !admitted ==> body.Values() == old(body.Values())
    ensures admitted ==> match Validate(old(body.Values()))
      case Failure(_) => body.Values() == old(body.Values())
      case Success(n) => body.Values() == Fields(Str(n.name), Str(n.email), Str(n.message))
    ensures var stored := StoredRow(admitted, old(body.Values()), old(table.nextId), ipAddress, now, engineError);
      && (stored.None? ==>
            table.rows == old(table.rows) && table.nextId == old(table.nextId) && table.issued == old(table.issued))
      && (stored.Some? ==> table.rows == old(table.rows) + [stored.value] && table.nextId == old(table.nextId) + 1)
    ensures resp.status != 201 ==>
      && mailer.transporter == old(mailer.transporter) && mailer.config == old(mailer.config)
      && mailer.sent == old(mailer.sent)
    ensures resp.status == 201 ==> resp.body.CreatedBody?
    ensures resp.status == 201 && resp.body.CreatedBody? ==>
      var c := resp.body.created;
      var (transport, config) := MailService.Obtain(old(mailer.transporter), old(mailer.config), account);
      && mailer.config == config
      && mailer.sent == old(mailer.sent)
           + (if transport.Success? then [MailService.AdminMail(old(mailer.config), Submission(c.name, c.email, c.message))] else [])
  {
    if !admitted {
      return Response(429, ErrorBody(RATE_LIMITED_MESSAGE));
    }
    var invalid := ValidateContact(body);
    if invalid.Some? {
      return Forwarded(Api(invalid.value));
    }
    var submission := Submission(body.name.s, body.email.s, body.message.s);
    resp := Submit(table, mailer, submission, ipAddress, now, engineError, readError, account, delivery);
  }
}
