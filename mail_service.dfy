/**
 * The admin notification: the subject line, the plain-text and HTML bodies,
 * the mail options handed to the transport, and the lazily created transport
 * with its switch to a sandbox SMTP account when no SMTP user is configured.
 *
 * The SMTP library is not modelled: the test account it would create, the
 * outcome of a delivery and the preview URL it reports are parameters.
 */
module MailService {
  import opened Wrappers
  import opened JsText
  import opened Schema

  // ---------------------------------------------------------------------------
  // Subject

  const SUBJECT_PREFIX: JsString := Lit("New Contact Form Submission from ")

  /** `New Contact Form Submission from ${name}`. */
  function Subject(name: JsString): JsString {
    SUBJECT_PREFIX + name
  }

  /** The sender's name read back from a subject line, if it has the prefix. */
  function SenderOf(subject: JsString): Option<JsString> {
    After(subject, SUBJECT_PREFIX)
  }

  /** The subject is exactly the prefix followed by the name, and nothing else. */
  lemma SubjectNamesSender(name: JsString, subject: JsString)
    ensures SenderOf(Subject(name)) == Some(name)
    ensures SenderOf(subject) == Some(name) ==> Subject(name) == subject
  {
    AfterPrefix(SUBJECT_PREFIX, name);
    if SenderOf(subject) == Some(name) {
      AfterIsSuffix(subject, SUBJECT_PREFIX);
    }
  }

  // ---------------------------------------------------------------------------
  // Plain-text body

  const HEADER: JsString := Lit("New Contact Form Submission")
  const UNDERLINE: JsString := Lit("==========================")
  const NAME_LABEL: JsString := Lit("Name:    ")
  const EMAIL_LABEL: JsString := Lit("Email:   ")
  const MESSAGE_LABEL: JsString := Lit("Message: ")

  /** The six lines of the plain-text body. */
  function PlainTextLines(s: Submission): seq<JsString> {
    [HEADER, UNDERLINE, [], NAME_LABEL + s.name, EMAIL_LABEL + s.email, MESSAGE_LABEL + s.message]
  }

  /** `buildPlainText`: the six lines joined with `"\n"`. */
  function PlainText(s: Submission): JsString {
    Join(PlainTextLines(s), [NEWLINE])
  }

  lemma Regroup(a: JsString, b: JsString, c: JsString)
    ensures a + b + c == a + (b + c)
  {
  }

  /** Six lines, the third one empty, joined with `sep`. */
  lemma JoinSixLines(l0: JsString, l1: JsString, l3: JsString, l4: JsString, l5: JsString, sep: JsString)
    ensures Join([l0, l1, [], l3, l4, l5], sep)
      == l0 + (sep + (l1 + (sep + (sep + (l3 + (sep + (l4 + (sep + l5))))))))
  {
    assert Join([l5], sep) == l5;
    var j4 := sep + l5;
    assert Join([l4, l5], sep) == l4 + j4 by {
      assert [l4, l5][1..] == [l5];
      Regroup(l4, sep, l5);
    }
    var j3 := sep + (l4 + j4);
    assert Join([l3, l4, l5], sep) == l3 + j3 by {
      assert [l3, l4, l5][1..] == [l4, l5];
      Regroup(l3, sep, l4 + j4);
    }
    var j2 := sep + (l3 + j3);
    assert Join([[], l3, l4, l5], sep) == j2 by {
      assert [[], l3, l4, l5][1..] == [l3, l4, l5];
      assert [] + sep == sep;
    }
    var j1 := sep + j2;
    assert Join([l1, [], l3, l4, l5], sep) == l1 + j1 by {
      assert [l1, [], l3, l4, l5][1..] == [[], l3, l4, l5];
      Regroup(l1, sep, j2);
    }
    assert [l0, l1, [], l3, l4, l5][1..] == [l1, [], l3, l4, l5];
    Regroup(l0, sep, l1 + j1);
  }

  /** The plain-text body laid out as one string. */
  lemma PlainTextLayout(s: Submission)
    ensures PlainText(s) == HEADER + ([NEWLINE] + (UNDERLINE + ([NEWLINE] + ([NEWLINE]
      + (NAME_LABEL + (s.name + ([NEWLINE] + (EMAIL_LABEL + (s.email + ([NEWLINE]
      + (MESSAGE_LABEL + s.message)))))))))))
  {
    var nl: JsString := [NEWLINE];
    JoinSixLines(HEADER, UNDERLINE, NAME_LABEL + s.name, EMAIL_LABEL + s.email, MESSAGE_LABEL + s.message, nl);
    Regroup(EMAIL_LABEL, s.email, nl + (MESSAGE_LABEL + s.message));
    var r4 := EMAIL_LABEL + (s.email + (nl + (MESSAGE_LABEL + s.message)));
    Regroup(NAME_LABEL, s.name, nl + r4);
  }

  /** `t` with `prefix` taken off its front, if it starts with it. */
  function After(t: JsString, prefix: JsString): Option<JsString> {
    if StartsWith(t, prefix) then Some(t[|prefix|..]) else None
  }

  /** `t` cut at its first line break into the line and the rest, if it has one. */
  function SplitLine(t: JsString): Option<(JsString, JsString)> {
    match IndexOf(t, NEWLINE)
    case None => None
    case Some(i) => Some((t[..i], t[i + 1..]))
  }

  lemma AfterPrefix(prefix: JsString, rest: JsString)
    ensures After(prefix + rest, prefix) == Some(rest)
  {
    assert (prefix + rest)[..|prefix|] == prefix;
  }

  lemma AfterIsSuffix(t: JsString, prefix: JsString)
    requires After(t, prefix).Some?
    ensures t == prefix + After(t, prefix).value
  {
    assert t == t[..|prefix|] + t[|prefix|..];
  }

  lemma SplitAtFirstBreak(line: JsString, rest: JsString)
    requires NEWLINE !in line
    ensures SplitLine(line + ([NEWLINE] + rest)) == Some((line, rest))
  {
    IndexOfAfter(line, NEWLINE, rest);
    Regroup(line, [NEWLINE], rest);
    var u := line + [NEWLINE] + rest;
    assert u[..|line|] == line;
    assert u[|line| + 1..] == rest;
  }

  lemma SplitLineParts(t: JsString)
    requires SplitLine(t).Some?
    ensures var (l, r) := SplitLine(t).value;
      NEWLINE !in l && t == l + ([NEWLINE] + r)
  {
    var i := IndexOf(t, NEWLINE).value;
    assert t == t[..i] + ([t[i]] + t[i + 1..]);
  }

  /** The text before the name: the header, the underline and an empty line. */
  function Preamble(t: JsString): Option<JsString> {
    match After(t, HEADER)
    case None => None
    case Some(t1) =>
      match After(t1, [NEWLINE])
      case None => None
      case Some(t2) =>
        match After(t2, UNDERLINE)
        case None => None
        case Some(t3) =>
          match After(t3, [NEWLINE])
          case None => None
          case Some(t4) => After(t4, [NEWLINE])
  }

  /**
   * Reads the three fields back from a plain-text body: after the header,
   * underline and empty line, the name runs from its label to the next line
   * break, the email likewise, and the message is the rest.
   */
  function ParsePlainText(t: JsString): Option<Submission> {
    match Preamble(t)
    case None => None
    case Some(nameLine) =>
      match After(nameLine, NAME_LABEL)
      case None => None
      case Some(afterLabel) =>
        match SplitLine(afterLabel)
        case None => None
        case Some((name, emailLine)) =>
          match After(emailLine, EMAIL_LABEL)
          case None => None
          case Some(afterEmailLabel) =>
            match SplitLine(afterEmailLabel)
            case None => None
            case Some((email, messageLine)) =>
              match After(messageLine, MESSAGE_LABEL)
              case None => None
              case Some(message) => Some(Submission(name, email, message))
  }

  /**
   * When neither the name nor the email holds a line break, the plain-text
   * body determines all three fields: they can be read back from it.
   */
  lemma PlainTextRoundTrip(s: Submission)
    requires NEWLINE !in s.name && NEWLINE !in s.email
    ensures ParsePlainText(PlainText(s)) == Some(s)
  {
    PlainTextLayout(s);
    var nl: JsString := [NEWLINE];
    var messageLine := MESSAGE_LABEL + s.message;
    var afterEmailLabel := s.email + (nl + messageLine);
    var emailLine := EMAIL_LABEL + afterEmailLabel;
    var afterLabel := s.name + (nl + emailLine);
    var nameLine := NAME_LABEL + afterLabel;
    var t4 := nl + nameLine;
    var t3 := nl + t4;
    var t2 := UNDERLINE + t3;
    var t1 := nl + t2;
    assert Preamble(PlainText(s)) == Some(nameLine) by {
      AfterPrefix(HEADER, t1);
      AfterPrefix(nl, t2);
      AfterPrefix(UNDERLINE, t3);
      AfterPrefix(nl, t4);
      AfterPrefix(nl, nameLine);
    }
    AfterPrefix(NAME_LABEL, afterLabel);
    SplitAtFirstBreak(s.name, emailLine);
    AfterPrefix(EMAIL_LABEL, afterEmailLabel);
    SplitAtFirstBreak(s.email, messageLine);
    AfterPrefix(MESSAGE_LABEL, s.message);
  }

  /**
   * Whatever the parse reads back renders to the text it was read from, and
   * its name and email hold no line break.
   */
  lemma ParsedPlainTextRenders(t: JsString)
    requires ParsePlainText(t).Some?
    ensures var s := ParsePlainText(t).value;
      PlainText(s) == t && NEWLINE !in s.name && NEWLINE !in s.email
  {
    var s := ParsePlainText(t).value;
    var nl: JsString := [NEWLINE];
    AfterIsSuffix(t, HEADER);
    var t1 := After(t, HEADER).value;
    AfterIsSuffix(t1, nl);
    var t2 := After(t1, nl).value;
    AfterIsSuffix(t2, UNDERLINE);
    var t3 := After(t2, UNDERLINE).value;
    AfterIsSuffix(t3, nl);
    var t4 := After(t3, nl).value;
    AfterIsSuffix(t4, nl);
    var nameLine := After(t4, nl).value;
    AfterIsSuffix(nameLine, NAME_LABEL);
    var afterLabel := After(nameLine, NAME_LABEL).value;
    SplitLineParts(afterLabel);
    var emailLine := SplitLine(afterLabel).value.1;
    AfterIsSuffix(emailLine, EMAIL_LABEL);
    var afterEmailLabel := After(emailLine, EMAIL_LABEL).value;
    SplitLineParts(afterEmailLabel);
    var messageLine := SplitLine(afterEmailLabel).value.1;
    AfterIsSuffix(messageLine, MESSAGE_LABEL);
    PlainTextLayout(s);
  }

  // ---------------------------------------------------------------------------
  // HTML body

  /**
   * The fixed text of an HTML template: everything before the name, between
   * the name and the email link, between the link and the message, and after
   * the message.
   */
  datatype HtmlTemplate = HtmlTemplate(head: JsString, nameToLink: JsString, linkToMessage: JsString, tail: JsString)

  /** The template of the notification. */
  const NOTIFICATION_HTML: HtmlTemplate := HtmlTemplate(
    // up to the name cell's content
    Lit(
    "\n"
    + "    <div style=\"font-family: Arial, sans-serif; max-width: 600px; margin: 0 auto;\">\n"
    + "      <h2 style=\"color: #333; border-bottom: 2px solid #4f46e5; padding-bottom: 10px;\">\n"
    + "        New Contact Form Submission\n"
    + "      </h2>\n"
    + "      <table style=\"width: 100%; border-collapse: collapse;\">\n"
    + "        <tr>\n"
    + "          <td style=\"padding: 8px; font-weight: bold; color: #555;\">Name</td>\n"
    + "          <td style=\"padding: 8px;\">"),
    // from the end of the name cell to the start of the email link
    Lit(
    "</td>\n"
    + "        </tr>\n"
    + "        <tr style=\"background: #f9fafb;\">\n"
    + "          <td style=\"padding: 8px; font-weight: bold; color: #555;\">Email</td>\n"
    + "          <td style=\"padding: 8px;\">\n"
    + "            "),
    // from the end of the email link to the message cell's content
    Lit(
    "\n"
    + "          </td>\n"
    + "        </tr>\n"
    + "        <tr>\n"
    + "          <td style=\"padding: 8px; font-weight: bold; color: #555; vertical-align: top;\">Message</td>\n"
    + "          <td style=\"padding: 8px; white-space: pre-wrap;\">"),
    // the rest, after the message
    Lit(
    "</td>\n"
    + "        </tr>\n"
    + "      </table>\n"
    + "    </div>\n"
    + "  "))

  const MAILTO_OPEN: JsString := Lit("<a href=\"mailto:")
  const MAILTO_MID: JsString := Lit("\">")
  const MAILTO_CLOSE: JsString := Lit("</a>")

  /** `<a href="mailto:${email}">${email}</a>`. */
  function MailtoLink(email: JsString): JsString {
    MAILTO_OPEN + email + MAILTO_MID + email + MAILTO_CLOSE
  }

  /** A template with the three fields inserted as they are, without escaping. */
  function Render(t: HtmlTemplate, s: Submission): JsString {
    t.head + s.name + t.nameToLink + MailtoLink(s.email) + t.linkToMessage + s.message + t.tail
  }

  /** `buildHtml`. */
  function Html(s: Submission): JsString {
    Render(NOTIFICATION_HTML, s)
  }

  /** Where the message starts in a rendered template. */
  function MessageOffset(t: HtmlTemplate, s: Submission): nat {
    |t.head| + |s.name| + |t.nameToLink| + |MailtoLink(s.email)| + |t.linkToMessage|
  }

  /** Pieces laid end to end: each inserted part sits right after the pieces before it. */
  lemma PiecesAt(p0: JsString, x: JsString, p1: JsString, y: JsString, p2: JsString, z: JsString, p3: JsString)
    ensures var t := p0 + x + p1 + y + p2 + z + p3;
      && OccursAt(t, x, |p0|)
      && OccursAt(t, y, |p0| + |x| + |p1|)
      && OccursAt(t, z, |p0| + |x| + |p1| + |y| + |p2|)
  {
    var t := p0 + x + p1 + y + p2 + z + p3;
    InfixAt(p0, x, p1 + y + p2 + z + p3);
    assert t == p0 + x + (p1 + y + p2 + z + p3);
    InfixAt(p0 + x + p1, y, p2 + z + p3);
    assert t == p0 + x + p1 + y + (p2 + z + p3);
    InfixAt(p0 + x + p1 + y + p2, z, p3);
  }

  /**
   * A rendered template, the notification's included, holds the name, the
   * `mailto:` link for the email, and the message, each verbatim: markup in a
   * field is passed through unescaped.
   */
  lemma RenderEmbedsFields(t: HtmlTemplate, s: Submission)
    ensures OccursAt(Render(t, s), s.name, |t.head|)
    ensures OccursAt(Render(t, s), MailtoLink(s.email), |t.head| + |s.name| + |t.nameToLink|)
    ensures OccursAt(Render(t, s), s.message, MessageOffset(t, s))
  {
    PiecesAt(t.head, s.name, t.nameToLink, MailtoLink(s.email), t.linkToMessage, s.message, t.tail);
  }

  /** The link's target and its text are both the email, verbatim. */
  lemma MailtoLinkShowsEmail(email: JsString)
    ensures OccursAt(MailtoLink(email), email, |MAILTO_OPEN|)
    ensures OccursAt(MailtoLink(email), email, |MAILTO_OPEN| + |email| + |MAILTO_MID|)
  {
    InfixAt(MAILTO_OPEN, email, MAILTO_MID + email + MAILTO_CLOSE);
    Regroup(MAILTO_OPEN + email, MAILTO_MID + email, MAILTO_CLOSE);
    Regroup(MAILTO_OPEN + email, MAILTO_MID, email);
    InfixAt(MAILTO_OPEN + email + MAILTO_MID, email, MAILTO_CLOSE);
  }

  // ---------------------------------------------------------------------------
  // Configuration and transport

  /** `config.mail`. */
  datatype MailConfig = MailConfig(
    host: JsString,
    port: int,
    secure: bool,
    user: JsString,
    pass: JsString,
    from: JsString,
    adminEmail: JsString)

  /** The credentials a sandbox test account comes with. */
  datatype TestAccount = TestAccount(user: JsString, pass: JsString)

  /** The options a transport is created with. */
  datatype Transport = Transport(host: JsString, port: int, secure: bool, user: JsString, pass: JsString)

  const SANDBOX_HOST: JsString := Lit("smtp.ethereal.email")
  const SANDBOX_PORT: int := 587

  /** `createTransport({ host, port, secure, auth: { user, pass } })` from a configuration. */
  function TransportFor(c: MailConfig): Transport {
    Transport(c.host, c.port, c.secure, c.user, c.pass)
  }

  /** The configuration pointed at the sandbox server with a test account's credentials. */
  function Sandboxed(c: MailConfig, a: TestAccount): MailConfig {
    c.(host := SANDBOX_HOST, port := SANDBOX_PORT, secure := false, user := a.user, pass := a.pass)
  }

  /**
   * `getTransporter()` as a function of the cache, the configuration and
   * what creating a test account would yield: the transport (or the error
   * that stopped it) and the configuration afterwards. An empty SMTP user is
   * falsy, so only then is a test account created.
   */
  function Obtain(cached: Option<Transport>, c: MailConfig, account: Result<TestAccount, JsString>)
    : (Result<Transport, JsString>, MailConfig)
  {
    if cached.Some? then (Success(cached.value), c)
    else if c.user != [] then (Success(TransportFor(c)), c)
    else
      match account
      case Failure(e) => (Failure(e), c)
      case Success(a) => (Success(TransportFor(Sandboxed(c, a))), Sandboxed(c, a))
  }

  /**
   * A cached transport is returned as it is and the configuration is left
   * alone; so after a first success, every later call yields that transport.
   */
  lemma ObtainReusesCache(t: Transport, c: MailConfig, account: Result<TestAccount, JsString>,
                          c0: MailConfig, account0: Result<TestAccount, JsString>)
    ensures Obtain(Some(t), c, account) == (Success(t), c)
    ensures var (r, c1) := Obtain(None, c0, account0);
      r.Success? ==> Obtain(Some(r.value), c1, account) == (r, c1)
  {
  }

  /**
   * Without a cache and with an empty SMTP user, a created test account
   * switches the configuration to the sandbox server, port 587, no TLS and
   * the account's credentials, and the transport is built from that; the
   * sender and admin addresses are kept.
   */
  lemma ObtainSwitchesToSandbox(c: MailConfig, a: TestAccount)
    requires c.user == []
    ensures var (r, c1) := Obtain(None, c, Success(a));
      && c1.host == SANDBOX_HOST && c1.port == 587 && !c1.secure
      && c1.user == a.user && c1.pass == a.pass
      && c1.from == c.from && c1.adminEmail == c.adminEmail
      && r == Success(Transport(SANDBOX_HOST, 587, false, a.user, a.pass))
  {
  }

  /**
   * A configured SMTP user is used as it is; without one, a failure to create
   * the test account is passed on and nothing is changed. In every case the
   * sender and admin addresses are kept.
   */
  lemma ObtainConfigured(c: MailConfig, account: Result<TestAccount, JsString>)
    ensures c.user != [] ==> Obtain(None, c, account) == (Success(TransportFor(c)), c)
    ensures c.user == [] && account.Failure? ==> Obtain(None, c, account) == (Failure(account.error), c)
    ensures forall cached: Option<Transport> ::
      Obtain(cached, c, account).1.from == c.from && Obtain(cached, c, account).1.adminEmail == c.adminEmail
  {
  }

  // ---------------------------------------------------------------------------
  // Sending

  /** The `mailOptions` handed to `sendMail`. */
  datatype MailOptions = MailOptions(from: JsString, to: JsString, subject: JsString, text: JsString, html: JsString)

  /** What `sendMail` reports, and what the preview lookup finds for it (`false` is `None`). */
  datatype SentInfo = SentInfo(messageId: JsString, testMessageUrl: Option<JsString>)

  /** `{ messageId, previewUrl }`, with `null` as `None`. */
  datatype Notice = Notice(messageId: JsString, previewUrl: Option<JsString>)

  /** The mail for one submission under a configuration. */
  function AdminMail(c: MailConfig, s: Submission): MailOptions {
    MailOptions(c.from, c.adminEmail, Subject(s.name), PlainText(s), Html(s))
  }

  /** `previewUrl || null`: a missing or empty URL is `null`. */
  function PreviewOrNull(url: Option<JsString>): (r: Option<JsString>)
    ensures r.None? <==> url.None? || url.value == []
    ensures r.Some? ==> r == url
  {
    if url.Some? && url.value != [] then url else None
  }

  /** The mail goes from the configured sender to the configured admin, about the submission. */
  lemma AdminMailAddressed(c: MailConfig, s: Submission, a: TestAccount)
    ensures AdminMail(c, s).from == c.from && AdminMail(c, s).to == c.adminEmail
    ensures AdminMail(Sandboxed(c, a), s) == AdminMail(c, s)
    ensures SenderOf(AdminMail(c, s).subject) == Some(s.name)
  {
    SubjectNamesSender(s.name, AdminMail(c, s).subject);
  }

  /**
   * The module state of the mail service: the transport cache, the mail
   * configuration (which `getTransporter` may rewrite) and, as the observable
   * effect of the transport, every mail handed to `sendMail` so far.
   */
  class Mailer {
    var transporter: Option<Transport>
    var config: MailConfig
    var sent: seq<MailOptions>

    /** The service as loaded: no transport yet. */
    constructor (config: MailConfig)
      ensures transporter == None && this.config == config && sent == []
    {
      transporter := None;
      this.config := config;
      sent := [];
    }

    /**
     * `getTransporter()`. `account` is what creating a test account would
     * yield; it is used only when no transport is cached and no SMTP user is
     * configured.
     */
    method GetTransporter(account: Result<TestAccount, JsString>) returns (r: Result<Transport, JsString>)
      modifies this
      ensures (r, config) == Obtain(old(transporter), old(config), account)
      ensures transporter == if r.Success? then Some(r.value) else old(transporter)
      ensures sent == old(sent)
    {
      if transporter.Some? {
        return Success(transporter.value);
      }
      if config.user == [] {
        if account.Failure? {
          return Failure(account.error);
        }
        var testAccount := account.value;
        config := config.(host := SANDBOX_HOST);
        config := config.(port := SANDBOX_PORT);
        config := config.(secure := false);
        config := config.(user := testAccount.user);
        config := config.(pass := testAccount.pass);
      }
      var t := Transport(config.host, config.port, config.secure, config.user, config.pass);
      transporter := Some(t);
      return Success(t);
    }

    /**
     * `sendAdminNotification({ name, email, message })`: obtain the
     * transport, hand it the mail built from the configuration as it then
     * is, and report the message id and preview URL. `delivery` is what
     * `sendMail` yields.
     */
    method SendAdminNotification(s: Submission, account: Result<TestAccount, JsString>,
                                 delivery: Result<SentInfo, JsString>)
      returns (r: Result<Notice, JsString>)
      modifies this
      ensures var (t, c) := Obtain(old(transporter), old(config), account);
        && config == c
        && transporter == (if t.Success? then Some(t.value) else old(transporter))
        && (t.Failure? ==> r == Failure(t.error) && sent == old(sent))
        && (t.Success? ==> sent == old(sent) + [AdminMail(old(config), s)])
        && (t.Success? ==> r == match delivery
              case Failure(e) => Failure(e)
              case Success(info) => Success(Notice(info.messageId, PreviewOrNull(info.testMessageUrl))))
    {
      var transport := GetTransporter(account);
      if transport.Failure? {
        return Failure(transport.error);
      }
      var mailOptions := MailOptions(config.from, config.adminEmail, Subject(s.name), PlainText(s), Html(s));
      sent := sent + [mailOptions];
      if delivery.Failure? {
        return Failure(delivery.error);
      }
      var info := delivery.value;
      var previewUrl := PreviewOrNull(info.testMessageUrl);
      return Success(Notice(info.messageId, previewUrl));
    }
  }
}
