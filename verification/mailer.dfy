/** The local decisions of `send_email` (streamlit_app.py:108-136): the
    configuration check made before any connection, the message headers,
    and the reading of the port. The SMTP session itself is a parameter. */
module Mailer {
  import opened Wrappers
  import Numeric

  /** The five environment settings, each possibly unset. */
  datatype SmtpSettings = SmtpSettings(
    fromEmail: Option<string>,
    server: Option<string>,
    port: Option<string>,
    user: Option<string>,
    password: Option<string>)

  /** Python truthiness of an `os.environ.get` result: set and non-empty. */
  predicate Present(v: Option<string>) {
    v.Some? && |v.value| > 0
  }

  /** `all([from_address, smtp_server, smtp_port, smtp_user, smtp_password])`. */
  predicate Configured(env: SmtpSettings) {
    && Present(env.fromEmail)
    && Present(env.server)
    && Present(env.port)
    && Present(env.user)
    && Present(env.password)
  }

  /** The MIME message handed to the relay: headers and an HTML body. */
  datatype Message = Message(fromAddress: string, toAddress: string, subject: string, htmlBody: string)

  /** The SMTP session (connect to host and port, STARTTLS, login, send):
      true when the relay accepts the message, false on any exception. */
  type Relay = (string, int, string, string, Message) -> bool

  /** What one call did: refused before building a message, failed on the
      port setting before connecting, or handed a message to the relay. */
  datatype SendOutcome =
    | NotConfigured
    | PortUnreadable
    | Handed(message: Message, accepted: bool)

  const SubjectPrefix: string := "Regarding your experience with our service (Customer ID: "

  /** The Subject header, built from the recipient address: it holds
      `toAddress` right after a fixed prefix and closes with `)`. */
  function SubjectFor(toAddress: string): (subject: string)
    ensures |subject| == |SubjectPrefix| + |toAddress| + 1
    ensures subject[..|SubjectPrefix|] == SubjectPrefix
    ensures subject[|SubjectPrefix|..|SubjectPrefix| + |toAddress|] == toAddress
    ensures subject[|subject| - 1] == ')'
  {
    SubjectPrefix + toAddress + ")"
  }

  /** The common course of `send_email` with the Subject header given:
      without all five settings nothing is built or sent; otherwise the
      message goes from the configured sender to `toAddress` with `body` as
      HTML, and an unreadable port fails before any connection. */
  function SendWithSubject(env: SmtpSettings, toAddress: string, header: string, body: string, relay: Relay): (o: SendOutcome)
    ensures o.NotConfigured? <==> !Configured(env)
    ensures o.PortUnreadable? <==> Configured(env) && Numeric.ParseInteger(env.port.value).None?
    ensures o.Handed? ==>
      && o.message.fromAddress == env.fromEmail.value
      && o.message.toAddress == toAddress
      && o.message.subject == header
      && o.message.htmlBody == body
    ensures o.Handed? ==>
      o.accepted == relay(env.server.value, Numeric.ParseInteger(env.port.value).value,
                          env.user.value, env.password.value, o.message)
  {
    if !Configured(env) then NotConfigured
    else
      var msg := Message(env.fromEmail.value, toAddress, header, body);
      match Numeric.ParseInteger(env.port.value)
      case None => PortUnreadable
      case Some(port) => Handed(msg, relay(env.server.value, port, env.user.value, env.password.value, msg))
  }

  /** streamlit_app.py:108-136, as written: the Subject is made from
      `toAddress` and the `subject` argument is not used. */
  function SendEmail(env: SmtpSettings, toAddress: string, subject: string, body: string, relay: Relay): (o: SendOutcome)
    ensures o.NotConfigured? <==> !Configured(env)
    ensures o.PortUnreadable? <==> Configured(env) && Numeric.ParseInteger(env.port.value).None?
    ensures o.Handed? ==>
      && o.message.fromAddress == env.fromEmail.value
      && o.message.toAddress == toAddress
      && o.message.subject == SubjectFor(toAddress)
      && o.message.htmlBody == body
    ensures o.Handed? ==>
      o.accepted == relay(env.server.value, Numeric.ParseInteger(env.port.value).value,
                          env.user.value, env.password.value, o.message)
  {
    SendWithSubject(env, toAddress, SubjectFor(toAddress), body, relay)
  }

  /** `send_email` as its caller evidently means it: the Subject header is
      the `subject` argument. */
  function SendEmailIntended(env: SmtpSettings, toAddress: string, subject: string, body: string, relay: Relay): (o: SendOutcome)
    ensures o.NotConfigured? <==> !Configured(env)
    ensures o.PortUnreadable? <==> Configured(env) && Numeric.ParseInteger(env.port.value).None?
    ensures o.Handed? ==>
      && o.message.fromAddress == env.fromEmail.value
      && o.message.toAddress == toAddress
      && o.message.subject == subject
      && o.message.htmlBody == body
    ensures o.Handed? ==>
      o.accepted == relay(env.server.value, Numeric.ParseInteger(env.port.value).value,
                          env.user.value, env.password.value, o.message)
  {
    SendWithSubject(env, toAddress, subject, body, relay)
  }

  /** Different texts after the prefix give different Subject headers. */
  lemma SubjectForInjective(a: string, b: string)
    requires a != b
    ensures SubjectFor(a) != SubjectFor(b)
  {
    if |a| == |b| {
      var sa := SubjectFor(a);
      var sb := SubjectFor(b);
      assert sa[|SubjectPrefix|..|SubjectPrefix| + |a|] == a;
      assert sb[|SubjectPrefix|..|SubjectPrefix| + |b|] == b;
    }
  }

  /** streamlit_app.py:181-183 with 125. The dashboard passes a Subject
      naming the customer ID, but as written the header that goes out names
      the recipient's email address instead, whenever the two differ. */
  lemma CustomerIdSubjectLost(env: SmtpSettings, customerId: string, email: string, body: string, relay: Relay)
    requires Configured(env) && Numeric.ParseInteger(env.port.value).Some?
    requires customerId != email
    ensures var o := SendEmail(env, email, SubjectFor(customerId), body, relay);
      o.Handed? && o.message.subject != SubjectFor(customerId)
  {
    SubjectForInjective(email, customerId);
  }

  /** The generated test customer `0001-TEST`, mailed at
      `0001@telecommail.com`, gets a Subject that reads
      `Customer ID: 0001@telecommail.com`. */
  lemma FirstTestCustomerSubject(env: SmtpSettings, body: string, relay: Relay)
    requires Configured(env) && Numeric.ParseInteger(env.port.value).Some?
    ensures var o := SendEmail(env, "0001@telecommail.com", SubjectFor("0001-TEST"), body, relay);
      o.Handed? && o.message.subject == SubjectFor("0001@telecommail.com")
      && o.message.subject != SubjectFor("0001-TEST")
  {
    CustomerIdSubjectLost(env, "0001-TEST", "0001@telecommail.com", body, relay);
  }

  /** streamlit_app.py:180-183 with the corrected sender: the message to a
      customer's email address carries a Subject naming their customer ID. */
  function SendToCustomer(env: SmtpSettings, customerId: string, email: string, body: string, relay: Relay): (o: SendOutcome)
    ensures o.Handed? ==> o.message.toAddress == email && o.message.subject == SubjectFor(customerId)
    ensures o.Handed? <==> Configured(env) && Numeric.ParseInteger(env.port.value).Some?
  {
    SendEmailIntended(env, email, SubjectFor(customerId), body, relay)
  }

  /** The boolean `send_email` returns. */
  function Returned(o: SendOutcome): bool {
    o.Handed? && o.accepted
  }

  /** With any setting missing or empty, `send_email` returns false and the
      relay is never reached. */
  lemma UnconfiguredNeverSends(env: SmtpSettings, toAddress: string, subject: string, body: string, relay: Relay)
    requires !Configured(env)
    ensures !Returned(SendEmail(env, toAddress, subject, body, relay))
    ensures !SendEmail(env, toAddress, subject, body, relay).Handed?
  {
  }

  /** A true return means the settings were complete and the relay accepted
      the message. */
  lemma ReturnedMeansAccepted(env: SmtpSettings, toAddress: string, subject: string, body: string, relay: Relay)
    requires Returned(SendEmail(env, toAddress, subject, body, relay))
    ensures Configured(env)
    ensures var o := SendEmail(env, toAddress, subject, body, relay);
      relay(env.server.value, Numeric.ParseInteger(env.port.value).value, env.user.value, env.password.value, o.message)
  {
  }

  /** The `subject` argument has no effect on anything `send_email` does. */
  lemma SubjectArgumentIgnored(env: SmtpSettings, toAddress: string, s1: string, s2: string, body: string, relay: Relay)
    ensures SendEmail(env, toAddress, s1, body, relay) == SendEmail(env, toAddress, s2, body, relay)
  {
  }
}
