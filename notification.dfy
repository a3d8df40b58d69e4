/** src/backend/services/notification.service.js: the e-mail sender and the two fan-outs
    that tell an owner their pet was scanned or reported found. The mail transport, the
    WhatsApp replies and the `toLocaleString('es-BO')` time text are parameters. Nothing
    in the handlers calls these fan-outs yet; the model describes them as written. */
module Notification {

  import opened Wrappers
  import opened JsValues
  import opened JsStrings
  import opened PetIdentity
  import opened WhatsApp

  /** SMTP_USER, BASE_URL and the WhatsApp settings. */
  datatype NotifyEnv = NotifyEnv(smtpUser: Option<string>, baseUrl: Option<string>,
                                 whatsapp: WhatsAppConfig)

  /** An e-mail as the model keeps it: sender, recipient, subject, and the map link the
      HTML body carries when there is one. */
  datatype Mail = Mail(from: string, to: Val, subject: string, mapLink: Option<string>)

  /** What `emailTransporter.sendMail` does: resolve with a message id, or throw. */
  datatype MailOutcome = MailSent(messageId: string) | MailThrew(message: string)

  datatype EmailResult = EmailSent(messageId: string) | EmailNotSent(error: string)

  datatype EmailAttempt = EmailAttempt(mail: Option<Mail>, result: EmailResult)

  /** One element of the returned list: `{type, ...result}`. */
  datatype Entry = EmailEntry(email: EmailResult) | TextEntry(text: SendResult)
                 | LocationEntry(location: SendResult)

  /** The owner fields the fan-outs read. */
  datatype Owner = Owner(email: Val, whatsapp: Val)

  /** `scanData` / `reportData`. */
  datatype Report = Report(finderName: Val, finderPhone: Val, message: Val, latitude: Val,
                           longitude: Val)

  const EmailNotConfigured: string := "Email no configurado"

  function TypeName(e: Entry): string {
    match e
    case EmailEntry(_) => "email"
    case TextEntry(_) => "whatsapp_text"
    case LocationEntry(_) => "whatsapp_location"
  }

  /** `sendEmailNotification`: skipped without SMTP_USER; a transport error is reported,
      never thrown. */
  function SendEmailNotification(smtpUser: Option<string>, to: Val, subject: string,
                                 mapLink: Option<string>, outcome: MailOutcome): (a: EmailAttempt)
    ensures !EnvSet(smtpUser) ==> a == EmailAttempt(None, EmailNotSent(EmailNotConfigured))
    ensures EnvSet(smtpUser) ==>
              a.mail == Some(Mail("\"EncuentraPet\" <" + smtpUser.value + ">", to, subject, mapLink))
    ensures a.result.EmailSent? <==> EnvSet(smtpUser) && outcome.MailSent?
    ensures a.result.EmailSent? ==> a.result.messageId == outcome.messageId
    ensures EnvSet(smtpUser) && outcome.MailThrew? ==> a.result == EmailNotSent(outcome.message)
  {
    if !EnvSet(smtpUser) then EmailAttempt(None, EmailNotSent(EmailNotConfigured))
    else
      var mail := Mail("\"EncuentraPet\" <" + smtpUser.value + ">", to, subject, mapLink);
      match outcome
      case MailSent(id) => EmailAttempt(Some(mail), EmailSent(id))
      case MailThrew(m) => EmailAttempt(Some(mail), EmailNotSent(m))
  }

  /** Both coordinates are truthy. */
  predicate HasLocation(r: Report) {
    Truthy(r.latitude) && Truthy(r.longitude)
  }

  /** The Google Maps link of the e-mail body. */
  function MapLink(r: Report): (link: Option<string>)
    ensures link.Some? <==> HasLocation(r)
  {
    if HasLocation(r) then
      Some("https://www.google.com/maps?q=" + ToJsString(r.latitude) + "," + ToJsString(r.longitude))
    else None
  }

  // ---------------------------------------------------------------- QR scan

  function ScanSubject(petName: Val): string {
    "🚨 " + Someone + " encontró a " + ToJsString(petName) + "!"
  }

  /** The WhatsApp alert of a scan, built from the fixed lines of the template around the
      pet's name, the time and the dashboard address. */
  function ScanText(env: NotifyEnv, petName: Val, scanTime: string): string {
    ScanTextOpening + ToJsString(petName) + ScanTextDate + scanTime + ScanTextFinder
    + ToJsString(petName) + ScanTextContact + BaseUrl(env.baseUrl) + "/dashboard"
  }

  const ScanTextOpening: string := "🚨 *EncuentraPet - Alerta*\n\n¡Alguien acaba de escanear el código QR de *"
  const ScanTextDate: string := "*!\n\n📅 *Fecha:* "
  const ScanTextFinder: string := "\n\nLa persona que encontró a "
  const ScanTextContact: string :=
    " puede ver tu información de contacto. Es posible que te contacte pronto.\n\nVer dashboard: "

  function ScanEmail(env: NotifyEnv, petName: Val, owner: Owner, scan: Report, mail: MailOutcome)
    : EmailAttempt
  {
    SendEmailNotification(env.smtpUser, owner.email, ScanSubject(petName), MapLink(scan), mail)
  }

  function ScanTextSend(env: NotifyEnv, petName: Val, owner: Owner, scanTime: string, text: Reply)
    : Attempt
  {
    SendTextMessage(env.whatsapp, owner.whatsapp, ScanText(env, petName, scanTime), text)
  }

  function ScanLocationSend(env: NotifyEnv, petName: Val, owner: Owner, scan: Report,
                            location: Reply): Attempt
  {
    SendLocationMessage(env.whatsapp, owner.whatsapp, scan.latitude, scan.longitude,
                        Str(ToJsString(petName) + " fue encontrada aquí"),
                        Str("Ubicación donde escanearon el QR"), location)
  }

  /** The entries in the order the channels are tried: e-mail, WhatsApp text, WhatsApp
      location. A channel that is not tried leaves no entry. */
  function Assemble(email: Option<EmailResult>, text: Option<SendResult>,
                    location: Option<SendResult>): seq<Entry>
  {
    (if email.Some? then [EmailEntry(email.value)] else [])
    + (if text.Some? then [TextEntry(text.value)] else [])
    + (if location.Some? then [LocationEntry(location.value)] else [])
  }

  /** The list `notifyQRScan` resolves with. */
  function ScanNotifications(env: NotifyEnv, petName: Val, owner: Owner, scan: Report,
                             scanTime: string, mail: MailOutcome, text: Reply, location: Reply)
    : seq<Entry>
  {
    Assemble(if Truthy(owner.email) then Some(ScanEmail(env, petName, owner, scan, mail).result) else None,
             if Truthy(owner.whatsapp) then Some(ScanTextSend(env, petName, owner, scanTime, text).result) else None,
             if Truthy(owner.whatsapp) && HasLocation(scan)
             then Some(ScanLocationSend(env, petName, owner, scan, location).result) else None)
  }

  /** `notifyQRScan`: one push per channel tried. */
  method NotifyQRScan(env: NotifyEnv, petName: Val, owner: Owner, scan: Report, scanTime: string,
                      mail: MailOutcome, text: Reply, location: Reply)
    returns (notifications: seq<Entry>)
    ensures notifications == ScanNotifications(env, petName, owner, scan, scanTime, mail, text, location)
  {
    // The entries so far, as the list the remaining channels extend.
    ghost var email := if Truthy(owner.email) then Some(ScanEmail(env, petName, owner, scan, mail).result) else None;
    notifications := [];
    if Truthy(owner.email) {
      var emailResult := ScanEmail(env, petName, owner, scan, mail).result;
      notifications := notifications + [EmailEntry(emailResult)];
    }
    assert notifications == Assemble(email, None, None);
    if Truthy(owner.whatsapp) {
      var textResult := ScanTextSend(env, petName, owner, scanTime, text).result;
      notifications := notifications + [TextEntry(textResult)];
      if Truthy(scan.latitude) && Truthy(scan.longitude) {
        var locationResult := ScanLocationSend(env, petName, owner, scan, location).result;
        notifications := notifications + [LocationEntry(locationResult)];
      }
    }
  }

  // ---------------------------------------------------------------- location report

  /** The name a finder who gives none goes by. */
  const Someone: string := "Alguien"

  function FinderName(r: Report): Val { Or(r.finderName, Str(Someone)) }
  function FinderPhone(r: Report): Val { Or(r.finderPhone, Str("No proporcionado")) }
  function FinderMessage(r: Report): Val { Or(r.message, Str("Sin mensaje adicional")) }

  /** The finder's name, phone and message fall back to fixed texts when falsy. */
  lemma ReportDefaults(r: Report)
    ensures !Truthy(r.finderName) ==> ToJsString(FinderName(r)) == Someone
    ensures !Truthy(r.finderPhone) ==> ToJsString(FinderPhone(r)) == "No proporcionado"
    ensures !Truthy(r.message) ==> ToJsString(FinderMessage(r)) == "Sin mensaje adicional"
    ensures Truthy(r.finderName) ==> FinderName(r) == r.finderName
    ensures Truthy(r.finderPhone) ==> FinderPhone(r) == r.finderPhone
    ensures Truthy(r.message) ==> FinderMessage(r) == r.message
  {
  }

  function ReportSubject(petName: Val, r: Report): string {
    "🎉 " + ToJsString(FinderName(r)) + " encontró a " + ToJsString(petName) + "!"
  }

  /** An anonymous finder's report is announced with the words of a scan alert; only the
      leading emoji differs. */
  lemma AnonymousReportSubject(petName: Val, r: Report)
    requires !Truthy(r.finderName)
    ensures ReportSubject(petName, r)[1..] == ScanSubject(petName)[1..]
    ensures ReportSubject(petName, r)[0] == '🎉' && ScanSubject(petName)[0] == '🚨'
  {
    ReportDefaults(r);
    var tail := Someone + " encontró a " + ToJsString(petName) + "!";
    assert ReportSubject(petName, r) == "🎉 " + tail;
    assert ScanSubject(petName) == "🚨 " + tail;
    SameAfterFirst("🎉 ", "🚨 ", tail);
  }

  lemma SameAfterFirst(p: string, q: string, tail: string)
    requires |p| > 0 && |q| > 0 && p[1..] == q[1..]
    ensures (p + tail)[1..] == (q + tail)[1..]
    ensures (p + tail)[0] == p[0] && (q + tail)[0] == q[0]
  {
    assert (p + tail)[1..] == p[1..] + tail;
    assert (q + tail)[1..] == q[1..] + tail;
  }

  /** The WhatsApp message of a report, built from the fixed lines of the template around
      the pet's name, the finder's details and the time. */
  function ReportText(petName: Val, r: Report, reportTime: string): string {
    ReportTextOpening + ToJsString(petName) + ReportTextFinder + ToJsString(FinderName(r))
    + ReportTextFound + ToJsString(petName) + ReportTextPhone + ToJsString(FinderPhone(r))
    + ReportTextMessage + ToJsString(FinderMessage(r)) + ReportTextTime + reportTime
    + ReportTextClosing
  }

  const ReportTextOpening: string := "🎉 *EncuentraPet - "
  const ReportTextFinder: string := " fue encontrada!*\n\n*"
  const ReportTextFound: string := "* ha reportado haber encontrado a "
  const ReportTextPhone: string := ".\n\n👤 *Información de contacto:*\n📱 Teléfono: "
  const ReportTextMessage: string := "\n💬 Mensaje: "
  const ReportTextTime: string := "\n⏰ Hora: "
  const ReportTextClosing: string := "\n\n¡Comunícate lo antes posible!"

  function ReportEmail(env: NotifyEnv, petName: Val, owner: Owner, r: Report, mail: MailOutcome)
    : EmailAttempt
  {
    SendEmailNotification(env.smtpUser, owner.email, ReportSubject(petName, r), MapLink(r), mail)
  }

  function ReportTextSend(env: NotifyEnv, petName: Val, owner: Owner, r: Report,
                          reportTime: string, text: Reply): Attempt
  {
    SendTextMessage(env.whatsapp, owner.whatsapp, ReportText(petName, r, reportTime), text)
  }

  function ReportLocationSend(env: NotifyEnv, petName: Val, owner: Owner, r: Report,
                              location: Reply): Attempt
  {
    SendLocationMessage(env.whatsapp, owner.whatsapp, r.latitude, r.longitude,
                        Str(ToJsString(FinderName(r)) + " encontró a " + ToJsString(petName) + " aquí"),
                        Str("Ubicación donde fue encontrada tu mascota"), location)
  }

  /** The list `notifyLocationReport` resolves with. */
  function ReportNotifications(env: NotifyEnv, petName: Val, owner: Owner, r: Report,
                               reportTime: string, mail: MailOutcome, text: Reply, location: Reply)
    : seq<Entry>
  {
    Assemble(if Truthy(owner.email) then Some(ReportEmail(env, petName, owner, r, mail).result) else None,
             if Truthy(owner.whatsapp) then Some(ReportTextSend(env, petName, owner, r, reportTime, text).result) else None,
             if Truthy(owner.whatsapp) && HasLocation(r)
             then Some(ReportLocationSend(env, petName, owner, r, location).result) else None)
  }

  /** `notifyLocationReport`: one push per channel tried. */
  method NotifyLocationReport(env: NotifyEnv, petName: Val, owner: Owner, r: Report,
                              reportTime: string, mail: MailOutcome, text: Reply, location: Reply)
    returns (notifications: seq<Entry>)
    ensures notifications == ReportNotifications(env, petName, owner, r, reportTime, mail, text, location)
  {
    // The entries so far, as the list the remaining channels extend.
    ghost var email := if Truthy(owner.email) then Some(ReportEmail(env, petName, owner, r, mail).result) else None;
    notifications := [];
    if Truthy(owner.email) {
      var emailResult := ReportEmail(env, petName, owner, r, mail).result;
      notifications := notifications + [EmailEntry(emailResult)];
    }
    assert notifications == Assemble(email, None, None);
    if Truthy(owner.whatsapp) {
      var textResult := ReportTextSend(env, petName, owner, r, reportTime, text).result;
      notifications := notifications + [TextEntry(textResult)];
      if Truthy(r.latitude) && Truthy(r.longitude) {
        var locationResult := ReportLocationSend(env, petName, owner, r, location).result;
        notifications := notifications + [LocationEntry(locationResult)];
      }
    }
  }

  // ---------------------------------------------------------------- properties

  function Rank(e: Entry): nat {
    match e
    case EmailEntry(_) => 0
    case TextEntry(_) => 1
    case LocationEntry(_) => 2
  }

  predicate HasEntry(es: seq<Entry>, rank: nat) {
    exists i :: 0 <= i < |es| && Rank(es[i]) == rank
  }

  /** Whatever is tried, the entries appear at most once each, e-mail before text before
      location, and an entry is present exactly when its channel was tried. */
  lemma AssembleOrder(email: Option<EmailResult>, text: Option<SendResult>, location: Option<SendResult>)
    ensures var es := Assemble(email, text, location);
            (forall i, j :: 0 <= i < j < |es| ==> Rank(es[i]) < Rank(es[j]))
            && (HasEntry(es, 0) <==> email.Some?)
            && (HasEntry(es, 1) <==> text.Some?)
            && (HasEntry(es, 2) <==> location.Some?)
  {
    var es := Assemble(email, text, location);
    if email.Some? { assert Rank(es[0]) == 0; }
    if text.Some? { assert Rank(es[if email.Some? then 1 else 0]) == 1; }
    if location.Some? { assert Rank(es[|es| - 1]) == 2; }
  }

  /** `notifyQRScan` reports on e-mail iff the owner has an e-mail, on WhatsApp text iff the
      owner has a WhatsApp number, and on the WhatsApp location iff the owner has a number
      and the scan both coordinates, in that order. */
  lemma ScanEntries(env: NotifyEnv, petName: Val, owner: Owner, scan: Report, scanTime: string,
                    mail: MailOutcome, text: Reply, location: Reply)
    ensures var es := ScanNotifications(env, petName, owner, scan, scanTime, mail, text, location);
            (forall i, j :: 0 <= i < j < |es| ==> Rank(es[i]) < Rank(es[j]))
            && (HasEntry(es, 0) <==> Truthy(owner.email))
            && (HasEntry(es, 1) <==> Truthy(owner.whatsapp))
            && (HasEntry(es, 2) <==> Truthy(owner.whatsapp) && HasLocation(scan))
  {
    AssembleOrder(if Truthy(owner.email) then Some(ScanEmail(env, petName, owner, scan, mail).result) else None,
                  if Truthy(owner.whatsapp) then Some(ScanTextSend(env, petName, owner, scanTime, text).result) else None,
                  if Truthy(owner.whatsapp) && HasLocation(scan)
                  then Some(ScanLocationSend(env, petName, owner, scan, location).result) else None);
  }

  /** The same for `notifyLocationReport`. */
  lemma ReportEntries(env: NotifyEnv, petName: Val, owner: Owner, r: Report, reportTime: string,
                      mail: MailOutcome, text: Reply, location: Reply)
    ensures var es := ReportNotifications(env, petName, owner, r, reportTime, mail, text, location);
            (forall i, j :: 0 <= i < j < |es| ==> Rank(es[i]) < Rank(es[j]))
            && (HasEntry(es, 0) <==> Truthy(owner.email))
            && (HasEntry(es, 1) <==> Truthy(owner.whatsapp))
            && (HasEntry(es, 2) <==> Truthy(owner.whatsapp) && HasLocation(r))
  {
    AssembleOrder(if Truthy(owner.email) then Some(ReportEmail(env, petName, owner, r, mail).result) else None,
                  if Truthy(owner.whatsapp) then Some(ReportTextSend(env, petName, owner, r, reportTime, text).result) else None,
                  if Truthy(owner.whatsapp) && HasLocation(r)
                  then Some(ReportLocationSend(env, petName, owner, r, location).result) else None);
  }

  /** The scan e-mail, when sent, carries `https://www.google.com/maps?q=lat,lng` exactly
      when both coordinates are truthy. */
  lemma ScanMailLink(env: NotifyEnv, petName: Val, owner: Owner, scan: Report, mail: MailOutcome)
    requires EnvSet(env.smtpUser)
    ensures var m := ScanEmail(env, petName, owner, scan, mail).mail;
            m.Some? && m.value.subject == ScanSubject(petName)
            && (m.value.mapLink.Some? <==> HasLocation(scan))
            && (HasLocation(scan) ==>
                  m.value.mapLink.value == "https://www.google.com/maps?q="
                    + ToJsString(scan.latitude) + "," + ToJsString(scan.longitude))
  {
  }

  /** A failing location send does not disturb the other entries: changing the location
      reply changes at most the location entry. */
  lemma LocationSendIndependent(env: NotifyEnv, petName: Val, owner: Owner, scan: Report,
                                scanTime: string, mail: MailOutcome, text: Reply,
                                l1: Reply, l2: Reply)
    ensures var a := ScanNotifications(env, petName, owner, scan, scanTime, mail, text, l1);
            var b := ScanNotifications(env, petName, owner, scan, scanTime, mail, text, l2);
            |a| == |b| && forall i :: 0 <= i < |a| && !a[i].LocationEntry? ==> a[i] == b[i]
  {
  }

  /** Without SMTP_USER and WhatsApp settings every tried channel reports it is not
      configured, and nothing is sent. */
  lemma UnconfiguredChannels(env: NotifyEnv, petName: Val, owner: Owner, scan: Report,
                             scanTime: string, mail: MailOutcome, text: Reply, location: Reply)
    requires !EnvSet(env.smtpUser) && !Configured(env.whatsapp)
    ensures ScanEmail(env, petName, owner, scan, mail).mail.None?
    ensures ScanTextSend(env, petName, owner, scanTime, text).post.None?
    ensures ScanLocationSend(env, petName, owner, scan, location).post.None?
    ensures forall e :: e in ScanNotifications(env, petName, owner, scan, scanTime, mail, text, location) ==>
              e == EmailEntry(EmailNotSent(EmailNotConfigured))
              || e == TextEntry(NotDelivered(Str(NotConfigured)))
              || e == LocationEntry(NotDelivered(Str(NotConfigured)))
  {
  }

  const TestOwner: Owner := Owner(Str("jhondouglas.87@gmail.com"), Str("59169977949"))
  const TestScan: Report := Report(Undefined, Undefined, Undefined, Num("-16.5"), Num("-68.15"))

  /** The scenario of test-notifications.js: an owner with e-mail and WhatsApp and a scan at
      (-16.5, -68.15) gives three entries: e-mail, text and location. */
  lemma OwnerWithBothChannels(env: NotifyEnv, scanTime: string, mail: MailOutcome, text: Reply,
                              location: Reply)
    ensures var es := ScanNotifications(env, Str("Max"), TestOwner, TestScan, scanTime, mail, text, location);
            |es| == 3 && TypeName(es[0]) == "email" && TypeName(es[1]) == "whatsapp_text"
            && TypeName(es[2]) == "whatsapp_location"
  {
    assert HasLocation(TestScan);
  }

  lemma TestNumberIsClean()
    ensures DigitsOnly(TestOwner.whatsapp.s) == "59169977949"
  {
    var s := "59169977949";
    assert forall i :: 0 <= i < |s| ==> IsDigit(s[i]);
    DigitsOnlyFixedPoints(s);
  }

  /** In the same scenario, with WhatsApp set up, the text goes to 59169977949. */
  lemma OwnerWithBothChannelsText(env: NotifyEnv, scanTime: string, text: Reply)
    requires Configured(env.whatsapp)
    ensures var t := ScanTextSend(env, Str("Max"), TestOwner, scanTime, text);
            t.post.Some? && t.post.value.payload.to == "59169977949"
  {
    TestNumberIsClean();
  }

  /** In the same scenario the location goes to 59169977949 too. */
  lemma OwnerWithBothChannelsLocationTo(env: NotifyEnv, location: Reply)
    requires Configured(env.whatsapp)
    ensures var l := ScanLocationSend(env, Str("Max"), TestOwner, TestScan, location);
            l.post.Some? && l.post.value.payload.to == "59169977949"
  {
    TestNumberIsClean();
  }

  /** In the same scenario the location carries the coordinates' texts and the pet's name. */
  lemma OwnerWithBothChannelsLocation(env: NotifyEnv, location: Reply)
    requires Configured(env.whatsapp)
    ensures var l := ScanLocationSend(env, Str("Max"), TestOwner, TestScan, location);
            l.post.Some? && l.post.value.payload.content
               == Location("-16.5", "-68.15", Str("Max" + " fue encontrada aquí"),
                           Str("Ubicación donde escanearon el QR"))
  {
    var l := ScanLocationSend(env, Str("Max"), TestOwner, TestScan, location);
    var c := l.post.value.payload.content;
    assert c.latitude == "-16.5" && c.longitude == "-68.15";
    assert c.name == Str("Max" + " fue encontrada aquí");
  }
}
