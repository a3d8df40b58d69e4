/** src/backend/services/whatsapp.service.js: the three senders of the WhatsApp Cloud API.
    Each checks the configuration, reduces the destination to its digits, builds the JSON
    payload and posts it. The HTTP call is an oracle: its reply is a parameter, and the
    sender returns the post it would make (or none) with the result it would report. */
module WhatsApp {

  import opened Wrappers
  import opened JsValues
  import opened JsStrings

  /** WHATSAPP_API_TOKEN, WHATSAPP_PHONE_NUMBER_ID and WHATSAPP_API_VERSION. */
  datatype WhatsAppConfig = WhatsAppConfig(token: Option<string>, phoneNumberId: Option<string>,
                                           apiVersion: Option<string>)

  /** The message-type part of a payload (`text`, `location` or `template`). */
  datatype Content =
    | Text(previewUrl: bool, body: string)
    | Location(latitude: string, longitude: string, name: Val, address: Val)
    | Template(name: Val, languageCode: Val)

  datatype Payload = Payload(messagingProduct: string, recipientType: string, to: string,
                             content: Content)

  /** One `axios.post`: the URL, the JSON body and the Authorization header. */
  datatype Post = Post(url: string, payload: Payload, authorization: string)

  /** What the provider answers: `response.data`, or an error with the provider's
      `error.response?.data?.error?.message` (Undefined when absent) and `error.message`. */
  datatype Reply = Answered(data: string) | Rejected(providerMessage: Val, message: string)

  /** `{success: true, data}` or `{success: false, error}`. */
  datatype SendResult = Delivered(data: string) | NotDelivered(error: Val)

  /** The post made, if any, and the result returned. */
  datatype Attempt = Attempt(post: Option<Post>, result: SendResult)

  const NotConfigured: string := "WhatsApp no configurado"
  const DefaultLocationName: string := "Ubicación de tu mascota"
  const DefaultLocationAddress: string := "Ubicación donde fue encontrada"

  /** Both the token and the phone number id are set and non-empty. */
  predicate Configured(cfg: WhatsAppConfig) {
    EnvSet(cfg.token) && EnvSet(cfg.phoneNumberId)
  }

  /** WHATSAPP_API_URL, with version v21.0 unless one is configured. */
  function ApiUrl(cfg: WhatsAppConfig): string {
    "https://graph.facebook.com/" + EnvOr(cfg.apiVersion, "v21.0") + "/"
    + EnvText(cfg.phoneNumberId) + "/messages"
  }

  function Authorization(cfg: WhatsAppConfig): string {
    "Bearer " + EnvText(cfg.token)
  }

  /** `to.replace(/\D/g, '')`, which throws a TypeError unless `to` is a string. */
  function CleanNumber(to: Val): (r: Result<string>)
    ensures r.Success? <==> to.Str?
    ensures r.Success? ==> r.value == DigitsOnly(to.s)
  {
    match to
    case Str(s) => Success(DigitsOnly(s))
    case Undefined => Failure("Cannot read properties of undefined (reading 'replace')")
    case Null => Failure("Cannot read properties of null (reading 'replace')")
    case _ => Failure("to.replace is not a function")
  }

  /** `v.toString()`, which throws a TypeError on undefined and null. */
  function ToStringCall(v: Val): (r: Result<string>)
    ensures r.Success? <==> !(v.Undefined? || v.Null?)
    ensures r.Success? ==> r.value == ToJsString(v)
  {
    match v
    case Undefined => Failure("Cannot read properties of undefined (reading 'toString')")
    case Null => Failure("Cannot read properties of null (reading 'toString')")
    case _ => Success(ToJsString(v))
  }

  /** The `catch` block: the provider's message when it is truthy, else the error's own. */
  function ErrorText(providerMessage: Val, message: string): (e: Val)
    ensures Truthy(providerMessage) ==> e == providerMessage
    ensures !Truthy(providerMessage) ==> e == Str(message)
  {
    Or(providerMessage, Str(message))
  }

  /** Posting a payload: the reply decides the result. */
  function Deliver(cfg: WhatsAppConfig, payload: Payload, reply: Reply): (a: Attempt)
    ensures a.post == Some(Post(ApiUrl(cfg), payload, Authorization(cfg)))
    ensures a.result.Delivered? <==> reply.Answered?
    ensures reply.Answered? ==> a.result.data == reply.data
    ensures reply.Rejected? ==> a.result.error == ErrorText(reply.providerMessage, reply.message)
  {
    Attempt(Some(Post(ApiUrl(cfg), payload, Authorization(cfg))),
            match reply
            case Answered(d) => Delivered(d)
            case Rejected(p, m) => NotDelivered(ErrorText(p, m)))
  }

  /** An error thrown before the post: nothing is sent. */
  function Thrown(message: string): Attempt {
    Attempt(None, NotDelivered(Str(message)))
  }

  function Envelope(to: string, content: Content): Payload {
    Payload("whatsapp", "individual", to, content)
  }

  /** `sendTextMessage`. */
  function SendTextMessage(cfg: WhatsAppConfig, to: Val, message: string, reply: Reply)
    : (a: Attempt)
    ensures !Configured(cfg) ==> a == Attempt(None, NotDelivered(Str(NotConfigured)))
    ensures a.post.Some? <==> Configured(cfg) && to.Str?
    ensures a.post.Some? ==> a.post.value.payload
                             == Payload("whatsapp", "individual", DigitsOnly(to.s), Text(true, message))
    ensures a.post.Some? ==> a.post.value.url == ApiUrl(cfg)
    ensures a.result.Delivered? <==> a.post.Some? && reply.Answered?
  {
    if !Configured(cfg) then Attempt(None, NotDelivered(Str(NotConfigured)))
    else
      match CleanNumber(to)
      case Failure(e) => Thrown(e)
      case Success(number) => Deliver(cfg, Envelope(number, Text(true, message)), reply)
  }

  /** `sendLocationMessage`. The coordinates are converted with `toString()` while the
      payload is built, so a missing coordinate throws and nothing is posted. */
  function SendLocationMessage(cfg: WhatsAppConfig, to: Val, latitude: Val, longitude: Val,
                               name: Val, address: Val, reply: Reply): (a: Attempt)
    ensures !Configured(cfg) ==> a == Attempt(None, NotDelivered(Str(NotConfigured)))
    ensures a.post.Some? <==> Configured(cfg) && to.Str?
                              && ToStringCall(latitude).Success? && ToStringCall(longitude).Success?
    ensures a.post.Some? ==>
              a.post.value.payload == Payload("whatsapp", "individual", DigitsOnly(to.s),
                         Location(ToJsString(latitude), ToJsString(longitude),
                                  Or(name, Str(DefaultLocationName)),
                                  Or(address, Str(DefaultLocationAddress))))
    ensures a.result.Delivered? <==> a.post.Some? && reply.Answered?
  {
    if !Configured(cfg) then Attempt(None, NotDelivered(Str(NotConfigured)))
    else
      match CleanNumber(to)
      case Failure(e) => Thrown(e)
      case Success(number) =>
        match ToStringCall(latitude)
        case Failure(e) => Thrown(e)
        case Success(lat) =>
          match ToStringCall(longitude)
          case Failure(e) => Thrown(e)
          case Success(lng) =>
            Deliver(cfg, Envelope(number, Location(lat, lng, Or(name, Str(DefaultLocationName)),
                                                   Or(address, Str(DefaultLocationAddress)))),
                    reply)
  }

  /** The default parameter `languageCode = 'es'`: it applies only to an argument that is
      undefined, so an explicit null is sent as it is. */
  function LanguageCode(arg: Val): (c: Val)
    ensures arg.Undefined? ==> c == Str("es")
    ensures !arg.Undefined? ==> c == arg
  {
    if arg.Undefined? then Str("es") else arg
  }

  /** `sendTemplateMessage`. */
  function SendTemplateMessage(cfg: WhatsAppConfig, to: Val, templateName: Val, languageCode: Val,
                               reply: Reply): (a: Attempt)
    ensures !Configured(cfg) ==> a == Attempt(None, NotDelivered(Str(NotConfigured)))
    ensures a.post.Some? <==> Configured(cfg) && to.Str?
    ensures a.post.Some? ==>
              a.post.value.payload == Payload("whatsapp", "individual", DigitsOnly(to.s),
                         Template(templateName, LanguageCode(languageCode)))
    ensures a.result.Delivered? <==> a.post.Some? && reply.Answered?
  {
    if !Configured(cfg) then Attempt(None, NotDelivered(Str(NotConfigured)))
    else
      match CleanNumber(to)
      case Failure(e) => Thrown(e)
      case Success(number) =>
        Deliver(cfg, Envelope(number, Template(templateName, LanguageCode(languageCode))), reply)
  }

  /** A sender either reports success with the provider's data, or failure with a message
      that is never empty: each sender returns a result and never throws. */
  lemma FailuresCarryAMessage(cfg: WhatsAppConfig, to: Val, message: string, reply: Reply)
    requires reply.Rejected? ==> reply.message != ""
    ensures var r := SendTextMessage(cfg, to, message, reply).result;
            r.NotDelivered? ==> Truthy(r.error)
  {
  }

  /** Sending to a number already reduced to its digits posts exactly what sending to the
      original would: the cleaning is idempotent. */
  lemma CleanedDestinationIsStable(cfg: WhatsAppConfig, to: string, message: string, reply: Reply)
    ensures SendTextMessage(cfg, Str(DigitsOnly(to)), message, reply)
            == SendTextMessage(cfg, Str(to), message, reply)
  {
    DigitsOnlyIdempotent(to);
  }

  /** Two destinations that differ only in separators (spaces, '+', '-', ...) receive the
      same post. */
  lemma SeparatorsDoNotMatter(cfg: WhatsAppConfig, a: string, b: string, message: string,
                              reply: Reply)
    requires DigitsOnly(a) == DigitsOnly(b)
    ensures SendTextMessage(cfg, Str(a), message, reply) == SendTextMessage(cfg, Str(b), message, reply)
  {
  }

  /** A coordinate pair that is present is posted as the strings the numbers print as. */
  lemma LocationCarriesCoordinates(cfg: WhatsAppConfig, to: string, lat: string, lng: string,
                                   reply: Reply)
    requires Configured(cfg)
    ensures var a := SendLocationMessage(cfg, Str(to), Num(lat), Num(lng), Undefined, Undefined, reply);
            a.post.Some? && a.post.value.payload.content
                            == Location(lat, lng, Str(DefaultLocationName), Str(DefaultLocationAddress))
  {
  }
}
