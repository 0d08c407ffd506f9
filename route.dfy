/** The `GET /saveCardInfo/:sessionId` handler: how the internal API's reply
    decides which page is rendered, with which context and status code. */
module Route {
  import opened Text
  import opened JsValues
  import opened Templates

  /** A `process.env` variable: unset reads as `undefined`. */
  datatype Setting = Unset | Set(text: string)

  /** The configuration the handler reads: `NODE_ENV` and
      `CHECKOUT_PUBLIC_KEY`. */
  datatype Config = Config(nodeEnv: Setting, publicKey: Setting)

  /** The response body as `JSON.parse` sees it: a value, or the message of
      the `SyntaxError` it throws. */
  datatype Body = Parsed(json: Value) | Malformed(parseError: string)

  /** What the POST to the internal API produces: the request's `error`
      event (refused connection, unknown host, reset socket) with the error's
      message, or a response with its status code and body. */
  datatype Reply = ConnectionFailed(cause: string) | Replied(status: nat, body: Body)

  /** The two template files. */
  datatype TemplateId = PaymentForm | ErrorTemplate
  datatype Documents = Documents(paymentForm: Document, errorPage: Document)

  /** A page to render: which template, with which context, sent with
      which status code. */
  datatype Page = Page(template: TemplateId, context: seq<Entry>, status: nat)

  /** What the handler sends: a status code and an HTML body, or nothing
      when even the error page cannot be rendered (the exception escapes the
      `catch` block and the handler's promise is rejected). */
  datatype Response = Sent(status: nat, html: string) | Unanswered

  /** The `ok` flag of a response: the status code is in the 2xx
      (Successful) class of section 15.3 of RFC 9110. */
  function IsOk(status: nat): (ok: bool)
    ensures ok <==> status / 100 == 2
  {
    200 <= status && status < 300
  }

  /** The message thrown for a response that is not ok: a fixed prefix
      followed by the status code's decimal digits. */
  function StatusError(status: nat): (m: string)
    ensures |m| > 20 && m[..20] == "Internal API error: "
    ensures forall k :: 20 <= k < |m| ==> IsDigit(m[k])
  {
    var m := "Internal API error: " + DecimalText(status);
    assert m[20..] == DecimalText(status);
    m
  }

  /** The message thrown when the API reports a failure, given the text
      `String(message)` produced: a fixed prefix followed by that text. */
  function ApplicationError(text: string): (m: string)
    ensures |m| == 29 + |text| && m[..29] == "Internal API returned error: " && m[29..] == text
  {
    "Internal API returned error: " + text
  }

  /** The session data the API returned, or the message of the error thrown
      on the way to it. The status code is checked before the body is
      parsed, and the `success` flag after. */
  function SessionData(reply: Reply, rt: Runtime): (r: Completion<Value>)
    ensures reply.ConnectionFailed? ==> r == Throw(reply.cause)
    ensures reply.Replied? && !IsOk(reply.status) ==> r == Throw(StatusError(reply.status))
    ensures reply.Replied? && IsOk(reply.status) && reply.body.Malformed? ==> r == Throw(reply.body.parseError)
    ensures reply.Replied? && IsOk(reply.status) && reply.body == Parsed(Null)
            ==> r == Throw("Cannot read properties of null (reading 'success')")
    ensures r.Normal? ==> reply.Replied? && IsOk(reply.status) && reply.body.Parsed?
                          && reply.body.json.Object? && "success" in reply.body.json.fields
                          && Truthy(reply.body.json.fields["success"])
  {
    match reply
    case ConnectionFailed(cause) => Throw(cause)
    case Replied(status, body) =>
      if !IsOk(status) then Throw(StatusError(status))
      else
        match body
        case Malformed(parseError) => Throw(parseError)
        case Parsed(json) =>
          match GetProperty(json, "success")
          case Throw(e) => Throw(e)
          case Normal(flag) =>
            if !Truthy(flag) then
              match ToText(GetProperty(json, "message").value, rt)
              case Throw(e) => Throw(e)
              case Normal(text) => Throw(ApplicationError(text))
            else Normal(GetProperty(json, "data").value)
  }

  /** The environment tag embedded in the payment form. */
  function Environment(config: Config): (env: string)
    ensures env == "production" <==> config.nodeEnv == Set("production")
    ensures env == "production" || env == "sandbox"
  {
    if config.nodeEnv == Set("production") then "production" else "sandbox"
  }

  /** An environment variable as a JavaScript value. */
  function SettingValue(s: Setting): (v: Value)
    ensures v.Undefined? <==> s.Unset?
    ensures s.Set? ==> v == Str(s.text)
  {
    match s
    case Unset => Undefined
    case Set(text) => Str(text)
  }

  /** `generateSaveCardInfoHTML`: the payment form with the session data,
      the publishable key and the environment tag. The session id is a
      parameter but is not put in the context. */
  function FormPage(data: Value, sessionId: string, config: Config): (p: Page)
    ensures p.template == PaymentForm && p.status == 200
    ensures |p.context| == 3 && forall k :: 0 <= k < 3 ==> '{' !in p.context[k].key
    ensures p.context[0] == Entry("SESSION_DATA", data)
    ensures p.context[1] == Entry("PUBLIC_KEY", SettingValue(config.publicKey))
    ensures p.context[2] == Entry("ENVIRONMENT", Str(Environment(config)))
  {
    assert '{' !in "SESSION_DATA" && '{' !in "PUBLIC_KEY" && '{' !in "ENVIRONMENT";
    Page(PaymentForm,
         [Entry("SESSION_DATA", data),
          Entry("PUBLIC_KEY", SettingValue(config.publicKey)),
          Entry("ENVIRONMENT", Str(Environment(config)))],
         200)
  }

  /** `generateErrorHTML` under `res.status(500)`: the error page with the
      message. */
  function ErrorPage(message: string): (p: Page)
    ensures p.template == ErrorTemplate && p.status == 500
    ensures p.context == [Entry("ERROR_MESSAGE", Str(message))] && '{' !in p.context[0].key
  {
    assert '{' !in "ERROR_MESSAGE";
    Page(ErrorTemplate, [Entry("ERROR_MESSAGE", Str(message))], 500)
  }

  /** The page the handler renders first. */
  function Decide(reply: Reply, sessionId: string, config: Config, rt: Runtime): (p: Page)
    ensures p.template == PaymentForm <==> SessionData(reply, rt).Normal?
    ensures p.status == (if p.template == PaymentForm then 200 else 500)
  {
    match SessionData(reply, rt)
    case Normal(data) => FormPage(data, sessionId, config)
    case Throw(message) => ErrorPage(message)
  }

  function DocumentFor(id: TemplateId, docs: Documents): Document {
    match id
    case PaymentForm => docs.paymentForm
    case ErrorTemplate => docs.errorPage
  }

  /** Rendering a page and sending it. A form that cannot be rendered falls
      into the `catch` block and becomes the error page with the rendering
      error's message; when an error page cannot be rendered, nothing is
      sent. */
  function Respond(page: Page, docs: Documents, rt: Runtime): (r: Response)
    ensures DocumentFor(page.template, docs).Available?
            ==> r == Sent(page.status, Render(DocumentFor(page.template, docs).text, page.context, rt))
    ensures page.template == ErrorTemplate && docs.errorPage.Unavailable? ==> r == Unanswered
    ensures page.template == PaymentForm && docs.paymentForm.Unavailable?
            ==> r == (if docs.errorPage.Available?
                      then Sent(500, Render(docs.errorPage.text, ErrorPage(RenderFailedMessage).context, rt))
                      else Unanswered)
    decreases page.template == PaymentForm
  {
    match RenderDocument(DocumentFor(page.template, docs), page.context, rt)
    case Normal(html) => Sent(page.status, html)
    case Throw(message) =>
      if page.template == PaymentForm then Respond(ErrorPage(message), docs, rt) else Unanswered
  }

  /** The whole handler for one request. */
  function Handle(reply: Reply, sessionId: string, config: Config, docs: Documents, rt: Runtime): (r: Response)
    ensures r.Sent? ==> r.status == 200 || r.status == 500
    ensures r.Sent? && r.status == 200 ==> SessionData(reply, rt).Normal?
  {
    Respond(Decide(reply, sessionId, config, rt), docs, rt)
  }

  /** A reply that is not ok becomes the error page naming its status code,
      whatever its body says: the `success` flag is never read. */
  lemma NotOkIsStatusError(status: nat, body: Body, other: Body, sessionId: string, config: Config, rt: Runtime)
    requires !IsOk(status)
    ensures Decide(Replied(status, body), sessionId, config, rt) == ErrorPage(StatusError(status))
    ensures Decide(Replied(status, body), sessionId, config, rt) == Decide(Replied(status, other), sessionId, config, rt)
  {
  }

  /** The status code can be read back from the error message. */
  lemma StatusErrorNamesStatus(status: nat)
    ensures var m := StatusError(status);
            |m| > 20 && m[..20] == "Internal API error: " && DecimalValue(m[20..]) == status
  {
    var m := StatusError(status);
    assert m[20..] == DecimalText(status);
    DecimalRoundTrip(status);
  }

  /** An ok reply whose `success` flag is falsy (absent, false, 0, "",
      null, or a body that is not an object at all) becomes the error page
      with the API's message; when the message cannot be converted to a
      string, the conversion's `TypeError` is what the page shows. */
  lemma FalsySuccessIsApplicationError(status: nat, json: Value, sessionId: string, config: Config, rt: Runtime)
    requires IsOk(status) && !json.Null? && !json.Undefined?
    requires !Truthy(GetProperty(json, "success").value)
    ensures var message := GetProperty(json, "message").value;
            Decide(Replied(status, Parsed(json)), sessionId, config, rt)
            == ErrorPage(if Unconvertible(message) then ToPrimitiveErrorMessage
                         else ApplicationError(ToText(message, rt).value))
    ensures !json.Object? ==> Decide(Replied(status, Parsed(json)), sessionId, config, rt)
                              == ErrorPage("Internal API returned error: undefined")
  {
    assert "Internal API returned error: " + "undefined" == "Internal API returned error: undefined";
  }

  /** An ok reply whose body is `null` fails reading `success`: the error
      page shows the engine's `TypeError` message. */
  lemma NullBodyIsTypeError(status: nat, sessionId: string, config: Config, rt: Runtime)
    requires IsOk(status)
    ensures Decide(Replied(status, Parsed(Null)), sessionId, config, rt)
            == ErrorPage("Cannot read properties of null (reading 'success')")
  {
    assert ReadErrorMessage(Null, "success") == "Cannot read properties of null (reading 'success')";
  }

  /** An ok reply with a truthy `success` flag renders the payment form with
      exactly the session data, the configured key and the environment tag,
      and status 200; the session id does not matter. */
  lemma TruthySuccessIsForm(status: nat, json: Value, sessionId: string, otherId: string, config: Config, rt: Runtime)
    requires IsOk(status) && json.Object?
    requires "success" in json.fields && Truthy(json.fields["success"])
    ensures var p := Decide(Replied(status, Parsed(json)), sessionId, config, rt);
            && p.template == PaymentForm && p.status == 200
            && p.context == [Entry("SESSION_DATA", if "data" in json.fields then json.fields["data"] else Undefined),
                             Entry("PUBLIC_KEY", SettingValue(config.publicKey)),
                             Entry("ENVIRONMENT", Str(if config.nodeEnv == Set("production") then "production" else "sandbox"))]
            && p == Decide(Replied(status, Parsed(json)), otherId, config, rt)
  {
  }

  /** Every response is a 200 or a 500. It is a 200 exactly when the API
      returned session data and the form could be rendered, and the request
      goes unanswered exactly when the error page was needed but could not
      be rendered. */
  lemma ResponseStatus(reply: Reply, sessionId: string, config: Config, docs: Documents, rt: Runtime)
    ensures var r := Handle(reply, sessionId, config, docs, rt);
            && (r.Sent? ==> r.status == 200 || r.status == 500)
            && (r.Sent? && r.status == 200 <==> SessionData(reply, rt).Normal? && docs.paymentForm.Available?)
            && (r.Unanswered? <==> docs.errorPage.Unavailable?
                                   && (SessionData(reply, rt).Throw? || docs.paymentForm.Unavailable?))
  {
    var page := Decide(reply, sessionId, config, rt);
    if page.template == PaymentForm && docs.paymentForm.Unavailable? {
      assert Respond(page, docs, rt) == Respond(ErrorPage(RenderFailedMessage), docs, rt);
    }
  }

  /** A form that cannot be rendered on the success path becomes the error
      page with the rendering error's message. */
  lemma FormFailureIsErrorPage(reply: Reply, sessionId: string, config: Config, docs: Documents, rt: Runtime)
    requires SessionData(reply, rt).Normal? && docs.paymentForm.Unavailable?
    ensures Handle(reply, sessionId, config, docs, rt) == Respond(ErrorPage(RenderFailedMessage), docs, rt)
  {
  }

  /** With an error template holding one `{{ERROR_MESSAGE}}` token, a failed
      request gets status 500 and the template with the error's message in
      place of the token. */
  lemma ErrorBodyShowsMessage(reply: Reply, sessionId: string, config: Config, docs: Documents, rt: Runtime,
                              pre: string, post: string)
    requires docs.errorPage == Available(pre + Token("ERROR_MESSAGE") + post)
    requires !Occurs(pre, Token("ERROR_MESSAGE")) && !Occurs(post, Token("ERROR_MESSAGE"))
    requires SessionData(reply, rt).Throw? || docs.paymentForm.Unavailable?
    ensures Handle(reply, sessionId, config, docs, rt)
            == Sent(500, pre + (if SessionData(reply, rt).Throw? then SessionData(reply, rt).message
                                else RenderFailedMessage) + post)
  {
    var message := if SessionData(reply, rt).Throw? then SessionData(reply, rt).message else RenderFailedMessage;
    var page := Decide(reply, sessionId, config, rt);
    assert '{' !in "ERROR_MESSAGE";
    RenderLoneToken(pre, post, Entry("ERROR_MESSAGE", Str(message)), [], rt);
    assert [Entry("ERROR_MESSAGE", Str(message))] + [] == ErrorPage(message).context;
    if page.template == PaymentForm {
      assert Respond(page, docs, rt) == Respond(ErrorPage(RenderFailedMessage), docs, rt);
    } else {
      assert page == ErrorPage(message);
    }
  }

  /** With a payment form holding each of its three tokens once, in the
      order of the context, the 200 body is the form with the session data's
      text, the key and the environment tag in place of the tokens, provided
      no pass finds a token of its key elsewhere in the text it is given. */
  lemma FormBodyShowsValues(reply: Reply, sessionId: string, config: Config, docs: Documents, rt: Runtime,
                            p0: string, p1: string, p2: string, p3: string)
    requires SessionData(reply, rt).Normal?
    requires docs.paymentForm == Available(p0 + Token("SESSION_DATA") + p1 + Token("PUBLIC_KEY") + p2
                                           + Token("ENVIRONMENT") + p3)
    requires var s := ReplacementText(SessionData(reply, rt).value, rt);
             var k := ReplacementText(SettingValue(config.publicKey), rt);
             && !Occurs(p0, Token("SESSION_DATA"))
             && !Occurs(p1 + Token("PUBLIC_KEY") + p2 + Token("ENVIRONMENT") + p3, Token("SESSION_DATA"))
             && !Occurs(p0 + s + p1, Token("PUBLIC_KEY"))
             && !Occurs(p2 + Token("ENVIRONMENT") + p3, Token("PUBLIC_KEY"))
             && !Occurs(p0 + s + p1 + k + p2, Token("ENVIRONMENT"))
             && !Occurs(p3, Token("ENVIRONMENT"))
    ensures Handle(reply, sessionId, config, docs, rt)
            == Sent(200, p0 + ReplacementText(SessionData(reply, rt).value, rt)
                         + p1 + ReplacementText(SettingValue(config.publicKey), rt)
                         + p2 + Environment(config) + p3)
  {
    var page := FormPage(SessionData(reply, rt).value, sessionId, config);
    var sd, pk, env := page.context[0], page.context[1], page.context[2];
    var s, k := ReplacementText(sd.value, rt), ReplacementText(pk.value, rt);
    assert '{' !in "SESSION_DATA" && '{' !in "PUBLIC_KEY" && '{' !in "ENVIRONMENT";
    var text := p0 + Token("SESSION_DATA") + p1 + Token("PUBLIC_KEY") + p2 + Token("ENVIRONMENT") + p3;
    assert text == p0 + Token("SESSION_DATA") + (p1 + Token("PUBLIC_KEY") + p2 + Token("ENVIRONMENT") + p3);
    SubstituteLone(p0, p1 + Token("PUBLIC_KEY") + p2 + Token("ENVIRONMENT") + p3, sd, rt);
    var text1 := p0 + s + (p1 + Token("PUBLIC_KEY") + p2 + Token("ENVIRONMENT") + p3);
    assert text1 == (p0 + s + p1) + Token("PUBLIC_KEY") + (p2 + Token("ENVIRONMENT") + p3);
    SubstituteLone(p0 + s + p1, p2 + Token("ENVIRONMENT") + p3, pk, rt);
    var text2 := (p0 + s + p1) + k + (p2 + Token("ENVIRONMENT") + p3);
    assert text2 == (p0 + s + p1 + k + p2) + Token("ENVIRONMENT") + p3;
    SubstituteLone(p0 + s + p1 + k + p2, p3, env, rt);
    var ctx := page.context;
    assert ctx[..2] == [sd, pk] && ctx[..2][..1] == [sd] && ctx[..2][..1][..0] == [];
    assert Render(text, ctx[..2][..1], rt) == Substitute(text, sd, rt);
    assert Render(text, ctx[..2], rt) == Substitute(Substitute(text, sd, rt), pk, rt);
    assert Render(text, ctx, rt) == Substitute(Substitute(Substitute(text, sd, rt), pk, rt), env, rt);
  }
}
