/** `callAgent` of src/App.jsx: one POST to the handler's URL and the
    translation of what comes back into either the reply text or the message
    of the error it throws. The request itself is `TurnController.Request`;
    the network is replaced by the `Outcome` it produced. */
module AgentClient {
  import opened Results
  import opened Text
  import opened NewlineEscape
  import opened Json

  /** Prefix `callAgent`'s catch block puts on every error it rethrows. */
  const ContactPrefix: string := "Error al contactar al agente: "

  /** What `await response.json()` gave: the document, or the message of the
      SyntaxError it threw. */
  datatype Payload = Parsed(doc: Json) | Unparseable(message: string)

  /** What `await fetch(...)` gave: a response with its status code and
      payload, or the message of the error it rejected with (network failure,
      unreachable host). */
  datatype Outcome =
    | Received(status: nat, payload: Payload)
    | TransportFail(message: string)

  /** `response.ok`: the status lies in 200..299. */
  predicate IsOk(status: nat) {
    200 <= status <= 299
  }

  const HttpPrefix: string := "HTTP error! status: "

  /** The message thrown for a non-ok response: the prefix followed by the
      status code in decimal, from which the code can be read back. */
  function HttpErrorMessage(status: nat): (m: string)
    ensures |m| > |HttpPrefix| && m[..|HttpPrefix|] == HttpPrefix
    ensures IsDecimal(m[|HttpPrefix|..]) && DecimalValue(m[|HttpPrefix|..]) == status
  {
    var d := Decimal(status);
    DecimalRoundTrip(status);
    assert (HttpPrefix + d)[|HttpPrefix|..] == d;
    HttpPrefix + d
  }

  /** `reply.replace(/\\n/g, '\n') || NoReply`: the unescaped reply, or the
      fallback exactly when the reply is the empty string. */
  function DisplayReply(reply: string): (r: string)
    ensures reply == [] ==> r == NoReply
    ensures reply != [] ==> r == Unescape(reply)
    ensures r != [] && NoEscapes(r)
  {
    var u := Unescape(reply);
    if u == [] then
      assert NoEscapes(NoReply) by {
        forall i | 0 <= i < |NoReply| ensures !EscapeAt(NoReply, i) {
          assert NoReply[i] != '\\';
        }
      }
      NoReply
    else u
  }

  /** The TypeErrors the JavaScript engine can raise inside the try block:
      reading `data.error` when `data` is `null`; converting an `error` member
      that has no primitive value (`ToStringThrows`); and calling
      `data.response.replace` when `response` (here its value, None when
      absent) is not a string. */
  datatype TypeFault = NullData | NoPrimitive | NoReplace(response: Option<Json>)

  /** The body of `callAgent`'s try block: the text it returns, or the
      message of the error thrown inside it. `typeError` gives the message
      the engine puts on each TypeError (its wording differs between
      engines). */
  function Attempt(o: Outcome, typeError: TypeFault -> string): (r: Result<string>)
    // The status is checked first, whatever the payload.
    ensures o.Received? && !IsOk(o.status) ==> r == Err(HttpErrorMessage(o.status))
    ensures o.TransportFail? ==> r == Err(o.message)
    ensures o.Received? && IsOk(o.status) && o.payload.Unparseable? ==> r == Err(o.payload.message)
    ensures o.Received? && IsOk(o.status) && o.payload == Parsed(JNull) ==> r == Err(typeError(NullData))
    // A truthy `error` member is reported before `response` is looked at,
    // through ToString, which may itself throw.
    ensures o.Received? && IsOk(o.status) && o.payload.Parsed?
            && JsTruthy(Member(o.payload.doc, "error"))
            ==> var error := o.payload.doc.fields["error"];
                r == if ToStringThrows(error) then Err(typeError(NoPrimitive))
                     else Err(JsToString(error).value)
    // Success needs all four checks to pass and a string `response`.
    ensures r.Ok? <==> o.Received? && IsOk(o.status) && o.payload.Parsed?
                       && o.payload.doc != JNull
                       && !JsTruthy(Member(o.payload.doc, "error"))
                       && Member(o.payload.doc, "response").Some?
                       && Member(o.payload.doc, "response").value.JStr?
    ensures r.Ok? ==> r.value == DisplayReply(o.payload.doc.fields["response"].s)
    ensures o.Received? && IsOk(o.status) && o.payload.Parsed?
            && o.payload.doc != JNull
            && !JsTruthy(Member(o.payload.doc, "error"))
            && !(Member(o.payload.doc, "response").Some? && Member(o.payload.doc, "response").value.JStr?)
            ==> r == Err(typeError(NoReplace(Member(o.payload.doc, "response"))))
  {
    match o
    case TransportFail(m) => Err(m)
    case Received(status, payload) =>
      if !IsOk(status) then Err(HttpErrorMessage(status))
      else
        match payload
        case Unparseable(m) => Err(m)
        case Parsed(doc) =>
          if doc == JNull then Err(typeError(NullData))
          else
            var error := Member(doc, "error");
            if JsTruthy(error) then
              match JsToString(error.value)
              case None => Err(typeError(NoPrimitive))
              case Some(m) => Err(m)
            else
              match Member(doc, "response")
              case Some(JStr(reply)) => Ok(DisplayReply(reply))
              case response => Err(typeError(NoReplace(response)))
  }

  /** `callAgent`: the try block's reply, or its error rethrown with
      `ContactPrefix` in front of the message. */
  function CallAgent(o: Outcome, typeError: TypeFault -> string): (r: Result<string>)
    ensures r.Ok? <==> Attempt(o, typeError).Ok?
    ensures r.Ok? ==> r == Attempt(o, typeError) && r.value != [] && NoEscapes(r.value)
    ensures r.Err? ==> r.message == ContactPrefix + Attempt(o, typeError).message
  {
    match Attempt(o, typeError)
    case Ok(text) => Ok(text)
    case Err(m) => Err(ContactPrefix + m)
  }
}
