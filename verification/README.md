# Medical-assistant chat: a Dafny model

The system is a one-page chat (a React component, `src/App.jsx`) that posts
each prompt to an AWS Lambda handler (`lambda/lambda_function.py`). The
handler forwards the prompt to a hosted agent runtime and sends back the
agent's reply. This project models the sequential logic under the I/O of both
sides and proves properties of it:

- **Turn controller** (`turn_controller.dfy`): the page's state
  `(messages, input, isLoading, sessionId)` as a state machine. A send is
  split into `BeginSend`, the synchronous part of `handleSend` up to the
  `await`, and `FinishSend`, the `finally` block of `callAgent` plus the
  append of the assistant turn. `HandleSend` composes the two. `Run` replays
  any sequence of typing and send events.
- **Agent client** (`agent_client.dfy`): `callAgent` turns what `fetch`
  produced into the reply text or the message of the error it throws. What
  `fetch` produced is the `Outcome` datatype: a response with its status and
  decoded payload, a payload that failed to decode, or a transport failure.
  The checks run in the source's order: status, then the `error` member, then
  `response`.
- **Newline unescape** (`newline_escape.dfy`): `replace(/\\n/g, '\n')` on
  `seq<char>`, with its inverse `Escape`.
- **Lambda handler** (`lambda_handler.dfy`): body decoding, the prompt check
  (400), session-id defaulting, the `response` > `output` > `text` > `str()`
  choice of reply, the non-JSON fallback, and the catch-all 500. The agent
  runtime, `json.loads` and Python's `str()` are parameters.
- **Shared pieces**: `json.dfy` holds the decoded JSON value with JavaScript
  and Python truthiness and JavaScript's ToString. `text.dfy` holds
  ECMAScript `trim`, decimal rendering and `bytes.hex()`. `end_to_end.dfy`
  connects a request the page posts to the handler, and the handler's reply
  back to the page.

Three behaviours of the code are worth stating, because a reader of the
page's intent might expect otherwise:

- A reply document without a string `response` member does **not** fall back
  to the fixed text. `data.response.replace` throws a TypeError, and the user
  sees an error turn. The fallback text appears only when `response` is the
  empty string.
- The `error` member is tested for JavaScript truthiness, not for being a
  string. A non-string error value is shown through JavaScript's ToString.
  An object with its own `toString` member (or an array holding one) has no
  primitive value, so `new Error(data.error)` itself throws a TypeError, and
  the user sees that TypeError's message instead.
- The handler answers its own failures (400, 500) with a non-2xx status. The
  page checks the status before reading the body, so the handler's error text
  ("El prompt es requerido", "Error al invocar el agente: …") never reaches
  the user. The page shows only `HTTP error! status: <code>`
  (`EndToEnd.PageShowsHandlerReply`).

## Model

| member | source | states |
|---|---|---|
| Text.TrimStart | src/App.jsx:59 | the result is the suffix of the input after its leading whitespace; everything dropped is whitespace and the result does not start with whitespace |
| Text.TrimEnd | src/App.jsx:59 | the result is the prefix of the input before its trailing whitespace; everything dropped is whitespace and the result does not end with whitespace |
| Text.Trim | src/App.jsx:59-61 | `input.trim()` has no whitespace at either end, and is empty exactly when the input is all whitespace |
| Text.TrimIsSlice | src/App.jsx:61 | the trimmed prompt is a contiguous slice of the draft, and only whitespace lies outside it |
| Text.TrimIdempotent | src/App.jsx:61 | trimming an already trimmed prompt changes nothing |
| Text.Decimal | src/App.jsx:39 | the status code is printed as a non-empty string of digits with no leading zero |
| Text.DecimalRoundTrip | src/App.jsx:39 | the printed status code reads back to the code itself |
| Text.DecimalInjective | src/App.jsx:39 | two different status codes never print the same |
| Text.Hex | lambda/lambda_function.py:21 | `os.urandom(16).hex()` gives two lower-case hexadecimal digits per byte |
| Text.HexRoundTrip | lambda/lambda_function.py:21 | the hexadecimal text decodes back to the random bytes, so no information is lost |
| NewlineEscape.Unescape | src/App.jsx:48 | the reply after `replace(/\\n/g, '\n')` holds no backslash-`n` pair, is no longer than the input, and is empty exactly when the input is |
| NewlineEscape.Escape | src/App.jsx:48 | the inverse rewrite (line break to backslash-`n`) leaves no line break |
| NewlineEscape.UnescapeLength | src/App.jsx:48 | the output is shorter than the input by exactly the number of backslash-`n` pairs in the input |
| NewlineEscape.EscapeCountZero | src/App.jsx:48 | the pair count is zero if and only if no pair occurs |
| NewlineEscape.UnescapeFixpoint | src/App.jsx:48 | a reply is left unchanged if and only if it has no backslash-`n` pair |
| NewlineEscape.UnescapeOfPlain | src/App.jsx:48 | a reply with no backslash-`n` pair is shown exactly as sent |
| NewlineEscape.UnescapeIdempotent | src/App.jsx:48 | unescaping twice equals unescaping once |
| NewlineEscape.UnescapeEscape | src/App.jsx:48 | on text with no backslash-`n` pair, unescape undoes escape: every line break comes back and all other characters stay in order |
| NewlineEscape.EscapeUnescape | src/App.jsx:48 | on text with no line break, escape undoes unescape, so the rewrite loses nothing there |
| NewlineEscape.EscapeUnescapeAll | src/App.jsx:48 | on every reply, including one that mixes real line breaks with backslash-`n` pairs, escaping the unescaped reply equals escaping the reply: only pairs become line breaks and every other character is kept in order |
| NewlineEscape.UnescapeCharacterized | src/App.jsx:48 | the shown reply is the one text without backslash-`n` pairs that escapes to the same string as the reply, so the rewrite is fixed on every input |
| Json.JsToString | src/App.jsx:45 | the conversion `new Error(data.error)` applies fails exactly when the value is an object with its own `toString` member or an array holding one at any depth; otherwise a string error is kept as its message and a number is printed in decimal, a negative one after a `-` sign |
| AgentClient.HttpErrorMessage | src/App.jsx:38-39 | the non-ok error message is `HTTP error! status: ` followed by digits that read back to the status |
| AgentClient.DisplayReply | src/App.jsx:48 | `reply.replace(...)` or else the fallback gives the fallback exactly when the reply is empty, else the unescaped reply; the result is never empty and has no backslash-`n` pair |
| AgentClient.Attempt | src/App.jsx:25-49 | a non-ok status fails with the HTTP message whatever the body says; then a transport or decode failure gives its own message; a `null` document fails with the engine's TypeError; a truthy `error` member fails before `response` is read, with its ToString text or, when that conversion has no primitive value, with the engine's TypeError; a `response` that is missing or not a string fails with the engine's TypeError for that value; success happens if and only if every check passes and `response` is a string, and returns the displayed reply |
| AgentClient.CallAgent | src/App.jsx:50-55 | every error is rethrown as `Error al contactar al agente: ` plus the original message; a success is a non-empty reply with no backslash-`n` pair |
| TurnController.NewChat | src/App.jsx:8-11 | the page starts idle with no messages and an empty draft; its session id is `session-` plus the UUID, 44 characters |
| TurnController.Edit | src/App.jsx:118 | typing changes only the draft |
| TurnController.BeginSend | src/App.jsx:59-65 | the send is ignored if and only if the trimmed draft is empty or a call is outstanding; otherwise the user turn with the trimmed draft follows the earlier turns, the draft is cleared, `isLoading` is true, and the request `callAgent` posts (src/App.jsx:23-35) carries the trimmed, non-empty prompt and the session id |
| TurnController.FinishSend | src/App.jsx:53-77 | after the call settles, `isLoading` is false and exactly one assistant turn is appended after untouched earlier turns: the reply, or `Error: ` plus the message |
| TurnController.HandleSend | src/App.jsx:58-79 | a blank draft or an outstanding call leaves the state unchanged; otherwise two turns, user then assistant, follow the unchanged earlier turns, the draft is empty, the page is idle and the session id is kept |
| TurnController.HandleSendNoOpIffRefused | src/App.jsx:59 | `handleSend` leaves messages, draft and `isLoading` unchanged if and only if the trimmed draft is empty or a call is outstanding |
| TurnController.ReplyTurn | src/App.jsx:38-77 | the assistant turn for a settled call reads `Error: Error al contactar al agente: HTTP error! status: <code>` for a non-ok status whatever the body says; it carries the transport, decode or `error`-member text for those failures, the `error` member winning over `response`; a `null` document, an `error` member without a primitive value and a non-string `response` each show the engine's TypeError for that case; on success it is the displayed reply |
| TurnController.StepIsHandleSend | src/App.jsx:58-79 | the send event the run lemmas replay is `handleSend` itself, and it posts one request exactly when the send is accepted |
| TurnController.AcceptedSend | src/App.jsx:65-77 | an accepted send appends exactly the user turn and the assistant turn |
| TurnController.AcceptedStep | src/App.jsx:61-77 | an accepted send appends exactly the user turn with the trimmed draft and the assistant turn, posts exactly one request with the trimmed draft and the session id, and leaves the page idle |
| TurnController.SettleKeepsConversation | src/App.jsx:58-79 | a send, accepted or refused, keeps the conversation alternating user/assistant and leaves the page idle, whatever the call settled with; at most one request is posted, carrying the session id and the new user turn's text |
| TurnController.StepKeepsConversation | src/App.jsx:58-79 | one event keeps the conversation alternating user/assistant and leaves the page idle; at most one request is posted, and it carries the session id and the new user turn's text |
| TurnController.RunKeepsConversation | src/App.jsx:58-79 | over any run of events the conversation only grows at its end, stays alternating user/assistant with trimmed non-empty user turns, and gains two turns per request; the page ends idle and the session id never changes |
| TurnController.RunRequests | src/App.jsx:32-35 | over any run, the k-th request carries the session id and the text of the k-th new user turn |
| TurnController.AppendExchange | src/App.jsx:65-77 | appending a trimmed non-empty user turn and then an assistant turn keeps the conversation a sequence of complete exchanges |
| LambdaHandler.BodyDocument | lambda/lambda_function.py:19 | a missing body decodes `'{}'`; a string body is decoded; any other body raises Python's TypeError |
| LambdaHandler.DefaultSessionId | lambda/lambda_function.py:21 | the generated session id has 40 characters: `session-` then 32 hexadecimal digits that spell the 16 random bytes |
| LambdaHandler.FirstMember | lambda/lambda_function.py:47-55 | the reference reading of an `if`/`elif` chain: the value of the first listed key that is present, and None exactly when none is present |
| LambdaHandler.ReplyFrom | lambda/lambda_function.py:44-59 | a reply that is not JSON is returned verbatim, or as the fallback when empty; a JSON reply that is not an object is stringified |
| LambdaHandler.ReplyPriority | lambda/lambda_function.py:47-55 | for an object reply, `response` beats `output`, which beats `text`; with none of them the whole object is stringified |
| LambdaHandler.Handle | lambda/lambda_function.py:12-74 | the status is 200, 400 or 500; 400 happens exactly when the decoded body is an object with a missing or falsy prompt, and then the agent is not invoked; the agent is invoked exactly when the prompt is truthy, with that prompt and with the given session id or else the generated one; 200 happens exactly when the agent replies, and echoes the session id it was invoked with; every 500 body is `Error al invocar el agente: ` plus a message |
| LambdaHandler.ServerErrors | lambda/lambda_function.py:69-74 | a body that fails to decode, a body that is not an object, and an exception from the agent each give the 500 body with that exception's message |
| LambdaHandler.MissingBodyRefused | lambda/lambda_function.py:19-27 | an event without a body gets 400 with `El prompt es requerido`, and the agent is not invoked |
| LambdaHandler.EmptyReplyFallback | lambda/lambda_function.py:58-59 | an empty agent reply is answered with `No se recibió respuesta del agente.` |
| EndToEnd.HandlerAcceptsPageRequest | lambda/lambda_function.py:19-67 | a request the page posts, whose prompt is never empty, never gets the 400 reply; the agent is invoked with the page's prompt and session id, and a 200 reply echoes that session id |
| EndToEnd.PageShowsHandlerReply | src/App.jsx:38-48 | the handler's 400 and 500 replies show only the HTTP status; a 200 reply shows the agent's string reply unescaped, and a non-string reply shows the engine's TypeError for calling `replace` on that value |

## Left out

- React rendering, the JSX markup, `scrollIntoView`/`useEffect`, the Enter-key handler and the `disabled` attributes (src/App.jsx:14-20, 81-132): view plumbing.
- React's asynchronous state batching and the event loop: each send is one atomic transition, so no state exists between the `finally` block and the append of the assistant turn. The guard reads the `isLoading` of the last render, so the model's "one outstanding call" also assumes the page re-renders between two sends.
- `fetch`, `response.json()`, `import.meta.env` and `JSON.stringify`. The network is the `Outcome` parameter, and the request is the `Request` value.
- The wording of the TypeErrors the JavaScript engine raises: reading `data.error` of `null`, converting an `error` value that has no primitive value, and calling `replace` on a `response` that is not a string. It differs between engines, so it is the `typeError` parameter, a message per `TypeFault`.
- The `boto3` client, `invoke_agent_runtime`, reading and UTF-8 decoding of the reply stream, and the environment variables (lambda/lambda_function.py:6-10, 33-42). The agent is the `invoke` parameter, which returns the decoded text or the message of what it raised.
- `json.loads`, `json.dumps` and Python's `str()`. `json.loads` and `str()` are parameters; `json.dumps` is not modelled, and the response body is the document it would serialise. Three facts about `json.loads` are assumed, each only where it is needed: `'{}'` decodes to an empty object and the empty string is not JSON (`SoundLoads`); and the body the page posts decodes to the document `JSON.stringify({prompt, sessionId})` encodes (the `BodyDocument` precondition of `EndToEnd.HandlerAcceptsPageRequest`).
- LambdaHandler.ReplyFrom: `str()` of an object reply cannot follow the order of its keys. A Python dict keeps insertion order and `str(response_json)` prints the keys in that order, but `Json.JObj` is a map without order, so two replies that differ only in key order get the same text here.
- Exceptions from `json.loads` other than a decoding error (for example a RecursionError on deeply nested input) are not modelled.
- Randomness: `crypto.randomUUID()` is a parameter constrained to the version-4 UUID shape; `os.urandom(16)` is a parameter constrained to 16 bytes.
- Non-integer JSON numbers and integers beyond 2^53: `Json.JNum` holds an integer, so float parsing, JavaScript's exponent notation and precision loss are not modelled.
- Character encoding: a Dafny `string` is a sequence of Unicode scalar values, while the page's strings are sequences of UTF-16 code units. A lone surrogate cannot be written in the model, and a character outside the Basic Multilingual Plane is one `char` here but two code units in JavaScript. No property here depends on lengths in code units.
- Console and print logging (src/App.jsx:51, lambda/lambda_function.py:70).
