# bttn-webhook, modelled in Dafny

A model of the bttn webhook relay: a Flask view that receives a button
press as a form with `channel`, `recipient` and `message`, and forwards the
message to a HipChat room (or answers with an unfinished SMS stub), together
with the small HipChat v2 client it uses.

Files:

- `wrappers.dfy` — `Option` (Python's `None`), `Result`, and the truthiness predicate `Truthy`.
- `decimal.dfy` — `Decimal.Render`, the decimal rendering Python's `str()`
  gives a non-negative integer, its inverse `Decimal.Value`, and the
  leading-digit facts that the client's status test depends on.
- `hipchat.dfy` — the client (`hipchat.py`): token resolution and
  headers, validation of message, colour and format, the JSON payload,
  `_call_api` both as specification functions (`Prepare`, `Deliver`) and as
  the step-by-step method `CallApi`, the room and user endpoints, and the
  classification of the provider's reply.
- `bttn.dfy` — the webhook (`bttn.py`): the first missing form key, the
  channel branch, the credential checks and the SMS stub, as one function
  `BttnPressed` of the form, the environment and the provider's reply.

Inputs that the program gets from its surroundings are parameters: the
environment is a `Bttn.Config` of three `Option<string>` values (one
`HIPCHAT_API_TOKEN` value serves both files), the form is a
`map<string, string>`, and the reply HipChat would give to the POST is a
`HipChat.HttpReply(status, body)` that is only looked at on paths where a
request is posted. The client's assertions become
`CallOutcome.PreconditionFailure(reason)` with the assertion's own text; a
`HipChatError` becomes `DeliveryError(status, body)`.

Python truthiness is modelled by `Wrappers.Truthy` (None and `""` are false)
exactly where the code uses it: the `or` of `get_auth_headers`, the
`not in (None, '')` checks on room and user, and the `if not …` checks of
`bttn.py`.

Behaviour of the code that the model keeps even where a reader might expect otherwise:

- An empty recipient, an empty message or one over 10000 characters on the
  hipchat channel makes an assertion of the client fail; `send_to_hipchat`
  only catches `HipChatError`, so the exception leaves the view
  (`Bttn.Response.Raised`) instead of producing a 400 answer.
- The success answer carries the provider's status code, not a fixed 200.
- After the fallback, `get_auth_headers` rejects only `None`: an environment
  value of `""` is accepted and gives the header `Bearer ` (the webhook itself
  stops an empty token earlier).
- The status test is on the first character of the decimal rendering, so
  2, 20-29 and 2000-2999 also count as success (`HipChat.LeadingDigitQuirks`);
  for three-digit codes it is exactly 200-299.

## Model

| member | source | states |
|---|---|---|
| Decimal.Render | hipchat.py:100 | `str()` of a status is a non-empty string of digits without a leading zero, one character exactly for values below ten |
| Decimal.ValueOfRender | hipchat.py:100 | reading the rendered digits back gives the status: the rendering loses nothing |
| Decimal.RenderInjective | hipchat.py:100 | distinct statuses render differently |
| Decimal.RenderStartsWithLeadingDigit | hipchat.py:100 | the first character of `str(status)` is the most significant digit |
| Decimal.LeadingDigitBounds | hipchat.py:100 | a number of k+1 digits with leading digit d lies in [d·10^k, (d+1)·10^k) |
| Decimal.LeadingDigitOfThreeDigits | hipchat.py:100 | for 100-999 the leading digit is the hundreds digit |
| HipChat.ResolveToken | hipchat.py:51 | a truthy explicit token is the token; otherwise the environment value, so there is none exactly when the argument is falsy and the environment holds nothing |
| HipChat.GetAuthHeaders | hipchat.py:39-57 | fails with the assertion's text exactly when no token resolves; otherwise exactly the keys Authorization, Host, Content-Type with `Bearer <token>`, `api.hipchat.com`, `application/json` |
| HipChat.DefaultsAreValid | hipchat.py:19-20 | the keyword defaults `yellow` and `html` of hipchat.py:60-61 pass the colour and format checks, and for every message the payload built from all the defaults has exactly the keys `message`, `color`, `notify`, `message_format` — no `from` key |
| HipChat.ExplicitTokenTakesPrecedence | hipchat.py:51-57 | a non-empty explicit token is used whatever the environment holds |
| HipChat.FalsyTokenFallsBack | hipchat.py:51-52 | a None or empty argument behaves as no argument: the environment value is used, and with none the call fails |
| HipChat.EmptyEnvironmentTokenAccepted | hipchat.py:51-54 | an empty environment token is not `None`, so it passes and yields `Bearer ` |
| HipChat.CheckNotification | hipchat.py:83-87 | no failure exactly when the message is present with 1-10000 characters, the colour is valid and the format is valid; otherwise the first failing check's text in source order |
| HipChat.Payload | hipchat.py:90-97 | the body holds exactly message, color, notify, message_format with the argument values, plus `from` = sender if and only if a sender is given |
| HipChat.Prepare | hipchat.py:83-97 | a request is built exactly when validation passes and a token resolves; a validation failure wins over a missing token; the request has the given URL, bearer headers and a well-formed payload |
| HipChat.Classify | hipchat.py:100-103 | success exactly when the status's decimal rendering starts with `2`; otherwise a delivery error with the same status and the raw body verbatim |
| HipChat.Deliver | hipchat.py:99-103 | the outcome is a precondition failure exactly when no request was built, with its reason; otherwise success exactly when the status test passes, carrying the provider's status and body |
| HipChat.CallApi | hipchat.py:60-103 | the step-by-step `_call_api` posts a request exactly when validation and token resolution pass, posts the request `Prepare` describes, and ends in the outcome `Deliver` gives for it |
| HipChat.ValidationBeforeToken | hipchat.py:83-89 | an invalid message, colour or format fails on that check whatever the token and the reply |
| HipChat.CallOutcomeCases | hipchat.py:83-103 | success needs a valid notification, a token and a status beginning with 2; success and delivery error carry the provider's status and body |
| HipChat.SuccessIffLeadingDigitTwo | hipchat.py:100 | the status test holds exactly when the leading digit is 2, i.e. 2·10^k <= status < 3·10^k |
| HipChat.ThreeDigitStatusClassification | hipchat.py:100-103 | for statuses 100-999 success is exactly 200-299, every other one is a delivery error |
| HipChat.LeadingDigitQuirks | hipchat.py:100 | 2, 20 and 2000 pass the test; 0, 1 and 404 do not |
| HipChat.RoomUrl | hipchat.py:110 | the URL is API_V2_ROOT, then `room/`, then the room, then `/notification`, with the room recoverable from its position |
| HipChat.UserUrl | hipchat.py:126 | the URL is API_V2_ROOT, then `user/`, then the user, then `/message`, with the user recoverable from its position |
| HipChat.RoomRequest | hipchat.py:106-119 | a None or empty room fails with its assertion before anything else; then an invalid notification fails with its validation reason, and a valid one with no token fails with the missing-token reason; otherwise a request is built, posted to the room URL with the caller's colour, sender, notify and format |
| HipChat.SendRoomMessage | hipchat.py:106-119 | every outcome: missing room, the validation reason or the missing token as precondition failures in that order; otherwise `Sent` with the provider's status and body when the status begins with 2 and `DeliveryError` with them when it does not |
| HipChat.UserRequest | hipchat.py:122-133 | a None or empty user fails first; then an invalid notification (default colour) fails with its validation reason, and a valid one with no token with the missing-token reason; otherwise a request to the user URL with the default colour and no sender |
| HipChat.SendUserMessage | hipchat.py:122-133 | every outcome: missing user, the validation reason (default colour) or the missing token as precondition failures in that order; otherwise `Sent` or `DeliveryError` carrying the provider's status and body, according to whether the status begins with 2 |
| HipChat.MissingRoomRejected | hipchat.py:109 | a None or empty room fails before any other check and no request is made |
| HipChat.RoomMessageTarget | hipchat.py:110-119 | a room message is posted to API_V2_ROOT + `room/` + id + `/notification` with the caller's arguments |
| HipChat.MissingUserRejected | hipchat.py:125 | a None or empty user fails before any other check and no request is made |
| HipChat.UserMessageTarget | hipchat.py:126-133 | a user message is posted to API_V2_ROOT + `user/` + id + `/message`, is yellow and has no `from` key |
| HipChat.RoomUrlInjective | hipchat.py:110 | distinct rooms have distinct URLs |
| HipChat.UserUrlInjective | hipchat.py:126 | distinct users have distinct URLs |
| HipChat.RoomAndUserUrlsDiffer | hipchat.py:110-126 | no room URL equals a user URL |
| Bttn.FirstMissingKey | bttn.py:24-26 | none exactly when every key is in the form; otherwise a key absent from the form all of whose predecessors are present |
| Bttn.BttnPressed | bttn.py:20-33 | a missing key answers 400 naming the first absent one; with all keys, hipchat goes to send_to_hipchat, sms to send_sms, and any other channel answers 400 `Unknown channel: '<value>'` |
| Bttn.HipchatRoomRequest | bttn.py:41 | the call `send_room_message(room, message, message_format='text')` builds a request exactly when the room is non-empty, the message length is within bounds and the token is set, with the empty-room, too-short, too-long and missing-token reasons otherwise; the request goes to the room URL with colour `yellow`, notify false, format `text` and no sender |
| Bttn.SendToHipchat | bttn.py:36-44 | no or empty token answers 400 naming HIPCHAT_API_TOKEN; with a token and acceptable arguments success answers `Message sent successfully` with the provider's status and an error the provider's body and status; an empty room or bad message length raises the client's assertion |
| Bttn.SendSms | bttn.py:47-53 | a missing SID is reported first, then a missing auth token, and with both the answer is `Not yet implemented`, 200 |
| Bttn.PostedRequest | bttn.py:28-44 | a request is posted exactly when all keys are present, the channel is hipchat, the token is non-empty, the recipient is non-empty and the message has 1-10000 characters; it is the room request in text format with the default colour, notify and no sender |
| Bttn.AllKeysPresent | bttn.py:12-26 | the key check passes exactly for a form with channel, recipient and message |
| Bttn.MissingKeyReported | bttn.py:12-26 | a missing key gives 400 naming the first absent key in the order channel, recipient, message, and nothing is posted |
| Bttn.UnknownChannelRejected | bttn.py:28-33 | with all keys present, a channel outside hipchat and sms gives 400 `Unknown channel: '<value>'` |
| Bttn.HipchatTokenMissing | bttn.py:38-39 | on hipchat, a missing or empty token gives 400 naming HIPCHAT_API_TOKEN and nothing is posted |
| Bttn.HipchatForwarded | bttn.py:40-44 | with a token and valid arguments the request goes to the recipient's room in text format with the environment token; success answers `Message sent successfully` with the provider's status, a delivery error answers the provider's body and status |
| Bttn.HipchatAssertionEscapes | bttn.py:40-44 | an empty recipient or a bad message length raises out of the view with the client's reason (missing room, too short, too long) and nothing is posted |
| Bttn.SmsSidCheckedFirst | bttn.py:47-52 | on sms, a missing SID is reported before a missing auth token |
| Bttn.SmsStub | bttn.py:53 | with both Twilio credentials the answer is `Not yet implemented`, 200, whatever number and message |
| Bttn.ReplyOnlyMattersWhenPosted | bttn.py:36-44 | when nothing is posted the provider's reply cannot change the response |

## Left out

- The Flask application, routing and `flask.request.form`: the form is a map from field name to value; Flask's turning an uncaught exception into an error page is not modelled (`Raised` stands for it).
- `requests.post`: network I/O and transport failures (timeouts, DNS, refused connections) are not modelled; the reply is an input.
- `os.getenv` and the module-level environment reads: replaced by `Bttn.Config`; reading once at import time versus at each call is not distinguished.
- `json.dumps`: the payload is a structured map of JSON values, not serialised text.
- `HipChatError.__unicode__` and `__str__`: parsing the error body as JSON and Python 2 unicode handling are not modelled; only the status and raw body are.
- HipChat.CheckNotification: the message length is counted in Unicode characters, not in Python 2 `len` units (the bytes of a `str`, or UTF-16 code units of a `unicode` on narrow builds), because strings here are sequences of characters without an encoding; a 12000-byte message of 6000 accented characters is accepted by the model and rejected as too long by the source. `HipChat.ValidNotification` and `Bttn.Deliverable` measure the length the same way.
- Keyword arguments and their defaults: every function takes all its arguments explicitly; the defaults of hipchat.py:60-61, 106-107 and 122-123 are the constants `HipChat.DefaultColor`, `DefaultSender`, `DefaultNotify` and `DefaultFormat`, which the callers that rely on them pass (`UserRequest`, `Bttn.HipchatRoomRequest`).
- Assertions disabled with `python -O` are not modelled: every `assert` is taken to run.
- Arguments of other Python types (a room id given as an integer, a non-string colour) and negative status codes: ids, colours and formats are strings and the status is a natural number.
- `CHANNELS` is declared in the source but the branch tests the two literals; the model uses the constant in the contract of `Bttn.BttnPressed` and in the unknown-channel lemma, and the body tests the two literals as the source does.
