/** The HipChat v2 client: authentication headers, validation of a
    notification, the JSON payload, the endpoint URLs and the classification
    of the provider's reply.

    Nothing here performs I/O. The value of the HIPCHAT_API_TOKEN environment
    variable is the parameter envToken, and the reply the provider would give
    to the POST is the parameter reply; it is consulted only on the paths
    where the request is actually posted. */
module HipChat {
  import opened Wrappers
  import Decimal

  const ApiV2Root: string := "https://api.hipchat.com/v2/"
  const ValidColors: seq<string> := ["yellow", "green", "red", "purple", "gray", "random"]
  const ValidFormats: seq<string> := ["text", "html"]

  // The bounds on the length of a message, inclusive.
  const MinMessageLength: nat := 1
  const MaxMessageLength: nat := 10000

  // The keyword defaults of _call_api, send_room_message and
  // send_user_message; every function here takes all its arguments
  // explicitly, and callers that rely on a default pass these.
  const DefaultColor: string := "yellow"
  const DefaultSender: Option<string> := None
  const DefaultNotify: bool := false
  const DefaultFormat: string := "html"

  // The texts of the assertions that fail before any request is made.
  const MissingMessage: string := "Missing message param"
  const MessageTooShort: string := "Message too short, must be 1-10,000 chars."
  const MessageTooLong: string := "Message too long, must be 1-10,000 chars."
  const NoToken: string := "No valid HipChat authentication token found."
  const MissingRoom: string := "Missing room_id_or_name"
  const MissingUser: string := "Missing user_id_or_email"

  function InvalidColor(color: string): string {
    "Invalid color value: " + color
  }

  function InvalidFormat(messageFormat: string): string {
    "Invalid format: " + messageFormat
  }

  /** A value of the JSON body: the payload holds strings and one boolean. */
  datatype Json = JString(s: string) | JBool(b: bool)

  /** An HTTP POST as it would be handed to the transport. */
  datatype Request = Request(url: string, headers: map<string, string>, payload: map<string, Json>)

  /** The provider's answer to a POST: status code and raw text. */
  datatype HttpReply = HttpReply(status: nat, body: string)

  /** What a call of the client ends in: a failed assertion (no request is
      made), the successful response, or a HipChatError. */
  datatype CallOutcome =
    | PreconditionFailure(reason: string)
    | Sent(status: nat, body: string)
    | DeliveryError(status: nat, body: string)

  // ---------------------------------------------------------------------
  // Authentication

  /** `auth_token or env`: a truthy argument wins, otherwise the
      environment value, whatever it is, including "" or None. */
  function ResolveToken(authToken: Option<string>, envToken: Option<string>): (token: Option<string>)
    ensures token.None? <==> !Truthy(authToken) && envToken.None?
    ensures Truthy(authToken) ==> token == authToken
    ensures !Truthy(authToken) ==> token == envToken
  {
    if Truthy(authToken) then authToken else envToken
  }

  function BearerHeaders(token: string): map<string, string> {
    map["Authorization" := "Bearer " + token,
        "Host" := "api.hipchat.com",
        "Content-Type" := "application/json"]
  }

  /** get_auth_headers: the three headers, or the failed assertion when no
      token is found. */
  function GetAuthHeaders(authToken: Option<string>, envToken: Option<string>): (r: Result<map<string, string>, string>)
    ensures r.Err? <==> ResolveToken(authToken, envToken).None?
    ensures r.Err? ==> r.error == NoToken
    ensures r.Ok? ==> r.value.Keys == {"Authorization", "Host", "Content-Type"}
    ensures r.Ok? ==> r.value["Authorization"] == "Bearer " + ResolveToken(authToken, envToken).value
    ensures r.Ok? ==> r.value["Host"] == "api.hipchat.com" && r.value["Content-Type"] == "application/json"
  {
    match ResolveToken(authToken, envToken)
    case None => Err(NoToken)
    case Some(token) => Ok(BearerHeaders(token))
  }

  /** A non-empty explicit token is used whatever the environment holds. */
  lemma ExplicitTokenTakesPrecedence(token: string, envToken: Option<string>)
    requires token != ""
    ensures GetAuthHeaders(Some(token), envToken) == Ok(BearerHeaders(token))
  {
  }

  /** A None or empty argument is the same as passing no token at all, and
      then the headers come from the environment, or there are none. */
  lemma FalsyTokenFallsBack(authToken: Option<string>, envToken: Option<string>)
    requires !Truthy(authToken)
    ensures GetAuthHeaders(authToken, envToken) == GetAuthHeaders(None, envToken)
    ensures envToken.None? ==> GetAuthHeaders(authToken, envToken) == Err(NoToken)
    ensures envToken.Some? ==> GetAuthHeaders(authToken, envToken) == Ok(BearerHeaders(envToken.value))
  {
  }

  /** Only `None` is rejected after the fallback: an environment value of ""
      passes the assertion and yields the header "Bearer ". */
  lemma EmptyEnvironmentTokenAccepted()
    ensures GetAuthHeaders(None, Some("")) == Ok(BearerHeaders(""))
    ensures BearerHeaders("")["Authorization"] == "Bearer "
  {
  }

  // ---------------------------------------------------------------------
  // Validation and payload

  /** The constraints every notification that is sent satisfies. */
  predicate ValidNotification(message: Option<string>, color: string, messageFormat: string) {
    && message.Some?
    && MinMessageLength <= |message.value| <= MaxMessageLength
    && color in ValidColors
    && messageFormat in ValidFormats
  }

  /** The first of the assertions on message, colour and format that fails,
      checked in that order; None when all hold. */
  function CheckNotification(message: Option<string>, color: string, messageFormat: string): (failure: Option<string>)
    ensures failure.None? <==> ValidNotification(message, color, messageFormat)
    ensures message.None? ==> failure == Some(MissingMessage)
    ensures message.Some? && |message.value| == 0 ==> failure == Some(MessageTooShort)
    ensures message.Some? && |message.value| > MaxMessageLength ==> failure == Some(MessageTooLong)
    ensures (message.Some? && MinMessageLength <= |message.value| <= MaxMessageLength && color !in ValidColors)
            ==> failure == Some(InvalidColor(color))
    ensures (message.Some? && MinMessageLength <= |message.value| <= MaxMessageLength && color in ValidColors
             && messageFormat !in ValidFormats) ==> failure == Some(InvalidFormat(messageFormat))
  {
    if message.None? then Some(MissingMessage)
    else if |message.value| < MinMessageLength then Some(MessageTooShort)
    else if |message.value| > MaxMessageLength then Some(MessageTooLong)
    else if color !in ValidColors then Some(InvalidColor(color))
    else if messageFormat !in ValidFormats then Some(InvalidFormat(messageFormat))
    else None
  }

  /** The JSON body of the POST. */
  function Payload(message: string, color: string, notify: bool, messageFormat: string, sender: Option<string>): (data: map<string, Json>)
    ensures data.Keys == {"message", "color", "notify", "message_format"} + (if sender.Some? then {"from"} else {})
    ensures "from" in data <==> sender.Some?
    ensures data["message"] == JString(message) && data["color"] == JString(color)
    ensures data["notify"] == JBool(notify) && data["message_format"] == JString(messageFormat)
    ensures sender.Some? ==> data["from"] == JString(sender.value)
  {
    var data := map["message" := JString(message), "color" := JString(color),
                     "notify" := JBool(notify), "message_format" := JString(messageFormat)];
    if sender.Some? then data["from" := JString(sender.value)] else data
  }

  /** A payload that satisfies the constraints on message, colour and format. */
  predicate WellFormedPayload(data: map<string, Json>) {
    && "message" in data && data["message"].JString?
    && MinMessageLength <= |data["message"].s| <= MaxMessageLength
    && "color" in data && data["color"].JString? && data["color"].s in ValidColors
    && "message_format" in data && data["message_format"].JString? && data["message_format"].s in ValidFormats
  }

  // ---------------------------------------------------------------------
  // _call_api

  /** The request _call_api posts, or the failed assertion that stops it
      first. Validation comes before the token is looked up. */
  function Prepare(url: string, message: Option<string>, authToken: Option<string>, color: string,
                   sender: Option<string>, notify: bool, messageFormat: string, envToken: Option<string>): (r: Result<Request, string>)
    ensures r.Ok? <==> ValidNotification(message, color, messageFormat) && ResolveToken(authToken, envToken).Some?
    ensures !ValidNotification(message, color, messageFormat) ==> r == Err(CheckNotification(message, color, messageFormat).value)
    ensures ValidNotification(message, color, messageFormat) && ResolveToken(authToken, envToken).None?
            ==> r == Err(NoToken)
    ensures r.Ok? ==> r.value.url == url && WellFormedPayload(r.value.payload)
    ensures r.Ok? ==> r.value.headers == BearerHeaders(ResolveToken(authToken, envToken).value)
    ensures r.Ok? ==> r.value.payload == Payload(message.value, color, notify, messageFormat, sender)
  {
    match CheckNotification(message, color, messageFormat)
    case Some(reason) => Err(reason)
    case None =>
      match GetAuthHeaders(authToken, envToken)
      case Err(reason) => Err(reason)
      case Ok(headers) => Ok(Request(url, headers, Payload(message.value, color, notify, messageFormat, sender)))
  }

  /** `str(status)[:1] == '2'` */
  predicate IsSuccessStatus(status: nat) {
    Decimal.Render(status)[..1] == "2"
  }

  /** The outcome once a request has been posted and answered. */
  function Classify(reply: HttpReply): (r: CallOutcome)
    ensures !r.PreconditionFailure?
    ensures r.Sent? <==> IsSuccessStatus(reply.status)
    ensures r.Sent? ==> r == Sent(reply.status, reply.body)
    ensures r.DeliveryError? ==> r == DeliveryError(reply.status, reply.body)
  {
    if !IsSuccessStatus(reply.status) then DeliveryError(reply.status, reply.body)
    else Sent(reply.status, reply.body)
  }

  /** What the caller observes: the failed assertion if no request was
      made, otherwise the classified reply. */
  function Deliver(prepared: Result<Request, string>, reply: HttpReply): (r: CallOutcome)
    ensures r.PreconditionFailure? <==> prepared.Err?
    ensures prepared.Err? ==> r.reason == prepared.error
    ensures prepared.Ok? ==> (r.Sent? <==> IsSuccessStatus(reply.status))
    ensures !r.PreconditionFailure? ==> r.status == reply.status && r.body == reply.body
  {
    match prepared
    case Err(reason) => PreconditionFailure(reason)
    case Ok(_) => Classify(reply)
  }

  /** _call_api, step by step: the assertions, the headers, the data dict
      with `from` added in place, the POST and the status check. `posted` is
      the request handed to the transport, None if none is made. */
  method CallApi(url: string, message: Option<string>, authToken: Option<string>, color: string,
                 sender: Option<string>, notify: bool, messageFormat: string, envToken: Option<string>,
                 reply: HttpReply)
    returns (posted: Option<Request>, outcome: CallOutcome)
    ensures posted.None? <==> outcome.PreconditionFailure?
    ensures posted.Some? <==> ValidNotification(message, color, messageFormat) && ResolveToken(authToken, envToken).Some?
    ensures posted.Some? ==> Prepare(url, message, authToken, color, sender, notify, messageFormat, envToken) == Ok(posted.value)
    ensures outcome == Deliver(Prepare(url, message, authToken, color, sender, notify, messageFormat, envToken), reply)
  {
    posted := None;
    if message.None? {
      outcome := PreconditionFailure(MissingMessage);
      return;
    }
    if |message.value| < MinMessageLength {
      outcome := PreconditionFailure(MessageTooShort);
      return;
    }
    if |message.value| > MaxMessageLength {
      outcome := PreconditionFailure(MessageTooLong);
      return;
    }
    if color !in ValidColors {
      outcome := PreconditionFailure(InvalidColor(color));
      return;
    }
    if messageFormat !in ValidFormats {
      outcome := PreconditionFailure(InvalidFormat(messageFormat));
      return;
    }
    var headers := GetAuthHeaders(authToken, envToken);
    if headers.Err? {
      outcome := PreconditionFailure(headers.error);
      return;
    }
    var data := map["message" := JString(message.value), "color" := JString(color),
                    "notify" := JBool(notify), "message_format" := JString(messageFormat)];
    if sender.Some? {
      data := data["from" := JString(sender.value)];
    }
    posted := Some(Request(url, headers.value, data));
    if Decimal.Render(reply.status)[..1] != "2" {
      outcome := DeliveryError(reply.status, reply.body);
    } else {
      outcome := Sent(reply.status, reply.body);
    }
  }

  /** An invalid message, colour or format fails on that check whatever the
      token and whatever the reply: with no token at all the reason is still
      the message's. */
  lemma ValidationBeforeToken(url: string, message: Option<string>, authToken: Option<string>, color: string,
                              sender: Option<string>, notify: bool, messageFormat: string, envToken: Option<string>,
                              reply: HttpReply)
    requires !ValidNotification(message, color, messageFormat)
    ensures Deliver(Prepare(url, message, authToken, color, sender, notify, messageFormat, envToken), reply)
            == PreconditionFailure(CheckNotification(message, color, messageFormat).value)
  {
  }

  /** A successful call needs a valid notification, a token, and a status
      whose first digit is 2; a delivery error carries the provider's status
      and raw body unchanged. */
  lemma CallOutcomeCases(url: string, message: Option<string>, authToken: Option<string>, color: string,
                         sender: Option<string>, notify: bool, messageFormat: string, envToken: Option<string>,
                         reply: HttpReply)
    ensures var r := Deliver(Prepare(url, message, authToken, color, sender, notify, messageFormat, envToken), reply);
            && (r.Sent? <==> ValidNotification(message, color, messageFormat) && ResolveToken(authToken, envToken).Some?
                             && IsSuccessStatus(reply.status))
            && (r.Sent? ==> r.status == reply.status && r.body == reply.body)
            && (r.DeliveryError? ==> r.status == reply.status && r.body == reply.body)
  {
  }

  /** The status check succeeds exactly when the leading decimal digit of
      the status is 2, that is when 2 * 10^k <= status < 3 * 10^k for the
      status's k + 1 digits. */
  lemma {:induction false} SuccessIffLeadingDigitTwo(status: nat)
    ensures IsSuccessStatus(status) <==> Decimal.LeadingDigit(status) == 2
    ensures var p := Decimal.Pow10(|Decimal.Render(status)| - 1);
            IsSuccessStatus(status) <==> 2 * p <= status < 3 * p
  {
    var s := Decimal.Render(status);
    Decimal.RenderStartsWithLeadingDigit(status);
    assert s[..1] == [s[0]];
    var d := Decimal.LeadingDigit(status);
    assert IsSuccessStatus(status) <==> d == 2 by {
      assert Decimal.DigitChar(2) == '2';
      assert Decimal.DigitChar(d) == '2' ==> Decimal.DigitValue('2') == d;
    }
    Decimal.LeadingDigitBounds(status);
    var p := Decimal.Pow10(|s| - 1);
    BetweenMultiples(d, p, status);
  }

  /** When d * p <= n < (d + 1) * p, n lies in [2 * p, 3 * p) exactly when d is 2. */
  lemma BetweenMultiples(d: nat, p: nat, n: nat)
    requires p >= 1
    requires d * p <= n < (d + 1) * p
    ensures d == 2 <==> 2 * p <= n < 3 * p
  {
  }

  /** For the three-digit codes HTTP uses, success is exactly 200-299. */
  lemma ThreeDigitStatusClassification(status: nat, body: string)
    requires 100 <= status <= 999
    ensures Classify(HttpReply(status, body)).Sent? <==> 200 <= status <= 299
    ensures !(200 <= status <= 299) ==> Classify(HttpReply(status, body)) == DeliveryError(status, body)
  {
    SuccessIffLeadingDigitTwo(status);
    Decimal.LeadingDigitOfThreeDigits(status);
  }

  /** The leading-digit test also lets through 2, 20-29 and 2000-2999, and
      rejects 0 and 1. */
  lemma LeadingDigitQuirks()
    ensures IsSuccessStatus(2) && IsSuccessStatus(20) && IsSuccessStatus(2000)
    ensures !IsSuccessStatus(0) && !IsSuccessStatus(1) && !IsSuccessStatus(404)
  {
  }

  /** The default colour and format pass validation, and with the default
      sender no payload carries a `from` key. */
  lemma DefaultsAreValid(message: string)
    ensures DefaultColor in ValidColors && DefaultFormat in ValidFormats
    ensures var data := Payload(message, DefaultColor, DefaultNotify, DefaultFormat, DefaultSender);
            && data.Keys == {"message", "color", "notify", "message_format"}
            && "from" !in data
  {
  }

  // ---------------------------------------------------------------------
  // Endpoints

  /** "%sroom/%s/notification": the root, then the room, which can be read
      back from its place in the URL. */
  function RoomUrl(roomIdOrName: string): (url: string)
    ensures |url| == |ApiV2Root| + 5 + |roomIdOrName| + 13
    ensures url[..|ApiV2Root|] == ApiV2Root
    ensures url[|ApiV2Root|..|ApiV2Root| + 5] == "room/"
    ensures url[|ApiV2Root| + 5..|url| - 13] == roomIdOrName
    ensures url[|url| - 13..] == "/notification"
  {
    ApiV2Root + "room/" + roomIdOrName + "/notification"
  }

  /** "%suser/%s/message": the root, then the user, which can be read back
      from its place in the URL. */
  function UserUrl(userIdOrEmail: string): (url: string)
    ensures |url| == |ApiV2Root| + 5 + |userIdOrEmail| + 8
    ensures url[..|ApiV2Root|] == ApiV2Root
    ensures url[|ApiV2Root|..|ApiV2Root| + 5] == "user/"
    ensures url[|ApiV2Root| + 5..|url| - 8] == userIdOrEmail
    ensures url[|url| - 8..] == "/message"
  {
    ApiV2Root + "user/" + userIdOrEmail + "/message"
  }

  /** The request send_room_message posts: the room is checked first. */
  function RoomRequest(roomIdOrName: Option<string>, message: Option<string>, authToken: Option<string>,
                       color: string, sender: Option<string>, notify: bool, messageFormat: string,
                       envToken: Option<string>): (r: Result<Request, string>)
    ensures !Truthy(roomIdOrName) ==> r == Err(MissingRoom)
    ensures Truthy(roomIdOrName) ==>
              (r.Ok? <==> ValidNotification(message, color, messageFormat) && ResolveToken(authToken, envToken).Some?)
    ensures Truthy(roomIdOrName) && !ValidNotification(message, color, messageFormat)
            ==> r == Err(CheckNotification(message, color, messageFormat).value)
    ensures Truthy(roomIdOrName) && ValidNotification(message, color, messageFormat)
            && ResolveToken(authToken, envToken).None?
            ==> r == Err(NoToken)
    ensures r.Ok? ==> && r.value.url == RoomUrl(roomIdOrName.value)
                      && r.value.headers == BearerHeaders(ResolveToken(authToken, envToken).value)
                      && r.value.payload == Payload(message.value, color, notify, messageFormat, sender)
  {
    if !Truthy(roomIdOrName) then Err(MissingRoom)
    else Prepare(RoomUrl(roomIdOrName.value), message, authToken, color, sender, notify, messageFormat, envToken)
  }

  function SendRoomMessage(roomIdOrName: Option<string>, message: Option<string>, authToken: Option<string>,
                           color: string, sender: Option<string>, notify: bool, messageFormat: string,
                           envToken: Option<string>, reply: HttpReply): (r: CallOutcome)
    ensures !Truthy(roomIdOrName) ==> r == PreconditionFailure(MissingRoom)
    ensures Truthy(roomIdOrName) && !ValidNotification(message, color, messageFormat)
            ==> r == PreconditionFailure(CheckNotification(message, color, messageFormat).value)
    ensures Truthy(roomIdOrName) && ValidNotification(message, color, messageFormat)
            && ResolveToken(authToken, envToken).None?
            ==> r == PreconditionFailure(NoToken)
    ensures (&& Truthy(roomIdOrName) && ValidNotification(message, color, messageFormat)
             && ResolveToken(authToken, envToken).Some?)
            ==> r == if IsSuccessStatus(reply.status) then Sent(reply.status, reply.body)
                     else DeliveryError(reply.status, reply.body)
    ensures r.Sent? <==> && Truthy(roomIdOrName) && ValidNotification(message, color, messageFormat)
                         && ResolveToken(authToken, envToken).Some? && IsSuccessStatus(reply.status)
  {
    Deliver(RoomRequest(roomIdOrName, message, authToken, color, sender, notify, messageFormat, envToken), reply)
  }

  /** The request send_user_message posts: it passes no colour or sender,
      so the defaults of _call_api apply. */
  function UserRequest(userIdOrEmail: Option<string>, message: Option<string>, authToken: Option<string>,
                       notify: bool, messageFormat: string, envToken: Option<string>): (r: Result<Request, string>)
    ensures !Truthy(userIdOrEmail) ==> r == Err(MissingUser)
    ensures Truthy(userIdOrEmail) ==>
              (r.Ok? <==> ValidNotification(message, DefaultColor, messageFormat) && ResolveToken(authToken, envToken).Some?)
    ensures Truthy(userIdOrEmail) && !ValidNotification(message, DefaultColor, messageFormat)
            ==> r == Err(CheckNotification(message, DefaultColor, messageFormat).value)
    ensures Truthy(userIdOrEmail) && ValidNotification(message, DefaultColor, messageFormat)
            && ResolveToken(authToken, envToken).None?
            ==> r == Err(NoToken)
    ensures r.Ok? ==> && r.value.url == UserUrl(userIdOrEmail.value)
                      && r.value.headers == BearerHeaders(ResolveToken(authToken, envToken).value)
                      && r.value.payload == Payload(message.value, DefaultColor, notify, messageFormat, DefaultSender)
  {
    if !Truthy(userIdOrEmail) then Err(MissingUser)
    else Prepare(UserUrl(userIdOrEmail.value), message, authToken, DefaultColor, DefaultSender, notify, messageFormat, envToken)
  }

  function SendUserMessage(userIdOrEmail: Option<string>, message: Option<string>, authToken: Option<string>,
                           notify: bool, messageFormat: string, envToken: Option<string>, reply: HttpReply): (r: CallOutcome)
    ensures !Truthy(userIdOrEmail) ==> r == PreconditionFailure(MissingUser)
    ensures Truthy(userIdOrEmail) && !ValidNotification(message, DefaultColor, messageFormat)
            ==> r == PreconditionFailure(CheckNotification(message, DefaultColor, messageFormat).value)
    ensures Truthy(userIdOrEmail) && ValidNotification(message, DefaultColor, messageFormat)
            && ResolveToken(authToken, envToken).None?
            ==> r == PreconditionFailure(NoToken)
    ensures (&& Truthy(userIdOrEmail) && ValidNotification(message, DefaultColor, messageFormat)
             && ResolveToken(authToken, envToken).Some?)
            ==> r == if IsSuccessStatus(reply.status) then Sent(reply.status, reply.body)
                     else DeliveryError(reply.status, reply.body)
    ensures r.Sent? <==> && Truthy(userIdOrEmail) && ValidNotification(message, DefaultColor, messageFormat)
                         && ResolveToken(authToken, envToken).Some? && IsSuccessStatus(reply.status)
  {
    Deliver(UserRequest(userIdOrEmail, message, authToken, notify, messageFormat, envToken), reply)
  }

  /** A None or empty room fails before anything else is looked at, even an
      invalid message, and the reply is never consulted. */
  lemma MissingRoomRejected(roomIdOrName: Option<string>, message: Option<string>, authToken: Option<string>,
                            color: string, sender: Option<string>, notify: bool, messageFormat: string,
                            envToken: Option<string>, reply: HttpReply)
    requires !Truthy(roomIdOrName)
    ensures RoomRequest(roomIdOrName, message, authToken, color, sender, notify, messageFormat, envToken) == Err(MissingRoom)
    ensures SendRoomMessage(roomIdOrName, message, authToken, color, sender, notify, messageFormat, envToken, reply)
            == PreconditionFailure(MissingRoom)
  {
  }

  /** A room message goes to API_V2_ROOT + "room/" + id + "/notification"
      with the caller's colour, sender, notify flag and format. */
  lemma RoomMessageTarget(room: string, message: Option<string>, authToken: Option<string>,
                          color: string, sender: Option<string>, notify: bool, messageFormat: string,
                          envToken: Option<string>)
    requires room != ""
    ensures var r := RoomRequest(Some(room), message, authToken, color, sender, notify, messageFormat, envToken);
            && (r.Ok? <==> ValidNotification(message, color, messageFormat) && ResolveToken(authToken, envToken).Some?)
            && (r.Ok? ==> r.value.url == ApiV2Root + "room/" + room + "/notification"
                          && r.value.payload == Payload(message.value, color, notify, messageFormat, sender))
  {
  }

  lemma MissingUserRejected(userIdOrEmail: Option<string>, message: Option<string>, authToken: Option<string>,
                            notify: bool, messageFormat: string, envToken: Option<string>, reply: HttpReply)
    requires !Truthy(userIdOrEmail)
    ensures UserRequest(userIdOrEmail, message, authToken, notify, messageFormat, envToken) == Err(MissingUser)
    ensures SendUserMessage(userIdOrEmail, message, authToken, notify, messageFormat, envToken, reply)
            == PreconditionFailure(MissingUser)
  {
  }

  /** A user message goes to API_V2_ROOT + "user/" + id + "/message", is
      always yellow and never carries a `from` key. */
  lemma UserMessageTarget(user: string, message: Option<string>, authToken: Option<string>,
                          notify: bool, messageFormat: string, envToken: Option<string>)
    requires user != ""
    ensures var r := UserRequest(Some(user), message, authToken, notify, messageFormat, envToken);
            && (r.Ok? <==> ValidNotification(message, "yellow", messageFormat) && ResolveToken(authToken, envToken).Some?)
            && (r.Ok? ==> && r.value.url == ApiV2Root + "user/" + user + "/message"
                          && r.value.payload["color"] == JString("yellow")
                          && "from" !in r.value.payload
                          && r.value.payload.Keys == {"message", "color", "notify", "message_format"})
  {
  }

  /** Distinct rooms get distinct URLs: the id can be read back. */
  lemma RoomUrlInjective(a: string, b: string)
    requires RoomUrl(a) == RoomUrl(b)
    ensures a == b
  {
  }

  /** Distinct users get distinct URLs. */
  lemma UserUrlInjective(a: string, b: string)
    requires UserUrl(a) == UserUrl(b)
    ensures a == b
  {
  }

  /** A room URL is never a user URL. */
  lemma RoomAndUserUrlsDiffer(room: string, user: string)
    ensures RoomUrl(room) != UserUrl(user)
  {
  }
}
