/** The bttn webhook handler: checks the form for its required keys,
    branches on the channel, checks the credentials in the environment and
    either forwards the message to a HipChat room or answers with the SMS
    stub.

    The handler is a function of the form fields, the environment (one
    Config for the whole process) and the reply HipChat would give if a
    request were posted. */
module Bttn {
  import opened Wrappers
  import HipChat

  const Channels: seq<string> := ["hipchat", "sms"]
  const FormKeys: seq<string> := ["channel", "recipient", "message"]

  // Bodies of the fixed responses.
  const MissingHipchatToken: string := "Missing HIPCHAT_API_TOKEN environment variable."
  const MissingTwilioSid: string := "Missing TWILIO_ACCOUNT_SID environment variable."
  const MissingTwilioToken: string := "Missing TWILIO_AUTH_TOKEN environment variable."
  const SentSuccessfully: string := "Message sent successfully"
  const NotYetImplemented: string := "Not yet implemented"

  function MissingKeyMessage(key: string): string {
    "Request form must include a '" + key + "' key."
  }

  function UnknownChannelMessage(channel: string): string {
    "Unknown channel: '" + channel + "'"
  }

  /** The three environment variables; HIPCHAT_API_TOKEN is the same value
      the HipChat client falls back on. */
  datatype Config = Config(
    hipchatApiToken: Option<string>,
    twilioAccountSid: Option<string>,
    twilioAuthToken: Option<string>)

  /** What the view gives back: a body and a status, or an exception it does
      not catch (an assertion of the HipChat client). */
  datatype Response = Reply(body: string, status: nat) | Raised(reason: string)

  /** The first key of `keys` that the form lacks, scanning in order. */
  function FirstMissingKey(form: map<string, string>, keys: seq<string>): (missing: Option<string>)
    ensures missing.None? <==> forall i :: 0 <= i < |keys| ==> keys[i] in form
    ensures missing.Some? ==>
              exists i :: 0 <= i < |keys| && keys[i] == missing.value && keys[i] !in form
                          && forall j :: 0 <= j < i ==> keys[j] in form
    decreases |keys|
  {
    if keys == [] then None
    else if keys[0] !in form then Some(keys[0])
    else
      var rest := FirstMissingKey(form, keys[1..]);
      assert rest.Some? ==> exists i :: 1 <= i < |keys| && keys[i] == rest.value && keys[i] !in form
                                        && forall j :: 1 <= j < i ==> keys[j] in form;
      rest
  }

  /** send_sms: the SID is checked before the auth token; with both the
      answer is the stub. */
  function SendSms(number: string, message: string, config: Config): (r: Response)
    ensures !Truthy(config.twilioAccountSid) ==> r == Reply(MissingTwilioSid, 400)
    ensures Truthy(config.twilioAccountSid) && !Truthy(config.twilioAuthToken) ==> r == Reply(MissingTwilioToken, 400)
    ensures Truthy(config.twilioAccountSid) && Truthy(config.twilioAuthToken) ==> r == Reply(NotYetImplemented, 200)
  {
    if !Truthy(config.twilioAccountSid) then Reply(MissingTwilioSid, 400)
    else if !Truthy(config.twilioAuthToken) then Reply(MissingTwilioToken, 400)
    else Reply(NotYetImplemented, 200)
  }

  /** The request send_to_hipchat has the client prepare: recipient as the
      room, text format, and no auth_token, colour, sender or notify
      argument, so the client's defaults apply and the token comes from the
      environment. */
  function HipchatRoomRequest(room: string, message: string, config: Config): (r: Result<HipChat.Request, string>)
    ensures r.Ok? <==> Deliverable(room, message) && config.hipchatApiToken.Some?
    ensures room == "" ==> r == Err(HipChat.MissingRoom)
    ensures room != "" && |message| < HipChat.MinMessageLength ==> r == Err(HipChat.MessageTooShort)
    ensures room != "" && |message| > HipChat.MaxMessageLength ==> r == Err(HipChat.MessageTooLong)
    ensures Deliverable(room, message) && config.hipchatApiToken.None? ==> r == Err(HipChat.NoToken)
    ensures r.Ok? ==> r.value == HipChat.Request(
              HipChat.RoomUrl(room),
              HipChat.BearerHeaders(config.hipchatApiToken.value),
              HipChat.Payload(message, "yellow", false, "text", None))
  {
    HipChat.RoomRequest(Some(room), Some(message), None, HipChat.DefaultColor, HipChat.DefaultSender,
                        HipChat.DefaultNotify, "text", config.hipchatApiToken)
  }

  /** The arguments of send_to_hipchat that the client accepts. */
  predicate Deliverable(room: string, message: string) {
    room != "" && HipChat.MinMessageLength <= |message| <= HipChat.MaxMessageLength
  }

  /** send_to_hipchat */
  function SendToHipchat(room: string, message: string, config: Config, reply: HipChat.HttpReply): (r: Response)
    ensures !Truthy(config.hipchatApiToken) ==> r == Reply(MissingHipchatToken, 400)
    ensures Truthy(config.hipchatApiToken) && Deliverable(room, message) ==>
              r == if HipChat.IsSuccessStatus(reply.status) then Reply(SentSuccessfully, reply.status)
                   else Reply(reply.body, reply.status)
    ensures Truthy(config.hipchatApiToken) && room == "" ==> r == Raised(HipChat.MissingRoom)
    ensures Truthy(config.hipchatApiToken) && room != "" && |message| < HipChat.MinMessageLength
            ==> r == Raised(HipChat.MessageTooShort)
    ensures Truthy(config.hipchatApiToken) && room != "" && |message| > HipChat.MaxMessageLength
            ==> r == Raised(HipChat.MessageTooLong)
  {
    if !Truthy(config.hipchatApiToken) then Reply(MissingHipchatToken, 400)
    else
      match HipChat.Deliver(HipchatRoomRequest(room, message, config), reply)
      case Sent(status, _) => Reply(SentSuccessfully, status)
      case DeliveryError(status, body) => Reply(body, status)
      case PreconditionFailure(reason) => Raised(reason)
  }

  /** bttn_pressed: the key check first, then the channel branch. */
  function BttnPressed(form: map<string, string>, config: Config, reply: HipChat.HttpReply): (r: Response)
    ensures FirstMissingKey(form, FormKeys).Some? ==> r == Reply(MissingKeyMessage(FirstMissingKey(form, FormKeys).value), 400)
    ensures HasAllKeys(form) && form["channel"] == "hipchat"
            ==> r == SendToHipchat(form["recipient"], form["message"], config, reply)
    ensures HasAllKeys(form) && form["channel"] == "sms" ==> r == SendSms(form["recipient"], form["message"], config)
    ensures HasAllKeys(form) && form["channel"] !in Channels ==> r == Reply(UnknownChannelMessage(form["channel"]), 400)
  {
    AllKeysPresent(form);
    match FirstMissingKey(form, FormKeys)
    case Some(key) => Reply(MissingKeyMessage(key), 400)
    case None =>
      if form["channel"] == "hipchat" then SendToHipchat(form["recipient"], form["message"], config, reply)
      else if form["channel"] == "sms" then SendSms(form["recipient"], form["message"], config)
      else Reply(UnknownChannelMessage(form["channel"]), 400)
  }

  /** The request the handler has posted to HipChat, None if none. */
  function PostedRequest(form: map<string, string>, config: Config): (posted: Option<HipChat.Request>)
    ensures posted.Some? <==> && HasAllKeys(form) && form["channel"] == "hipchat"
                              && Truthy(config.hipchatApiToken)
                              && Deliverable(form["recipient"], form["message"])
    ensures posted.Some? ==> posted.value == HipChat.Request(
              HipChat.RoomUrl(form["recipient"]),
              HipChat.BearerHeaders(config.hipchatApiToken.value),
              HipChat.Payload(form["message"], "yellow", false, "text", None))
  {
    AllKeysPresent(form);
    if FirstMissingKey(form, FormKeys).Some? || form["channel"] != "hipchat" || !Truthy(config.hipchatApiToken) then None
    else
      match HipchatRoomRequest(form["recipient"], form["message"], config)
      case Ok(request) => Some(request)
      case Err(_) => None
  }

  predicate HasAllKeys(form: map<string, string>) {
    "channel" in form && "recipient" in form && "message" in form
  }

  /** A missing key is reported as the first absent one in the order
      channel, recipient, message, and nothing is posted. */
  lemma MissingKeyReported(form: map<string, string>, config: Config, reply: HipChat.HttpReply)
    requires !HasAllKeys(form)
    ensures "channel" !in form ==> BttnPressed(form, config, reply) == Reply(MissingKeyMessage("channel"), 400)
    ensures "channel" in form && "recipient" !in form
            ==> BttnPressed(form, config, reply) == Reply(MissingKeyMessage("recipient"), 400)
    ensures "channel" in form && "recipient" in form && "message" !in form
            ==> BttnPressed(form, config, reply) == Reply(MissingKeyMessage("message"), 400)
    ensures PostedRequest(form, config).None?
  {
  }

  /** With all keys present, a channel other than hipchat and sms is
      rejected with its own value in the body. */
  lemma UnknownChannelRejected(form: map<string, string>, config: Config, reply: HipChat.HttpReply)
    requires HasAllKeys(form)
    requires form["channel"] !in Channels
    ensures BttnPressed(form, config, reply) == Reply(UnknownChannelMessage(form["channel"]), 400)
    ensures PostedRequest(form, config).None?
  {
  }

  /** The key check passes exactly for a form with channel, recipient and
      message. */
  lemma AllKeysPresent(form: map<string, string>)
    ensures FirstMissingKey(form, FormKeys).None? <==> HasAllKeys(form)
  {
  }

  /** On the hipchat channel a missing or empty HIPCHAT_API_TOKEN is
      reported and no request is made. */
  lemma HipchatTokenMissing(form: map<string, string>, config: Config, reply: HipChat.HttpReply)
    requires HasAllKeys(form) && form["channel"] == "hipchat"
    requires !Truthy(config.hipchatApiToken)
    ensures BttnPressed(form, config, reply) == Reply(MissingHipchatToken, 400)
    ensures PostedRequest(form, config).None?
  {
  }

  /** With a token, a non-empty recipient and a message of 1-10000
      characters, the request goes to the recipient's room as text with the
      environment token, and the reply decides the response: a 2 as first
      digit gives the success body with the provider's status, anything else
      the provider's body and status unchanged. */
  lemma HipchatForwarded(form: map<string, string>, config: Config, reply: HipChat.HttpReply)
    requires HasAllKeys(form) && form["channel"] == "hipchat"
    requires Truthy(config.hipchatApiToken)
    requires form["recipient"] != ""
    requires 1 <= |form["message"]| <= 10000
    ensures PostedRequest(form, config) == Some(HipChat.Request(
              HipChat.RoomUrl(form["recipient"]),
              HipChat.BearerHeaders(config.hipchatApiToken.value),
              HipChat.Payload(form["message"], "yellow", false, "text", None)))
    ensures HipChat.IsSuccessStatus(reply.status) ==> BttnPressed(form, config, reply) == Reply(SentSuccessfully, reply.status)
    ensures !HipChat.IsSuccessStatus(reply.status) ==> BttnPressed(form, config, reply) == Reply(reply.body, reply.status)
  {
  }

  /** An empty recipient or a message outside 1-10000 characters makes the
      client's assertion fail; the handler does not catch it, and nothing is
      posted. */
  lemma HipchatAssertionEscapes(form: map<string, string>, config: Config, reply: HipChat.HttpReply)
    requires HasAllKeys(form) && form["channel"] == "hipchat"
    requires Truthy(config.hipchatApiToken)
    requires form["recipient"] == "" || !(1 <= |form["message"]| <= 10000)
    ensures BttnPressed(form, config, reply).Raised?
    ensures form["recipient"] == "" ==> BttnPressed(form, config, reply) == Raised(HipChat.MissingRoom)
    ensures form["recipient"] != "" && |form["message"]| == 0 ==> BttnPressed(form, config, reply) == Raised(HipChat.MessageTooShort)
    ensures form["recipient"] != "" && |form["message"]| > 10000 ==> BttnPressed(form, config, reply) == Raised(HipChat.MessageTooLong)
    ensures PostedRequest(form, config).None?
  {
  }

  /** On the sms channel the SID is checked first, so its absence is
      reported even when the auth token is missing too. */
  lemma SmsSidCheckedFirst(form: map<string, string>, config: Config, reply: HipChat.HttpReply)
    requires HasAllKeys(form) && form["channel"] == "sms"
    ensures !Truthy(config.twilioAccountSid) ==> BttnPressed(form, config, reply) == Reply(MissingTwilioSid, 400)
    ensures Truthy(config.twilioAccountSid) && !Truthy(config.twilioAuthToken)
            ==> BttnPressed(form, config, reply) == Reply(MissingTwilioToken, 400)
    ensures PostedRequest(form, config).None?
  {
  }

  /** With both Twilio credentials the sms answer is the stub, whatever the
      number and message. */
  lemma SmsStub(form: map<string, string>, config: Config, reply: HipChat.HttpReply)
    requires HasAllKeys(form) && form["channel"] == "sms"
    requires Truthy(config.twilioAccountSid) && Truthy(config.twilioAuthToken)
    ensures BttnPressed(form, config, reply) == Reply(NotYetImplemented, 200)
  {
  }

  /** When nothing is posted, the provider's reply cannot affect the
      response. */
  lemma ReplyOnlyMattersWhenPosted(form: map<string, string>, config: Config,
                                     reply1: HipChat.HttpReply, reply2: HipChat.HttpReply)
    requires PostedRequest(form, config).None?
    ensures BttnPressed(form, config, reply1) == BttnPressed(form, config, reply2)
  {
  }
}
