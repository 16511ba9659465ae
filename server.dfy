/**
 * The M-Pesa backend: the `Basic` credential for the token request, the STK
 * password and timestamp, the phone rewrite, the push payload, the
 * `/api/stkpush` handler's request sequence and responses, and the
 * `/api/callback` acknowledgement.
 *
 * Environment variables, the clock and the two provider calls are
 * parameters: the configuration is a value, `now` is the instant
 * `new Date()` reads, and each call's outcome is given as a value.
 */
module Server {
  import opened Wrappers
  import opened Json
  import Base64
  import Utf8
  import IsoTime

  /** The `process.env` values the handler reads. */
  datatype MpesaConfig = MpesaConfig(
    consumerKey: string,
    consumerSecret: string,
    shortcode: string,
    passkey: string,
    callbackUrl: string)

  /** `Buffer.from(s).toString('base64')`: Base64 of the UTF-8 octets of `s`. */
  function NodeBase64(s: string): (r: string)
    ensures Base64.Decode(r) == Some(Utf8.Encode(s))
    ensures |r| == 4 * ((|Utf8.Encode(s)| + 2) / 3)
    ensures forall i :: 0 <= i < |r| ==> Base64.IsOutputChar(r[i])
  {
    Base64.DecodeEncode(Utf8.Encode(s));
    Base64.EncodeAlphabet(Utf8.Encode(s));
    Base64.Encode(Utf8.Encode(s))
  }

  // ---------------------------------------------------------------------------
  // The token request (getAccessToken)

  /** The credential of section 2 of RFC 7617: Base64 of user-id ":" password. */
  function BasicCredential(key: string, secret: string): (r: string)
    ensures Base64.Decode(r) == Some(Utf8.Encode(key + ":" + secret))
    ensures forall i :: 0 <= i < |r| ==> Base64.IsOutputChar(r[i])
  {
    NodeBase64(key + ":" + secret)
  }

  /** The index of the first colon, if any. */
  function FirstColon(s: string): (r: Option<nat>)
    ensures r.Some? ==> r.value < |s| && s[r.value] == ':' && ':' !in s[..r.value]
    ensures r.None? ==> ':' !in s
  {
    if s == "" then None
    else if s[0] == ':' then Some(0)
    else match FirstColon(s[1..])
      case None => None
      case Some(i) => assert s[1..][..i] == s[1..i + 1]; Some(i + 1)
  }

  /** How the provider reads a Basic credential: decode, then split at the first colon. */
  function ParseBasicCredential(cred: string): (r: Option<(string, string)>)
  {
    match Base64.Decode(cred)
    case None => None
    case Some(octets) =>
      match Utf8.Decode(octets)
      case None => None
      case Some(pair) =>
        match FirstColon(pair)
        case None => None
        case Some(i) => Some((pair[..i], pair[i + 1..]))
  }

  /**
   * The credential carries the key and the secret: reading it back gives both,
   * provided the key has no colon (the restriction of section 2 of RFC 7617).
   */
  lemma BasicCredentialRoundTrip(key: string, secret: string)
    requires ':' !in key
    ensures ParseBasicCredential(BasicCredential(key, secret)) == Some((key, secret))
  {
    var pair := key + ":" + secret;
    Utf8.DecodeEncode(pair);
    assert pair[..|key|] == key && pair[|key|] == ':' && pair[|key| + 1..] == secret;
    assert FirstColon(pair) == Some(|key|);
  }

  /** The header of the token request. */
  function TokenAuthorization(cfg: MpesaConfig): (h: string)
    ensures |h| >= 6 && h[..6] == "Basic " && h[6..] == BasicCredential(cfg.consumerKey, cfg.consumerSecret)
  {
    "Basic " + BasicCredential(cfg.consumerKey, cfg.consumerSecret)
  }

  // ---------------------------------------------------------------------------
  // The push payload

  /** The STK password: Base64 of shortcode, passkey and timestamp, run together. */
  function StkPassword(shortcode: string, passkey: string, timestamp: string): (r: string)
    ensures Base64.Decode(r) == Some(Utf8.Encode(shortcode + passkey + timestamp))
    ensures |r| == 4 * ((|Utf8.Encode(shortcode + passkey + timestamp)| + 2) / 3)
  {
    NodeBase64(shortcode + passkey + timestamp)
  }

  /**
   * For ASCII shortcode and passkey (both are digit strings in practice) and a
   * four-digit year, the password is 4 * ceil(n / 3) characters of the Base64
   * alphabet or "=", where n is |shortcode| + |passkey| + 14.
   */
  lemma StkPasswordShape(shortcode: string, passkey: string, now: IsoTime.DateTime)
    requires Utf8.IsAscii(shortcode) && Utf8.IsAscii(passkey)
    requires IsoTime.Valid(now) && 0 <= now.year <= 9999
    ensures var p := StkPassword(shortcode, passkey, IsoTime.Timestamp(IsoTime.IsoString(now)));
      && |p| == 4 * ((|shortcode| + |passkey| + 14 + 2) / 3)
      && forall i :: 0 <= i < |p| ==> Base64.IsOutputChar(p[i])
  {
    var ts := IsoTime.Timestamp(IsoTime.IsoString(now));
    assert |ts| == 14 && Utf8.IsAscii(ts) by {
      IsoTime.TimestampIsCompact(now);
      forall i | 0 <= i < |ts| ensures (ts[i] as int) < 0x80 {
        assert IsoTime.IsDigit(ts[i]);
      }
    }
    var s := shortcode + passkey + ts;
    assert |Utf8.Encode(s)| == |s| by {
      Utf8.AsciiAppend(shortcode, passkey);
      Utf8.AsciiAppend(shortcode + passkey, ts);
      Utf8.AsciiEncoding(s);
    }
    assert StkPassword(shortcode, passkey, ts) == NodeBase64(s);
  }

  /** `phone.startsWith('0') ? `254${phone.slice(1)}` : phone`. */
  function FormatPhone(phone: string): (r: string)
    ensures |phone| > 0 && phone[0] == '0' ==> r == "254" + phone[1..]
    ensures !(|phone| > 0 && phone[0] == '0') ==> r == phone
  {
    if |phone| > 0 && phone[0] == '0' then "254" + phone[1..] else phone
  }

  /** The rewrite never leaves a leading zero, so a second application changes nothing. */
  lemma FormatPhoneIdempotent(phone: string)
    ensures FormatPhone(FormatPhone(phone)) == FormatPhone(phone)
    ensures |FormatPhone(phone)| > 0 ==> FormatPhone(phone)[0] != '0'
  {
  }

  /** The national form of the documented example becomes the international one. */
  lemma FormatPhoneExample()
    ensures FormatPhone("0712345678") == "254712345678"
    ensures FormatPhone("254712345678") == "254712345678"
  {
  }

  /** `Math.ceil` on amounts (JavaScript numbers modelled as reals). */
  function Ceil(x: real): (r: int)
    ensures r as real >= x && r as real - x < 1.0
  {
    -((-x).Floor)
  }

  /** The two bounds determine the ceiling, so whole amounts pass through unchanged. */
  lemma CeilCharacterised(x: real, k: int)
    ensures (k as real >= x && k as real - x < 1.0) <==> k == Ceil(x)
    ensures Ceil(k as real) == k
  {
  }

  /** The request body fields the handler destructures. */
  datatype StkRequest = StkRequest(phone: string, amount: real, description: string, transactionId: string)

  /** The body of the push request, field for field as the provider's API names them. */
  datatype Payload = Payload(
    BusinessShortCode: string,
    Password: string,
    Timestamp: string,
    TransactionType: string,
    Amount: int,
    PartyA: string,
    PartyB: string,
    PhoneNumber: string,
    CallBackURL: string,
    AccountReference: string,
    TransactionDesc: string)

  /** The payload of the push request for a body, a configuration and the current instant. */
  function BuildPayload(cfg: MpesaConfig, req: StkRequest, now: IsoTime.DateTime): (p: Payload)
    requires IsoTime.Valid(now)
    ensures p.PartyA == p.PhoneNumber == FormatPhone(req.phone)
    ensures p.PartyB == p.BusinessShortCode == cfg.shortcode
    ensures p.AccountReference == "SafiPay-" + req.transactionId
    ensures p.TransactionType == "CustomerPayBillOnline"
    ensures p.TransactionDesc == req.description && p.CallBackURL == cfg.callbackUrl
    ensures p.Amount as real >= req.amount && p.Amount as real - req.amount < 1.0
    ensures p.Timestamp == IsoTime.Timestamp(IsoTime.IsoString(now))
    ensures Base64.Decode(p.Password) == Some(Utf8.Encode(p.BusinessShortCode + cfg.passkey + p.Timestamp))
  {
    var timestamp := IsoTime.Timestamp(IsoTime.IsoString(now));
    var formattedPhone := FormatPhone(req.phone);
    Payload(
      BusinessShortCode := cfg.shortcode,
      Password := StkPassword(cfg.shortcode, cfg.passkey, timestamp),
      Timestamp := timestamp,
      TransactionType := "CustomerPayBillOnline",
      Amount := Ceil(req.amount),
      PartyA := formattedPhone,
      PartyB := cfg.shortcode,
      PhoneNumber := formattedPhone,
      CallBackURL := cfg.callbackUrl,
      AccountReference := "SafiPay-" + req.transactionId,
      TransactionDesc := req.description)
  }

  /** For a four-digit year the payload's timestamp is YYYYMMDDHHMMSS of the instant. */
  lemma PayloadTimestampCompact(cfg: MpesaConfig, req: StkRequest, now: IsoTime.DateTime)
    requires IsoTime.Valid(now) && 0 <= now.year <= 9999
    ensures BuildPayload(cfg, req, now).Timestamp == IsoTime.CompactTimestamp(now)
  {
    IsoTime.TimestampIsCompact(now);
  }

  // ---------------------------------------------------------------------------
  // The /api/stkpush handler

  /** A rejected axios call: the provider's response body if any (`err.response?.data`) and `err.message`. */
  datatype HttpFailure = HttpFailure(responseData: Option<Json>, message: string)

  /** The outcome of one outbound call, as the provider answers it. */
  datatype Reply<T> = Ok(value: T) | Fail(failure: HttpFailure)

  /** The requests the handler sends, in order. */
  datatype Outbound =
    | TokenRequest(authorization: string)
    | PushRequest(authorization: string, payload: Payload)

  datatype Response = Response(status: int, body: Json)

  /** One run of the handler: what it sent, and what it answered. */
  datatype Exchange = Exchange(sent: seq<Outbound>, response: Response)

  /** `err.response?.data || err.message`: the provider's body when it is truthy, the message otherwise. */
  function ErrorValue(f: HttpFailure): (e: Json)
    ensures f.responseData.Some? && Truthy(f.responseData.value) ==> e == f.responseData.value
    ensures !(f.responseData.Some? && Truthy(f.responseData.value)) ==> e == JString(f.message)
  {
    match f.responseData
    case Some(data) => if Truthy(data) then data else JString(f.message)
    case None => JString(f.message)
  }

  function SuccessResponse(data: Json): (r: Response)
    ensures r.status == 200 && Member(r.body, "success") == JBool(true) && Member(r.body, "data") == data
  {
    var ms := [("success", JBool(true)), ("data", data)];
    assert ms[0].0 != "data" && ms[1..] == [("data", data)];
    assert Lookup(ms, "data") == Lookup(ms[1..], "data");
    Response(200, JObject(ms))
  }

  function FailureResponse(f: HttpFailure): (r: Response)
    ensures r.status == 500 && Member(r.body, "success") == JBool(false) && Member(r.body, "error") == ErrorValue(f)
  {
    var ms := [("success", JBool(false)), ("error", ErrorValue(f))];
    assert ms[0].0 != "error" && ms[1..] == [("error", ErrorValue(f))];
    assert Lookup(ms, "error") == Lookup(ms[1..], "error");
    Response(500, JObject(ms))
  }

  /**
   * The handler: fetch a token, build the payload, push it with the token as
   * bearer, and answer with the provider's data or with the error caught.
   */
  function HandleStkPush(
    cfg: MpesaConfig, req: StkRequest, now: IsoTime.DateTime,
    tokenReply: Reply<string>, pushReply: Reply<Json>): (x: Exchange)
    requires IsoTime.Valid(now)
    ensures 1 <= |x.sent| <= 2 && x.sent[0] == TokenRequest(TokenAuthorization(cfg))
    ensures |x.sent| == 2 <==> tokenReply.Ok?
    ensures tokenReply.Ok? ==>
      x.sent[1] == PushRequest("Bearer " + tokenReply.value, BuildPayload(cfg, req, now))
    ensures x.response.status == 200 <==> tokenReply.Ok? && pushReply.Ok?
    ensures tokenReply.Ok? && pushReply.Ok? ==> x.response == SuccessResponse(pushReply.value)
    ensures tokenReply.Fail? ==> x.response == FailureResponse(tokenReply.failure)
    ensures tokenReply.Ok? && pushReply.Fail? ==> x.response == FailureResponse(pushReply.failure)
  {
    var tokenRequest := TokenRequest(TokenAuthorization(cfg));
    match tokenReply
    case Fail(f) => Exchange([tokenRequest], FailureResponse(f))
    case Ok(token) =>
      var push := PushRequest("Bearer " + token, BuildPayload(cfg, req, now));
      match pushReply
      case Fail(f) => Exchange([tokenRequest, push], FailureResponse(f))
      case Ok(data) => Exchange([tokenRequest, push], SuccessResponse(data))
  }

  /** Whatever the outcome, a failed run never reports success, and a successful one never carries an error. */
  lemma StkPushResponseShape(
    cfg: MpesaConfig, req: StkRequest, now: IsoTime.DateTime,
    tokenReply: Reply<string>, pushReply: Reply<Json>)
    requires IsoTime.Valid(now)
    ensures var r := HandleStkPush(cfg, req, now, tokenReply, pushReply).response;
      (Member(r.body, "success") == JBool(true) <==> r.status == 200)
      && (r.status == 200 || r.status == 500)
      && (r.status == 200 ==> Member(r.body, "error") == JNull)
  {
  }

  // ---------------------------------------------------------------------------
  // The /api/callback handler

  /** The acknowledgement the provider expects; the body is only logged. */
  function CallbackResponse(body: Json): (r: Response)
    ensures r.status == 200
    ensures Member(r.body, "ResultCode") == JNumber(0.0) && Member(r.body, "ResultDesc") == JString("Success")
  {
    Response(200, JObject([("ResultCode", JNumber(0.0)), ("ResultDesc", JString("Success"))]))
  }

  /** The acknowledgement does not depend on what the provider sent. */
  lemma CallbackIgnoresBody(a: Json, b: Json)
    ensures CallbackResponse(a) == CallbackResponse(b)
  {
  }
}
