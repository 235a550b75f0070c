/**
 * The image-generation handler of the PromptPix server
 * (server/controllers/imageController.js, `generateImage`).
 *
 * A request names the authenticated user and carries a prompt. The handler
 * checks the inputs, looks the user up, refuses a user without credit, asks
 * the text-to-image service for a picture and, only when that succeeds,
 * takes one credit from the user and answers with the new balance and the
 * picture as a `data:` URL.
 *
 * The service call is not modelled: its outcome is an input (`Upstream`).
 * The Base64 encoder is not modelled either: it is a parameter `encode`.
 */
module ImageController {
  import opened Wrappers

  type UserId = string
  type Byte = x: int | 0 <= x < 256
  type Bytes = seq<Byte>

  /** The user store, reduced to what the handler reads and writes: each user's credit balance. */
  type Balances = map<UserId, int>

  const MissingDetails: string := "Missing Details"
  const UserNotFound: string := "User not found"
  const NoCreditBalance: string := "No Credit Balance"
  const ImageGenerated: string := "Image Generated"

  /** The data-URL header for a Base64 PNG (RFC 2397 with the Base64 of section 4 of RFC 4648). */
  const PngBase64Prefix: string := "data:image/png;base64,"

  /** `req.user.id` and `req.body.prompt`; either may be missing. */
  datatype Request = Request(id: Option<UserId>, prompt: Option<string>)

  /** What the text-to-image service did: returned the image bytes, or threw an error with a message. */
  datatype Upstream = Ok(bytes: Bytes) | Err(message: string)

  /**
   * The JSON the handler answers with. `Failure` is `{success: false, message}`,
   * with `creditBalance` present only when `balance` is `Some`;
   * `Success` is `{success: true, message: "Image Generated", creditBalance, resultImage}`.
   */
  datatype Response =
    | Failure(message: string, balance: Option<int>)
    | Success(creditBalance: int, resultImage: string)
  {
    function Message(): string {
      if Failure? then message else ImageGenerated
    }
  }

  /** One run of the handler: the answer, the store afterwards, and the prompt sent to the service, if any. */
  datatype Outcome = Outcome(response: Response, balances: Balances, forwarded: Option<string>)

  /** JavaScript truthiness of a string field: absent and "" are falsy, anything else (even "  ") is truthy. */
  predicate Truthy(v: Option<string>) {
    v.Some? && v.value != ""
  }

  /** The input check that guards everything else. */
  predicate HasDetails(req: Request) {
    Truthy(req.id) && Truthy(req.prompt)
  }

  /** All checks before the service call pass: inputs present, user known, balance above zero. */
  predicate Chargeable(m: Balances, req: Request) {
    HasDetails(req) && req.id.value in m && m[req.id.value] > 0
  }

  function DataUrl(payload: string): (url: string)
    ensures |url| == |PngBase64Prefix| + |payload|
    ensures url[..|PngBase64Prefix|] == PngBase64Prefix
    ensures url[|PngBase64Prefix|..] == payload
  {
    PngBase64Prefix + payload
  }

  /** The inverse of `DataUrl`: the Base64 payload of a PNG data URL, if `url` is one. */
  function ImagePayload(url: string): (r: Option<string>)
    ensures r.Some? <==> PngBase64Prefix <= url
    ensures r.Some? ==> DataUrl(r.value) == url
  {
    if PngBase64Prefix <= url then Some(url[|PngBase64Prefix|..]) else None
  }

  lemma ImagePayloadOfDataUrl(payload: string)
    ensures ImagePayload(DataUrl(payload)) == Some(payload)
  {
  }

  /**
   * The handler as a function of the store before the request: the steps of
   * `generateImage` in order, each early return a distinct outcome.
   */
  function Handle(m: Balances, req: Request, up: Upstream, encode: Bytes -> string): (o: Outcome)
    ensures o.balances.Keys == m.Keys
    ensures forall u :: u in m ==>
      o.balances[u] == m[u] - (if o.response.Success? && req.id == Some(u) then 1 else 0)
    ensures o.response.Success? <==> Chargeable(m, req) && up.Ok?
    ensures o.response.Success? ==> o.response.creditBalance == o.balances[req.id.value]
    ensures o.forwarded.Some? <==> Chargeable(m, req)
    ensures o.forwarded.Some? ==> o.forwarded == req.prompt
  {
    if !HasDetails(req) then
      Outcome(Failure(MissingDetails, None), m, None)
    else if req.id.value !in m then
      Outcome(Failure(UserNotFound, None), m, None)
    else if m[req.id.value] <= 0 then
      Outcome(Failure(NoCreditBalance, Some(m[req.id.value])), m, None)
    else
      match up
      case Err(message) =>
        Outcome(Failure(message, None), m, req.prompt)
      case Ok(bytes) =>
        var id := req.id.value;
        var left := m[id] - 1;
        Outcome(Success(left, DataUrl(encode(bytes))), m[id := left], req.prompt)
  }

  /** The falsy values of the two inputs are exactly "absent" and "": a prompt of spaces is accepted. */
  lemma InputCheck(req: Request, id: UserId)
    ensures HasDetails(req) <==>
      req.id != None && req.id != Some("") && req.prompt != None && req.prompt != Some("")
    ensures id != "" ==> HasDetails(Request(Some(id), Some("  ")))
  {
  }

  /** The `message` field of the answer, path by path. */
  lemma ResponseMessage(m: Balances, req: Request, up: Upstream, encode: Bytes -> string)
    ensures var r := Handle(m, req, up, encode).response;
      && (r.Success? ==> r.Message() == ImageGenerated)
      && (!HasDetails(req) ==> r.Message() == MissingDetails)
      && (HasDetails(req) && req.id.value !in m ==> r.Message() == UserNotFound)
      && (HasDetails(req) && req.id.value in m && m[req.id.value] <= 0 ==> r.Message() == NoCreditBalance)
      && (Chargeable(m, req) && up.Err? ==> r.Message() == up.message)
  {
  }

  lemma MissingDetailsRejected(m: Balances, req: Request, up: Upstream, encode: Bytes -> string)
    requires !HasDetails(req)
    ensures Handle(m, req, up, encode) == Outcome(Failure(MissingDetails, None), m, None)
  {
  }

  lemma UnknownUserRejected(m: Balances, req: Request, up: Upstream, encode: Bytes -> string)
    requires HasDetails(req) && req.id.value !in m
    ensures Handle(m, req, up, encode) == Outcome(Failure(UserNotFound, None), m, None)
  {
  }

  lemma NoCreditRejected(m: Balances, req: Request, up: Upstream, encode: Bytes -> string)
    requires HasDetails(req) && req.id.value in m && m[req.id.value] <= 0
    ensures Handle(m, req, up, encode)
         == Outcome(Failure(NoCreditBalance, Some(m[req.id.value])), m, None)
  {
  }

  lemma UpstreamFailureKeepsCredit(m: Balances, req: Request, up: Upstream, encode: Bytes -> string)
    requires Chargeable(m, req) && up.Err?
    ensures Handle(m, req, up, encode) == Outcome(Failure(up.message, None), m, req.prompt)
  {
  }

  lemma SuccessDebitsOne(m: Balances, req: Request, up: Upstream, encode: Bytes -> string)
    requires Handle(m, req, up, encode).response.Success?
    ensures req.id.Some? && req.id.value in m && m[req.id.value] > 0
    ensures Handle(m, req, up, encode).balances == m[req.id.value := m[req.id.value] - 1]
    ensures Handle(m, req, up, encode).response.creditBalance == m[req.id.value] - 1
  {
  }

  lemma OtherUsersUntouched(m: Balances, req: Request, up: Upstream, encode: Bytes -> string, u: UserId)
    requires u in m && req.id != Some(u)
    ensures Handle(m, req, up, encode).balances[u] == m[u]
  {
  }

  /** A balance that is not negative before the request is not negative after it. */
  lemma BalanceStaysNonNegative(m: Balances, req: Request, up: Upstream, encode: Bytes -> string, u: UserId)
    requires u in m && m[u] >= 0
    ensures Handle(m, req, up, encode).balances[u] >= 0
  {
  }

  lemma ResultImageIsDataUrl(m: Balances, req: Request, up: Upstream, encode: Bytes -> string)
    requires Handle(m, req, up, encode).response.Success?
    ensures up.Ok?
    ensures ImagePayload(Handle(m, req, up, encode).response.resultImage) == Some(encode(up.bytes))
  {
  }

  /**
   * The user store as the handler sees it, with the prompts sent to the
   * text-to-image service so far, oldest first.
   */
  class CreditStore {
    var balances: Balances
    var forwarded: seq<string>

    constructor (initial: Balances)
      ensures balances == initial && forwarded == []
    {
      balances := initial;
      forwarded := [];
    }

    /**
     * `generateImage`: the steps run in the order `generateImage` runs them; the user's
     * record is read, the service is called, and only then is the balance
     * decremented and saved.
     */
    method Generate(id: Option<UserId>, prompt: Option<string>, up: Upstream, encode: Bytes -> string)
      returns (r: Response)
      modifies this
      ensures var o := Handle(old(balances), Request(id, prompt), up, encode);
        && r == o.response
        && balances == o.balances
        && forwarded == old(forwarded) + (if o.forwarded.Some? then [o.forwarded.value] else [])
    {
      if !Truthy(id) || !Truthy(prompt) {
        return Failure(MissingDetails, None);
      }
      var userId := id.value;
      if userId !in balances {
        return Failure(UserNotFound, None);
      }
      var creditBalance := balances[userId];
      if creditBalance <= 0 {
        return Failure(NoCreditBalance, Some(creditBalance));
      }
      forwarded := forwarded + [prompt.value];
      match up {
        case Err(message) =>
          return Failure(message, None);
        case Ok(bytes) =>
          var resultImage := DataUrl(encode(bytes));
          creditBalance := creditBalance - 1;
          balances := balances[userId := creditBalance];
          return Success(creditBalance, resultImage);
      }
    }
  }
}
