# PromptPix image generation: a Dafny model of the credit-debit handler

PromptPix is a web application in which a signed-in user types a prompt and
receives a generated picture, paying one credit per picture. The server's
handler `generateImage` (server/controllers/imageController.js) is the only
piece of business logic in this model. It:

1. refuses the request with "Missing Details" when the user id or the prompt
   is missing or empty (JavaScript falsy; a prompt of spaces passes);
2. looks the user up and refuses with "User not found" when there is none;
3. refuses with "No Credit Balance", reporting the current balance, when the
   balance is zero or less;
4. sends the prompt to the ClipDrop text-to-image service;
5. only when that call returns, lowers the user's balance by one, saves it,
   and answers with the new balance and the picture as
   `data:image/png;base64,<Base64 of the bytes>`; an exception from the
   service becomes a failure carrying the exception's message, with no
   credit taken.

Files:

- `wrappers.dfy` — `Option`.
- `image_controller.dfy` — module `ImageController`: requests, the service
  outcome (`Upstream = Ok(bytes) | Err(message)`, an input rather than a
  network call), responses, the handler as a function `Handle` of the store
  before the request, the data-URL form and its inverse, one lemma per path
  of the handler, and the class `CreditStore` whose method `Generate` runs
  the handler's steps in the order `generateImage` runs them, updating the balance map in
  place and recording each prompt sent to the service.
- `request_sequence.dfy` — module `RequestSequence`: requests handled one
  after another (`Run`) and the credit accounting over any such run.

The Base64 encoder (Node's `Buffer.toString("base64")`) is a parameter
`encode: Bytes -> string` of the handler; the model says nothing about its
output beyond where it lands in the URL.

The handler checks its inputs by JavaScript truthiness, so only a missing
or empty id or prompt is refused. Its failures are message strings, not
distinct error kinds: the input, lookup and credit failures have fixed
messages, and a service failure carries the exception's message. Only the
"No Credit Balance" answer carries `creditBalance`.

## Model

| member | source | states |
|---|---|---|
| `ImageController.Handle` | server/controllers/imageController.js:5-60 | The store keeps the same users; a user's balance drops by exactly one when, and only when, that user's request succeeds, and no other balance changes; a request succeeds exactly when the inputs are present, the user exists with a balance above zero and the service returned an image; a success reports the balance now stored; the prompt is sent to the service exactly when all checks before the call pass, and it is the request's own prompt |
| `ImageController.InputCheck` | server/controllers/imageController.js:10 | The input check on `id` and `prompt` passes exactly when neither the id nor the prompt is absent or the empty string; a prompt of spaces passes |
| `ImageController.ResponseMessage` | server/controllers/imageController.js:11-58 | The `message` of the answer on each path: "Missing Details", "User not found", "No Credit Balance", the service exception's message, and "Image Generated" on success |
| `ImageController.MissingDetailsRejected` | server/controllers/imageController.js:7-12 | A missing or empty id or prompt gives failure "Missing Details" without a balance, leaves the store unchanged and sends nothing to the service |
| `ImageController.UnknownUserRejected` | server/controllers/imageController.js:14-18 | An id absent from the store gives failure "User not found" without a balance, store unchanged, nothing sent |
| `ImageController.NoCreditRejected` | server/controllers/imageController.js:20-26 | A balance of zero or less gives failure "No Credit Balance" carrying that unchanged balance; store unchanged, nothing sent |
| `ImageController.UpstreamFailureKeepsCredit` | server/controllers/imageController.js:31-41 | When the service call throws, the answer is a failure with the exception's message and no balance, the prompt was sent and no credit is taken |
| `ImageController.SuccessDebitsOne` | server/controllers/imageController.js:46-53 | A success implies the user existed with a balance above zero; the new store is the old one with that user's balance lowered by one, and the reported balance is that new value |
| `ImageController.OtherUsersUntouched` | server/controllers/imageController.js:14-48 | Any user other than the requester keeps their balance |
| `ImageController.BalanceStaysNonNegative` | server/controllers/imageController.js:20-47 | A balance that is zero or more before the request is zero or more after it |
| `ImageController.ResultImageIsDataUrl` | server/controllers/imageController.js:43-44 | A success implies the service returned bytes, and the result image is the PNG Base64 data URL whose payload is the encoding of those bytes |
| `ImageController.DataUrl` | server/controllers/imageController.js:44 | The URL is the prefix `data:image/png;base64,` followed by the payload and nothing else |
| `ImageController.ImagePayload` | server/controllers/imageController.js:44 | Inverse of the data-URL form: a payload is found exactly when the text starts with the PNG Base64 prefix, and rebuilding the URL from it gives the text back |
| `ImageController.ImagePayloadOfDataUrl` | server/controllers/imageController.js:44 | Reading the payload back from a built data URL gives the payload that went in |
| `ImageController.CreditStore.constructor` | server/controllers/imageController.js:14 | The store starts with the given balances and no prompt sent |
| `ImageController.CreditStore.Generate` | server/controllers/imageController.js:5-60 | The answer and the new balance map are those of `Handle` on the balances before the call; the prompt is appended to the sent prompts exactly when the service was called |
| `RequestSequence.Run` | server/controllers/imageController.js:5-60 | Handling a sequence of requests in turn gives one answer per request and keeps the set of users |
| `RequestSequence.Successes` | server/controllers/imageController.js:50-55 | The number of images generated for a user is at most the number of requests |
| `RequestSequence.CreditAccounting` | server/controllers/imageController.js:46-48 | After any sequence of requests, a user's balance is the starting balance minus the number of images generated for that user |
| `RequestSequence.NoOverspend` | server/controllers/imageController.js:20-26 | Over any sequence of requests, a user obtains at most as many images as their starting balance, and none when it is zero or less |
| `RequestSequence.OneCreditOneImage` | server/controllers/imageController.js:20-48 | A user with one credit obtains at most one image from any number of sequential requests |
| `RequestSequence.FloorOfBalance` | server/controllers/imageController.js:20-47 | No sequence of requests drives a balance below zero, and a balance already below zero is never lowered |
| `RequestSequence.UnrequestedUnchanged` | server/controllers/imageController.js:14-48 | A user who sends none of the requests keeps their balance through the whole sequence |

## Left out

- The HTTP request to ClipDrop, its form data, headers and API key (lines 28-41): foreign I/O; its result is the `Upstream` input.
- The Base64 encoding by Node's `Buffer` (line 43): a library call; it is the `encode` parameter, left uninterpreted.
- The database calls `findById` and `save` (lines 14, 48): the store is the `balances` map, read and updated in place. Exceptions they can throw (an id that is not a valid ObjectId, a failed save) also end in the catch block; the model covers only the service failure there.
- A request without `req.user` at all: destructuring throws a TypeError that becomes a failure with that message; the model assumes the authentication middleware set `req.user`.
- Prompts that are not strings (numbers, booleans, objects in the JSON body) and whose truthiness differs: the prompt is a string or missing.
- Balances that are not integers or exceed 2^53 (JavaScript numbers are doubles), and a record without a `creditBalance` field: balances are unbounded integers. server/models/userModel.js is not part of this model.
- Concurrent requests: the read at line 14 and the write at lines 47-48 are separated by the awaited service call, so two simultaneous requests from one user with one credit can both succeed. The model is sequential, so `NoOverspend` holds only for requests handled one after another.
- Logging of the error (line 57).
- The payment flow (client/src/pages/BuyCredit.jsx), the transaction schema (server/models/transactionModel.js), the server bootstrap (server/server.js) and all client UI components: presentation, external payment SDK, or declarations without operations.
