/**
 * Requests to `generateImage` handled one after another against one user
 * store. The handler keeps no state of its own besides the store, so a run
 * of requests is the handler applied in turn, each seeing the store the
 * previous one left. The lemmas here are the accounting that a single
 * request cannot show: every image costs exactly one credit, and a user can
 * never obtain more images than their balance allows.
 */
module RequestSequence {
  import opened Wrappers
  import opened ImageController

  /** One request together with what the text-to-image service did for it. */
  datatype Call = Call(req: Request, upstream: Upstream)

  /** The answers to `calls`, in order, and the store after the last of them. */
  function Run(m: Balances, calls: seq<Call>, encode: Bytes -> string): (r: (seq<Response>, Balances))
    ensures |r.0| == |calls|
    ensures r.1.Keys == m.Keys
    decreases |calls|
  {
    if calls == [] then ([], m)
    else
      var o := Handle(m, calls[0].req, calls[0].upstream, encode);
      var rest := Run(o.balances, calls[1..], encode);
      ([o.response] + rest.0, rest.1)
  }

  /** How many of the answers `rs` to `calls` are images generated for user `u`. */
  function Successes(u: UserId, calls: seq<Call>, rs: seq<Response>): (n: nat)
    requires |rs| == |calls|
    ensures n <= |calls|
    decreases |calls|
  {
    if calls == [] then 0
    else
      (if rs[0].Success? && calls[0].req.id == Some(u) then 1 else 0)
      + Successes(u, calls[1..], rs[1..])
  }

  /** Every image generated for `u` cost `u` exactly one credit, and nothing else changed `u`'s balance. */
  lemma {:induction false} CreditAccounting(m: Balances, calls: seq<Call>, encode: Bytes -> string, u: UserId)
    requires u in m
    ensures Run(m, calls, encode).1[u] == m[u] - Successes(u, calls, Run(m, calls, encode).0)
    decreases |calls|
  {
    if calls != [] {
      var o := Handle(m, calls[0].req, calls[0].upstream, encode);
      var rest := Run(o.balances, calls[1..], encode);
      CreditAccounting(o.balances, calls[1..], encode, u);
      assert ([o.response] + rest.0)[1..] == rest.0;
    }
  }

  /**
   * A user never obtains more images than the credits they started with; a
   * user with no credit obtains none.
   */
  lemma {:induction false} NoOverspend(m: Balances, calls: seq<Call>, encode: Bytes -> string, u: UserId)
    requires u in m
    ensures Successes(u, calls, Run(m, calls, encode).0) <= if m[u] > 0 then m[u] else 0
    decreases |calls|
  {
    if calls != [] {
      var o := Handle(m, calls[0].req, calls[0].upstream, encode);
      var rest := Run(o.balances, calls[1..], encode);
      NoOverspend(o.balances, calls[1..], encode, u);
      assert ([o.response] + rest.0)[1..] == rest.0;
    }
  }

  /** With a single credit left, at most one of any number of requests produces an image. */
  lemma OneCreditOneImage(m: Balances, calls: seq<Call>, encode: Bytes -> string, u: UserId)
    requires u in m && m[u] == 1
    ensures Successes(u, calls, Run(m, calls, encode).0) <= 1
  {
    NoOverspend(m, calls, encode, u);
  }

  /**
   * No run of requests drives a balance below zero; a balance that was
   * already negative is never lowered further.
   */
  lemma FloorOfBalance(m: Balances, calls: seq<Call>, encode: Bytes -> string, u: UserId)
    requires u in m
    ensures Run(m, calls, encode).1[u] >= if m[u] < 0 then m[u] else 0
  {
    CreditAccounting(m, calls, encode, u);
    NoOverspend(m, calls, encode, u);
  }

  /** A user who sends none of the requests keeps their balance. */
  lemma {:induction false} UnrequestedUnchanged(m: Balances, calls: seq<Call>, encode: Bytes -> string, u: UserId)
    requires u in m
    requires forall i :: 0 <= i < |calls| ==> calls[i].req.id != Some(u)
    ensures Run(m, calls, encode).1[u] == m[u]
    decreases |calls|
  {
    if calls != [] {
      var o := Handle(m, calls[0].req, calls[0].upstream, encode);
      assert calls[0].req.id != Some(u);
      assert forall i :: 0 <= i < |calls[1..]| ==> calls[1..][i] == calls[i + 1];
      UnrequestedUnchanged(o.balances, calls[1..], encode, u);
    }
  }
}
