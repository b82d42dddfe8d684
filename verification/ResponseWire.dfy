/** The responses on one connection (fasthttp/http.go:1797-1869, fasthttp/client.go:3415-3430).
    The server answers requests in the order in which they were written. A reader takes the
    header of an answer and then its body, unless it takes the body to be absent; a body that
    is left on the wire is what the next read finds in place of a header. */
module ResponseWire {
  import opened Common

  type WorkId = nat
  type RespId = nat                                // a Response of a caller

  /** The Response that a request is read into: the caller's, or the work's own copy. */
  datatype Target = Callers(r: RespId) | Copy(w: WorkId)

  /** One call: told apart by `id`, whether it is HEAD, and whether SkipBody was set in its
      Response when it began. DoDeadline hands its copy over to `copyTo`. */
  datatype Request = Request(id: nat, head: bool, skip: bool, into: Target, copyTo: Option<RespId>)

  /** Whether the status forbids a body (1xx, 204, 304), and whether one is meant to follow. */
  datatype Answer = Answer(bodiless: bool, body: bool)

  /** Section 6.3 of RFC 9112: no body behind an answer to HEAD or of such a status. */
  predicate HasBody(head: bool, a: Answer) { a.body && !head && !a.bodiless }

  /** Response.mustSkipBody, once the reader has raised SkipBody for HEAD. */
  predicate Skips(head: bool, skip: bool, a: Answer) { head || skip || a.bodiless }

  /** One response read: the written request whose answer it was, or None if it was parsed out
      of the bytes of a body. */
  datatype Response = Response(source: Option<nat>, answer: Answer)

  /** The answers from `next` on are still to come; `inBody` tells that bytes of an earlier
      body come before them. */
  datatype Wire = Wire(next: nat, inBody: bool, taken: seq<Response>)

  /** What a response parsed out of a body takes along: any number of answers, and perhaps not
      all of the body. */
  datatype Junk = Junk(swallowed: nat, still: bool)

  const FreshWire := Wire(0, false, [])

  /** Reads a response for req. None: the server owes nothing yet. */
  function ReadResponse(x: Wire, written: seq<Request>, req: Request, a: Answer, junk: Junk): Option<Wire> {
    if x.inBody then Some(Wire(x.next + junk.swallowed, junk.still, x.taken + [Response(None, a)]))
    else if x.next >= |written| then None
    else
      Some(Wire(x.next + 1, HasBody(written[x.next].head, a) && Skips(req.head, req.skip, a),
                x.taken + [Response(Some(x.next), a)]))
  }

  /** A request other than HEAD whose SkipBody was set when it began and whose answer has a body. */
  predicate Trap(req: Request, a: Answer) { req.skip && HasBody(req.head, a) }

  /** Every response so far was the one for its request, and so will the next one be. */
  ghost predicate InStep(x: Wire) {
    && (forall k :: 0 <= k < |x.taken| ==> x.taken[k].source == Some(k))
    && x.next == |x.taken| && !x.inBody
  }

  ghost predicate NoTrap(x: Wire, written: seq<Request>, n: nat)
    requires n <= |x.taken| <= |written|
  {
    forall k :: 0 <= k < n ==> !Trap(written[k], x.taken[k].answer)
  }

  // ---- what every read keeps

  /** Without a trap before it, a read finds the answer to its own request. */
  ghost predicate Sourced(x: Wire, written: seq<Request>, k: nat)
    requires k < |x.taken| <= |written|
  {
    NoTrap(x, written, k) ==> x.taken[k].source == Some(k)
  }

  /** Right behind a trap that was met in step comes the body. */
  ghost predicate Followed(x: Wire, written: seq<Request>, k: nat)
    requires k < |x.taken| <= |written|
  {
    x.taken[k].source == Some(k) && Trap(written[k], x.taken[k].answer) ==>
      if k + 1 < |x.taken| then x.taken[k + 1].source == None else x.inBody
  }

  ghost predicate WireOk(x: Wire, written: seq<Request>) {
    && |x.taken| <= |written|
    && (forall k :: 0 <= k < |x.taken| ==> Sourced(x, written, k) && Followed(x, written, k))
    && (NoTrap(x, written, |x.taken|) ==> x.next == |x.taken| && !x.inBody)
  }

  lemma OneRead(x: Wire, written: seq<Request>, k: nat)
    requires WireOk(x, written) && k < |x.taken|
    ensures Sourced(x, written, k) && Followed(x, written, k)
  {
  }

  lemma SameTraps(x: Wire, written: seq<Request>, more: seq<Request>, n: nat)
    requires n <= |x.taken| <= |written|
    ensures NoTrap(x, written + more, n) == NoTrap(x, written, n)
  {
    assert forall k :: 0 <= k < n ==> (written + more)[k] == written[k];
  }

  /** More requests do not change what was read. */
  lemma WireGrows(x: Wire, written: seq<Request>, more: seq<Request>)
    requires WireOk(x, written)
    ensures WireOk(x, written + more)
  {
    hide NoTrap;
    SameTraps(x, written, more, |x.taken|);
    forall k | 0 <= k < |x.taken| ensures Sourced(x, written + more, k) && Followed(x, written + more, k) {
      OneRead(x, written, k);
      SameTraps(x, written, more, k);
    }
  }

  lemma EarlierTraps(x: Wire, y: Wire, written: seq<Request>, n: nat)
    requires n <= |x.taken| <= |y.taken| <= |written| && x.taken <= y.taken
    ensures NoTrap(y, written, n) == NoTrap(x, written, n)
  {
    assert forall k :: 0 <= k < n ==> y.taken[k] == x.taken[k];
  }

  lemma NoTrapNext(x: Wire, written: seq<Request>, n: nat)
    requires n < |x.taken| <= |written|
    ensures NoTrap(x, written, n + 1) <==> NoTrap(x, written, n) && !Trap(written[n], x.taken[n].answer)
  {
    if NoTrap(x, written, n) && !Trap(written[n], x.taken[n].answer) {
      forall k | 0 <= k < n + 1 ensures !Trap(written[k], x.taken[k].answer) {}
    }
  }

  lemma ReadKeeps(x: Wire, written: seq<Request>, a: Answer, junk: Junk)
    requires WireOk(x, written) && |x.taken| < |written|
    ensures var r := ReadResponse(x, written, written[|x.taken|], a, junk); r.Some? ==> WireOk(r.value, written)
  {
    hide WireOk, NoTrap;
    var n := |x.taken|;
    var r := ReadResponse(x, written, written[n], a, junk);
    if r.Some? {
      var y := r.value;
      InStepSoFar(x, written);
      EarlierTraps(x, y, written, n);
      NoTrapNext(y, written, n);
      forall k | 0 <= k < n + 1 ensures Sourced(y, written, k) && Followed(y, written, k) {
        if k < n {
          OneRead(x, written, k);
          EarlierTraps(x, y, written, k);
        }
      }
      WireFrom(y, written);
    }
  }

  lemma InStepSoFar(x: Wire, written: seq<Request>)
    requires WireOk(x, written)
    ensures |x.taken| <= |written| && (NoTrap(x, written, |x.taken|) ==> x.next == |x.taken| && !x.inBody)
  {
  }

  lemma WireFrom(x: Wire, written: seq<Request>)
    requires |x.taken| <= |written|
    requires forall k :: 0 <= k < |x.taken| ==> Sourced(x, written, k) && Followed(x, written, k)
    requires NoTrap(x, written, |x.taken|) ==> x.next == |x.taken| && !x.inBody
    ensures WireOk(x, written)
  {
  }

  /** Responses go to their own requests exactly as long as no request other than HEAD that
      began with SkipBody set is answered with a body. */
  lemma InStepExactly(x: Wire, written: seq<Request>)
    requires WireOk(x, written)
    ensures InStep(x) <==> NoTrap(x, written, |x.taken|)
  {
    if NoTrap(x, written, |x.taken|) {
      forall k | 0 <= k < |x.taken| ensures x.taken[k].source == Some(k) {
        OneRead(x, written, k);
        assert NoTrap(x, written, k);
      }
    }
    if InStep(x) {
      forall k | 0 <= k < |x.taken| ensures !Trap(written[k], x.taken[k].answer) { InStepNoTrap(x, written, k); }
    }
  }

  lemma InStepNoTrap(x: Wire, written: seq<Request>, k: nat)
    requires k < |x.taken| <= |written| && Followed(x, written, k) && InStep(x)
    ensures !Trap(written[k], x.taken[k].answer)
  {
    assert x.taken[k].source == Some(k);
    assert k + 1 < |x.taken| ==> x.taken[k + 1].source == Some(k + 1);
  }
}
