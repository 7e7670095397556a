/** Payment verification (server.js, `/api/payment/verify`, lines 176-209): the signature gate
    in front of the purchase grant. */
module Payment {
  import opened Wrappers
  import opened Text
  import opened Ledger

  /** The text the provider signs: order id, a vertical bar, payment id. */
  function SignedMessage(orderId: string, paymentId: string): string
  {
    orderId + "|" + paymentId
  }

  /** Reads a signed message back, cutting at its first vertical bar. */
  function ParseMessage(message: string): Option<(string, string)>
  {
    var i := IndexOf(message, '|');
    if i == |message| then None else Some((message[..i], message[i + 1..]))
  }

  /** The message determines the pair it was built from when the order id has no vertical bar
      (provider order ids are `order_` followed by letters and digits). */
  lemma MessageRoundTrip(orderId: string, paymentId: string)
    requires '|' !in orderId
    ensures ParseMessage(SignedMessage(orderId, paymentId)) == Some((orderId, paymentId))
  {
    var m := SignedMessage(orderId, paymentId);
    assert forall j :: 0 <= j < |orderId| ==> m[j] == orderId[j];
    IndexOfAt(m, '|', |orderId|);
    assert m[..|orderId|] == orderId;
    assert m[|orderId| + 1..] == paymentId;
  }

  /** Without that condition the bar may move between the two ids and the signature still
      matches, since only the concatenation is signed. */
  lemma MessageShiftsBar(a: string, b: string, c: string)
    ensures SignedMessage(a + "|" + b, c) == SignedMessage(a, b + "|" + c)
  {
  }

  datatype VerifyRequest = VerifyRequest(orderId: string, paymentId: string, signature: string, courseIds: seq<int>)

  /** 400 "Invalid signature", 500 "Payment verification failed", or 200 `{ success: true }`. */
  datatype VerifyOutcome = InvalidSignature | VerificationFailed | Verified

  /** The verify route. `hmacSha256Hex(key, message)` stands for the hex digest of the keyed hash,
      `keySecret` for the server's provider secret, and `user` for the result of looking up the
      authenticated caller (null when absent). The course ids are the client's own: nothing ties
      them to the paid order or to the catalog. */
  method Verify(hmacSha256Hex: (string, string) -> string, keySecret: string, user: User?,
                req: VerifyRequest, now: Timestamp) returns (r: VerifyOutcome)
    modifies user
    ensures var expected := hmacSha256Hex(keySecret, SignedMessage(req.orderId, req.paymentId));
      (r == InvalidSignature <==> expected != req.signature) &&
      (r == VerificationFailed <==> expected == req.signature && user == null)
    ensures r != Verified ==> user == null || user.purchasedCourses == old(user.purchasedCourses)
    ensures r == Verified ==>
      user != null && user.purchasedCourses == Granted(old(user.purchasedCourses), req.courseIds, req.orderId, req.paymentId, now)
    ensures r == Verified ==> forall id :: id in req.courseIds ==> HasAccess(user.purchasedCourses, id)
  {
    var sign := SignedMessage(req.orderId, req.paymentId);
    var expectedSign := hmacSha256Hex(keySecret, sign);
    if expectedSign != req.signature {
      return InvalidSignature;
    }
    if user == null {
      return VerificationFailed;
    }
    user.Grant(req.courseIds, req.orderId, req.paymentId, now);
    r := Verified;
  }
}
