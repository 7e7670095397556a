/** A user's purchase list and the grant that the payment-verification route applies to it
    (server.js, `/api/payment/verify`, lines 189-202). */
module Ledger {

  /** Milliseconds since the epoch, the value of `new Date()` taken once per request. */
  type Timestamp = int

  datatype PurchaseRecord = PurchaseRecord(courseId: int, orderId: string, paymentId: string, purchasedAt: Timestamp)

  /** `purchasedCourses.some(c => c.courseId === courseId)`, scanned from the front. */
  function HasAccess(records: seq<PurchaseRecord>, courseId: int): (b: bool)
    ensures b <==> exists i :: 0 <= i < |records| && records[i].courseId == courseId
  {
    if records == [] then false
    else if records[0].courseId == courseId then true
    else
      var b := HasAccess(records[1..], courseId);
      assert b ==> exists i :: 0 <= i < |records| && records[i].courseId == courseId by {
        if b {
          var i :| 0 <= i < |records[1..]| && records[1..][i].courseId == courseId;
          assert records[i + 1].courseId == courseId;
        }
      }
      assert (exists i :: 0 <= i < |records| && records[i].courseId == courseId) ==> b by {
        if exists i :: 0 <= i < |records| && records[i].courseId == courseId {
          var i :| 0 <= i < |records| && records[i].courseId == courseId;
          assert records[1..][i - 1].courseId == courseId;
        }
      }
      b
  }

  /** At most one record per course. */
  predicate UniqueCourses(records: seq<PurchaseRecord>)
  {
    forall i, j :: 0 <= i < j < |records| ==> records[i].courseId != records[j].courseId
  }

  /** One step of the grant loop: append a record unless the course is already owned. */
  function GrantOne(records: seq<PurchaseRecord>, courseId: int, orderId: string, paymentId: string,
                    now: Timestamp): seq<PurchaseRecord>
  {
    if HasAccess(records, courseId) then records
    else records + [PurchaseRecord(courseId, orderId, paymentId, now)]
  }

  /** The whole grant: `courseIds` processed left to right, each step seeing the earlier appends. */
  function Granted(records: seq<PurchaseRecord>, courseIds: seq<int>, orderId: string, paymentId: string,
                   now: Timestamp): seq<PurchaseRecord>
    decreases |courseIds|
  {
    if courseIds == [] then records
    else Granted(GrantOne(records, courseIds[0], orderId, paymentId, now), courseIds[1..], orderId, paymentId, now)
  }

  /** Records are never removed: owning a course survives any longer list that starts with this one. */
  lemma AccessPersists(records: seq<PurchaseRecord>, longer: seq<PurchaseRecord>, courseId: int)
    requires records <= longer && HasAccess(records, courseId)
    ensures HasAccess(longer, courseId)
  {
    var i :| 0 <= i < |records| && records[i].courseId == courseId;
    assert longer[i] == records[i];
  }

  /** The grant only appends, and every appended record is for a requested course the list did
      not hold before, stamped with the submitted order id, payment id and the single `now`. */
  lemma {:induction false} GrantedAppends(records: seq<PurchaseRecord>, courseIds: seq<int>, orderId: string,
                                          paymentId: string, now: Timestamp)
    ensures var r := Granted(records, courseIds, orderId, paymentId, now);
      records <= r &&
      forall j :: |records| <= j < |r| ==>
        r[j].orderId == orderId && r[j].paymentId == paymentId && r[j].purchasedAt == now &&
        r[j].courseId in courseIds && !HasAccess(records, r[j].courseId)
    decreases |courseIds|
  {
    if courseIds != [] {
      var id := courseIds[0];
      var step := GrantOne(records, id, orderId, paymentId, now);
      var r := Granted(records, courseIds, orderId, paymentId, now);
      GrantedAppends(step, courseIds[1..], orderId, paymentId, now);
      assert r == Granted(step, courseIds[1..], orderId, paymentId, now);
      forall j | |records| <= j < |r|
        ensures r[j].orderId == orderId && r[j].paymentId == paymentId && r[j].purchasedAt == now
        ensures r[j].courseId in courseIds && !HasAccess(records, r[j].courseId)
      {
        if j < |step| {
          assert step == records + [PurchaseRecord(id, orderId, paymentId, now)];
          assert r[j] == step[j];
        } else {
          if HasAccess(records, r[j].courseId) {
            AccessPersists(records, step, r[j].courseId);
          }
        }
      }
    }
  }

  /** After the grant every requested id has a record, and every course owned before is still owned. */
  lemma {:induction false} GrantedCovers(records: seq<PurchaseRecord>, courseIds: seq<int>, orderId: string,
                                         paymentId: string, now: Timestamp)
    ensures var r := Granted(records, courseIds, orderId, paymentId, now);
      (forall id :: id in courseIds ==> HasAccess(r, id)) &&
      (forall id :: HasAccess(records, id) ==> HasAccess(r, id))
    decreases |courseIds|
  {
    var r := Granted(records, courseIds, orderId, paymentId, now);
    if courseIds != [] {
      var id := courseIds[0];
      var step := GrantOne(records, id, orderId, paymentId, now);
      GrantedCovers(step, courseIds[1..], orderId, paymentId, now);
      assert HasAccess(step, id) by {
        if !HasAccess(records, id) {
          assert step[|records|].courseId == id;
        }
      }
      forall c | HasAccess(records, c) ensures HasAccess(r, c) {
        AccessPersists(records, step, c);
      }
      forall c | c in courseIds ensures HasAccess(r, c) {
        if c != id { assert c in courseIds[1..]; }
      }
    }
  }

  /** With one record per course before the grant there is one per course after it, even when
      `courseIds` repeats a value. */
  lemma {:induction false} GrantedKeepsUnique(records: seq<PurchaseRecord>, courseIds: seq<int>, orderId: string,
                                              paymentId: string, now: Timestamp)
    requires UniqueCourses(records)
    ensures UniqueCourses(Granted(records, courseIds, orderId, paymentId, now))
    decreases |courseIds|
  {
    if courseIds != [] {
      var id := courseIds[0];
      var step := GrantOne(records, id, orderId, paymentId, now);
      assert UniqueCourses(step) by {
        if !HasAccess(records, id) {
          forall i, j | 0 <= i < j < |step| ensures step[i].courseId != step[j].courseId {
            if j == |records| {
              assert step[i] == records[i];
            }
          }
        }
      }
      GrantedKeepsUnique(step, courseIds[1..], orderId, paymentId, now);
    }
  }

  /** A grant of courses that are all owned already changes nothing. */
  lemma {:induction false} GrantOwnedIsNoop(records: seq<PurchaseRecord>, courseIds: seq<int>, orderId: string,
                                            paymentId: string, now: Timestamp)
    requires forall id :: id in courseIds ==> HasAccess(records, id)
    ensures Granted(records, courseIds, orderId, paymentId, now) == records
    decreases |courseIds|
  {
    if courseIds != [] {
      assert courseIds[0] in courseIds;
      assert forall id :: id in courseIds[1..] ==> id in courseIds;
      GrantOwnedIsNoop(records, courseIds[1..], orderId, paymentId, now);
    }
  }

  /** Resubmitting a verification is harmless: a second grant of the same ids leaves the list
      exactly as the first grant left it, whatever order id, payment id and time it carries. */
  lemma GrantedIdempotent(records: seq<PurchaseRecord>, courseIds: seq<int>, orderId: string, paymentId: string,
                          now: Timestamp, orderId': string, paymentId': string, later: Timestamp)
    ensures var once := Granted(records, courseIds, orderId, paymentId, now);
      Granted(once, courseIds, orderId', paymentId', later) == once
  {
    var once := Granted(records, courseIds, orderId, paymentId, now);
    GrantedCovers(records, courseIds, orderId, paymentId, now);
    GrantOwnedIsNoop(once, courseIds, orderId', paymentId', later);
  }

  /** Two grants in a row with the same payment stamp equal one grant of both id lists. */
  lemma {:induction false} GrantedConcat(records: seq<PurchaseRecord>, first: seq<int>, second: seq<int>,
                                         orderId: string, paymentId: string, now: Timestamp)
    ensures Granted(Granted(records, first, orderId, paymentId, now), second, orderId, paymentId, now)
         == Granted(records, first + second, orderId, paymentId, now)
    decreases |first|
  {
    if first != [] {
      assert (first + second)[0] == first[0];
      assert (first + second)[1..] == first[1..] + second;
      GrantedConcat(GrantOne(records, first[0], orderId, paymentId, now), first[1..], second, orderId, paymentId, now);
    } else {
      assert first + second == second;
    }
  }

  /** The stored user document, reduced to the part this core changes. */
  class User {
    var purchasedCourses: seq<PurchaseRecord>

    constructor (purchased: seq<PurchaseRecord>)
      ensures purchasedCourses == purchased
    {
      purchasedCourses := purchased;
    }

    /** The `courseIds.forEach` loop: push a record for each id not yet present, in place. */
    method Grant(courseIds: seq<int>, orderId: string, paymentId: string, now: Timestamp)
      modifies this
      ensures purchasedCourses == Granted(old(purchasedCourses), courseIds, orderId, paymentId, now)
      ensures forall id :: id in courseIds ==> HasAccess(purchasedCourses, id)
      ensures UniqueCourses(old(purchasedCourses)) ==> UniqueCourses(purchasedCourses)
    {
      var i := 0;
      while i < |courseIds|
        invariant 0 <= i <= |courseIds|
        invariant Granted(purchasedCourses, courseIds[i..], orderId, paymentId, now)
               == Granted(old(purchasedCourses), courseIds, orderId, paymentId, now)
      {
        var courseId := courseIds[i];
        if !HasAccess(purchasedCourses, courseId) {
          purchasedCourses := purchasedCourses + [PurchaseRecord(courseId, orderId, paymentId, now)];
        }
        assert courseIds[i..][1..] == courseIds[i + 1..];
        i := i + 1;
      }
      GrantedCovers(old(purchasedCourses), courseIds, orderId, paymentId, now);
      if UniqueCourses(old(purchasedCourses)) {
        GrantedKeepsUnique(old(purchasedCourses), courseIds, orderId, paymentId, now);
      }
    }
  }
}
