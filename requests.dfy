/** The requests route: listing product requests with their derived demand and
    progress (GET), and creating a request (POST). */
module Requests {
  import opened Basics
  import opened Schema

  /** `request.goal ? … : 0`: a goal takes part only when it is set and non-zero. */
  predicate HasGoal(goal: Option<int>) {
    goal.Some? && goal.value != 0
  }

  /** The requester's amount, plus the same amount again for every supporter
      (`amountWanted || 0` turns a missing amount into 0). */
  function TotalRequested(amountWanted: Option<real>, supporterCount: nat): (total: real)
    ensures total == amountWanted.GetOr(0.0) * (1 + supporterCount) as real
    ensures amountWanted.None? ==> total == 0.0
  {
    var initialAmount := amountWanted.GetOr(0.0);
    var supportersAmount := supporterCount as real * initialAmount;
    initialAmount + supportersAmount
  }

  /** `min(100, total / goal * 100)` against a set goal, 0 without one. */
  function ProgressPercentage(total: real, goal: Option<int>): (p: real)
    ensures !HasGoal(goal) ==> p == 0.0
    ensures HasGoal(goal) && goal.value > 0 ==>
              p <= 100.0 && (total >= 0.0 ==> p >= 0.0) && (p == 100.0 <==> total >= goal.value as real)
    // below the goal, the share of the goal reached, in percent
    ensures HasGoal(goal) && goal.value > 0 && total < goal.value as real ==>
              p * goal.value as real == total * 100.0
  {
    if HasGoal(goal) then
      var g := goal.value as real;
      var ratio := total / g * 100.0;
      assert g > 0.0 ==> ratio * g == total * 100.0 &&
                         (ratio >= 100.0 <==> total >= g) && (total >= 0.0 ==> ratio >= 0.0) by {
        if g > 0.0 {
          assert ratio * g == total * 100.0;
        }
      }
      MinReal(100.0, ratio)
    else 0.0
  }

  /** `max(0, goal - total)` against a set goal, 0 without one. */
  function RemainingNeeded(total: real, goal: Option<int>): (n: real)
    ensures n >= 0.0
    ensures !HasGoal(goal) ==> n == 0.0
    ensures HasGoal(goal) && total < goal.value as real ==> n == goal.value as real - total
    ensures HasGoal(goal) && total >= goal.value as real ==> n == 0.0
  {
    if HasGoal(goal) then MaxReal(0.0, goal.value as real - total) else 0.0
  }

  /** A stored request with the three derived values added to it. */
  datatype RequestWithProgress = RequestWithProgress(
    request: ProductRequest,
    totalRequested: real,
    progressPercentage: real,
    remainingNeeded: real)

  /** One listing entry: the row kept whole, its demand over the requester and
      every supporter, and that demand measured against the row's own goal. */
  function WithProgress(request: ProductRequest): (r: RequestWithProgress)
    ensures r.request == request
    ensures r.totalRequested == request.amountWanted.GetOr(0.0) * (1 + |request.supporters|) as real
    ensures r.progressPercentage == ProgressPercentage(r.totalRequested, request.goal)
    ensures r.remainingNeeded == RemainingNeeded(r.totalRequested, request.goal)
    ensures !HasGoal(request.goal) ==> r.progressPercentage == 0.0 && r.remainingNeeded == 0.0
    ensures r.remainingNeeded >= 0.0
  {
    var total := TotalRequested(request.amountWanted, |request.supporters|);
    RequestWithProgress(request, total, ProgressPercentage(total, request.goal),
                        RemainingNeeded(total, request.goal))
  }

  /** The `map` over the query result: one entry per row, in the same order,
      each row kept whole. */
  function AllWithProgress(rows: seq<ProductRequest>): (r: seq<RequestWithProgress>)
    ensures |r| == |rows|
    ensures forall i :: 0 <= i < |rows| ==> r[i] == WithProgress(rows[i])
  {
    seq(|rows|, i requires 0 <= i < |rows| => WithProgress(rows[i]))
  }

  /** GET /api/requests: every request, newest first, with its progress. */
  function ListRequests(db: Db): (r: seq<RequestWithProgress>)
    ensures |r| == |db.requests|
    ensures forall i :: 0 <= i < |r| ==> r[i] == WithProgress(db.requests[|db.requests| - 1 - i])
  {
    var newest := NewestFirst(db.requests);
    forall i | 0 <= i < |db.requests| ensures newest[i] == db.requests[|db.requests| - 1 - i] {
      NewestFirstAt(db.requests, i);
    }
    AllWithProgress(newest)
  }

  /** A request for 2 units with 3 supporters against a goal of 10 stands at
      8 units, 80 percent, 2 units short. */
  lemma WorkedExample()
    ensures TotalRequested(Some(2.0), 3) == 8.0
    ensures ProgressPercentage(8.0, Some(10)) == 80.0
    ensures RemainingNeeded(8.0, Some(10)) == 2.0
  {
  }

  /** With a non-negative amount and a goal that is unset or positive, one more
      supporter never lowers the total or the progress. (A negative goal, which
      nothing forbids, reverses the progress.) */
  lemma AddingSupporterNeverLowersProgress(amount: real, supporterCount: nat, goal: Option<int>)
    requires amount >= 0.0
    requires goal.Some? ==> goal.value >= 0
    ensures TotalRequested(Some(amount), supporterCount) <= TotalRequested(Some(amount), supporterCount + 1)
    ensures ProgressPercentage(TotalRequested(Some(amount), supporterCount), goal)
            <= ProgressPercentage(TotalRequested(Some(amount), supporterCount + 1), goal)
  {
    var before := TotalRequested(Some(amount), supporterCount);
    var after := TotalRequested(Some(amount), supporterCount + 1);
    assert after == before + amount;
    if HasGoal(goal) {
      var g := goal.value as real;
      assert g > 0.0;
      assert amount / g >= 0.0;
      assert after / g == before / g + amount / g;
      assert after / g * 100.0 == before / g * 100.0 + amount / g * 100.0;
    }
  }

  /** The fields of the request body that are stored. `amountWanted` is None when
      the body's field is falsy (missing, empty or 0) and the parsed number
      otherwise. */
  datatype NewRequest = NewRequest(
    productName: string,
    description: string,
    priceRange: Option<string>,
    amountWanted: Option<real>)

  /** The row the request insert writes: the caller as requester, status
      "pending", no goal, no notes and no supporters yet. */
  function RequestRow(db: Db, userId: int, input: NewRequest): ProductRequest {
    ProductRequest(db.nextRequestId, userId, input.productName, input.description, input.priceRange,
                   input.amountWanted, None, None, PendingStatus, [])
  }

  /** POST /api/requests. `insertFails` stands for the database rejecting the
      single insert. */
  function CreateRequest(db: Db, session: Option<Session>, input: NewRequest, insertFails: bool): (s: Step<ProductRequest>)
    ensures session.None? ==> s == Step(Err(Unauthorized), db)
    ensures session.Some? && insertFails ==> s == Step(Err(Unexpected), db)
    ensures s.result.Ok? <==> session.Some? && !insertFails
    ensures s.result.Ok? ==>
              var r := s.result.value;
              r.userId == session.value.userId && r.status == PendingStatus &&
              r.productName == input.productName && r.description == input.description &&
              r.priceRange == input.priceRange && r.amountWanted == input.amountWanted &&
              r.goal.None? && r.supporters == [] && r.id == db.nextRequestId &&
              s.db == db.(requests := db.requests + [r], nextRequestId := db.nextRequestId + 1)
  {
    if session.None? then Step(Err(Unauthorized), db)
    else if insertFails then Step(Err(Unexpected), db)
    else
      var row := RequestRow(db, session.value.userId, input);
      Step(Ok(row), db.(requests := db.requests + [row], nextRequestId := db.nextRequestId + 1))
  }

  lemma CreateRequestKeepsWellFormed(db: Db, session: Option<Session>, input: NewRequest, insertFails: bool)
    requires WellFormed(db)
    ensures WellFormed(CreateRequest(db, session, input, insertFails).db)
  {
    var s := CreateRequest(db, session, input, insertFails);
    forall i | 0 <= i < |s.db.requests|
      ensures s.db.requests[i].id < s.db.nextRequestId
    {
      if i < |db.requests| { assert s.db.requests[i] == db.requests[i]; }
    }
  }
}
