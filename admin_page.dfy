/** The admin panel's request tab: the values it derives from each request as the
    requests listing returns it (supporters against the goal, the progress bar's
    colour and width, the status badge, the goal form's defaults) and the summary
    counts above the table. The page does arithmetic on the goal as JavaScript
    does, so a missing goal behaves as 0. */
module AdminPage {
  import opened Basics
  import opened Schema

  const DefaultGoalText := "10"

  /** What the panel reads of one request; `supports` is None when the listing
      sent no supporter list. */
  datatype AdminRequest = AdminRequest(
    status: string,
    goal: Option<int>,
    adminNotes: Option<string>,
    supports: Option<seq<int>>)

  /** `requestSupports?.length || 0`. */
  function SupportCount(r: AdminRequest): (n: nat)
    ensures r.supports.None? ==> n == 0
    ensures r.supports.Some? ==> n == |r.supports.value|
  {
    if r.supports.Some? then |r.supports.value| else 0
  }

  /** The goal as the page's arithmetic sees it: null reads as 0. */
  function GoalValue(r: AdminRequest): int {
    r.goal.GetOr(0)
  }

  /** The label beside the count. */
  datatype ProgressLabel = MoreNeeded(count: int) | GoalReached

  /** "N more needed" while the supporters fall short of the goal, with N the
      shortfall; "Goal reached" otherwise. */
  function Label(r: AdminRequest): (shown: ProgressLabel)
    ensures shown.MoreNeeded? <==> SupportCount(r) < GoalValue(r)
    ensures shown.MoreNeeded? ==> shown.count > 0 && shown.count + SupportCount(r) == GoalValue(r)
  {
    var shortfall := GoalValue(r) - SupportCount(r);
    if shortfall > 0 then MoreNeeded(shortfall) else GoalReached
  }

  datatype BarColour = Green | Yellow | Blue

  /** Green once the goal is met, yellow from 70% of it, blue below. */
  function Colour(r: AdminRequest): (c: BarColour)
    ensures c == Green <==> SupportCount(r) >= GoalValue(r)
    ensures c == Yellow <==> 0.7 * GoalValue(r) as real <= SupportCount(r) as real < GoalValue(r) as real
    ensures c == Blue <==> (SupportCount(r) as real) < 0.7 * GoalValue(r) as real
  {
    var count := SupportCount(r);
    if count >= GoalValue(r) then Green
    else if count as real >= GoalValue(r) as real * 0.7 then Yellow
    else Blue
  }

  /** The bar is green exactly when the label says the goal is reached. */
  lemma GreenIffGoalReached(r: AdminRequest)
    ensures Colour(r) == Green <==> Label(r) == GoalReached
  {
  }

  /** The bar's CSS width: a percentage, or NaN for 0 / 0. */
  datatype Width = Percent(percent: real) | NotANumber

  /** `min(100, count / goal * 100)`. Dividing by a zero goal gives Infinity
      (capped to 100) when there are supporters and NaN when there are none. */
  function BarWidth(r: AdminRequest): (w: Width)
    ensures GoalValue(r) > 0 ==> w.Percent? && 0.0 <= w.percent <= 100.0
    ensures GoalValue(r) > 0 ==> (w.percent == 100.0 <==> SupportCount(r) >= GoalValue(r))
    ensures GoalValue(r) > 0 ==> w.percent * GoalValue(r) as real == 100.0 * SupportCount(r) as real ||
                                 w.percent == 100.0
    ensures GoalValue(r) == 0 && SupportCount(r) == 0 ==> w == NotANumber
    ensures GoalValue(r) == 0 && SupportCount(r) > 0 ==> w == Percent(100.0)
  {
    var count := SupportCount(r) as real;
    var goal := GoalValue(r) as real;
    if goal == 0.0 then (if count == 0.0 then NotANumber else Percent(100.0))
    else
      var ratio := count / goal * 100.0;
      assert goal > 0.0 ==> ratio >= 0.0 && (ratio >= 100.0 <==> count >= goal) by {
        if goal > 0.0 {
          assert ratio * goal == count * 100.0;
          if ratio < 100.0 {
            assert ratio * goal < 100.0 * goal;
          } else {
            assert ratio * goal >= 100.0 * goal;
          }
        }
      }
      Percent(if ratio <= 100.0 then ratio else 100.0)
  }

  /** With a positive goal the bar is full exactly when it is green. */
  lemma FullBarIffGreen(r: AdminRequest)
    requires GoalValue(r) > 0
    ensures BarWidth(r) == Percent(100.0) <==> Colour(r) == Green
  {
  }

  /** `requests.filter(r => r.status === status).length`. */
  function CountStatus(requests: seq<AdminRequest>, status: string): (n: nat)
    ensures n <= |requests|
  {
    if requests == [] then 0
    else
      CountStatus(requests[..|requests| - 1], status) + (if requests[|requests| - 1].status == status then 1 else 0)
  }

  /** The predicate of the status filter. */
  function WithStatus(status: string): AdminRequest -> bool {
    (q: AdminRequest) => q.status == status
  }

  /** The count is the length of the filtered list: exactly the requests with
      that status, each counted once per occurrence. */
  lemma {:induction false} CountStatusIsFilterLength(requests: seq<AdminRequest>, status: string)
    ensures CountStatus(requests, status) == |Filter(requests, WithStatus(status))|
  {
    if requests != [] {
      var front := requests[..|requests| - 1];
      var last := requests[|requests| - 1];
      assert requests == front + [last];
      FilterAppend(front, [last], WithStatus(status));
      assert [last][1..] == [];
      assert Filter([last], WithStatus(status)) == (if last.status == status then [last] else []);
      CountStatusIsFilterLength(front, status);
    }
  }

  /** Two different statuses never count the same request, so their counts add up
      to at most the number of requests; in particular pending plus approved is at
      most the total shown. */
  lemma {:induction false} StatusCountsDisjoint(requests: seq<AdminRequest>, status: string, otherStatus: string)
    requires status != otherStatus
    ensures CountStatus(requests, status) + CountStatus(requests, otherStatus) <= |requests|
  {
    if requests != [] {
      StatusCountsDisjoint(requests[..|requests| - 1], status, otherStatus);
    }
  }

  lemma PendingPlusApprovedAtMostTotal(requests: seq<AdminRequest>)
    ensures CountStatus(requests, PendingStatus) + CountStatus(requests, ApprovedStatus) <= |requests|
  {
    StatusCountsDisjoint(requests, PendingStatus, ApprovedStatus);
  }

  /** The `reduce` that sums the supporter counts. */
  function TotalSupporters(requests: seq<AdminRequest>): nat {
    if requests == [] then 0
    else TotalSupporters(requests[..|requests| - 1]) + SupportCount(requests[|requests| - 1])
  }

  /** The total splits over any division of the list: every request contributes
      its own count once. */
  lemma {:induction false} TotalSupportersAppend(a: seq<AdminRequest>, b: seq<AdminRequest>)
    ensures TotalSupporters(a + b) == TotalSupporters(a) + TotalSupporters(b)
    decreases |b|
  {
    if b != [] {
      var front := b[..|b| - 1];
      assert (a + b)[..|a + b| - 1] == a + front;
      assert (a + b)[|a + b| - 1] == b[|b| - 1];
      TotalSupportersAppend(a, front);
    } else {
      assert a + b == a;
    }
  }

  /** A request without a supporter list adds nothing to the total. */
  lemma MissingListCountsZero(requests: seq<AdminRequest>, r: AdminRequest)
    requires r.supports.None?
    ensures TotalSupporters(requests + [r]) == TotalSupporters(requests)
  {
    assert (requests + [r])[..|requests|] == requests;
  }

  /** The goal form's initial contents. */
  datatype GoalForm = GoalForm(goal: string, adminNotes: string)

  /** handleSetGoal: the existing goal written out (a goal of 0 included, since
      "0" is not empty), "10" only when there is none; the notes or "". */
  function GoalFormFor(r: AdminRequest): (form: GoalForm)
    ensures r.goal.Some? ==> ParseInt(form.goal) == r.goal
    ensures r.goal.None? ==> form.goal == DefaultGoalText && ParseInt(form.goal) == Some(10)
    ensures form.adminNotes == r.adminNotes.GetOr("")
  {
    var written := if r.goal.Some? then IntToString(r.goal.value) else "";
    var form := GoalForm(if written != "" then written else DefaultGoalText,
                         if r.adminNotes.Some? && r.adminNotes.value != "" then r.adminNotes.value else "");
    if r.goal.Some? then
      ParseIntToString(r.goal.value);
      form
    else
      ReadsAllDigits(10);
      assert NatToString(10) == DefaultGoalText;
      form
  }

  datatype Badge = GreenBadge | RedBadge | BlueBadge | YellowBadge

  /** The status badge: approved, rejected and fulfilled have their own colours;
      every other status, pending included, is shown yellow. */
  function StatusBadge(status: string): (b: Badge)
    ensures b == GreenBadge <==> status == ApprovedStatus
    ensures b == RedBadge <==> status == RejectedStatus
    ensures b == BlueBadge <==> status == FulfilledStatus
    ensures b == YellowBadge <==> status !in {ApprovedStatus, RejectedStatus, FulfilledStatus}
  {
    if status == ApprovedStatus then GreenBadge
    else if status == RejectedStatus then RedBadge
    else if status == FulfilledStatus then BlueBadge
    else YellowBadge
  }
}
