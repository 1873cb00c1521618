/** updateActivity and the main loop of fix-activity-type.js: classify the
    fetched activities in order, send each update as soon as it is
    decided, and stop at the first update the service refuses. The service's
    answer to an update is a function from the payload to a status. */
module Updater {
  import opened Wrappers
  import opened Activities
  import opened Classifier
  import opened Fetcher

  /** updateActivity: one PUT of the payload; a status that is not ok
      aborts with an update error. */
  function UpdateActivity(update: Update, updateStatus: Update -> int): (o: Outcome<Error>)
    ensures o.Pass? <==> IsOk(updateStatus(update))
    ensures o.Fail? ==> o.error == UpdateFailed(updateStatus(update))
  {
    var status := updateStatus(update);
    if IsOk(status) then Pass else Fail(UpdateFailed(status))
  }

  /** The updates the loop decides on for activities, in their order. */
  function PlannedUpdates(activities: seq<Activity>, minKmh: real, maxKmh: real): seq<Update> {
    if activities == [] then []
    else
      var last := activities[|activities| - 1];
      PlannedUpdates(activities[..|activities| - 1], minKmh, maxKmh)
      + match Classify(last, minKmh, maxKmh) case Some(u) => [u] case None => []
  }

  /** Deciding on a longer list never withdraws an earlier decision. */
  lemma {:induction false} PlannedUpdatesPrefix(activities: seq<Activity>, n: nat, minKmh: real, maxKmh: real)
    requires n <= |activities|
    ensures PlannedUpdates(activities[..n], minKmh, maxKmh) <= PlannedUpdates(activities, minKmh, maxKmh)
    decreases |activities|
  {
    if n < |activities| {
      var init := activities[..|activities| - 1];
      assert activities[..n] == init[..n];
      PlannedUpdatesPrefix(init, n, minKmh, maxKmh);
    } else {
      assert activities[..n] == activities;
    }
  }

  /** Every planned update is the decision for one of the activities, so it
      changes a run, keeps that run's id and carries its rounded distance. */
  lemma {:induction false} PlannedUpdatesFromRuns(activities: seq<Activity>, minKmh: real, maxKmh: real, u: Update)
    requires u in PlannedUpdates(activities, minKmh, maxKmh)
    ensures exists a :: a in activities && a.activityType == "Run" && a.id == u.id && Classify(a, minKmh, maxKmh) == Some(u)
    decreases |activities|
  {
    var init := activities[..|activities| - 1];
    var last := activities[|activities| - 1];
    if u in PlannedUpdates(init, minKmh, maxKmh) {
      PlannedUpdatesFromRuns(init, minKmh, maxKmh, u);
      var a :| a in init && a.activityType == "Run" && a.id == u.id && Classify(a, minKmh, maxKmh) == Some(u);
      assert a in activities;
    } else {
      assert Classify(last, minKmh, maxKmh) == Some(u);
    }
  }

  /** Each activity contributes its own decision and nothing else: the plan
      for two lists one after the other is the two plans one after the
      other. */
  lemma {:induction false} PlannedUpdatesAppend(xs: seq<Activity>, ys: seq<Activity>, minKmh: real, maxKmh: real)
    ensures PlannedUpdates(xs + ys, minKmh, maxKmh) ==
            PlannedUpdates(xs, minKmh, maxKmh) + PlannedUpdates(ys, minKmh, maxKmh)
    decreases |ys|
  {
    if ys == [] {
      assert xs + ys == xs;
    } else {
      var ysInit := ys[..|ys| - 1];
      assert (xs + ys)[..|xs + ys| - 1] == xs + ysInit;
      PlannedUpdatesAppend(xs, ysInit, minKmh, maxKmh);
    }
  }

  /** The main loop over the fetched activities. sent lists the update
      requests issued, in order; the last one is the refused one when the
      loop aborts. */
  method ProcessActivities(activities: seq<Activity>, minKmh: real, maxKmh: real, updateStatus: Update -> int)
    returns (outcome: Outcome<Error>, sent: seq<Update>)
    ensures sent <= PlannedUpdates(activities, minKmh, maxKmh)
    ensures forall i :: 0 <= i < |sent| - 1 ==> IsOk(updateStatus(sent[i]))
    ensures outcome.Pass? <==>
            sent == PlannedUpdates(activities, minKmh, maxKmh) && forall u :: u in sent ==> IsOk(updateStatus(u))
    ensures outcome.Fail? ==>
            sent != [] && !IsOk(updateStatus(sent[|sent| - 1])) &&
            outcome.error == UpdateFailed(updateStatus(sent[|sent| - 1]))
  {
    sent := [];
    for i := 0 to |activities|
      invariant sent == PlannedUpdates(activities[..i], minKmh, maxKmh)
      invariant forall u :: u in sent ==> IsOk(updateStatus(u))
    {
      assert activities[..i + 1][..i] == activities[..i];
      match Classify(activities[i], minKmh, maxKmh)
      case None =>
      case Some(update) =>
        sent := sent + [update];
        var o := UpdateActivity(update, updateStatus);
        if o.Fail? {
          PlannedUpdatesPrefix(activities, i + 1, minKmh, maxKmh);
          outcome := o;
          return;
        }
    }
    assert activities[..|activities|] == activities;
    outcome := Pass;
  }

  /** The whole script: fetch every activity, then process them. A failed
      fetch sends no update at all. */
  method FixActivityTypes(listing: Request -> Response, before: int, ghost bound: nat,
                          minKmh: real, maxKmh: real, updateStatus: Update -> int)
    returns (outcome: Outcome<Error>, requests: seq<Request>, sent: seq<Update>)
    requires 1 <= bound && Stops(Page(listing, before, bound))
    ensures IsFirstStop(listing, before, |requests|)
    ensures forall i :: 0 <= i < |requests| ==> requests[i] == Request(before, 0, i + 1, PerPage)
    ensures var last := Page(listing, before, |requests|);
            !IsOk(last.status) ==> outcome == Fail(FetchFailed(last.status)) && sent == []
    ensures var last := Page(listing, before, |requests|);
            var plan := PlannedUpdates(Concat(listing, before, |requests|), minKmh, maxKmh);
            IsOk(last.status) ==>
              && sent <= plan
              && (outcome.Pass? <==> sent == plan && forall u :: u in sent ==> IsOk(updateStatus(u)))
              && (forall i :: 0 <= i < |sent| - 1 ==> IsOk(updateStatus(sent[i])))
              && (outcome.Fail? ==>
                    sent != [] && !IsOk(updateStatus(sent[|sent| - 1])) &&
                    outcome.error == UpdateFailed(updateStatus(sent[|sent| - 1])))
  {
    var fetched;
    fetched, requests := FetchAllActivities(listing, before, bound);
    match fetched
    case Failure(e) =>
      outcome, sent := Fail(e), [];
    case Success(allActivities) =>
      outcome, sent := ProcessActivities(allActivities, minKmh, maxKmh, updateStatus);
  }
}
