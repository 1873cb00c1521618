/** The per-activity decision of the main loop of fix-activity-type.js:
    skip what is not a run, turn a run that is too fast into a ride and one
    that is too slow into a walk, and leave every other run alone. */
module Classifier {
  import opened Wrappers
  import opened Rounding
  import opened Activities

  /** The update the script sends for activity a, if any. The speed checks
      use the rounded km/h value and strict comparisons, and the check
      against the maximum comes first. */
  function Classify(a: Activity, minKmh: real, maxKmh: real): (r: Option<Update>)
    ensures r.Some? ==> a.activityType == "Run"
    ensures r.Some? ==> r.value.id == a.id
    ensures r.Some? ==> r.value.name == ActivityName(DistanceKm(a.distance), r.value.activityType)
    ensures r.Some? && r.value.activityType == Ride <==>
              a.activityType == "Run" && AverageSpeedKmph(a.averageSpeed) > maxKmh
    ensures r.Some? && r.value.activityType == Walk <==>
              a.activityType == "Run" && minKmh > AverageSpeedKmph(a.averageSpeed) && AverageSpeedKmph(a.averageSpeed) <= maxKmh
    ensures r.None? <==>
              a.activityType != "Run" || minKmh <= AverageSpeedKmph(a.averageSpeed) <= maxKmh
  {
    if a.activityType != "Run" then
      None
    else
      var speedKmh := AverageSpeedKmph(a.averageSpeed);
      if speedKmh > maxKmh then
        Some(Update(a.id, Ride, ActivityName(DistanceKm(a.distance), Ride)))
      else if speedKmh < minKmh then
        Some(Update(a.id, Walk, ActivityName(DistanceKm(a.distance), Walk)))
      else
        None
  }

  /** With thresholds given to two decimals, a run becomes a ride exactly
      when its unrounded speed is at least half a hundredth above the
      maximum, and a walk exactly when it is more than half a hundredth
      below the minimum (and not a ride). */
  lemma {:induction false} ClassifyByExactSpeed(a: Activity, minKmh: real, maxKmh: real)
    requires a.activityType == "Run"
    requires IsHundredth(minKmh) && IsHundredth(maxKmh)
    ensures Classify(a, minKmh, maxKmh) == Some(Update(a.id, Ride, ActivityName(DistanceKm(a.distance), Ride))) <==>
              a.averageSpeed * 3.6 >= maxKmh + 0.005
    ensures Classify(a, minKmh, maxKmh) == Some(Update(a.id, Walk, ActivityName(DistanceKm(a.distance), Walk))) <==>
              minKmh - 0.005 > a.averageSpeed * 3.6 && a.averageSpeed * 3.6 < maxKmh + 0.005
    ensures Classify(a, minKmh, maxKmh) == None <==>
              minKmh - 0.005 <= a.averageSpeed * 3.6 < maxKmh + 0.005
  {
    RoundedAboveIff(a.averageSpeed * 3.6, maxKmh);
    RoundedBelowIff(a.averageSpeed * 3.6, minKmh);
  }

  /** A run at 5 m/s (18 km/h) over 10000 m with a maximum of 15 km/h
      becomes "10km Ride". */
  lemma ExampleTooFast(minKmh: real)
    ensures Classify(Activity(1, "Run", 10000.0, 5.0), minKmh, 15.0)
              == Some(Update(1, Ride, ActivityName(10.0, Ride)))
  {
  }

  /** A run at 1 m/s (3.6 km/h) over 10000 m with a minimum of 4 km/h and a
      maximum of 15 km/h becomes "10km Walk". */
  lemma ExampleTooSlow()
    ensures Classify(Activity(1, "Run", 10000.0, 1.0), 4.0, 15.0)
              == Some(Update(1, Walk, ActivityName(10.0, Walk)))
  {
  }
}
