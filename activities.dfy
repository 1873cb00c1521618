/** The records exchanged with the activity tracking service. */
module Activities {

  /** An activity as the listing endpoint returns it: its identifier, its
      `type` field as the service spells it ("Run", "Ride", "Walk", ...),
      its distance in metres and its average speed in metres per second. */
  datatype Activity = Activity(id: int, activityType: string, distance: real, averageSpeed: real)

  /** The two types a run can be changed to; they stand for the strings
      "Ride" and "Walk" sent in the update's `type` field. */
  datatype TargetType = Ride | Walk

  /** The new name "<km>km <Type>", kept as its two parts: the distance in
      kilometres and the type it ends with. */
  datatype ActivityName = ActivityName(distanceKm: real, suffix: TargetType)

  /** The payload of an update request: { id, type, name }. */
  datatype Update = Update(id: int, activityType: TargetType, name: ActivityName)

  /** The two ways the script aborts. The thrown errors carry only a
      message; the status field stands for the status of the failing
      response, which the script writes to its log before throwing. */
  datatype Error = FetchFailed(status: int) | UpdateFailed(status: int)

  /** An HTTP response is ok when its status lies in 200..299. */
  predicate IsOk(status: int) {
    200 <= status <= 299
  }
}
