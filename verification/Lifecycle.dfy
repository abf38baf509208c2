/** Lifecycle transitions of an event: which webhook, if any, an upsert fires. */
module Lifecycle {
  import opened Wrappers
  import opened Domain

  datatype Transition = NoTransition | LifecycleChanged | Finalized | Voided

  datatype EventState = EventState(status: EventStatus, homeScore: Option<int>, awayScore: Option<int>)

  predicate Terminal(s: EventStatus) {
    s.Finished? || s.Postponed? || s.Canceled?
  }

  function Decide(previous: Option<EventState>, current: EventState): Transition {
    if current.status.Finished? then
      if previous.None? || !previous.value.status.Finished? then Finalized
      else if (previous.value.homeScore, previous.value.awayScore) != (current.homeScore, current.awayScore) then Finalized
      else NoTransition
    else if current.status.Postponed? || current.status.Canceled? then
      if previous.None? || previous.value.status != current.status then Voided else NoTransition
    else if previous.None? || previous.value.status != current.status then LifecycleChanged
    else NoTransition
  }

  // The watchdog's view: statuses that should be over once the start is long past.
  predicate Stuck(s: EventStatus) {
    s.NotStarted? || s.InProgress?
  }

  function ComputeStale(status: EventStatus, startTime: Option<Time>, graceHours: int, now: Time): bool {
    startTime.Some? && Stuck(status) && startTime.value < now - graceHours * HOUR
  }

  // What one observation sequence of a single event fires: the transition at every step.
  function Fired(previous: Option<EventState>, observed: seq<EventState>): seq<Transition>
    decreases |observed|
  {
    if observed == [] then []
    else [Decide(previous, observed[0])] + Fired(Some(observed[0]), observed[1..])
  }

  /** Whatever is observed, and in whatever order, the step that brings an event to a state fires nothing
      exactly when the previous observation agreed on the status and, for a finished event, on both scores; what it
      fires otherwise is told by the new status alone. */
  lemma {:induction false} FiredExactlyOnChange(previous: Option<EventState>, observed: seq<EventState>, i: nat)
    requires i < |observed|
    ensures |Fired(previous, observed)| == |observed|
    ensures
      var before := if i == 0 then previous else Some(observed[i - 1]);
      Fired(previous, observed)[i] == NoTransition <==>
      before.Some? && before.value.status == observed[i].status &&
      (observed[i].status.Finished? ==>
         before.value.homeScore == observed[i].homeScore && before.value.awayScore == observed[i].awayScore)
    ensures
      var t := Fired(previous, observed)[i];
      t != NoTransition ==>
        (t.Finalized? <==> observed[i].status.Finished?)
        && (t.Voided? <==> observed[i].status.Postponed? || observed[i].status.Canceled?)
    decreases |observed|
  {
    if |observed| > 1 {
      FiredExactlyOnChange(Some(observed[0]), observed[1..], if i == 0 then 0 else i - 1);
    }
  }
}
