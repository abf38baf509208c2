/** What the small steps of the pipeline mean to their callers: which rows they change, which they leave alone, and
    what a second call or a call in another order does. */
module PipelineSteps {
  import opened Wrappers
  import opened Domain
  import opened Lifecycle
  import opened Pipeline
  import opened PipelineSafety
  import opened PipelineWebhooks

  // ---- void_remaining_pending ----

  /** On a finished event no row stays PENDING, no settled row and no row of another event changes, and a second call
      changes nothing. */
  lemma VoidLeavesNonePending(ev: Event, ms: Markets, sels: Selections, e: Id, now: Time, later: Time)
    requires ev.status.Finished?
    ensures var d := VoidRemaining(ev, ms, sels, e, now);
      && NonePending(ms, d, e) && d.Keys == sels.Keys && VoidRemaining(ev, ms, d, e, later) == d
      && (forall s <- sels :: d[s] != sels[s] <==> Belongs(ms, sels, s, e) && sels[s].outcome.Pending?)
      && (forall s <- sels :: d[s] != sels[s] ==> d[s].outcome.Void? && d[s].source.Computed? && SameListing(sels[s], d[s]))
  {
  }

  /** So the order of the passes matters: what COMPUTED could have settled before is out of its reach afterwards. */
  lemma VoidEndsComputed(ev: Event, ms: Markets, sels: Selections, e: Id, now: Time, scored: Event, later: Time)
    requires ev.status.Finished?
    ensures var d := VoidRemaining(ev, ms, sels, e, now); SettleEvent(scored, ms, d, e, later) == d
  {
    var d := VoidRemaining(ev, ms, sels, e, now);
    forall s ensures ComputedFor(scored, ms, d, e, s).None? {}
  }

  // ---- the delivery queue ----

  /** An enqueue leaves a delivery of the current state exactly when there was one, or a receiver is set and the
      transition is FINALIZED or VOIDED. Every older delivery stays as it was, nothing else is written, and once the
      state is queued no enqueue of it adds another. */
  lemma EnqueueExactly(h: Digest, receiver: bool, db: Db, e: Id, t: Transition, receives: bool, again: Transition)
    requires e in db.events
    ensures var d, key := Enqueue(h, receiver, db, e, t), KeyOf(h, db, e);
      && d == db.(deliveries := d.deliveries) && KeyOf(h, d, e) == key
      && (key in d.deliveries <==> key in db.deliveries || (receiver && (t.Finalized? || t.Voided?)))
      && (forall k :: k != key ==> (k in d.deliveries <==> k in db.deliveries))
      && (forall k <- db.deliveries :: d.deliveries[k] == db.deliveries[k])
      && (key in d.deliveries && key !in db.deliveries ==> d.deliveries[key] == Delivery(e, t, SnapshotOf(db, e)))
      && (key in d.deliveries ==> Enqueue(h, receives, d, e, again) == d)
  {
  }

  /** A forced enqueue adds one delivery, under a key of its own, exactly when a receiver is set, the event is there and
      terminal, and the nonce is new. It makes no automatic key and takes none, so the pipeline dedupes as before; but
      the event then has a delivery, and the backstop leaves it alone. */
  lemma ForceEnqueueExactly(h: Digest, receiver: bool, db: Db, e: Id, nonce: string)
    requires e in db.events
    ensures var d, key := ForceEnqueue(h, receiver, db, e, nonce), ManualKey(e, h(SnapshotOf(db, e)), nonce);
      && d == db.(deliveries := d.deliveries)
      && (d.deliveries != db.deliveries <==> receiver && Terminal(db.events[e].status) && key !in db.deliveries)
      && (d.deliveries != db.deliveries ==>
            HasDelivery(d, e) && d.deliveries.Keys == db.deliveries.Keys + {key} && d.deliveries[key].payload == SnapshotOf(db, e))
      && (forall k <- db.deliveries :: k in d.deliveries && d.deliveries[k] == db.deliveries[k])
      && (forall k <- d.deliveries :: k.Auto? ==> k in db.deliveries)
  {
    var d, key := ForceEnqueue(h, receiver, db, e, nonce), ManualKey(e, h(SnapshotOf(db, e)), nonce);
    if key in d.deliveries && key !in db.deliveries { assert d.deliveries[key].event == e; }
  }

  // ---- the event row ----

  /** After an upsert the same payload fires nothing, and takes the cheap exit exactly when it is finished; the event
      is up for a disappearance VOID exactly when it is open and more than the void hours have passed; no other event
      is touched. */
  lemma UpsertIsSeen(db: Db, spec: EventSpec, now: Time, hours: int, later: Time)
    ensures var d, e := UpsertEvent(db, spec, now), spec.id;
      && Decide(PreviousState(d, e), SpecState(spec)).NoTransition?
      && (FinalizedStable(d, spec) <==> spec.status.Finished?)
      && (DisappearedCandidate(d, e, hours, later) <==>
            (spec.status.NotStarted? || spec.status.InProgress?) && !spec.isFinalized && later - now > hours * 3600)
      && d == db.(events := d.events) && d.events.Keys == db.events.Keys + {e}
      && (forall f <- db.events :: f != e ==> d.events[f] == db.events[f])
  {
  }

  /** And for a stale VOID exactly when it is open and more than the void hours have passed since its start. */
  lemma UpsertIsDated(db: Db, spec: EventSpec, now: Time, hours: int, later: Time, receiver: bool)
    ensures Enabled(UpsertEvent(db, spec, now), StaleStep(hours, [spec.id], later, receiver)) <==>
      hours > 0 && (spec.status.NotStarted? || spec.status.InProgress?) && later - spec.startTime > hours * 3600
  {
    assert spec.id in [spec.id];
  }

  /** A reconcile pass sets the clock of exactly the open events of its league that start in the window and that the feed
      did not list, and touches nothing else. */
  lemma ReconcileExactly(db: Db, league: Id, seen: set<Id>, from: Time, to: Time, now: Time, e: Id)
    requires e in db.events
    ensures var d, row := Reconcile(db, league, seen, from, to, now), db.events[e];
      && d == db.(events := d.events) && d.events.Keys == db.events.Keys
      && d.events[e] ==
           if e !in seen && row.league == league && row.startTime.Some? && from <= row.startTime.value <= to
              && !row.isFinalized && !row.status.Canceled? && !row.status.Postponed?
           then row.(lastSeen := Some(now - 3600), updated := now) else row
  {
  }

  /** An event whose payload arrived in a walk is left alone by the pass after it, even when the payload did not
      normalize; the others of the league are missed. */
  lemma ArrivedIsNotMissed(h: Digest, db: Db, arrivals: seq<Arrival>, league: Id, from: Time, to: Time, now: Time, e: Id)
    requires e != "" && e != "?"
    ensures
      var walked := IngestAll(h, db, arrivals).0;
      var d := Reconcile(walked, league, SeenIds(arrivals), from, to, now);
      var missed := Reconcile(walked, league, {}, from, to, now);
      var arrived := exists a <- arrivals :: a.Name() == e;
      && d.events.Keys == walked.events.Keys
      && (e in walked.events ==> d.events[e] == if arrived then walked.events[e] else missed.events[e])
  {
    if a :| a in arrivals && a.Name() == e { assert a.Name() in SeenIds(arrivals); }
  }

  /** Misses do not accumulate: what a reconcile pass leaves of an event it misses does not depend on the passes before
      it, whatever they saw. The event is then up for a disappearance VOID exactly when it is stuck and more than the
      void hours, minus one, have passed since. */
  lemma MissesDoNotAccumulate(db: Db, league: Id, before: set<Id>, seen: set<Id>, from: Time, to: Time, early: Time, now: Time,
                              e: Id, hours: int, later: Time)
    requires ReconcileTarget(db, e, league, seen, from, to)
    ensures var once, twice := Reconcile(db, league, seen, from, to, now),
                Reconcile(Reconcile(db, league, before, from, to, early), league, seen, from, to, now);
      && twice.events[e] == once.events[e]
      && (DisappearedCandidate(once, e, hours, later) <==>
            (db.events[e].status.NotStarted? || db.events[e].status.InProgress?) && later - now > (hours - 1) * 3600)
  {
  }
}
