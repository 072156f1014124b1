/** run_sync as a whole: choose the enrollment start date, build the sync
    queue over both source programs, and submit its values when it is not
    empty. The clock's formatted dates and every server answer are inputs. */
module Run {
  import opened Translation
  import opened Sync
  import opened Submission

  /** What the clock gives: `now - 1 day` and `now - weekday days` as `%Y-%m-%d`. */
  datatype Clock = Clock(dayBefore: string, weekStart: string)

  /** The three-way choice of `start_date` by period. */
  function StartDate(period: string, clock: Clock): (d: string)
    ensures period == "today" ==> d == clock.dayBefore
    ensures period == "this_week" ==> d == clock.weekStart
    ensures period != "today" && period != "this_week" ==> d == "1900-01-01"
  {
    if period == "today" then clock.dayBefore
    else if period == "this_week" then clock.weekStart
    else "1900-01-01"
  }

  /** How a run ends: the KeyError on an unmapped program (nothing is sent),
      an empty queue (nothing is sent), or a submission of the queue's values. */
  datatype RunOutcome =
    | UnmappedProgramError(program: string)
    | NothingToSync
    | Submitted(payload: seq<TargetTei>, requests: seq<Request>)

  /** The outcome of a run, from its inputs. */
  function RunOutcomeOf(period: string, clock: Clock, env: Env, batchAccepted: bool, accepted: nat -> bool): RunOutcome
  {
    match QueueAfter(env, StartDate(period, clock), SourcePrograms)
    case UnmappedProgram(p) => UnmappedProgramError(p)
    case Built(q) =>
      QueueAfterWellFormed(env, StartDate(period, clock), SourcePrograms);
      if q.entries == map[] then NothingToSync
      else Submitted(q.Values(), SubmissionTrace(q.Values(), batchAccepted, accepted))
  }

  method RunSync(period: string, clock: Clock, env: Env, batchAccepted: bool, accepted: nat -> bool)
    returns (outcome: RunOutcome)
    ensures outcome == RunOutcomeOf(period, clock, env, batchAccepted, accepted)
  {
    var startDate := StartDate(period, clock);
    var built := BuildSyncQueue(env, startDate, SourcePrograms);
    if built.UnmappedProgram? {
      return UnmappedProgramError(built.program);
    }
    var syncQueue := built.queue;
    QueueAfterWellFormed(env, startDate, SourcePrograms);
    if syncQueue.entries != map[] {
      var payload := syncQueue.Values();
      var _, requests := PostDataToZebra(payload, batchAccepted, accepted);
      outcome := Submitted(payload, requests);
    } else {
      outcome := NothingToSync;
    }
  }

  /** A submitted payload lists every queued tracked entity once; each passed
      the existence guard; and analytics is requested iff the batch or one of
      the single posts was accepted. */
  lemma SubmittedRun(period: string, clock: Clock, env: Env, batchAccepted: bool, accepted: nat -> bool)
    requires RunOutcomeOf(period, clock, env, batchAccepted, accepted).Submitted?
    ensures var o := RunOutcomeOf(period, clock, env, batchAccepted, accepted);
      && o.payload != []
      && (forall i, j :: 0 <= i < j < |o.payload| ==> o.payload[i].trackedEntity != o.payload[j].trackedEntity)
      && (forall i :: 0 <= i < |o.payload| ==> Admissible(env, o.payload[i].trackedEntity))
      && (AnalyticsPost in o.requests <==> batchAccepted || exists i :: 0 <= i < |o.payload| && accepted(i))
  {
    var startDate := StartDate(period, clock);
    QueueAfterWellFormed(env, startDate, SourcePrograms);
    var q := QueueAfter(env, startDate, SourcePrograms).queue;
    PayloadOncePerEntity(q, env);
    var k :| k in q.entries;
    var vs := q.Values();
    forall i | 0 <= i < |vs| ensures Admissible(env, vs[i].trackedEntity) {
      assert q.order[i] in q.entries;
    }
    AnalyticsIffPersisted(vs, batchAccepted, accepted);
  }

  /** Nothing is sent when the queue stays empty or a program is unmapped. */
  lemma NothingSentWithoutQueue(period: string, clock: Clock, env: Env, batchAccepted: bool, accepted: nat -> bool)
    ensures var startDate := StartDate(period, clock);
      RunOutcomeOf(period, clock, env, batchAccepted, accepted).Submitted? <==>
        QueueAfter(env, startDate, SourcePrograms).Built? &&
        QueueAfter(env, startDate, SourcePrograms).queue.entries != map[]
  {
  }
}
