/** The submission protocol: one batch post of the whole payload; if the
    destination rejects it, every tracked entity is posted on its own, once,
    in order; the analytics job is requested iff something was persisted.
    The destination's answers are inputs: `batchAccepted` for the batch post
    and `accepted(i)` for the i-th single post. */
module Submission {
  import opened Sync

  /** The requests sent to the destination, in order. */
  datatype Request = TrackerPost(trackedEntities: seq<TargetTei>) | AnalyticsPost

  /** How many of the first `n` single posts were accepted. */
  function Successes(n: nat, accepted: nat -> bool): nat
  {
    if n == 0 then 0 else Successes(n - 1, accepted) + (if accepted(n - 1) then 1 else 0)
  }

  /** The success count is positive exactly when some single post was accepted. */
  lemma {:induction false} SuccessesPositive(n: nat, accepted: nat -> bool)
    ensures Successes(n, accepted) <= n
    ensures Successes(n, accepted) > 0 <==> exists i :: 0 <= i < n && accepted(i)
  {
    if n > 0 {
      SuccessesPositive(n - 1, accepted);
    }
  }

  /** One post per tracked entity, each carrying just that entity, in list order. */
  function SinglePosts(teis: seq<TargetTei>): (r: seq<Request>)
    ensures |r| == |teis|
  {
    seq(|teis|, i requires 0 <= i < |teis| => TrackerPost([teis[i]]))
  }

  /** post_individual_teis: true iff the count of accepted single posts is positive. */
  method PostIndividualTeis(teiList: seq<TargetTei>, accepted: nat -> bool)
    returns (persisted: bool, requests: seq<Request>)
    ensures requests == SinglePosts(teiList)
    ensures persisted <==> exists i :: 0 <= i < |teiList| && accepted(i)
  {
    var successCount := 0;
    requests := [];
    var i := 0;
    while i < |teiList|
      invariant 0 <= i <= |teiList|
      invariant requests == SinglePosts(teiList[..i])
      invariant successCount == Successes(i, accepted)
    {
      var tei := teiList[i];
      requests := requests + [TrackerPost([tei])];
      if accepted(i) {
        successCount := successCount + 1;
      }
      i := i + 1;
    }
    assert teiList[..|teiList|] == teiList;
    SuccessesPositive(|teiList|, accepted);
    persisted := successCount > 0;
  }

  /** Whether anything was persisted: the batch, or (after a rejected batch
      of a non-empty list) at least one single post. */
  predicate Persisted(teis: seq<TargetTei>, batchAccepted: bool, accepted: nat -> bool)
  {
    batchAccepted || (teis != [] && exists i :: 0 <= i < |teis| && accepted(i))
  }

  /** The requests post_data_to_zebra sends. */
  function SubmissionTrace(teis: seq<TargetTei>, batchAccepted: bool, accepted: nat -> bool): seq<Request>
  {
    [TrackerPost(teis)]
    + (if !batchAccepted && teis != [] then SinglePosts(teis) else [])
    + (if Persisted(teis, batchAccepted, accepted) then [AnalyticsPost] else [])
  }

  /** post_data_to_zebra: `batchSuccess` is the flag the `finally` block reads. */
  method PostDataToZebra(teis: seq<TargetTei>, batchAccepted: bool, accepted: nat -> bool)
    returns (batchSuccess: bool, requests: seq<Request>)
    ensures batchSuccess == Persisted(teis, batchAccepted, accepted)
    ensures requests == SubmissionTrace(teis, batchAccepted, accepted)
  {
    batchSuccess := false;
    requests := [TrackerPost(teis)];
    if batchAccepted {
      batchSuccess := true;
    } else {
      var teiList := teis;
      if teiList != [] {
        var sent;
        batchSuccess, sent := PostIndividualTeis(teiList, accepted);
        requests := requests + sent;
      }
    }
    // finally
    if batchSuccess {
      requests := requests + [AnalyticsPost];
    }
  }

  /** The batch post always comes first and carries the whole list. */
  lemma BatchFirst(teis: seq<TargetTei>, batchAccepted: bool, accepted: nat -> bool)
    ensures var t := SubmissionTrace(teis, batchAccepted, accepted);
      |t| >= 1 && t[0] == TrackerPost(teis)
  {
  }

  /** Analytics is requested, once and as the last request, iff the batch
      was accepted or some single post was. */
  lemma AnalyticsIffPersisted(teis: seq<TargetTei>, batchAccepted: bool, accepted: nat -> bool)
    ensures var t := SubmissionTrace(teis, batchAccepted, accepted);
      && (AnalyticsPost in t <==> batchAccepted || exists i :: 0 <= i < |teis| && accepted(i))
      && (AnalyticsPost in t ==> t[|t| - 1] == AnalyticsPost &&
                                 forall j :: 0 <= j < |t| - 1 ==> t[j] != AnalyticsPost)
  {
  }

  /** The fallback runs only after a rejected batch of a non-empty list, and
      then posts every tracked entity exactly once, in list order, right
      after the batch; with the batch accepted only analytics follows it. */
  lemma FallbackPostsEachOnceInOrder(teis: seq<TargetTei>, batchAccepted: bool, accepted: nat -> bool)
    ensures var t := SubmissionTrace(teis, batchAccepted, accepted);
      && (batchAccepted ==> t == [TrackerPost(teis), AnalyticsPost])
      && (!batchAccepted && teis == [] ==> t == [TrackerPost([])])
      && (!batchAccepted && teis != [] ==>
            && |t| == 1 + |teis| + (if exists i :: 0 <= i < |teis| && accepted(i) then 1 else 0)
            && forall i :: 0 <= i < |teis| ==> t[1 + i] == TrackerPost([teis[i]]))
  {
  }
}
