/** The queue-building loop of the synchroniser: for each source program in
    turn, every enrollment instance found on the origin names a tracked
    entity; the entity is fetched, its OU is checked on the destination, and
    its translated payload is stored in the sync queue under its id.
    Everything the two servers answer is an input (`Origin`, `Destination`). */
module Sync {
  import opened Translation

  const ProgEbs: string := "JRuLW57woOB"
  const ProgIbs: string := "xDsAFnQMmeU"
  const TeTypeZebra: string := "QH1LBzGrk5g"
  /** The programs in the order they are processed. */
  const SourcePrograms: seq<string> := [ProgEbs, ProgIbs]

  datatype SourceEnrollment = SourceEnrollment(program: string, enrolledAt: string, attributes: seq<Attribute>)

  /** A tracked entity as fetched from the origin. */
  datatype SourceTei = SourceTei(orgUnit: string, attributes: seq<Attribute>, enrollments: seq<SourceEnrollment>)

  datatype TargetEnrollment = TargetEnrollment(
    program: string,
    enrollment: Option<string>,
    orgUnit: Option<string>,
    status: string,
    enrolledAt: string,
    attributes: seq<Attribute>)

  /** One queue entry: the payload for one tracked entity. */
  datatype TargetTei = TargetTei(
    trackedEntity: string,
    trackedEntityType: string,
    program: string,
    orgUnit: Option<string>,
    attributes: seq<Attribute>,
    enrollments: seq<TargetEnrollment>)

  /** The origin server's answers: the trackedEntity of each enrollment
      instance found for (program, enrolledAfter), the full tracked entity
      per id, and the attribute ids declared on each program. */
  datatype Origin = Origin(
    instances: (string, string) -> seq<string>,
    trackedEntity: string -> SourceTei,
    programAttributes: string -> set<string>)

  /** The destination server's answers: whether an OU exists (a failed probe
      reads as false), and the id of the first destination enrollment found
      for (trackedEntity, program, orgUnit), None when none is found or the
      query fails. */
  datatype Destination = Destination(
    ouExists: string -> bool,
    existingEnrollment: (string, string, Option<string>) -> Option<string>)

  datatype Env = Env(m: Mappings, origin: Origin, dest: Destination)

  /** The sync queue, a Python dict: its entries and its keys in insertion order. */
  datatype Queue = Queue(order: seq<string>, entries: map<string, TargetTei>) {

    ghost predicate Valid()
    {
      && (forall i, j :: 0 <= i < j < |order| ==> order[i] != order[j])
      && (forall k :: k in entries <==> k in order)
    }

    /** `queue[key] = v`: a new key goes to the end, an existing key keeps its place. */
    function Put(key: string, v: TargetTei): (r: Queue)
      ensures Valid() ==> r.Valid()
      ensures r.entries == entries[key := v]
      ensures key in entries ==> r.order == order
      ensures key !in entries ==> r.order == order + [key]
    {
      if key in entries then Queue(order, entries[key := v])
      else Queue(order + [key], entries[key := v])
    }

    /** `list(queue.values())`. */
    function Values(): seq<TargetTei>
      requires Valid()
    {
      seq(|order|, i requires 0 <= i < |order| => entries[order[i]])
    }
  }

  const EmptyQueue: Queue := Queue([], map[])

  // ---------------------------------------------------------------------
  // One loop iteration
  // ---------------------------------------------------------------------

  /** `mapped_ou if mapped_ou else source_ou`: Python truthiness, so an empty
      mapped segment falls back to the source OU as None does. */
  function TargetOu(mappedOu: Option<string>, sourceOu: string): string
  {
    if mappedOu.Some? && mappedOu.value != "" then mappedOu.value else sourceOu
  }

  /** The OU the existence check probes is the source OU exactly when the
      source OU is unmapped or its mapped path is empty or ends in `/`;
      otherwise it is the mapped path's last segment, which is non-empty. */
  lemma CheckedOu(sourceOu: string, m: Mappings)
    ensures var t := TargetOu(GetMappedOu(sourceOu, m), sourceOu);
      if sourceOu !in m.organisationUnits then t == sourceOu
      else
        var id := m.organisationUnits[sourceOu];
        if id == [] || id[|id| - 1] == '/' then t == sourceOu
        else t == GetMappedOu(sourceOu, m).value && t != [] && '/' !in t && |t| <= |id| && id[|id| - |t|..] == t
  {
    if sourceOu in m.organisationUnits {
      var id := m.organisationUnits[sourceOu];
      MappedOuIsLastSegment(sourceOu, m);
      var r := GetMappedOu(sourceOu, m).value;
      if r != [] {
        assert r[|r| - 1] == id[|id| - 1];
      }
    }
  }

  /** The existence guard for the tracked entity `teiId`. */
  predicate Admissible(env: Env, teiId: string)
  {
    var tei := env.origin.trackedEntity(teiId);
    env.dest.ouExists(TargetOu(GetMappedOu(tei.orgUnit, env.m), tei.orgUnit))
  }

  function ToTargetEnrollment(e: SourceEnrollment, targetProg: string, mappedOu: Option<string>,
                              existing: Option<string>, m: Mappings, allowed: Option<set<string>>): TargetEnrollment
  {
    TargetEnrollment(targetProg, existing, mappedOu, "ACTIVE", e.enrolledAt, MappedAttributes(e.attributes, m, allowed))
  }

  /** The source enrollments of program `prog`, in order. */
  function OfProgram(encs: seq<SourceEnrollment>, prog: string): (r: seq<SourceEnrollment>)
    ensures forall k :: 0 <= k < |r| ==> r[k].program == prog
  {
    if encs == [] then []
    else
      var prior := OfProgram(encs[..|encs| - 1], prog);
      if encs[|encs| - 1].program == prog then prior + [encs[|encs| - 1]] else prior
  }

  /** The `target_enr_list` built for one tracked entity. */
  function PayloadEnrollments(encs: seq<SourceEnrollment>, prog: string, targetProg: string,
                              mappedOu: Option<string>, existing: Option<string>,
                              m: Mappings, allowed: Option<set<string>>): seq<TargetEnrollment>
  {
    if encs == [] then []
    else
      var prior := PayloadEnrollments(encs[..|encs| - 1], prog, targetProg, mappedOu, existing, m, allowed);
      var e := encs[|encs| - 1];
      if e.program == prog then prior + [ToTargetEnrollment(e, targetProg, mappedOu, existing, m, allowed)]
      else prior
  }

  /** The payload stored for `teiId` while processing `prog`. */
  function Entry(env: Env, prog: string, targetProg: string, teiId: string): TargetTei
  {
    var tei := env.origin.trackedEntity(teiId);
    var mappedOu := GetMappedOu(tei.orgUnit, env.m);
    var allowed := Some(env.origin.programAttributes(prog));
    TargetTei(teiId, TeTypeZebra, targetProg, mappedOu,
              MappedAttributes(tei.attributes, env.m, allowed),
              PayloadEnrollments(tei.enrollments, prog, targetProg, mappedOu,
                                 env.dest.existingEnrollment(teiId, targetProg, mappedOu), env.m, allowed))
  }

  /** One iteration of the instance loop, for the instance naming `teiId`. */
  function Visit(q: Queue, env: Env, prog: string, targetProg: string, teiId: string): (r: Queue)
    ensures q.Valid() ==> r.Valid()
    // skip guard: only while processing PROG_EBS is a queued entity left alone
    ensures teiId in q.entries && prog == ProgEbs ==> r == q
    // existence guard
    ensures !Admissible(env, teiId) ==> r == q
    // otherwise the entry is stored, replacing any existing one
    ensures !(teiId in q.entries && prog == ProgEbs) && Admissible(env, teiId) ==>
              r.entries == q.entries[teiId := Entry(env, prog, targetProg, teiId)]
    // no other key changes
    ensures r.entries.Keys <= q.entries.Keys + {teiId}
    ensures forall k :: k != teiId && k in q.entries ==> k in r.entries && r.entries[k] == q.entries[k]
  {
    if teiId in q.entries && prog == ProgEbs then q
    else if !Admissible(env, teiId) then q
    else q.Put(teiId, Entry(env, prog, targetProg, teiId))
  }

  /** The instance loop of one program: the instances in order. */
  function VisitAll(q: Queue, env: Env, prog: string, targetProg: string, ids: seq<string>): Queue
  {
    if ids == [] then q
    else Visit(VisitAll(q, env, prog, targetProg, ids[..|ids| - 1]), env, prog, targetProg, ids[|ids| - 1])
  }

  datatype QueueResult = Built(queue: Queue) | UnmappedProgram(program: string)

  /** The program loop: an unmapped program ends the run (the KeyError on
      `trackerPrograms`), otherwise its instances are visited. */
  function QueueAfter(env: Env, startDate: string, progs: seq<string>): QueueResult
  {
    if progs == [] then Built(EmptyQueue)
    else
      match QueueAfter(env, startDate, progs[..|progs| - 1])
      case UnmappedProgram(p) => UnmappedProgram(p)
      case Built(q) =>
        var prog := progs[|progs| - 1];
        if prog !in env.m.trackerPrograms then UnmappedProgram(prog)
        else Built(VisitAll(q, env, prog, env.m.trackerPrograms[prog], env.origin.instances(prog, startDate)))
  }

  // ---------------------------------------------------------------------
  // Properties
  // ---------------------------------------------------------------------

  /** The payload enrollments are exactly the source enrollments of the
      current program, in source order, each with the destination program,
      status ACTIVE, the mapped OU and the source enrolledAt. */
  lemma {:induction false} PayloadIsProgramEnrollments(encs: seq<SourceEnrollment>, prog: string, targetProg: string,
                                                      mappedOu: Option<string>, existing: Option<string>,
                                                      m: Mappings, allowed: Option<set<string>>)
    ensures var p, f := PayloadEnrollments(encs, prog, targetProg, mappedOu, existing, m, allowed), OfProgram(encs, prog);
      && |p| == |f|
      && forall k :: 0 <= k < |p| ==>
           && p[k].program == targetProg
           && p[k].enrollment == existing
           && p[k].orgUnit == mappedOu
           && p[k].status == "ACTIVE"
           && p[k].enrolledAt == f[k].enrolledAt
           && p[k].attributes == MappedAttributes(f[k].attributes, m, allowed)
  {
    if encs != [] {
      PayloadIsProgramEnrollments(encs[..|encs| - 1], prog, targetProg, mappedOu, existing, m, allowed);
    }
  }

  /** OfProgram keeps order: filtering a concatenation filters each part. */
  lemma {:induction false} OfProgramConcat(a: seq<SourceEnrollment>, b: seq<SourceEnrollment>, prog: string)
    ensures OfProgram(a + b, prog) == OfProgram(a, prog) + OfProgram(b, prog)
  {
    if b == [] {
      assert a + b == a;
    } else {
      var n := |b| - 1;
      assert (a + b)[..|a + b| - 1] == a + b[..n];
      assert (a + b)[|a + b| - 1] == b[n];
      OfProgramConcat(a, b[..n], prog);
    }
  }

  /** OfProgram drops nothing of the program: it has as many elements as
      the source has enrollments of that program. */
  lemma {:induction false} OfProgramCount(encs: seq<SourceEnrollment>, prog: string)
    ensures |OfProgram(encs, prog)| == |set i | 0 <= i < |encs| && encs[i].program == prog|
  {
    if encs != [] {
      var n := |encs| - 1;
      OfProgramCount(encs[..n], prog);
      var before := set i | 0 <= i < n && encs[..n][i].program == prog;
      var now := set i | 0 <= i < |encs| && encs[i].program == prog;
      assert before == set i | 0 <= i < n && encs[i].program == prog;
      if encs[n].program == prog {
        assert now == before + {n};
      } else {
        assert now == before;
      }
    }
  }

  /** What one program pass does to key `k`: if `k` is among the instances,
      passes the existence guard and is not protected by the PROG_EBS skip
      guard, it ends up holding this program's entry; otherwise it is as before. */
  lemma {:induction false} VisitAllEffect(q: Queue, env: Env, prog: string, targetProg: string, ids: seq<string>, k: string)
    ensures var r := VisitAll(q, env, prog, targetProg, ids);
      && (k in ids && Admissible(env, k) && !(prog == ProgEbs && k in q.entries) ==>
            k in r.entries && r.entries[k] == Entry(env, prog, targetProg, k))
      && (k !in ids || !Admissible(env, k) || (prog == ProgEbs && k in q.entries) ==>
            (k in r.entries <==> k in q.entries) && (k in q.entries ==> r.entries[k] == q.entries[k]))
  {
    if ids != [] {
      var n := |ids| - 1;
      var pre := ids[..n];
      VisitAllEffect(q, env, prog, targetProg, pre, k);
      assert ids == pre + [ids[n]];
      assert k in ids <==> k in pre || k == ids[n];
    }
  }

  /** The queue is well formed: a Python dict, each entry keyed by its own
      trackedEntity, each entry's OU being the mapped OU of the entity, and
      each entity having passed the existence guard. */
  ghost predicate WellFormed(q: Queue, env: Env)
  {
    && q.Valid()
    && forall k :: k in q.entries ==>
         && q.entries[k].trackedEntity == k
         && q.entries[k].orgUnit == GetMappedOu(env.origin.trackedEntity(k).orgUnit, env.m)
         && Admissible(env, k)
  }

  lemma {:induction false} VisitAllWellFormed(q: Queue, env: Env, prog: string, targetProg: string, ids: seq<string>)
    requires WellFormed(q, env)
    ensures WellFormed(VisitAll(q, env, prog, targetProg, ids), env)
  {
    if ids != [] {
      VisitAllWellFormed(q, env, prog, targetProg, ids[..|ids| - 1]);
    }
  }

  /** Every queue the program loop builds is well formed. */
  lemma {:induction false} QueueAfterWellFormed(env: Env, startDate: string, progs: seq<string>)
    ensures QueueAfter(env, startDate, progs).Built? ==> WellFormed(QueueAfter(env, startDate, progs).queue, env)
  {
    if progs != [] {
      QueueAfterWellFormed(env, startDate, progs[..|progs| - 1]);
      match QueueAfter(env, startDate, progs[..|progs| - 1])
      case UnmappedProgram(_) =>
      case Built(q) =>
        var prog := progs[|progs| - 1];
        if prog in env.m.trackerPrograms {
          VisitAllWellFormed(q, env, prog, env.m.trackerPrograms[prog], env.origin.instances(prog, startDate));
        }
    }
  }

  /** The run fails on an unmapped program exactly when one of its programs
      is unmapped, and then on the first such program. */
  lemma {:induction false} UnmappedProgramFails(env: Env, startDate: string, progs: seq<string>)
    ensures QueueAfter(env, startDate, progs).UnmappedProgram? <==>
              exists i :: 0 <= i < |progs| && progs[i] !in env.m.trackerPrograms
    ensures QueueAfter(env, startDate, progs).UnmappedProgram? ==>
              exists i :: 0 <= i < |progs| && progs[i] == QueueAfter(env, startDate, progs).program &&
                          progs[i] !in env.m.trackerPrograms &&
                          forall j :: 0 <= j < i ==> progs[j] in env.m.trackerPrograms
  {
    if progs != [] {
      var n := |progs| - 1;
      UnmappedProgramFails(env, startDate, progs[..n]);
      assert forall j :: 0 <= j < n ==> progs[..n][j] == progs[j];
    }
  }

  /** The queue after both programs, from the keys' point of view: a PROG_IBS
      entry wins whenever the entity is among the PROG_IBS instances and passes
      the existence guard; otherwise the PROG_EBS entry stays, if there is
      one; no other entity is queued. */
  lemma FinalQueue(env: Env, startDate: string, k: string)
    requires ProgEbs in env.m.trackerPrograms && ProgIbs in env.m.trackerPrograms
    ensures QueueAfter(env, startDate, SourcePrograms).Built?
    ensures var q := QueueAfter(env, startDate, SourcePrograms).queue;
      var ebs, ibs := env.origin.instances(ProgEbs, startDate), env.origin.instances(ProgIbs, startDate);
      var ebsTarget, ibsTarget := env.m.trackerPrograms[ProgEbs], env.m.trackerPrograms[ProgIbs];
      && (k in ibs && Admissible(env, k) ==>
            k in q.entries && q.entries[k] == Entry(env, ProgIbs, ibsTarget, k))
      && (k !in ibs && k in ebs && Admissible(env, k) ==>
            k in q.entries && q.entries[k] == Entry(env, ProgEbs, ebsTarget, k))
      && ((k !in ibs && k !in ebs) || !Admissible(env, k) ==> k !in q.entries)
  {
    var ebs, ibs := env.origin.instances(ProgEbs, startDate), env.origin.instances(ProgIbs, startDate);
    var ebsTarget, ibsTarget := env.m.trackerPrograms[ProgEbs], env.m.trackerPrograms[ProgIbs];
    assert SourcePrograms[..1] == [ProgEbs];
    assert [ProgEbs][..0] == [];
    var q1 := VisitAll(EmptyQueue, env, ProgEbs, ebsTarget, ebs);
    assert QueueAfter(env, startDate, [ProgEbs]) == Built(q1);
    VisitAllEffect(EmptyQueue, env, ProgEbs, ebsTarget, ebs, k);
    assert ProgIbs != ProgEbs;
    VisitAllEffect(q1, env, ProgIbs, ibsTarget, ibs, k);
  }

  /** An entity whose OU is unmapped but exists on the destination under the
      same id passes the existence guard, and is stored with no orgUnit. */
  lemma UnmappedOuStoredWithoutOrgUnit(env: Env, prog: string, targetProg: string, teiId: string)
    requires env.origin.trackedEntity(teiId).orgUnit !in env.m.organisationUnits
    requires env.dest.ouExists(env.origin.trackedEntity(teiId).orgUnit)
    ensures Admissible(env, teiId)
    ensures Entry(env, prog, targetProg, teiId).orgUnit == None
    ensures forall e :: e in Entry(env, prog, targetProg, teiId).enrollments ==> e.orgUnit == None
  {
    var tei := env.origin.trackedEntity(teiId);
    var allowed := Some(env.origin.programAttributes(prog));
    PayloadIsProgramEnrollments(tei.enrollments, prog, targetProg, None,
                                env.dest.existingEnrollment(teiId, targetProg, None), env.m, allowed);
  }

  /** In the payload list each queued entity appears once, in insertion order. */
  lemma PayloadOncePerEntity(q: Queue, env: Env)
    requires WellFormed(q, env)
    ensures var vs := q.Values();
      && |vs| == |q.order|
      && (forall i, j :: 0 <= i < j < |vs| ==> vs[i].trackedEntity != vs[j].trackedEntity)
      && (forall k :: k in q.entries <==> exists i :: 0 <= i < |vs| && vs[i].trackedEntity == k)
  {
    var vs := q.Values();
    forall k | k in q.entries ensures exists i :: 0 <= i < |vs| && vs[i].trackedEntity == k {
      var i :| 0 <= i < |q.order| && q.order[i] == k;
      assert vs[i].trackedEntity == k;
    }
  }

  // ---------------------------------------------------------------------
  // The loops of run_sync
  // ---------------------------------------------------------------------

  /** The loop over the fetched entity's enrollments that builds `target_enr_list`. */
  method BuildEnrollments(env: Env, teiId: string, encs: seq<SourceEnrollment>, prog: string, targetProg: string,
                          mappedOu: Option<string>, allowed: Option<set<string>>)
    returns (targetEnrs: seq<TargetEnrollment>)
    ensures targetEnrs == PayloadEnrollments(encs, prog, targetProg, mappedOu,
                                             env.dest.existingEnrollment(teiId, targetProg, mappedOu), env.m, allowed)
  {
    targetEnrs := [];
    var i := 0;
    while i < |encs|
      invariant 0 <= i <= |encs|
      invariant targetEnrs == PayloadEnrollments(encs[..i], prog, targetProg, mappedOu,
                                                 env.dest.existingEnrollment(teiId, targetProg, mappedOu), env.m, allowed)
    {
      var sourceEnr := encs[i];
      assert encs[..i + 1][..i] == encs[..i];
      if sourceEnr.program == prog {
        var zEnrId := env.dest.existingEnrollment(teiId, targetProg, mappedOu);
        var attrs := MapAttributes(sourceEnr.attributes, env.m, allowed, false);
        targetEnrs := targetEnrs + [TargetEnrollment(targetProg, zEnrId, mappedOu, "ACTIVE", sourceEnr.enrolledAt, attrs)];
      }
      i := i + 1;
    }
    assert encs[..|encs|] == encs;
  }

  /** The instance loop of one program. */
  method ProcessInstances(queue0: Queue, env: Env, prog: string, targetProg: string, ids: seq<string>)
    returns (queue: Queue)
    ensures queue == VisitAll(queue0, env, prog, targetProg, ids)
  {
    queue := queue0;
    var i := 0;
    while i < |ids|
      invariant 0 <= i <= |ids|
      invariant queue == VisitAll(queue0, env, prog, targetProg, ids[..i])
    {
      var teiId := ids[i];
      assert ids[..i + 1][..i] == ids[..i];
      if teiId in queue.entries && prog == ProgEbs {
        // already queued while processing PROG_EBS: skipped
      } else {
        var teiFull := env.origin.trackedEntity(teiId);
        var allowedTeas := Some(env.origin.programAttributes(prog));
        var sourceOu := teiFull.orgUnit;
        var mappedOu := GetMappedOu(sourceOu, env.m);
        var targetOuToUse := if mappedOu.Some? && mappedOu.value != "" then mappedOu.value else sourceOu;
        if env.dest.ouExists(targetOuToUse) {
          var mappedMainAttrs := MapAttributes(teiFull.attributes, env.m, allowedTeas, true);
          var targetEnrList := BuildEnrollments(env, teiId, teiFull.enrollments, prog, targetProg, mappedOu, allowedTeas);
          queue := queue.Put(teiId, TargetTei(teiId, TeTypeZebra, targetProg, mappedOu, mappedMainAttrs, targetEnrList));
        }
      }
      i := i + 1;
    }
    assert ids[..|ids|] == ids;
  }

  /** The program loop of run_sync. */
  method BuildSyncQueue(env: Env, startDate: string, progs: seq<string>) returns (res: QueueResult)
    ensures res == QueueAfter(env, startDate, progs)
  {
    var queue := EmptyQueue;
    var i := 0;
    while i < |progs|
      invariant 0 <= i <= |progs|
      invariant QueueAfter(env, startDate, progs[..i]) == Built(queue)
    {
      var progId := progs[i];
      assert progs[..i + 1][..i] == progs[..i];
      var instances := env.origin.instances(progId, startDate);
      if progId !in env.m.trackerPrograms {
        UnmappedProgramSticks(env, startDate, progs, i + 1);
        return UnmappedProgram(progId);
      }
      var targetProgId := env.m.trackerPrograms[progId];
      queue := ProcessInstances(queue, env, progId, targetProgId, instances);
      i := i + 1;
    }
    assert progs[..|progs|] == progs;
    res := Built(queue);
  }

  /** Once the program loop has failed on a prefix, it fails the same way on the whole list. */
  lemma {:induction false} UnmappedProgramSticks(env: Env, startDate: string, progs: seq<string>, i: nat)
    requires i <= |progs|
    requires QueueAfter(env, startDate, progs[..i]).UnmappedProgram?
    ensures QueueAfter(env, startDate, progs) == QueueAfter(env, startDate, progs[..i])
  {
    if i < |progs| {
      assert progs[..|progs| - 1][..i] == progs[..i];
      UnmappedProgramSticks(env, startDate, progs[..|progs| - 1], i);
    } else {
      assert progs[..i] == progs;
    }
  }
}
