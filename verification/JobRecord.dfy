/** What a record says about its job: the notification, topic, times and data_id of the last job written,
    whatever the scripts, waits and publications did since. */
module JobRecord {
  import opened Text
  import opened DownloaderHash
  import opened HrefStatus

  predicate IsJobField(name: string)
  {
    name == "wnm" || name == "topic" || name == "published" || name == "data_id" || name == "accepted"
  }

  /** No address in the write is the name of such a field. */
  predicate SparesJob(op: HashOp)
  {
    match op
    case WriteJob(href, _, _, _, _, _, _) => !IsJobField(href)
    case RecordWait(href, _) => !IsJobField(href)
    case InitAttempt => true
    case CompleteHref(href, _, _, _) => !IsJobField(href)
    case RetryTransition(promoteHref, _, errorHref) => !IsJobField(promoteHref) && !IsJobField(errorHref)
  }

  datatype JobFacts = JobFacts(wnm: Option<string>, topic: Option<string>, published: Option<string>, dataId: Option<string>, accepted: Option<string>)

  function FactsIn(m: Hash): JobFacts
  {
    JobFacts(FieldOf(m, "wnm"), FieldOf(m, "topic"), FieldOf(m, "published"), FieldOf(m, "data_id"), FieldOf(m, "accepted"))
  }

  function FactsOf(op: HashOp): JobFacts
    requires op.WriteJob?
  {
    JobFacts(Some(op.wnm), Some(op.topic), Some(op.published), Some(op.dataId), Some(op.accepted))
  }

  lemma NotJobFields()
    ensures !IsJobField("attempt") && !IsJobField("stored") && !IsJobField("link") && !IsJobField("local-path")
    ensures forall href :: !IsJobField("src:" + href)
    ensures forall href :: IsHref(href) ==> !IsJobField(href)
  {
    assert "attempt"[0] == 'a' && "attempt"[1] == 't' && "accepted"[1] == 'c';
    forall href ensures !IsJobField("src:" + href) { assert ("src:" + href)[0] == 's'; }
    forall href | IsHref(href) ensures !IsJobField(href) { assert href[0] == 'h'; }
  }

  lemma FactsAfter(m: Hash, op: HashOp)
    requires SparesJob(op)
    ensures FactsIn(Apply(m, op)) == if op.WriteJob? then FactsOf(op) else FactsIn(m)
  {
    NotJobFields();
    if op.WriteJob? {
      JobFields(m, op);
      hide OnlyIn, IsHref, Apply, IsJobField;
    } else if op.RecordWait? {
      assert !IsJobField("src:" + op.href);
    }
  }

  /** The last job among some writes. */
  function LastJob(ops: seq<HashOp>): (last: Option<HashOp>)
    ensures last.Some? ==> last.value.WriteJob?
  {
    if ops == [] then None
    else
      var later := LastJob(ops[1..]);
      if later.Some? then later else if ops[0].WriteJob? then Some(ops[0]) else None
  }

  ghost predicate AllSpareJob(ops: seq<HashOp>) { forall i :: 0 <= i < |ops| ==> SparesJob(ops[i]) }

  lemma {:induction false} LastJobIsRecorded(m: Hash, ops: seq<HashOp>)
    requires AllSpareJob(ops)
    ensures FactsIn(Run(m, ops)) == match LastJob(ops) case Some(op) => FactsOf(op) case None => FactsIn(m)
    decreases |ops|
  {
    if ops != [] {
      assert AllSpareJob(ops[1..]);
      FactsAfter(m, ops[0]);
      LastJobIsRecorded(Apply(m, ops[0]), ops[1..]);
      hide Apply, FactsIn, SparesJob;
    }
  }

  /** What runRetryDecision reads as the data_id, "" without one. */
  function DataIdOf(m: Hash): string { if "data_id" in m then m["data_id"] else "" }

  /** After a job was written it is that job's, until another is. */
  lemma DataIdOfJob(m: Hash, job: HashOp, later: seq<HashOp>)
    requires job.WriteJob? && SparesJob(job) && AllSpareJob(later) && LastJob(later) == None
    ensures DataIdOf(Run(Apply(m, job), later)) == job.dataId
  {
    FactsAfter(m, job);
    LastJobIsRecorded(Apply(m, job), later);
    hide Run, Apply, LastJob, SparesJob;
  }
}
