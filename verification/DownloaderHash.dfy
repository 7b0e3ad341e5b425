/** The downloader_id hash: one field per href holding its status, plus bookkeeping fields. It is written
    by the subscriber (blind HSETs) and by the downloader (two atomic scripts), in any interleaving. */
module DownloaderHash {
  import opened Text

  type Hash = map<string, string>

  /** The field names of hrefs. Every bookkeeping field name starts otherwise. */
  predicate IsHref(s: string) { "http" <= s }

  // ---------------------------------------------------------------- the writes, as functions

  /** One atomic write on the hash. */
  datatype HashOp =
    | WriteJob(href: string, source: string, wnm: string, topic: string, published: string, dataId: string, accepted: string)
    | RecordWait(href: string, source: string)
    | InitAttempt
    | CompleteHref(href: string, storedAt: string, link: string, localPath: string)
    | RetryTransition(promoteHref: string, newAttempt: string, errorHref: string)

  function Apply(m: Hash, op: HashOp): Hash
  {
    match op
    case WriteJob(href, source, wnm, topic, published, dataId, accepted) =>
      m[href := "queue"]["src:" + href := source]["wnm" := wnm]["topic" := topic]["published" := published]
       ["attempt" := "1"]["data_id" := dataId]["accepted" := accepted]
    case RecordWait(href, source) => m[href := "wait"]["src:" + href := source]
    case InitAttempt => m["attempt" := "1"]
    case CompleteHref(href, storedAt, link, localPath) => ScriptComplete(m, href, storedAt, link, localPath).0
    case RetryTransition(promoteHref, newAttempt, errorHref) => ScriptRetry(m, promoteHref, newAttempt, errorHref).0
  }

  /** LUA_COMPLETE: the new hash and whether the script answered 'complete' (nil otherwise). */
  function ScriptComplete(m: Hash, href: string, storedAt: string, link: string, localPath: string): (Hash, bool)
  {
    if href !in m then (m, false)
    else if m[href] == "complete" then (m, true)
    else (m[href := "complete"]["stored" := storedAt]["link" := link]["local-path" := localPath], true)
  }

  function Demote(m: Hash, errorHref: string): Hash
  {
    if errorHref != "" && errorHref in m && m[errorHref] == "queue" then m[errorHref := "error"] else m
  }

  /** LUA_RETRY: the new hash and the script's answer, 1 when it promoted. */
  function ScriptRetry(m: Hash, promoteHref: string, newAttempt: string, errorHref: string): (Hash, nat)
  {
    var d := Demote(m, errorHref);
    if promoteHref != "" && promoteHref in d && d[promoteHref] == "wait"
    then (d[promoteHref := "queue"]["attempt" := newAttempt], 1)
    else (d, 0)
  }

  // ---------------------------------------------------------------- field by field

  function FieldOf(m: Hash, field: string): Option<string> { if field in m then Some(m[field]) else None }

  /** A field has a value. */
  predicate Holds(m: Hash, field: string, value: string) { field in m && m[field] == value }

  /** No field outside a set was added, removed or changed. */
  ghost predicate OnlyIn(before: Hash, after: Hash, fields: set<string>)
  {
    forall f :: f !in fields ==> (f in after <==> f in before) && (f in before ==> after[f] == before[f])
  }

  /** A job as the downloader will read it. */
  ghost predicate HoldsJob(m: Hash, href: string, source: string, wnm: string, topic: string, published: string, dataId: string, accepted: string)
  {
    && (IsHref(href) ==> Holds(m, href, "queue")) && Holds(m, "src:" + href, source)
    && Holds(m, "wnm", wnm) && Holds(m, "topic", topic) && Holds(m, "published", published)
    && Holds(m, "attempt", "1") && Holds(m, "data_id", dataId) && Holds(m, "accepted", accepted)
  }

  lemma JobFields(m: Hash, op: HashOp)
    requires op.WriteJob?
    ensures HoldsJob(Apply(m, op), op.href, op.source, op.wnm, op.topic, op.published, op.dataId, op.accepted)
    ensures OnlyIn(m, Apply(m, op), {op.href, "src:" + op.href, "wnm", "topic", "published", "attempt", "data_id", "accepted"})
  {
    assert ("src:" + op.href)[0] == 's' && ("src:" + op.href)[3] == ':';
    assert IsHref(op.href) ==> op.href[0] == 'h';
    assert "wnm"[0] == 'w' && "topic"[0] == 't' && "published"[0] == 'p' && "attempt"[0] == 'a' && "data_id"[0] == 'd' && "accepted"[0] == 'a';
    assert "attempt"[1] == 't' && "accepted"[1] == 'c';
  }

  lemma WaitFields(m: Hash, href: string, source: string)
    ensures var after := Apply(m, RecordWait(href, source));
            && Holds(after, "src:" + href, source) && (IsHref(href) ==> Holds(after, href, "wait"))
            && OnlyIn(m, after, {href, "src:" + href})
  {
    assert ("src:" + href)[0] == 's' && (IsHref(href) ==> href[0] == 'h');
  }

  ghost predicate RetryWrites(m: Hash, after: Hash, promoteHref: string, newAttempt: string, errorHref: string, answer: nat)
  {
    var fails := errorHref != "" && Holds(m, errorHref, "queue");
    && (if promoteHref != "" && Holds(m, promoteHref, "wait") then answer == 1 else answer == 0)
    && (fails && errorHref != "attempt" ==> Holds(after, errorHref, "error"))
    && (answer == 1 ==> Holds(after, "attempt", newAttempt) && (promoteHref != "attempt" ==> Holds(after, promoteHref, "queue")))
    && OnlyIn(m, after, (if answer == 1 then {promoteHref, "attempt"} else {}) + (if fails then {errorHref} else {}))
  }

  lemma RetryFields(m: Hash, promoteHref: string, newAttempt: string, errorHref: string)
    ensures var s := ScriptRetry(m, promoteHref, newAttempt, errorHref);
            RetryWrites(m, s.0, promoteHref, newAttempt, errorHref, s.1)
  {
    var d := Demote(m, errorHref);
    assert OnlyIn(m, d, if errorHref != "" && Holds(m, errorHref, "queue") then {errorHref} else {});
  }

  // ---------------------------------------------------------------- the writes, on the shared key

  const JOB_TTL_SECONDS := 7200

  class HashKey {
    var fields: Hash
    var expiry: Option<nat>  // the seconds of the last EXPIRE; HSET leaves them

    constructor ()
      ensures fields == map[] && expiry == None
    {
      fields, expiry := map[], None;
    }

    method HGet(field: string) returns (value: Option<string>)
      ensures value == if field in fields then Some(fields[field]) else None
    {
      if field in fields { value := Some(fields[field]); } else { value := None; }
    }

    method HSet(field: string, value: string)
      modifies `fields
      ensures fields == old(fields)[field := value]
    {
      fields := fields[field := value];
    }

    method WriteDownloadJob(href: string, source: string, wnm: string, topic: string, published: string, dataId: Option<string>, accepted: string)
      modifies this
      ensures expiry == Some(7200)
      ensures fields == Apply(old(fields), WriteJob(href, source, wnm, topic, published, if dataId.Some? then dataId.value else "", accepted))
      ensures HoldsJob(fields, href, source, wnm, topic, published, if dataId.Some? then dataId.value else "", accepted)
      ensures OnlyIn(old(fields), fields, {href, "src:" + href, "wnm", "topic", "published", "attempt", "data_id", "accepted"})
    {
      JobFields(fields, WriteJob(href, source, wnm, topic, published, if dataId.Some? then dataId.value else "", accepted));
      hide HoldsJob, OnlyIn;
      HSet(href, "queue");
      HSet("src:" + href, source);
      HSet("wnm", wnm);
      HSet("topic", topic);
      HSet("published", published);
      HSet("attempt", "1");
      HSet("data_id", if dataId.Some? then dataId.value else "");
      HSet("accepted", accepted);
      expiry := Some(JOB_TTL_SECONDS);
    }

    method RecordWaitHref(href: string, source: string)
      modifies `fields
      ensures fields == Apply(old(fields), RecordWait(href, source))
      ensures Holds(fields, "src:" + href, source) && (IsHref(href) ==> Holds(fields, href, "wait"))
      ensures OnlyIn(old(fields), fields, {href, "src:" + href})
    {
      WaitFields(fields, href, source);
      hide Holds, OnlyIn;
      HSet(href, "wait");
      HSet("src:" + href, source);
    }

    /** LUA_COMPLETE, statement by statement. */
    method EvalComplete(href: string, storedAt: string, link: string, localPath: string) returns (answer: Option<string>)
      modifies `fields
      ensures fields == Apply(old(fields), CompleteHref(href, storedAt, link, localPath))
      ensures answer == if href in old(fields) then Some("complete") else None
      ensures answer.Some? && IsHref(href) ==> Holds(fields, href, "complete")
      // the first completion records when, under which address and where; a later one changes nothing
      ensures href in old(fields) && old(fields)[href] != "complete" ==>
              && Holds(fields, "stored", storedAt) && Holds(fields, "link", link) && Holds(fields, "local-path", localPath)
              && OnlyIn(old(fields), fields, {href, "stored", "link", "local-path"})
      ensures !(href in old(fields) && old(fields)[href] != "complete") ==> fields == old(fields)
    {
      var c := HGet(href);
      if c.None? { return None; }
      if c.value == "complete" { return Some("complete"); }
      HSet(href, "complete");
      HSet("stored", storedAt);
      HSet("link", link);
      HSet("local-path", localPath);
      assert IsHref(href) ==> href[0] == 'h';
      assert "stored"[0] == 's' && "link"[1] == 'i' && "local-path"[1] == 'o';
      return Some("complete");
    }

    /** LUA_RETRY, statement by statement. */
    method EvalRetry(promoteHref: string, newAttempt: string, errorHref: string) returns (promoted: nat)
      modifies `fields
      ensures fields == Apply(old(fields), RetryTransition(promoteHref, newAttempt, errorHref))
      ensures promoted == ScriptRetry(old(fields), promoteHref, newAttempt, errorHref).1
      // a queued href fails, a waiting one is queued with the new count, and nothing else changes
      ensures RetryWrites(old(fields), fields, promoteHref, newAttempt, errorHref, promoted)
    {
      RetryFields(fields, promoteHref, newAttempt, errorHref);
      hide RetryWrites;
      if errorHref != "" {
        var e := HGet(errorHref);
        if e == Some("queue") { HSet(errorHref, "error"); }
      }
      if promoteHref != "" {
        var w := HGet(promoteHref);
        if w == Some("wait") {
          HSet(promoteHref, "queue");
          HSet("attempt", newAttempt);
          return 1;
        }
        return 0;
      }
      return 0;
    }
  }
}
