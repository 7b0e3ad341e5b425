/** Starting an aria2 download and acknowledging it: the ids minted, the file names built from them, the
    record registered and read back, and the in-flight counter. */
module DownloadStart {
  import opened Text
  import opened Records

  // ---------------------------------------------------------------- ids and file names

  predicate Number(part: string) { part != "" && AllDigits(part) }

  /** FIRST_REGEX of ack.ts: three or four numbers joined by dashes. */
  predicate LooksRegistered(id: string)
  {
    var parts := Split(id, '-');
    (|parts| == 3 || |parts| == 4) && forall i :: 0 <= i < |parts| ==> Number(parts[i])
  }

  /** The id of a work-queue entry, or the one minted for a retry, before the random suffix. */
  datatype BaseId = Queued(ms: nat, seqNo: nat) | Requeued(ms: nat, random: nat)

  function BaseText(id: BaseId): string
  {
    match id
    case Queued(ms, seqNo) => Join([Decimal(ms), Decimal(seqNo)], '-')
    case Requeued(ms, random) => Join([Decimal(ms), "99", Decimal(random)], '-')
  }

  /** `${entry.id}-${randomStreamSuffix()}`. */
  function StreamId(id: BaseId, suffix: nat): string { BaseText(id) + "-" + Decimal(suffix) }

  /** `${streamId}_${href.split('/').pop()}`. */
  function Filename(streamId: string, href: string): string
  {
    var parts := Split(href, '/');
    streamId + "_" + parts[|parts| - 1]
  }

  function PartsOf(id: BaseId, suffix: nat): seq<string>
  {
    match id
    case Queued(ms, seqNo) => [Decimal(ms), Decimal(seqNo), Decimal(suffix)]
    case Requeued(ms, random) => [Decimal(ms), "99", Decimal(random), Decimal(suffix)]
  }

  lemma NumbersHaveNo(part: string, c: char)
    requires Number(part) && !IsDigit(c)
    ensures c !in part
  {
  }

  lemma {:induction false} JoinAppend(parts: seq<string>, last: string)
    requires parts != []
    ensures Join(parts, '-') + "-" + last == Join(parts + [last], '-')
  {
    var all := parts + [last];
    assert all[1..] == parts[1..] + [last];
    if |parts| > 1 {
      var rest := parts[1..];
      JoinAppend(rest, last);
      hide Join;
      calc {
        Join(parts, '-') + "-" + last;
        { JoinFirst(parts); }
        parts[0] + "-" + Join(rest, '-') + "-" + last;
        parts[0] + "-" + (Join(rest, '-') + "-" + last);
        parts[0] + "-" + Join(all[1..], '-');
        { JoinFirst(all); }
        Join(all, '-');
      }
    }
  }

  lemma JoinFirst(parts: seq<string>)
    requires |parts| > 1
    ensures Join(parts, '-') == parts[0] + "-" + Join(parts[1..], '-')
  {
  }

  /** A minted id splits into its numbers. */
  lemma SplitStreamId(id: BaseId, suffix: nat)
    ensures Split(StreamId(id, suffix), '-') == PartsOf(id, suffix)
    ensures forall i :: 0 <= i < |PartsOf(id, suffix)| ==> Number(PartsOf(id, suffix)[i])
  {
    var parts := PartsOf(id, suffix);
    assert AllDigits("99");
    hide Join, Split, Decimal, DigitsValue;
    JoinAppend(parts[..|parts| - 1], Decimal(suffix));
    assert parts[..|parts| - 1] + [Decimal(suffix)] == parts;
    assert parts[..|parts| - 1] ==
           match id { case Queued(ms, seqNo) => [Decimal(ms), Decimal(seqNo)]
                      case Requeued(ms, random) => [Decimal(ms), "99", Decimal(random)] };
    forall p | p in parts
      ensures '-' !in p
    {
      NumbersHaveNo(p, '-');
    }
    SplitOfJoin(parts, '-');
  }

  /** Every minted id passes the check startAck makes, for fresh entries and for retries. */
  lemma MintedPasses(id: BaseId, suffix: nat)
    ensures LooksRegistered(StreamId(id, suffix))
  {
    SplitStreamId(id, suffix);
    hide Split, Decimal;
  }

  lemma NoUnderscore(id: BaseId, suffix: nat)
    ensures '_' !in StreamId(id, suffix)
  {
    SplitStreamId(id, suffix);
    JoinOfSplit(StreamId(id, suffix), '-');
    JoinHasNo(PartsOf(id, suffix), '_');
  }

  lemma {:induction false} JoinHasNo(parts: seq<string>, c: char)
    requires c != '-' && !IsDigit(c) && forall i :: 0 <= i < |parts| ==> Number(parts[i])
    ensures c !in Join(parts, '-')
  {
    if |parts| == 1 {
      NumbersHaveNo(parts[0], c);
    } else if |parts| > 1 {
      NumbersHaveNo(parts[0], c);
      JoinHasNo(parts[1..], c);
    }
  }

  /** The name gives its stream id back, whatever the href. */
  lemma FilenameGivesStreamId(streamId: string, href: string)
    requires '_' !in streamId
    ensures Split(Filename(streamId, href), '_')[0] == streamId
  {
    var parts := Split(href, '/');
    SplitFirst(streamId, '_', parts[|parts| - 1]);
    assert Filename(streamId, href) == streamId + ['_'] + parts[|parts| - 1];
    hide Split;
  }

  /** The last segment of the address, behind the stream id. */
  lemma FilenameIs(streamId: string, path: string, name: string)
    requires '/' !in name
    ensures Filename(streamId, path + "/" + name) == streamId + "_" + name
  {
    LastSegment(path, name);
    hide Split;
  }

  lemma {:induction false} LastSegment(path: string, name: string)
    requires '/' !in name
    ensures var parts := Split(path + "/" + name, '/'); parts[|parts| - 1] == name && |parts| >= 2
  {
    if '/' in path {
      var i := IndexOf(path, '/');
      var head, tail := path[..i], path[i + 1..];
      assert path + "/" + name == head + ['/'] + (tail + "/" + name);
      SplitFirst(head, '/', tail + "/" + name);
      LastSegment(tail, name);
      hide Split;
      var rest := Split(tail + "/" + name, '/');
      assert ([head] + rest)[|[head] + rest| - 1] == rest[|rest| - 1];
    } else {
      assert path + "/" + name == path + ['/'] + name;
      SplitFirst(path, '/', name);
      SplitWithoutSeparator(name, '/');
    }
  }

  /** The ids taken for registered: three or four numbers joined by dashes, and nothing else. */
  lemma LooksRegisteredIff(id: string)
    ensures LooksRegistered(id) <==>
            exists parts: seq<string> :: (|parts| == 3 || |parts| == 4) && AllNumbers(parts) && id == Join(parts, '-')
  {
    hide Split, Join;
    if LooksRegistered(id) {
      JoinOfSplit(id, '-');
      assert AllNumbers(Split(id, '-'));
    }
    if parts: seq<string> :| (|parts| == 3 || |parts| == 4) && AllNumbers(parts) && id == Join(parts, '-') {
      SplitOfJoin(parts, '-');
    }
  }

  ghost predicate AllNumbers(parts: seq<string>) { forall i :: 0 <= i < |parts| ==> Number(parts[i]) }

  lemma StreamIdGivesBase(a: BaseId, m: nat, b: BaseId, n: nat)
    requires StreamId(a, m) == StreamId(b, n)
    ensures a == b && m == n
  {
    SplitStreamId(a, m);
    SplitStreamId(b, n);
    var p, q := PartsOf(a, m), PartsOf(b, n);
    assert p == q;
    hide Split, StreamId, Decimal;
    DecimalInjective(m, n) by { assert p[|p| - 1] == q[|q| - 1]; }
    assert |p| == 3 <==> a.Queued?;
    assert |q| == 3 <==> b.Queued?;
    if a.Queued? {
      DecimalInjective(a.ms, b.ms) by { assert p[0] == q[0]; }
      DecimalInjective(a.seqNo, b.seqNo) by { assert p[1] == q[1]; }
    } else {
      DecimalInjective(a.ms, b.ms) by { assert p[0] == q[0]; }
      DecimalInjective(a.random, b.random) by { assert p[2] == q[2]; }
    }
  }

  /** Two attempts share an aria2 file name only if they are the same base id with the same suffix: attempts
      for different work-queue entries never do, whatever the suffixes and hrefs. */
  lemma FilenamesDiffer(a: BaseId, m: nat, href: string, b: BaseId, n: nat, other: string)
    requires Filename(StreamId(a, m), href) == Filename(StreamId(b, n), other)
    ensures a == b && m == n
  {
    NoUnderscore(a, m);
    NoUnderscore(b, n);
    FilenameGivesStreamId(StreamId(a, m), href);
    FilenameGivesStreamId(StreamId(b, n), other);
    hide Split, Filename, StreamId;
    StreamIdGivesBase(a, m, b, n);
  }

  // ---------------------------------------------------------------- registration (src/downloader/aria-start.ts)

  datatype Entry = Entry(id: BaseId, downloaderId: string, href: string, dataId: string, workQueueEntryId: Option<string>)

  type Fields = map<string, string>

  function Registration(entry: Entry, suffix: nat): Fields
  {
    map["stream_id" := StreamId(entry.id, suffix), "downloader_id" := entry.downloaderId,
        "download_entry_id" := if entry.workQueueEntryId.Some? then entry.workQueueEntryId.value else "",
        "href" := entry.href, "filename" := Filename(StreamId(entry.id, suffix), entry.href), "data_id" := entry.dataId]
  }

  // ---------------------------------------------------------------- src/downloader/ack.ts

  datatype Acked = Acked(streamId: string, downloaderId: string, downloadEntryId: string, href: string, filename: string, dataId: string)

  datatype Cleanup = AckWorkQueueEntry(id: string) | DeleteWorkQueueEntry(id: string) | DeleteStreamEntry(id: string)
    | DeleteStreamEntryExpire(id: string) | DeleteAria2GidRecord(gid: string)

  function FieldOr(fields: Fields, name: string, other: string): string
  {
    if name in fields then fields[name] else other
  }

  /** The record read is a registration. */
  predicate Passes(fields: Fields)
  {
    "stream_id" in fields && fields["stream_id"] != "" && LooksRegistered(fields["stream_id"])
  }

  const RETRIES := 2

  /** answers(k) is what the k-th HGETALL returns; another worker or the promotion may change it in between. */
  method StartAck(answers: nat -> seq<string>, gid: string) returns (acked: Option<Acked>, attempt: nat, cleanups: seq<Cleanup>)
    ensures attempt <= 2
    ensures forall k: nat :: k < attempt ==> !Passes(ToMap(answers(k)))
    ensures acked.Some? <==> Passes(ToMap(answers(attempt)))
    ensures acked.None? ==> attempt == 2 && cleanups == []
    ensures acked.Some? ==>
            var fields := ToMap(answers(attempt));
            && acked.value == Acked(fields["stream_id"], FieldOr(fields, "downloader_id", ""), FieldOr(fields, "download_entry_id", ""),
                                    FieldOr(fields, "href", ""), FieldOr(fields, "filename", ""), FieldOr(fields, "data_id", ""))
            && cleanups == (if acked.value.downloadEntryId == "" then []
                            else [AckWorkQueueEntry(acked.value.downloadEntryId), DeleteWorkQueueEntry(acked.value.downloadEntryId)])
                           + [DeleteStreamEntry(acked.value.streamId), DeleteStreamEntryExpire(acked.value.streamId), DeleteAria2GidRecord(gid)]
  {
    var fields := ParseFlatRecord(answers(0));
    attempt := 0;
    while !Passes(fields) && attempt < RETRIES
      invariant attempt <= RETRIES && fields == ToMap(answers(attempt))
      invariant forall k: nat :: k < attempt ==> !Passes(ToMap(answers(k)))
    {
      attempt := attempt + 1;
      fields := ParseFlatRecord(answers(attempt));
    }
    if !Passes(fields) { return None, attempt, []; }
    var downloadEntryId := FieldOr(fields, "download_entry_id", "");
    acked := Some(Acked(fields["stream_id"], FieldOr(fields, "downloader_id", ""), downloadEntryId,
                        FieldOr(fields, "href", ""), FieldOr(fields, "filename", ""), FieldOr(fields, "data_id", "")));
    cleanups := (if downloadEntryId == "" then [] else [AckWorkQueueEntry(downloadEntryId), DeleteWorkQueueEntry(downloadEntryId)])
                + [DeleteStreamEntry(fields["stream_id"]), DeleteStreamEntryExpire(fields["stream_id"]), DeleteAria2GidRecord(gid)];
  }

  /** A registered and promoted record, in whatever order it is listed, passes the check and gives the entry
      back in every field; a retry has no work-queue entry to acknowledge. */
  lemma RegisteredIsAcked(entry: Entry, suffix: nat, listing: Record)
    requires AsMap(listing) == Registration(entry, suffix)
    ensures var fields := ToMap(Flatten(listing));
            && Passes(fields)
            && fields["stream_id"] == StreamId(entry.id, suffix)
            && FieldOr(fields, "downloader_id", "") == entry.downloaderId
            && FieldOr(fields, "href", "") == entry.href
            && FieldOr(fields, "data_id", "") == entry.dataId
            && FieldOr(fields, "filename", "") == Filename(StreamId(entry.id, suffix), entry.href)
            && FieldOr(fields, "download_entry_id", "") == (if entry.workQueueEntryId.Some? then entry.workQueueEntryId.value else "")
  {
    hide ToMap, Flatten, AsMap, Registration, LooksRegistered;
    ToMapOfFlatten(listing);
    MintedPasses(entry.id, suffix);
    assert StreamId(entry.id, suffix) != "";
    hide StreamId, Filename;
    RegistrationFields(entry, suffix);
  }

  lemma RegistrationFields(entry: Entry, suffix: nat)
    ensures var r := Registration(entry, suffix);
            && "stream_id" in r && r["stream_id"] == StreamId(entry.id, suffix)
            && "downloader_id" in r && r["downloader_id"] == entry.downloaderId
            && "href" in r && r["href"] == entry.href
            && "data_id" in r && r["data_id"] == entry.dataId
            && "filename" in r && r["filename"] == Filename(StreamId(entry.id, suffix), entry.href)
            && "download_entry_id" in r && r["download_entry_id"] == (if entry.workQueueEntryId.Some? then entry.workQueueEntryId.value else "")
  {
    hide StreamId, Filename;
    assert |"stream_id"| == 9 && |"downloader_id"| == 13 && |"download_entry_id"| == 17 && |"href"| == 4 && |"filename"| == 8 && |"data_id"| == 7;
  }

  // ---------------------------------------------------------------- InFlightCounter (src/downloader/consumer.ts)

  const BATCH := 30

  /** The counter, and whether a poll has passed its gate and not added its batch yet. Completions and errors
      may release in between. */
  class InFlightCounter {
    const ariaInQueue: nat
    var value: int
    ghost var polling: bool

    ghost predicate Valid()
      reads this
    {
      && 0 <= value && (value == 0 || value < ariaInQueue + BATCH)
      && (polling ==> value < ariaInQueue)
    }

    constructor (ariaInQueue: nat)
      ensures Valid() && value == 0 && this.ariaInQueue == ariaInQueue && !polling
    {
      this.ariaInQueue := ariaInQueue;
      value := 0;
      polling := false;
    }

    /** The `Length ?` gate of a poll. */
    method Gate(queueLength: nat) returns (open: bool)
      requires Valid() && !polling
      modifies `polling
      ensures Valid() && open == (queueLength > 0 && value < ariaInQueue) && polling == open
    {
      open := queueLength > 0 && value < ariaInQueue;
      polling := open;
    }

    /** The batch read after the gate, at most 30 entries. */
    method Add(n: nat)
      requires Valid() && polling && n <= BATCH
      modifies this
      ensures Valid() && value == old(value) + n < ariaInQueue + 30 && !polling
    {
      value := value + n;
      polling := false;
    }

    /** A terminal state of one job; never below zero. */
    method Release()
      requires Valid()
      modifies `value
      ensures Valid() && value == if old(value) > 0 then old(value) - 1 else 0
    {
      value := if value > 0 then value - 1 else 0;
    }
  }
}
