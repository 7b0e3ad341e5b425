/** runConsumerLoop and the stream commands it uses, segment by segment between awaits. Every segment is one
    step of the model, so the theorems on runs hold for any interleaving of these calls. */
module RawStreamLoop {
  import opened Text
  import opened StreamIds
  import opened RawStream

  lemma ReadEffect(cfg: Config, s: State)
    requires Enabled(cfg, s, Read) && Cursor(s)
    ensures var t, batch := Next(cfg, s, Read), s.appended[From(s)..To(cfg, s)];
            && t.appended == s.appended && t.gone == s.gone && t.lossWarned == s.lossWarned && t.events == s.events
            && t.lastId == (if batch == [] then s.lastId else batch[|batch| - 1].id)
            && t.inFlight == s.inFlight + |batch| && t.batches == s.batches + [|batch|]
            && t.appended[t.gone..] == s.appended[s.gone..]
            && (Anchored(cfg, s) ==> Cursor(t) && Anchored(cfg, t))
  {
    if Anchored(cfg, s) { CursorKept(cfg, s, Read); }
    hide Cursor, Anchored, StreamIdMinusMs;
  }

  /** What XREAD finds newer than the cursor: the entries there from the first unread one on. */
  lemma NewerFrom(s: State)
    requires Cursor(s)
    ensures s.gone <= From(s) <= |s.appended|
    ensures forall j :: 0 <= j < |s.appended[s.gone..]| ==> (Before(s.lastId, s.appended[s.gone..][j].id) <==> From(s) - s.gone <= j)
  {
    hide Ordered;
  }

  /** A read skips nothing newer than the cursor, and takes as many entries as there are, up to COUNT: those of
      the stream's present entries from i on. */
  lemma BatchIs(cfg: Config, s: State) returns (i: nat)
    requires Cursor(s)
    ensures var entries, batch := s.appended[s.gone..], s.appended[From(s)..To(cfg, s)];
            && i <= |entries| && (forall j :: 0 <= j < |entries| ==> (Before(s.lastId, entries[j].id) <==> i <= j))
            && |batch| == (if |entries| - i < cfg.count then |entries| - i else cfg.count) && batch <= entries[i..]
  {
    NewerFrom(s);
    i := From(s) - s.gone;
    var n := To(cfg, s) - From(s);
    SliceOfRest(s.appended, s.gone, i, i + n);
    hide Cursor, Before;
  }

  lemma SliceOfRest<T>(s: seq<T>, from: nat, i: nat, j: nat)
    requires from + j <= |s| && i <= j
    ensures s[from..][i..j] == s[from + i..from + j]
  {
  }

  lemma OldPrefix(cfg: Config, s: State, removed: nat)
    requires s.gone + removed <= |s.appended|
    requires forall i :: 0 <= i < removed ==>
      Before(s.appended[s.gone..][i].id, ParseStreamId(StreamIdMinusMs(PrintId(s.lastId), cfg.marginMs)))
    ensures Enabled(cfg, s, RawStream.Trim(removed))
  {
    hide ParseStreamId, StreamIdMinusMs, PrintId, Before;
    forall i | s.gone <= i < s.gone + removed
      ensures Before(s.appended[i].id, ParseStreamId(StreamIdMinusMs(PrintId(s.lastId), cfg.marginMs)))
    {
      assert s.appended[i] == s.appended[s.gone..][i - s.gone];
    }
  }

  /** A trim takes the oldest entries, and only such as are older than the cursor by more than the margin. */
  lemma TrimIsOld(cfg: Config, s: State, removed: nat)
    requires Enabled(cfg, s, RawStream.Trim(removed))
    ensures Next(cfg, s, RawStream.Trim(removed)).appended[s.gone + removed..] == s.appended[s.gone..][removed..]
    ensures forall i :: s.gone <= i < s.gone + removed ==> s.appended[i].id.ms + cfg.marginMs < s.lastId.ms
  {
    MinusMsIs(s.lastId, cfg.marginMs);
    hide ParseStreamId, StreamIdMinusMs, PrintId;
  }

  lemma TrimEffect(cfg: Config, s: State, removed: nat)
    requires Enabled(cfg, s, RawStream.Trim(removed)) && Cursor(s) && Anchored(cfg, s)
    ensures var t := Next(cfg, s, RawStream.Trim(removed));
            && Cursor(t) && Anchored(cfg, t)
            && t.appended == s.appended && t.gone == s.gone + removed && t.lastId == s.lastId && t.inFlight == s.inFlight
            && t.lossWarned == s.lossWarned && t.batches == s.batches && t.events == s.events
  {
    CursorKept(cfg, s, RawStream.Trim(removed));
    hide Cursor, Anchored, StreamIdMinusMs, ParseStreamId;
  }

  class ConsumerLoop {
    const cfg: Config
    var entries: seq<Entry>          // what the stream holds
    var lastId: string
    var inFlight: int
    var rawStreamLossWarned: bool
    var pending: seq<nat>            // sizes of the batches not settled yet
    var log: seq<Event>
    ghost var model: State

    ghost predicate Valid()
      reads this
    {
      && Cursor(model) && entries == model.appended[model.gone..]
      && lastId == PrintId(model.lastId) && inFlight == model.inFlight
      && rawStreamLossWarned == model.lossWarned && pending == model.batches && log == model.events
      && Anchored(cfg, model)
    }

    /** A loop on a new stream. */
    constructor (cfg: Config)
      ensures Valid() && this.cfg == cfg && Initial(cfg, model) && model.appended == []
    {
      this.cfg := cfg;
      entries, lastId, inFlight, rawStreamLossWarned, pending, log := [], PrintId(cfg.startId), 0, false, [], [];
      model := State([], 0, cfg.startId, [], 0, false, 0, [], {}, []);
    }

    /** XADD MAXLEN ~: the new entry, less the oldest ones that the cap lets go. */
    method AppendRawMessage(entry: Entry, evicted: nat)
      requires Valid() && Enabled(cfg, model, Append(entry, evicted))
      modifies this
      ensures Valid() && model == Next(cfg, old(model), Append(entry, evicted))
    {
      CursorKept(cfg, model, Append(entry, evicted));
      entries := (entries + [entry])[evicted..];
      model := Next(cfg, model, Append(entry, evicted));
      hide Enabled, Cursor, Anchored;
    }

    /** How many of the oldest entries XTRIM MINID ~ lets go: Redis stops at a node boundary of its own choice. */
    method OlderThan(cutoffId: string, patience: nat) returns (removed: nat)
      ensures removed <= patience && removed <= |entries|
      ensures forall i :: 0 <= i < removed ==> Before(entries[i].id, ParseStreamId(cutoffId))
    {
      removed := 0;
      while removed < patience && removed < |entries| && Before(entries[removed].id, ParseStreamId(cutoffId))
        invariant removed <= patience && removed <= |entries|
        invariant forall i :: 0 <= i < removed ==> Before(entries[i].id, ParseStreamId(cutoffId))
      {
        removed := removed + 1;
      }
    }

    /** The trim, with the cutoff behind the cursor. */
    method Trim(patience: nat) returns (removed: nat)
      requires Valid()
      modifies this
      ensures removed <= patience && Enabled(cfg, old(model), RawStream.Trim(removed))
      ensures Valid() && model == Next(cfg, old(model), RawStream.Trim(removed))
    {
      assert model.gone + |entries| == |model.appended|;
      hide Next, Enabled, Cursor, Anchored, StreamIdMinusMs, ParseStreamId, Before, PrintId;
      removed := OlderThan(StreamIdMinusMs(lastId, cfg.marginMs), patience);
      OldPrefix(cfg, model, removed);
      TrimEffect(cfg, model, removed);
      entries := entries[removed..];
      model := Next(cfg, model, RawStream.Trim(removed));
    }

    /** The confirmed-loss check, once the cursor has left its start. */
    method CheckLoss()
      requires Valid()
      modifies this
      ensures Valid()
      ensures model == if old(model).lastId == cfg.startId then old(model) else Next(cfg, old(model), RawStream.CheckLoss)
    {
      if PrintId(model.lastId) == PrintId(cfg.startId) { PrintInjective(model.lastId, cfg.startId); }
      if lastId != PrintId(cfg.startId) {
        CursorKept(cfg, model, RawStream.CheckLoss);
        var oldestId := if entries == [] then None else Some(PrintId(entries[0].id));
        var lost := oldestId.Some? && CompareStreamIds(oldestId.value, lastId) > 0;
        if entries != [] {
          assert entries[0] == model.appended[model.gone];
          CompareIsBefore(entries[0].id, model.lastId);
        }
        assert lost == Detects(model);
        model := Next(cfg, model, RawStream.CheckLoss);
        if lost && !rawStreamLossWarned {
          rawStreamLossWarned := true;
          log := log + [TrimmedUnread];
        } else if !lost && rawStreamLossWarned {
          rawStreamLossWarned := false;
          log := log + [TrimmedUnreadCleared];
        }
      }
    }

    /** XREAD COUNT: the oldest entries newer than an id. */
    method ReadRawMessages(after: string) returns (batch: seq<Entry>)
      requires Valid() && after == lastId
      ensures batch == model.appended[From(model)..To(cfg, model)]
    {
      ParseOfPrint(model.lastId);
      NewerFrom(model);
      hide Cursor, Anchored, Before, ParseStreamId, PrintId;
      var i := 0;
      while i < |entries| && !Before(ParseStreamId(after), entries[i].id)
        invariant 0 <= i <= |entries| && model.gone + i <= From(model)
      {
        i := i + 1;
      }
      assert model.gone + i == From(model);
      batch := entries[i..Min(i + cfg.count, |entries|)];
      SliceOfRest(model.appended, model.gone, i, Min(i + cfg.count, |entries|));
    }

    /** Reads a batch, moves the cursor past it and dispatches it without waiting. */
    method ReadBatch() returns (batch: seq<Entry>)
      requires Valid() && inFlight < cfg.maxInFlight
      modifies this
      ensures Valid() && model == Next(cfg, old(model), Read)
      ensures batch == old(model).appended[From(old(model))..To(cfg, old(model))]
    {
      ReadEffect(cfg, model);
      assert Enabled(cfg, model, Read);
      hide Next, Enabled, Cursor, Anchored, StreamIdMinusMs, From, To, PrintId;
      batch := ReadRawMessages(lastId);
      if |batch| > 0 { lastId := PrintId(batch[|batch| - 1].id); }
      inFlight := inFlight + |batch|;
      pending := pending + [|batch|];
      model := Next(cfg, model, Read);
    }

    /** All entries of one batch have settled. */
    method Settled(k: nat)
      requires Valid() && k < |pending|
      modifies this
      ensures Valid() && model == Next(cfg, old(model), Settle(k))
    {
      CursorKept(cfg, model, Settle(k));
      inFlight := inFlight - pending[k];
      pending := pending[..k] + pending[k + 1..];
      model := Next(cfg, model, Settle(k));
    }
  }
}
