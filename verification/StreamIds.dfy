/** Ids of Redis stream entries, as the consumer compares and subtracts them in text form. */
module StreamIds {
  import opened Text

  /** What `<ms>-<seq>` stands for. */
  datatype Id = Id(ms: nat, seqNo: nat)

  predicate Before(a: Id, b: Id) { a.ms < b.ms || (a.ms == b.ms && a.seqNo < b.seqNo) }

  function PrintId(id: Id): string { Decimal(id.ms) + "-" + Decimal(id.seqNo) }

  // ---------------------------------------------------------------- src/subscriber/stream-id.ts

  /** `Number(part) || 0` on a part that is absent, a digit string or not a number. */
  function NumberOrZero(part: Option<string>): nat
  {
    if part.Some? && AllDigits(part.value) then DigitsValue(part.value) else 0
  }

  function ParseStreamId(id: string): Id
  {
    var parts := Split(id, '-');
    Id(NumberOrZero(Some(parts[0])), NumberOrZero(if |parts| > 1 then Some(parts[1]) else None))
  }

  function CompareStreamIds(a: string, b: string): int
  {
    var x, y := ParseStreamId(a), ParseStreamId(b);
    if x.ms != y.ms then (if x.ms < y.ms then -1 else 1)
    else if x.seqNo != y.seqNo then (if x.seqNo < y.seqNo then -1 else 1)
    else 0
  }

  function StreamIdMinusMs(id: string, marginMs: int): string
  {
    var ms := ParseStreamId(id).ms;
    PrintId(Id(if ms - marginMs < 0 then 0 else ms - marginMs, 0))
  }

  // ---------------------------------------------------------------- properties

  lemma ParseOfPrint(id: Id)
    ensures ParseStreamId(PrintId(id)) == id
  {
    var ms, seqNo := Decimal(id.ms), Decimal(id.seqNo);
    assert '-' !in ms && '-' !in seqNo;
    SplitFirst(ms, '-', seqNo);
    SplitWithoutSeparator(seqNo, '-');
    assert PrintId(id) == ms + ['-'] + seqNo;
    DecimalRoundTrip(id.ms);
    DecimalRoundTrip(id.seqNo);
  }

  lemma PrintInjective(a: Id, b: Id)
    requires PrintId(a) == PrintId(b)
    ensures a == b
  {
    ParseOfPrint(a);
    ParseOfPrint(b);
  }

  /** On real ids the comparison is the order of the pairs. */
  lemma CompareIsBefore(a: Id, b: Id)
    ensures CompareStreamIds(PrintId(a), PrintId(b)) < 0 <==> Before(a, b)
    ensures CompareStreamIds(PrintId(a), PrintId(b)) > 0 <==> Before(b, a)
    ensures CompareStreamIds(PrintId(a), PrintId(b)) == 0 <==> a == b
  {
    ParseOfPrint(a);
    ParseOfPrint(b);
  }

  /** On any strings, malformed ones included, it is a total preorder. */
  lemma CompareTotal(a: string, b: string, c: string)
    ensures CompareStreamIds(a, b) == -CompareStreamIds(b, a)
    ensures CompareStreamIds(a, b) <= 0 && CompareStreamIds(b, c) <= 0 ==> CompareStreamIds(a, c) <= 0
    ensures CompareStreamIds(a, b) == 0 <==> ParseStreamId(a) == ParseStreamId(b)
  {
    hide ParseStreamId;
  }

  /** Comparing the texts instead would put 9-0 after 10-0. */
  lemma TextOrderIsNot()
    ensures Less(PrintId(Id(10, 0)), PrintId(Id(9, 0))) && CompareStreamIds(PrintId(Id(10, 0)), PrintId(Id(9, 0))) > 0
  {
    CompareIsBefore(Id(10, 0), Id(9, 0));
    assert Decimal(1) == "1" && Decimal(9) == "9" && Decimal(0) == "0";
    assert Decimal(10) == Decimal(1) + "0";
  }

  lemma MinusMsIs(id: Id, marginMs: int)
    ensures ParseStreamId(StreamIdMinusMs(PrintId(id), marginMs)) ==
            Id(if id.ms - marginMs < 0 then 0 else id.ms - marginMs, 0)
  {
    ParseOfPrint(id);
    ParseOfPrint(Id(if id.ms - marginMs < 0 then 0 else id.ms - marginMs, 0));
  }

  /** A trim below `lastId - margin` spares every id newer than lastId, in whatever stream, exactly when the
      margin is not negative. */
  lemma TrimSparesUnreadIff(last: Id, marginMs: int)
    ensures marginMs >= 0 <==>
            forall id :: Before(last, id) ==> !Before(id, ParseStreamId(StreamIdMinusMs(PrintId(last), marginMs)))
  {
    MinusMsIs(last, marginMs);
    if marginMs < 0 {
      assert Before(last, Id(last.ms, last.seqNo + 1));
    }
  }
}
