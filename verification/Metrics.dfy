/** Statistics of one window: reading the keys back and totalling per centre. */
module Metrics {
  import opened Text

  // ---------------------------------------------------------------- keys (src/wis2/redis-keys.ts)

  function StatsComboKey(windowKey: string, centreId: string, subtopic: string): string
  {
    "{" + windowKey + "}" + (":" + ("combo" + (":" + (centreId + (":" + subtopic)))))
  }

  function StatsSrcKey(windowKey: string, centreId: string, source: string): string
  {
    "{" + windowKey + "}" + (":" + ("src" + (":" + (centreId + (":" + source)))))
  }

  /** What follows the first part equal to a word: the next part, and the rest joined again. */
  function AfterWord(key: string, word: string): (string, string)
  {
    var parts := Split(key, ':');
    var i := IndexOf(parts, word);
    (if i + 1 < |parts| then parts[i + 1] else "", Join(if i + 2 < |parts| then parts[i + 2..] else [], ':'))
  }

  lemma {:induction false} SplitConcat(a: string, b: string)
    ensures Split(a + ":" + b, ':') == Split(a, ':') + Split(b, ':')
  {
    hide Split;
    if ':' !in a {
      SplitWithoutSeparator(a, ':');
      SplitFirst(a, ':', b);
    } else {
      var i := IndexOf(a, ':');
      var head, tail := a[..i], a[i + 1..];
      assert a == head + [':'] + tail;
      assert a + ":" + b == head + [':'] + (tail + ":" + b);
      SplitFirst(head, ':', tail);
      SplitFirst(head, ':', tail + ":" + b);
      SplitConcat(tail, b);
      assert [head] + (Split(tail, ':') + Split(b, ':')) == Split(a, ':') + Split(b, ':');
    }
  }

  lemma FirstOf(before: seq<string>, word: string, after: seq<string>)
    requires word !in before
    ensures IndexOf(before + ([word] + after), word) == |before|
  {
    assert FirstAt(before + ([word] + after), word, |before|);
  }

  lemma SplitParts(front: string, word: string, centre: string, rest: string)
    requires ':' !in word && ':' !in centre
    ensures Split(front + ":" + (word + ":" + (centre + ":" + rest)), ':') == Split(front, ':') + ([word] + ([centre] + Split(rest, ':')))
  {
    SplitConcat(front, word + ":" + (centre + ":" + rest));
    SplitConcat(word, centre + ":" + rest);
    SplitConcat(centre, rest);
    SplitWithoutSeparator(word, ':');
    SplitWithoutSeparator(centre, ':');
    hide Split;
  }

  lemma AfterWordOf(front: string, word: string, centre: string, rest: string)
    requires word !in Split(front, ':') && ':' !in word && ':' !in centre
    ensures AfterWord(front + ":" + (word + ":" + (centre + ":" + rest)), word) == (centre, rest)
  {
    hide Split, Join;
    SplitParts(front, word, centre, rest);
    JoinOfSplit(rest, ':');
    var before, after := Split(front, ':'), Split(rest, ':');
    FirstOf(before, word, [centre] + after);
    PartsAfter(before, word, centre, after);
  }

  lemma PartsAfter(before: seq<string>, word: string, centre: string, after: seq<string>)
    ensures var parts := before + ([word] + ([centre] + after));
            |parts| == |before| + 2 + |after| && parts[|before| + 1] == centre && parts[|before| + 2..] == after
  {
  }

  lemma Nested(front: string, word: string, centre: string, rest: string)
    ensures front + (":" + (word + (":" + (centre + (":" + rest))))) == front + ":" + (word + ":" + (centre + ":" + rest))
  {
  }

  /** Any window key whose colon-separated parts do not spell the word themselves reads back. */
  lemma ComboKeyRoundTrip(windowKey: string, centreId: string, subtopic: string)
    requires "combo" !in Split("{" + windowKey + "}", ':') && ':' !in centreId
    ensures AfterWord(StatsComboKey(windowKey, centreId, subtopic), "combo") == (centreId, subtopic)
  {
    hide AfterWord, Split;
    var front := "{" + windowKey + "}";
    assert ':' !in "combo";
    AfterWordOf(front, "combo", centreId, subtopic);
    Nested(front, "combo", centreId, subtopic);
  }

  lemma SrcKeyRoundTrip(windowKey: string, centreId: string, source: string)
    requires "src" !in Split("{" + windowKey + "}", ':') && ':' !in centreId
    ensures AfterWord(StatsSrcKey(windowKey, centreId, source), "src") == (centreId, source)
  {
    hide AfterWord, Split;
    var front := "{" + windowKey + "}";
    assert ':' !in "src";
    AfterWordOf(front, "src", centreId, source);
    Nested(front, "src", centreId, source);
  }

  /** The keys computeStatsWindowKey makes: their parts are `{wis2gc`, `stats` and digits with a brace. */
  lemma WindowKeyHasNoWord(digits: string, word: string)
    requires AllDigits(digits) && ':' !in word && word != "" && word[|word| - 1] != '}' && word[0] != '{' && word != "stats"
    ensures word !in Split("{" + ("wis2gc:stats:" + digits) + "}", ':')
  {
    var key := "{" + ("wis2gc:stats:" + digits) + "}";
    assert key == "{wis2gc" + [':'] + ("stats" + [':'] + (digits + "}"));
    assert ':' !in "{wis2gc" && ':' !in "stats" && ':' !in digits + "}";
    SplitFirst("{wis2gc", ':', "stats" + [':'] + (digits + "}"));
    SplitFirst("stats", ':', digits + "}");
    SplitWithoutSeparator(digits + "}", ':');
    hide Split;
    assert ("{wis2gc")[0] == '{';
    assert (digits + "}")[|digits|] == '}' && |digits + "}"| == |digits| + 1;
  }

  // ---------------------------------------------------------------- aggregateMetrics (src/reporter/metrics.ts)

  datatype Keyed = Keyed(key: string, stats: map<string, string>)

  datatype ComboOp = ComboOp(centreId: string, topic: string, val: int)

  datatype CentreOp = CentreOp(centreId: string, val: int)

  datatype Aggregate = Aggregate(count: int, lastTimestamp: int)

  /** `parseInt(stats[field] ?? '', 10) || 0`. */
  function NumberAt(stats: map<string, string>, field: string): int
  {
    IntOrZero(if field in stats then stats[field] else "")
  }

  /** A field that holds a printed number counts as that number, a missing one as 0. */
  lemma NumberIs(stats: map<string, string>, field: string, n: int)
    ensures field in stats && stats[field] == Print(n) ==> NumberAt(stats, field) == n
    ensures field !in stats ==> NumberAt(stats, field) == 0
  {
    PrintRoundTrip(n);
    hide Print;
  }

  function CentreOf(e: Keyed): string { AfterWord(e.key, "combo").0 }

  function Larger(a: int, b: int): int { if a < b then b else a }

  /** Independent definitions of what is reported: sums and maxima over the entries. */
  function Total(entries: seq<Keyed>): int
  {
    if entries == [] then 0 else Total(entries[..|entries| - 1]) + NumberAt(entries[|entries| - 1].stats, "count")
  }

  function CentreTotal(entries: seq<Keyed>, centre: string): int
  {
    if entries == [] then 0
    else
      var last := entries[|entries| - 1];
      CentreTotal(entries[..|entries| - 1], centre) + (if CentreOf(last) == centre then NumberAt(last.stats, "count") else 0)
  }

  function CentreLatest(entries: seq<Keyed>, centre: string): int
  {
    if entries == [] then 0
    else
      var last := entries[|entries| - 1];
      var before := CentreLatest(entries[..|entries| - 1], centre);
      if CentreOf(last) == centre then Larger(before, NumberAt(last.stats, "lastTimestamp")) else before
  }

  /** The latest is none earlier than any, and one of them unless none is after the epoch. */
  lemma {:induction false} LatestIs(entries: seq<Keyed>, centre: string)
    ensures CentreLatest(entries, centre) >= 0
    ensures forall i :: 0 <= i < |entries| && CentreOf(entries[i]) == centre ==>
              NumberAt(entries[i].stats, "lastTimestamp") <= CentreLatest(entries, centre)
    ensures CentreLatest(entries, centre) == 0 ||
            exists i :: 0 <= i < |entries| && CentreOf(entries[i]) == centre && NumberAt(entries[i].stats, "lastTimestamp") == CentreLatest(entries, centre)
  {
    hide CentreOf, NumberAt;
    if entries != [] {
      var init := entries[..|entries| - 1];
      LatestIs(init, centre);
      forall i | 0 <= i < |init| ensures init[i] == entries[i] { }
      if j :| 0 <= j < |init| && CentreOf(init[j]) == centre && NumberAt(init[j].stats, "lastTimestamp") == CentreLatest(init, centre) {
        assert CentreOf(entries[j]) == centre;
      }
    }
  }

  function Centres(entries: seq<Keyed>): set<string> { set i | 0 <= i < |entries| :: CentreOf(entries[i]) }

  function Sum(ops: seq<CentreOp>): int
  {
    if ops == [] then 0 else Sum(ops[..|ops| - 1]) + ops[|ops| - 1].val
  }

  function SumCombos(ops: seq<ComboOp>): int
  {
    if ops == [] then 0 else SumCombos(ops[..|ops| - 1]) + ops[|ops| - 1].val
  }

  /** A JavaScript Map: values by key, keys in the order they were first set. */
  datatype OrderedMap = OrderedMap(order: seq<string>, values: map<string, Aggregate>)

  ghost predicate Ordered(m: OrderedMap)
  {
    (forall c :: c in m.order <==> c in m.values) && forall i, j :: 0 <= i < j < |m.order| ==> m.order[i] != m.order[j]
  }

  function SetAggregate(m: OrderedMap, c: string, a: Aggregate): OrderedMap
  {
    OrderedMap(if c in m.values then m.order else m.order + [c], m.values[c := a])
  }

  /** The counts of the first n keys of the map. */
  function SumOf(m: OrderedMap, n: nat): int
    requires n <= |m.order| && forall c :: c in m.order ==> c in m.values
  {
    if n == 0 then 0 else SumOf(m, n - 1) + m.values[m.order[n - 1]].count
  }

  lemma {:induction false} SumOfSame(m: OrderedMap, t: OrderedMap, n: nat)
    requires n <= |m.order| && n <= |t.order| && m.order[..n] == t.order[..n]
    requires (forall c :: c in m.order ==> c in m.values) && (forall c :: c in t.order ==> c in t.values)
    requires forall i :: 0 <= i < n ==> m.values[m.order[i]] == t.values[t.order[i]]
    ensures SumOf(m, n) == SumOf(t, n)
  {
    if n > 0 {
      assert m.order[..n - 1] == m.order[..n][..n - 1];
      SumOfSame(m, t, n - 1);
      assert m.order[..n][n - 1] == t.order[..n][n - 1];
    }
  }

  lemma {:induction false} SumOfChanged(m: OrderedMap, c: string, a: Aggregate, n: nat, at: nat)
    requires Ordered(m) && at < n <= |m.order| && m.order[at] == c
    ensures SumOf(SetAggregate(m, c, a), n) == SumOf(m, n) - m.values[c].count + a.count
  {
    var t := SetAggregate(m, c, a);
    if at == n - 1 {
      SumOfSame(m, t, n - 1);
    } else {
      SumOfChanged(m, c, a, n - 1, at);
    }
  }

  lemma SetAggregateOrdered(m: OrderedMap, c: string, a: Aggregate)
    requires Ordered(m)
    ensures Ordered(SetAggregate(m, c, a))
  {
  }

  lemma SetAggregateSum(m: OrderedMap, c: string, a: Aggregate)
    requires Ordered(m)
    ensures var t := SetAggregate(m, c, a);
            Ordered(t) && SumOf(t, |t.order|) == SumOf(m, |m.order|) - (if c in m.values then m.values[c].count else 0) + a.count
  {
    SetAggregateOrdered(m, c, a);
    if c in m.values {
      var at :| 0 <= at < |m.order| && m.order[at] == c;
      SumOfChanged(m, c, a, |m.order|, at);
    } else {
      SumOfNew(m, c, a);
    }
  }

  lemma SumOfNew(m: OrderedMap, c: string, a: Aggregate)
    requires Ordered(m) && c !in m.values && Ordered(SetAggregate(m, c, a))
    ensures SumOf(SetAggregate(m, c, a), |m.order| + 1) == SumOf(m, |m.order|) + a.count
  {
    var t, n := SetAggregate(m, c, a), |m.order|;
    assert t.order == m.order + [c];
    assert t.order[..n] == m.order[..n];
    forall i | 0 <= i < n
      ensures m.values[m.order[i]] == t.values[t.order[i]]
    {
      assert t.order[i] == m.order[i] && m.order[i] in m.values;
    }
    SumOfSame(m, t, n);
    assert SumOf(t, n + 1) == SumOf(t, n) + t.values[t.order[n]].count;
  }

  lemma TotalStep(entries: seq<Keyed>, i: nat)
    requires i < |entries|
    ensures Total(entries[..i + 1]) == Total(entries[..i]) + NumberAt(entries[i].stats, "count")
  {
    assert entries[..i + 1][..i] == entries[..i];
  }

  lemma SumCombosAppend(ops: seq<ComboOp>, op: ComboOp)
    ensures SumCombos(ops + [op]) == SumCombos(ops) + op.val
  {
    assert (ops + [op])[..|ops|] == ops;
  }

  lemma SumAppend(ops: seq<CentreOp>, op: CentreOp)
    ensures Sum(ops + [op]) == Sum(ops) + op.val
  {
    assert (ops + [op])[..|ops|] == ops;
  }

  /** The first loop: one increment per combination. */
  method ComboOps(entries: seq<Keyed>) returns (ops: seq<ComboOp>)
    ensures |ops| == |entries|
    ensures forall i :: 0 <= i < |entries| ==>
              ops[i] == ComboOp(AfterWord(entries[i].key, "combo").0, AfterWord(entries[i].key, "combo").1, NumberAt(entries[i].stats, "count"))
    ensures SumCombos(ops) == Total(entries)
  {
    hide AfterWord, NumberAt;
    ops := [];
    var i := 0;
    while i < |entries|
      invariant 0 <= i <= |entries| && |ops| == i
      invariant forall j :: 0 <= j < i ==>
                  ops[j] == ComboOp(AfterWord(entries[j].key, "combo").0, AfterWord(entries[j].key, "combo").1, NumberAt(entries[j].stats, "count"))
      invariant SumCombos(ops) == Total(entries[..i])
    {
      var (centreId, topic) := AfterWord(entries[i].key, "combo");
      var op := ComboOp(centreId, topic, NumberAt(entries[i].stats, "count"));
      TotalStep(entries, i);
      SumCombosAppend(ops, op);
      ops := ops + [op];
      i := i + 1;
    }
    assert entries[..|entries|] == entries;
  }

  /** The map holds the totals and latest timestamps of the entries. */
  ghost predicate Holds(m: OrderedMap, entries: seq<Keyed>)
  {
    && Ordered(m) && m.values.Keys == Centres(entries)
    && (forall c :: c in m.values ==> m.values[c] == Aggregate(CentreTotal(entries, c), CentreLatest(entries, c)))
    && SumOf(m, |m.order|) == Total(entries)
  }

  /** What the loop sets for the centre of the next entry. */
  function NextAggregate(m: OrderedMap, e: Keyed): Aggregate
  {
    var agg := if CentreOf(e) in m.values then m.values[CentreOf(e)] else Aggregate(0, 0);
    Aggregate(agg.count + NumberAt(e.stats, "count"), Larger(agg.lastTimestamp, NumberAt(e.stats, "lastTimestamp")))
  }

  /** The aggregate set for the entry's centre is the one of all entries so far. */
  lemma NextIsRight(less: seq<Keyed>, e: Keyed, m: OrderedMap)
    requires Holds(m, less)
    ensures var c := CentreOf(e);
            NextAggregate(m, e) == Aggregate(CentreTotal(less + [e], c), CentreLatest(less + [e], c))
    ensures NextAggregate(m, e).count == (if CentreOf(e) in m.values then m.values[CentreOf(e)].count else 0) + NumberAt(e.stats, "count")
  {
    hide Ordered, CentreOf, NumberAt, Centres, CentreTotal, CentreLatest, Total, SumOf, Larger;
    CentreNext(less, e, CentreOf(e));
    if CentreOf(e) !in m.values { Absent(less, CentreOf(e)); }
  }

  lemma ValuesNext(less: seq<Keyed>, e: Keyed, m: OrderedMap, c: string)
    requires Holds(m, less) && c in SetAggregate(m, CentreOf(e), NextAggregate(m, e)).values
    ensures SetAggregate(m, CentreOf(e), NextAggregate(m, e)).values[c] == Aggregate(CentreTotal(less + [e], c), CentreLatest(less + [e], c))
  {
    hide Ordered, CentreOf, NumberAt, Centres, CentreTotal, CentreLatest, Total, SumOf, Larger, NextAggregate;
    NextIsRight(less, e, m);
    CentreNext(less, e, c);
  }

  lemma HoldsNext(less: seq<Keyed>, e: Keyed, m: OrderedMap)
    requires Holds(m, less)
    ensures Holds(SetAggregate(m, CentreOf(e), NextAggregate(m, e)), less + [e])
  {
    hide Ordered, CentreOf, NumberAt, Centres, CentreTotal, CentreLatest, Total, SumOf, Larger, NextAggregate;
    var t := SetAggregate(m, CentreOf(e), NextAggregate(m, e));
    SetAggregateSum(m, CentreOf(e), NextAggregate(m, e));
    TotalsNext(less, e);
    NextIsRight(less, e, m);
    assert t.values.Keys == m.values.Keys + {CentreOf(e)};
    forall c | c in t.values
      ensures t.values[c] == Aggregate(CentreTotal(less + [e], c), CentreLatest(less + [e], c))
    {
      ValuesNext(less, e, m, c);
    }
  }

  lemma CentreNext(less: seq<Keyed>, e: Keyed, c: string)
    ensures CentreTotal(less + [e], c) == CentreTotal(less, c) + (if CentreOf(e) == c then NumberAt(e.stats, "count") else 0)
    ensures CentreLatest(less + [e], c) ==
            if CentreOf(e) == c then Larger(CentreLatest(less, c), NumberAt(e.stats, "lastTimestamp")) else CentreLatest(less, c)
  {
    assert (less + [e])[..|less|] == less;
    hide CentreOf, NumberAt, Larger;
  }

  lemma TotalsNext(less: seq<Keyed>, e: Keyed)
    ensures Total(less + [e]) == Total(less) + NumberAt(e.stats, "count")
    ensures Centres(less + [e]) == Centres(less) + {CentreOf(e)}
  {
    var more := less + [e];
    assert more[..|less|] == less;
    hide CentreOf, NumberAt;
    forall c
      ensures c in Centres(more) <==> c in Centres(less) + {CentreOf(e)}
    {
      if c in Centres(less) {
        var j :| 0 <= j < |less| && CentreOf(less[j]) == c;
        assert CentreOf(more[j]) == c;
      }
      if c == CentreOf(e) { assert CentreOf(more[|less|]) == c; }
    }
  }

  lemma HoldsNothing()
    ensures Holds(OrderedMap([], map[]), [])
  {
  }

  /** The per-centre loop. */
  method PerCentre(entries: seq<Keyed>) returns (m: OrderedMap)
    ensures Holds(m, entries)
  {
    HoldsNothing();
    hide Holds, CentreOf, NextAggregate, SetAggregate;
    m := OrderedMap([], map[]);
    var i := 0;
    while i < |entries|
      invariant 0 <= i <= |entries| && Holds(m, entries[..i])
    {
      HoldsNext(entries[..i], entries[i], m);
      assert entries[..i + 1] == entries[..i] + [entries[i]];
      m := SetAggregate(m, CentreOf(entries[i]), NextAggregate(m, entries[i]));
      i := i + 1;
    }
    assert entries[..|entries|] == entries;
  }

  lemma {:induction false} Absent(entries: seq<Keyed>, c: string)
    requires c !in Centres(entries)
    ensures CentreTotal(entries, c) == 0 && CentreLatest(entries, c) == 0
  {
    hide CentreOf;
    if entries != [] {
      var less := entries[..|entries| - 1];
      forall j | 0 <= j < |less|
        ensures CentreOf(less[j]) != c
      {
        assert CentreOf(entries[j]) in Centres(entries);
      }
      Absent(less, c);
      assert CentreOf(entries[|entries| - 1]) in Centres(entries);
    }
  }

  /** What the first n keys of the map give. */
  function CountOps(m: OrderedMap, n: nat): (ops: seq<CentreOp>)
    requires n <= |m.order| && forall c :: c in m.order ==> c in m.values
    ensures |ops| == n
  {
    if n == 0 then [] else CountOps(m, n - 1) + [CentreOp(m.order[n - 1], m.values[m.order[n - 1]].count)]
  }

  function TimeOps(m: OrderedMap, n: nat): (ops: seq<CentreOp>)
    requires n <= |m.order| && forall c :: c in m.order ==> c in m.values
    ensures |ops| == n
  {
    if n == 0 then [] else TimeOps(m, n - 1) + [CentreOp(m.order[n - 1], m.values[m.order[n - 1]].lastTimestamp)]
  }

  lemma {:induction false} OpAt(m: OrderedMap, n: nat, j: nat)
    requires j < n <= |m.order| && forall c :: c in m.order ==> c in m.values
    ensures CountOps(m, n)[j] == CentreOp(m.order[j], m.values[m.order[j]].count)
    ensures TimeOps(m, n)[j] == CentreOp(m.order[j], m.values[m.order[j]].lastTimestamp)
  {
    if j < n - 1 { OpAt(m, n - 1, j); }
  }

  lemma {:induction false} OpsSum(m: OrderedMap, n: nat)
    requires n <= |m.order| && forall c :: c in m.order ==> c in m.values
    ensures Sum(CountOps(m, n)) == SumOf(m, n)
  {
    if n > 0 {
      OpsSum(m, n - 1);
      SumAppend(CountOps(m, n - 1), CentreOp(m.order[n - 1], m.values[m.order[n - 1]].count));
      hide Sum;
    }
  }

  /** The last loop, over the map in its order. */
  method OpsOf(m: OrderedMap) returns (downloaded: seq<CentreOp>, timestamps: seq<CentreOp>)
    requires Ordered(m)
    ensures |downloaded| == |timestamps| == |m.order|
    ensures forall j :: 0 <= j < |m.order| ==>
              downloaded[j] == CentreOp(m.order[j], m.values[m.order[j]].count) &&
              timestamps[j] == CentreOp(m.order[j], m.values[m.order[j]].lastTimestamp)
    ensures Sum(downloaded) == SumOf(m, |m.order|)
  {
    assert forall c :: c in m.order ==> c in m.values;
    hide Sum, SumOf, Ordered;
    downloaded, timestamps := [], [];
    var i := 0;
    while i < |m.order|
      invariant 0 <= i <= |m.order|
      invariant downloaded == CountOps(m, i) && timestamps == TimeOps(m, i)
    {
      var centreId := m.order[i];
      downloaded := downloaded + [CentreOp(centreId, m.values[centreId].count)];
      timestamps := timestamps + [CentreOp(centreId, m.values[centreId].lastTimestamp)];
      i := i + 1;
    }
    OpsSum(m, |m.order|);
    forall j | 0 <= j < |m.order|
      ensures downloaded[j] == CentreOp(m.order[j], m.values[m.order[j]].count)
      ensures timestamps[j] == CentreOp(m.order[j], m.values[m.order[j]].lastTimestamp)
    {
      OpAt(m, |m.order|, j);
    }
  }

  /** Every centre is reported once with its own total and its latest timestamp, no other is, and the totals
      of the centres add up to the totals of the combinations. */
  method CentreOps(entries: seq<Keyed>) returns (downloaded: seq<CentreOp>, timestamps: seq<CentreOp>)
    ensures |downloaded| == |timestamps| == |Centres(entries)|
    ensures forall c :: c in Centres(entries) <==> exists i :: 0 <= i < |downloaded| && downloaded[i].centreId == c
    ensures forall i :: 0 <= i < |downloaded| ==>
              downloaded[i].val == CentreTotal(entries, downloaded[i].centreId) &&
              timestamps[i] == CentreOp(downloaded[i].centreId, CentreLatest(entries, downloaded[i].centreId))
    ensures Sum(downloaded) == Total(entries)
  {
    hide CentreTotal, CentreLatest, Centres, Total, Sum, SumOf;
    var perCentre := PerCentre(entries);
    downloaded, timestamps := OpsOf(perCentre);
    OrderSize(perCentre);
    forall c
      ensures c in Centres(entries) <==> exists j :: 0 <= j < |downloaded| && downloaded[j].centreId == c
    {
      if c in Centres(entries) {
        var j :| 0 <= j < |perCentre.order| && perCentre.order[j] == c;
        assert downloaded[j].centreId == c;
      }
    }
  }

  lemma OrderSize(m: OrderedMap)
    requires Ordered(m)
    ensures |m.order| == |m.values.Keys|
  {
    DistinctSize(m.order);
    assert (set c | c in m.order) == m.values.Keys;
  }

  lemma {:induction false} DistinctSize(s: seq<string>)
    requires forall i, j :: 0 <= i < j < |s| ==> s[i] != s[j]
    ensures |set c | c in s| == |s|
  {
    if s != [] {
      var n := |s| - 1;
      DistinctSize(s[..n]);
      assert (set c | c in s) == (set c | c in s[..n]) + {s[n]};
      assert s[n] !in s[..n];
    }
  }
}
