/** Topic patterns with the wildcards of section 4.7.1 of MQTT Version 5.0, and exclusion of live and
    replayed topics. */
module TopicMatch {
  import opened Text

  // ---------------------------------------------------------------- level by level

  /** `#` matches its parent and everything below; `+` matches one level. */
  predicate LevelsMatch(topic: seq<string>, pattern: seq<string>)
    decreases |pattern|
  {
    if pattern == [] then topic == []
    else if pattern[0] == "#" then true
    else topic != [] && (pattern[0] == "+" || pattern[0] == topic[0]) && LevelsMatch(topic[1..], pattern[1..])
  }

  predicate Matches(topic: string, pattern: string)
  {
    LevelsMatch(Split(topic, '/'), Split(pattern, '/'))
  }

  /** The loop of matchesTopicPattern over the levels. */
  method MatchesTopicPattern(topic: string, pattern: string) returns (matched: bool)
    ensures matched == Matches(topic, pattern)
  {
    var topicParts := Split(topic, '/');
    var patternParts := Split(pattern, '/');
    assert topicParts[0..] == topicParts && patternParts[0..] == patternParts;
    var i := 0;
    while i < |patternParts|
      invariant 0 <= i <= |patternParts| && i <= |topicParts|
      invariant Matches(topic, pattern) == LevelsMatch(topicParts[i..], patternParts[i..])
    {
      var patternPart := patternParts[i];
      if patternPart == "#" { return true; }
      if i >= |topicParts| { return false; }
      assert topicParts[i..][1..] == topicParts[i + 1..] && patternParts[i..][1..] == patternParts[i + 1..];
      if patternPart != "+" && patternPart != topicParts[i] { return false; }
      i := i + 1;
    }
    assert patternParts[i..] == [];
    return |topicParts| == |patternParts|;
  }

  // ---------------------------------------------------------------- what a match means

  predicate LevelFits(pattern: string, level: string) { pattern == "+" || pattern == level }

  /** All levels before the first `#` fit one by one; without a `#` there are no others. */
  ghost predicate Fits(topic: seq<string>, pattern: seq<string>)
  {
    var hash := IndexOf(pattern, "#");
    if hash == -1 then |topic| == |pattern| && forall i :: 0 <= i < |pattern| ==> LevelFits(pattern[i], topic[i])
    else |topic| >= hash && forall i :: 0 <= i < hash ==> LevelFits(pattern[i], topic[i])
  }

  lemma {:induction false} MatchIsFit(topic: seq<string>, pattern: seq<string>)
    ensures LevelsMatch(topic, pattern) <==> Fits(topic, pattern)
    decreases |pattern|
  {
    if pattern != [] && pattern[0] != "#" {
      var hash := IndexOf(pattern, "#");
      var rest := IndexOf(pattern[1..], "#");
      assert "#" in pattern <==> "#" in pattern[1..];
      if hash != -1 {
        assert FirstAt(pattern[1..], "#", hash - 1);
        assert rest == hash - 1;
      }
      if topic != [] {
        MatchIsFit(topic[1..], pattern[1..]);
        FitsTail(topic, pattern, hash);
      }
    }
  }

  lemma FitsTail(topic: seq<string>, pattern: seq<string>, hash: int)
    requires topic != [] && pattern != [] && pattern[0] != "#" && hash == IndexOf(pattern, "#")
    requires IndexOf(pattern[1..], "#") == if hash == -1 then -1 else hash - 1
    ensures Fits(topic, pattern) <==> LevelFits(pattern[0], topic[0]) && Fits(topic[1..], pattern[1..])
  {
    hide IndexOf, LevelFits;
    var n := if hash == -1 then |pattern| else hash;
    if LevelFits(pattern[0], topic[0]) && Fits(topic[1..], pattern[1..]) {
      forall i | 0 <= i < n
        ensures LevelFits(pattern[i], topic[i])
      {
        if i > 0 { assert pattern[i] == pattern[1..][i - 1] && topic[i] == topic[1..][i - 1]; }
      }
    }
  }

  /** A single level is matched by `#`, by `+` and by itself. */
  lemma OneLevel(level: string, pattern: string)
    ensures LevelsMatch([level], [pattern]) <==> pattern == "#" || pattern == "+" || pattern == level
  {
  }

  /** `a/#` matches `a` itself and every topic below it. */
  lemma HashMatchesParent(prefix: seq<string>, below: seq<string>)
    requires "#" !in prefix
    ensures LevelsMatch(prefix + below, prefix + ["#"])
  {
    MatchIsFit(prefix + below, prefix + ["#"]);
    assert FirstAt(prefix + ["#"], "#", |prefix|);
  }

  // ---------------------------------------------------------------- replayed topics

  const REPLAY := "replay/a/wis2/"

  function StripReplayPrefix(topic: string): string
  {
    if !(REPLAY <= topic) then topic
    else
      var parts := Split(topic, '/');
      Join(if |parts| > 5 then parts[5..] else [], '/')
  }

  predicate IsExcluded(topic: string, exclude: seq<string>)
  {
    exists i :: 0 <= i < |exclude| && Matches(topic, exclude[i])
  }

  /** A topic is excluded exactly when the levels of some listed pattern fit it. */
  lemma ExcludedIff(topic: string, exclude: seq<string>)
    ensures IsExcluded(topic, exclude) <==> exists i :: 0 <= i < |exclude| && Fits(Split(topic, '/'), Split(exclude[i], '/'))
  {
    hide Split, Fits, LevelsMatch;
    forall i | 0 <= i < |exclude|
      ensures Matches(topic, exclude[i]) <==> Fits(Split(topic, '/'), Split(exclude[i], '/'))
    {
      MatchIsFit(Split(topic, '/'), Split(exclude[i], '/'));
    }
  }

  /** Every list in a concatenation counts, and the empty one excludes nothing. */
  lemma ExcludedByParts(topic: string, a: seq<string>, b: seq<string>)
    ensures IsExcluded(topic, a + b) <==> IsExcluded(topic, a) || IsExcluded(topic, b)
    ensures !IsExcluded(topic, [])
  {
    hide Matches;
    if i :| 0 <= i < |a| && Matches(topic, a[i]) { assert (a + b)[i] == a[i]; }
    if i :| 0 <= i < |b| && Matches(topic, b[i]) { assert (a + b)[|a| + i] == b[i]; }
  }

  /** A replayed topic: the real one under the replaying centre and a uuid. */
  function Wrap(centre: string, uuid: string, topic: string): string
  {
    REPLAY + (centre + "/" + (uuid + "/" + topic))
  }

  lemma SplitThree(a: string, b: string, c: string, rest: string)
    requires '/' !in a && '/' !in b && '/' !in c
    ensures Split(a + ['/'] + (b + ['/'] + (c + ['/'] + rest)), '/') == [a, b, c] + Split(rest, '/')
  {
    SplitFirst(a, '/', b + ['/'] + (c + ['/'] + rest));
    SplitFirst(b, '/', c + ['/'] + rest);
    SplitFirst(c, '/', rest);
    hide Split;
    assert [a] + ([b] + ([c] + Split(rest, '/'))) == [a, b, c] + Split(rest, '/');
  }

  lemma ReplayLevels(rest: string)
    ensures REPLAY + rest == "replay" + ['/'] + ("a" + ['/'] + ("wis2" + ['/'] + rest))
    ensures '/' !in "replay" && '/' !in "a" && '/' !in "wis2"
  {
  }

  lemma WrapLevels(centre: string, uuid: string, topic: string)
    requires '/' !in centre && '/' !in uuid
    ensures Split(Wrap(centre, uuid, topic), '/') == ["replay", "a", "wis2"] + ([centre, uuid] + Split(topic, '/'))
  {
    var rest := centre + "/" + (uuid + "/" + topic);
    ReplayLevels(rest);
    SplitThree("replay", "a", "wis2", rest);
    SplitFirst(centre, '/', uuid + "/" + topic);
    SplitFirst(uuid, '/', topic);
    hide Split;
    assert rest == centre + ['/'] + (uuid + "/" + topic) && uuid + "/" + topic == uuid + ['/'] + topic;
    assert [centre] + ([uuid] + Split(topic, '/')) == [centre, uuid] + Split(topic, '/');
  }

  lemma StripOfWrap(centre: string, uuid: string, topic: string)
    requires '/' !in centre && '/' !in uuid
    ensures StripReplayPrefix(Wrap(centre, uuid, topic)) == topic
  {
    WrapLevels(centre, uuid, topic);
    JoinOfSplit(topic, '/');
    hide Split, Join;
    var parts := Split(Wrap(centre, uuid, topic), '/');
    assert parts[5..] == Split(topic, '/');
  }

  /** Any topic that is no replay is left as it is; of a replayed one the first five levels go. */
  lemma StripIs(topic: string)
    ensures !("replay/a/wis2/" <= topic) ==> StripReplayPrefix(topic) == topic
    ensures "replay/a/wis2/" <= topic && |Split(topic, '/')| > 5 ==> Split(StripReplayPrefix(topic), '/') == Split(topic, '/')[5..]
    ensures "replay/a/wis2/" <= topic && |Split(topic, '/')| <= 5 ==> StripReplayPrefix(topic) == ""
  {
    var parts := Split(topic, '/');
    if |parts| > 5 { SplitOfJoin(parts[5..], '/'); }
    hide Split, Join;
  }

  /** The exclude list treats a replayed message as the live one. */
  lemma ReplayedExclusion(centre: string, uuid: string, topic: string, exclude: seq<string>)
    requires '/' !in centre && '/' !in uuid
    ensures IsExcluded(StripReplayPrefix(Wrap(centre, uuid, topic)), exclude) <==> IsExcluded(topic, exclude)
  {
    StripOfWrap(centre, uuid, topic);
  }

  lemma {:induction false} JoinTail(parts: seq<string>, k: nat)
    requires 0 < k <= |parts| && parts[0] != ""
    ensures |Join(parts[k..], '/')| < |Join(parts, '/')|
    decreases |parts|
  {
    JoinShorter(parts[1..], k - 1);
    assert parts[1..][k - 1..] == parts[k..];
  }

  lemma {:induction false} JoinShorter(parts: seq<string>, k: nat)
    requires k <= |parts|
    ensures |Join(parts[k..], '/')| <= |Join(parts, '/')|
    decreases |parts|
  {
    if k > 0 {
      JoinShorter(parts[1..], k - 1);
      assert parts[1..][k - 1..] == parts[k..];
    } else {
      assert parts[0..] == parts;
    }
  }

  lemma StripShortens(topic: string)
    requires REPLAY <= topic
    ensures |StripReplayPrefix(topic)| < |topic|
  {
    var rest := topic[7..];
    assert topic == "replay" + ['/'] + rest;
    SplitFirst("replay", '/', rest);
    var parts := Split(topic, '/');
    JoinOfSplit(topic, '/');
    hide Split;
    assert parts[0] == "replay";
    JoinTail(parts, if |parts| > 5 then 5 else |parts|);
    if |parts| <= 5 { assert parts[|parts|..] == []; }
  }

  /** Only one wrapper is taken off: a replayed message is treated exactly as its inner topic would be on
      arrival if and only if that inner topic is not a replay itself. */
  lemma StrippedOnceIff(centre: string, uuid: string, topic: string)
    requires '/' !in centre && '/' !in uuid
    ensures StripReplayPrefix(Wrap(centre, uuid, topic)) == StripReplayPrefix(topic) <==> !(REPLAY <= topic)
  {
    StripOfWrap(centre, uuid, topic);
    if REPLAY <= topic { StripShortens(topic); }
  }
}
