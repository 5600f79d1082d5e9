/** The two splitters that turn an answer into speakable segments: the incremental one fed by
    the language model's chunks, and the one-shot one that flushes what is left. */
module TextSegmentation {
  import opened Bytes

  predicate IsEnding(c: char) {
    c == '。' || c == '！' || c == '？' || c == '!' || c == '?' || c == '；' || c == ';' || c == '…'
  }

  const HINTS: string := "，、,：: "

  predicate IsHint(c: char) {
    c == '，' || c == '、' || c == ',' || c == '：' || c == ':' || c == ' '
  }

  lemma HintsAreListed(c: char)
    ensures IsHint(c) <==> c in HINTS
  {
    assert HINTS[0] == '，' && HINTS[1] == '、' && HINTS[2] == ',';
    assert HINTS[3] == '：' && HINTS[4] == ':' && HINTS[5] == ' ';
  }

  /** The characters on which splitting a text without a separator breaks it. */
  predicate IsSpace(c: char) {
    var n := c as int;
    9 <= n <= 13 || 28 <= n <= 32 || n == 0x85 || n == 0xA0 || n == 0x1680 || 0x2000 <= n <= 0x200A ||
    n == 0x2028 || n == 0x2029 || n == 0x202F || n == 0x205F || n == 0x3000
  }

  function Stripped(text: string): (s: string)
    ensures |s| <= |text|
    ensures (forall c :: c in text ==> !IsSpace(c)) ==> s == text
  {
    if text == "" then ""
    else if IsSpace(text[0]) then Stripped(text[1..])
    else [text[0]] + Stripped(text[1..])
  }

  lemma {:induction false} StrippedAppend(a: string, b: string)
    ensures Stripped(a + b) == Stripped(a) + Stripped(b)
  {
    if a == "" {
      assert a + b == b;
    } else {
      assert (a + b)[1..] == a[1..] + b;
      StrippedAppend(a[1..], b);
    }
  }

  lemma {:induction false} StrippedHasNoSpace(text: string)
    ensures forall c :: c in Stripped(text) ==> !IsSpace(c)
  {
    if text != "" {
      StrippedHasNoSpace(text[1..]);
    }
  }

  // ---------------------------------------------------------------- soft cuts

  function RFind(s: string, token: char, end: nat): (i: int)
    requires end <= |s|
    ensures -1 <= i < end
    ensures i >= 0 ==> s[i] == token
    ensures forall k :: i < k < end ==> s[k] != token
  {
    if end == 0 then -1 else if s[end - 1] == token then end - 1 else RFind(s, token, end - 1)
  }

  /** Position of the last soft hint before `end`, -1 if there is none. */
  function LastHint(s: string, end: nat): (i: int)
    requires end <= |s|
    ensures -1 <= i < end
    ensures i >= 0 ==> IsHint(s[i])
    ensures forall k :: i < k < end ==> !IsHint(s[k])
  {
    if end == 0 then -1 else if IsHint(s[end - 1]) then end - 1 else LastHint(s, end - 1)
  }

  /** The maximum over all hints of their last positions. */
  method SoftIndex(s: string, end: nat) returns (best: int)
    requires end <= |s|
    ensures best == LastHint(s, end)
  {
    best := -1;
    for t := 0 to |HINTS|
      invariant -1 <= best < end
      invariant best >= 0 ==> s[best] in HINTS[..t]
      invariant forall k :: best < k < end ==> s[k] !in HINTS[..t]
    {
      var found := RFind(s, HINTS[t], end);
      assert HINTS[..t + 1] == HINTS[..t] + [HINTS[t]];
      if found > best {
        best := found;
      }
    }
    assert HINTS[..|HINTS|] == HINTS;
    forall c: char {
      HintsAreListed(c);
    }
  }

  // ---------------------------------------------------------------- one-shot splitting

  /** Where a part longer than the limit is cut. */
  function LongCut(s: string, lo: nat, hi: nat): (n: nat)
    requires 1 <= lo <= hi < |s|
    ensures 1 <= n <= hi
  {
    var soft := LastHint(s, hi);
    if soft >= lo - 1 then soft + 1 else hi
  }

  /** It is cut behind the last hint that leaves at least the minimum, else at the limit. */
  lemma LongCutMeans(s: string, lo: nat, hi: nat)
    requires 1 <= lo <= hi < |s|
    ensures var n := LongCut(s, lo, hi);
            || (n >= lo && IsHint(s[n - 1]) && forall k :: n <= k < hi ==> !IsHint(s[k]))
            || (n == hi && forall k :: lo - 1 <= k < hi ==> !IsHint(s[k]))
  {
    hide IsHint;
  }

  function LongPart(s: string, lo: nat, hi: nat): (segments: seq<string>)
    requires 1 <= lo <= hi
    decreases |s|
  {
    if s == "" then []
    else if |s| <= hi then [s]
    else
      var n := LongCut(s, lo, hi);
      [s[..n]] + LongPart(s[n..], lo, hi)
  }

  function PartLength(s: string): (n: nat)
    ensures n <= |s|
    ensures s != "" ==> n > 0
    ensures n < |s| ==> IsEnding(s[n - 1])
    ensures forall k :: 0 <= k < n - 1 ==> !IsEnding(s[k])
  {
    if s == "" then 0 else if IsEnding(s[0]) then 1 else 1 + PartLength(s[1..])
  }

  /** Sentence by sentence, and long sentences piece by piece. */
  function TextSegments(s: string, lo: nat, hi: nat): (segments: seq<string>)
    requires 1 <= lo <= hi
    decreases |s|
  {
    if s == "" then []
    else
      var n := PartLength(s);
      LongPart(s[..n], lo, hi) + TextSegments(s[n..], lo, hi)
  }

  lemma LongPartStep(s: string, lo: nat, hi: nat)
    requires 1 <= lo <= hi
    ensures LongPart("", lo, hi) == []
    ensures 0 < |s| <= hi ==> LongPart(s, lo, hi) == [s]
    ensures |s| > hi ==>
              var n := LongCut(s, lo, hi);
              LongPart(s, lo, hi) == [s[..n]] + LongPart(s[n..], lo, hi)
  {
  }

  method SplitLongPart(part: string, minChars: nat, maxChars: nat) returns (segments: seq<string>)
    requires 1 <= minChars <= maxChars
    ensures segments == LongPart(part, minChars, maxChars)
  {
    hide LongPart;
    segments := [];
    var remaining := part;
    LongPartStep(part, minChars, maxChars);
    while remaining != ""
      invariant segments + LongPart(remaining, minChars, maxChars) == LongPart(part, minChars, maxChars)
      decreases |remaining|
    {
      LongPartStep(remaining, minChars, maxChars);
      if |remaining| <= maxChars {
        segments := segments + [remaining];
        remaining := "";
      } else {
        var softIndex := SoftIndex(remaining, maxChars);
        var cutIndex := maxChars;
        if softIndex >= minChars - 1 {
          cutIndex := softIndex + 1;
        }
        segments := segments + [remaining[..cutIndex]];
        remaining := remaining[cutIndex..];
      }
    }
  }

  function Lo(minChars: int, maxChars: int): (lo: nat)
    requires maxChars > 0
    ensures 1 <= lo <= maxChars
  {
    if minChars < 1 then 1 else if minChars > maxChars then maxChars else minChars
  }

  /** What the one-shot splitter makes of a text. */
  function AnswerSegments(text: string, minChars: int, maxChars: int): seq<string> {
    var normalized := Stripped(text);
    if normalized == "" then []
    else if maxChars <= 0 then [normalized]
    else TextSegments(normalized, Lo(minChars, maxChars), maxChars)
  }

  function Parts(s: string): seq<string>
    decreases |s|
  {
    if s == "" then [] else [s[..PartLength(s)]] + Parts(s[PartLength(s)..])
  }

  function CutParts(parts: seq<string>, lo: nat, hi: nat): seq<string>
    requires 1 <= lo <= hi
  {
    if parts == [] then [] else LongPart(parts[0], lo, hi) + CutParts(parts[1..], lo, hi)
  }

  lemma {:induction false} TextIsCutParts(s: string, lo: nat, hi: nat)
    requires 1 <= lo <= hi
    ensures TextSegments(s, lo, hi) == CutParts(Parts(s), lo, hi)
    ensures forall p :: p in Parts(s) ==> p != ""
    decreases |s|
  {
    if s != "" {
      TextIsCutParts(s[PartLength(s)..], lo, hi);
    }
  }

  lemma {:induction false} CutPartsSnoc(parts: seq<string>, p: string, lo: nat, hi: nat)
    requires 1 <= lo <= hi
    ensures CutParts(parts + [p], lo, hi) == CutParts(parts, lo, hi) + LongPart(p, lo, hi)
  {
    if parts == [] {
      assert CutParts([p], lo, hi) == LongPart(p, lo, hi) + CutParts([p][1..], lo, hi);
    } else {
      assert (parts + [p])[1..] == parts[1..] + [p];
      CutPartsSnoc(parts[1..], p, lo, hi);
    }
  }

  /** A text that continues an unfinished sentence. */
  lemma {:induction false} PartLengthOf(current: string, rest: string)
    requires forall k :: 0 <= k < |current| ==> !IsEnding(current[k])
    requires current != "" || rest != ""
    ensures rest == "" ==> PartLength(current + rest) == |current|
    ensures rest != "" && IsEnding(rest[0]) ==> PartLength(current + rest) == |current| + 1
  {
    var s := current + rest;
    hide IsEnding;
    var n := PartLength(s);
    assert forall k :: 0 <= k < |current| ==> s[k] == current[k];
    assert rest != "" ==> s[|current|] == rest[0];
  }

  /** The sentence that ends with the next character, and a last unfinished one. */
  lemma PartsOf(current: string, rest: string)
    requires forall k :: 0 <= k < |current| ==> !IsEnding(current[k])
    ensures rest == "" && current != "" ==> Parts(current + rest) == [current]
    ensures rest != "" && IsEnding(rest[0]) ==>
              Parts(current + rest) == [current + [rest[0]]] + Parts(rest[1..])
  {
    hide IsEnding;
    var s := current + rest;
    if rest == "" && current != "" {
      PartLengthOf(current, rest);
      assert s[..|s|] == current && s[|s|..] == "";
    }
    if rest != "" && IsEnding(rest[0]) {
      PartLengthOf(current, rest);
      assert s[..|current| + 1] == current + [rest[0]] && s[|current| + 1..] == rest[1..];
    }
  }

  method SplitSentences(normalized: string) returns (parts: seq<string>)
    ensures parts == Parts(normalized)
  {
    hide Parts, IsEnding;
    parts := [];
    var current := "";
    assert current + normalized[0..] == normalized;
    for i := 0 to |normalized|
      invariant forall k :: 0 <= k < |current| ==> !IsEnding(current[k])
      invariant parts + Parts(current + normalized[i..]) == Parts(normalized)
    {
      ghost var was, rest := current, normalized[i..];
      current := current + [normalized[i]];
      assert was + rest == current + normalized[i + 1..];
      assert rest[1..] == normalized[i + 1..];
      if IsEnding(normalized[i]) {
        PartsOf(was, rest);
        parts := parts + [current];
        current := "";
        assert current + normalized[i + 1..] == normalized[i + 1..];
      }
    }
    assert current + normalized[|normalized|..] == current == current + "";
    if current != "" {
      PartsOf(current, "");
      parts := parts + [current];
    } else {
      NoParts();
    }
  }

  lemma NoParts()
    ensures Parts("") == []
  {
  }

  method SplitAnswerText(text: string, minChars: int, maxChars: int) returns (segments: seq<string>)
    ensures segments == AnswerSegments(text, minChars, maxChars)
  {
    var normalized := Stripped(text);
    if normalized == "" {
      return [];
    }
    if maxChars <= 0 {
      return [normalized];
    }
    var lo := if minChars < 1 then 1 else minChars;
    if lo > maxChars {
      lo := maxChars;
    }
    var parts := SplitSentences(normalized);
    TextIsCutParts(normalized, lo, maxChars);
    segments := [];
    for i := 0 to |parts|
      invariant segments == CutParts(parts[..i], lo, maxChars)
    {
      assert parts[..i + 1] == parts[..i] + [parts[i]];
      CutPartsSnoc(parts[..i], parts[i], lo, maxChars);
      if |parts[i]| > maxChars {
        var pieces := SplitLongPart(parts[i], lo, maxChars);
        segments := segments + pieces;
      } else {
        assert parts[i] in parts;
        segments := segments + [parts[i]];
      }
    }
    assert parts[..|parts|] == parts;
  }

  // ---------------------------------------------------------------- incremental splitting

  /** A segment ends at the first character for which this holds. */
  predicate Stops(c: char, index: nat, lo: nat, hi: nat) {
    IsEnding(c) || (IsHint(c) && index + 1 >= lo) || index + 1 >= hi
  }

  function CutFrom(s: string, i: nat, lo: nat, hi: nat): (b: int)
    requires i <= |s|
    ensures -1 <= b < |s|
    ensures b >= 0 ==> i <= b && Stops(s[b], b, lo, hi)
    ensures forall k :: i <= k < (if b < 0 then |s| else b) ==> !Stops(s[k], k, lo, hi)
    decreases |s| - i
  {
    if i == |s| then -1 else if Stops(s[i], i, lo, hi) then i else CutFrom(s, i + 1, lo, hi)
  }

  function Cut(s: string, lo: nat, hi: nat): (b: int)
    ensures -1 <= b < |s|
    ensures hi >= 1 ==> b < hi
    ensures hi >= 1 && b < 0 ==> |s| < hi
  {
    var b := CutFrom(s, 0, lo, hi);
    assert hi >= 1 && |s| >= hi ==> Stops(s[hi - 1], hi - 1, lo, hi);
    b
  }

  /** The backward search for a soft hint at the length limit never finds one that the forward
      scan had not already stopped at. */
  lemma SoftCutSearchIsIdle(s: string, index: nat, lo: nat, hi: nat)
    requires index < |s| && 1 <= lo <= hi
    requires forall k :: 0 <= k < index ==> !Stops(s[k], k, lo, hi)
    requires index + 1 >= hi && !(IsHint(s[index]) && index + 1 >= lo)
    ensures LastHint(s, index + 1) < lo - 1
  {
    hide IsEnding, IsHint;
    var soft := LastHint(s, index + 1);
    assert 0 <= soft < index ==> !Stops(s[soft], soft, lo, hi);
  }

  lemma CutIsUnique(s: string, b: int, lo: nat, hi: nat)
    requires -1 <= b < |s|
    requires b >= 0 ==> Stops(s[b], b, lo, hi)
    requires forall k :: 0 <= k < (if b < 0 then |s| else b) ==> !Stops(s[k], k, lo, hi)
    ensures b == Cut(s, lo, hi)
  {
    hide IsEnding, IsHint;
    var c := Cut(s, lo, hi);
    assert c >= 0 ==> Stops(s[c], c, lo, hi);
  }

  method FindBoundary(s: string, lo: nat, hi: nat) returns (boundary: int)
    requires 1 <= lo <= hi
    ensures boundary == Cut(s, lo, hi)
  {
    boundary := -1;
    for index := 0 to |s|
      invariant boundary == -1
      invariant forall k :: 0 <= k < index ==> !Stops(s[k], k, lo, hi)
    {
      if IsEnding(s[index]) {
        boundary := index;
        break;
      }
      if IsHint(s[index]) && index + 1 >= lo {
        boundary := index;
        break;
      }
      if index + 1 >= hi {
        var softIndex := SoftIndex(s, index + 1);
        SoftCutSearchIsIdle(s, index, lo, hi);
        if softIndex >= lo - 1 {
          boundary := softIndex;
        } else {
          boundary := index;
        }
        break;
      }
    }
    CutIsUnique(s, boundary, lo, hi);
  }

  datatype Cuts = Cuts(ready: seq<string>, rest: string)

  /** Splitting under one pair of limits. */
  function Split(s: string, lo: nat, hi: nat): Cuts
    decreases |s|
  {
    var b := Cut(s, lo, hi);
    if b < 0 then Cuts([], s)
    else
      var more := Split(s[b + 1..], lo, hi);
      Cuts([s[..b + 1]] + more.ready, more.rest)
  }

  lemma SplitUnfolds(s: string, lo: nat, hi: nat)
    ensures var b := Cut(s, lo, hi);
            if b < 0 then Split(s, lo, hi) == Cuts([], s)
            else
              var more := Split(s[b + 1..], lo, hi);
              Split(s, lo, hi) == Cuts([s[..b + 1]] + more.ready, more.rest)
  {
  }

  datatype Config = Config(minChars: int, maxChars: int, firstMin: Option<int>, firstMax: Option<int>)

  function Or(given: Option<int>, otherwise: int): int {
    if given.Some? && given.value != 0 then given.value else otherwise
  }

  function AtLeastOne(n: int): (m: nat)
    ensures m >= 1
  {
    if n < 1 then 1 else n
  }

  function FirstHi(c: Config): (hi: nat)
    ensures hi >= 1
  {
    AtLeastOne(Or(c.firstMax, c.maxChars))
  }

  function FirstLo(c: Config): (lo: nat)
    requires c.maxChars > 0
    ensures 1 <= lo <= FirstHi(c)
  {
    var lo := AtLeastOne(Or(c.firstMin, Lo(c.minChars, c.maxChars)));
    if lo > FirstHi(c) then FirstHi(c) else lo
  }

  /** The first segment may be cut anywhere once enough text is there. */
  function FirstCut(s: string, c: Config): (b: int)
    requires c.maxChars > 0
    ensures -1 <= b < |s|
    ensures b < FirstHi(c)
  {
    var b := Cut(s, FirstLo(c), FirstHi(c));
    if b < 0 && |s| >= FirstLo(c) then |s| - 1 else b
  }

  function StreamSplit(s: string, c: Config, first: bool): Cuts {
    if c.maxChars <= 0 then Cuts([], s)
    else if s == "" || !first then Split(s, Lo(c.minChars, c.maxChars), c.maxChars)
    else
      var b := FirstCut(s, c);
      if b < 0 then Cuts([], s)
      else
        var more := Split(s[b + 1..], Lo(c.minChars, c.maxChars), c.maxChars);
        Cuts([s[..b + 1]] + more.ready, more.rest)
  }

  /** The end of the first segment, -1 if more text is needed. */
  function Boundary(s: string, c: Config, first: bool): (b: int)
    requires c.maxChars > 0
    ensures -1 <= b < |s|
  {
    if first then FirstCut(s, c) else Cut(s, Lo(c.minChars, c.maxChars), c.maxChars)
  }

  lemma StreamUnfolds(s: string, c: Config, first: bool)
    requires c.maxChars > 0 && s != ""
    ensures var b := Boundary(s, c, first);
            if b < 0 then StreamSplit(s, c, first) == Cuts([], s)
            else
              var more := StreamSplit(s[b + 1..], c, false);
              StreamSplit(s, c, first) == Cuts([s[..b + 1]] + more.ready, more.rest)
  {
    hide Cut, FirstCut;
    SplitUnfolds(s, Lo(c.minChars, c.maxChars), c.maxChars);
  }

  lemma NothingToSplit(c: Config, first: bool)
    ensures StreamSplit("", c, first) == Cuts([], "")
  {
  }

  /** One turn of the incremental splitter: the end of the next segment. */
  method NextBoundary(s: string, c: Config, minChars: nat, useFirst: bool) returns (boundary: int)
    requires c.maxChars > 0 && minChars == Lo(c.minChars, c.maxChars)
    ensures boundary == Boundary(s, c, useFirst)
  {
    hide Cut;
    var activeMin, activeMax := minChars, c.maxChars;
    if useFirst {
      activeMin, activeMax := AtLeastOne(Or(c.firstMin, minChars)), AtLeastOne(Or(c.firstMax, c.maxChars));
      if activeMin > activeMax {
        activeMin := activeMax;
      }
    }
    boundary := FindBoundary(s, activeMin, activeMax);
    if boundary < 0 && useFirst && |s| >= activeMin {
      boundary := Min(|s|, activeMax) - 1;
    }
  }

  /** The segments when everything has to go. */
  function Flushed(cuts: Cuts, c: Config): seq<string> {
    if cuts.rest == "" then cuts.ready
    else if c.maxChars <= 0 then cuts.ready + [cuts.rest]
    else cuts.ready + AnswerSegments(cuts.rest, c.minChars, c.maxChars)
  }

  lemma FlushLimits(text: string, c: Config, minChars: nat)
    requires c.maxChars > 0 && minChars == Lo(c.minChars, c.maxChars)
    ensures AnswerSegments(text, minChars, c.maxChars) == AnswerSegments(text, c.minChars, c.maxChars)
  {
    hide TextSegments, Stripped;
  }

  lemma FlushUnfolds(ready: seq<string>, rest: string, c: Config)
    ensures c.maxChars > 0 && rest != "" ==>
              Flushed(Cuts(ready, rest), c) == ready + AnswerSegments(rest, c.minChars, c.maxChars)
    ensures Flushed(Cuts(ready, ""), c) == ready
    ensures c.maxChars <= 0 && rest != "" ==> Flushed(Cuts([], rest), c) == [rest]
  {
    hide AnswerSegments;
  }

  lemma NoLimitNoCut(buffer: string, c: Config, first: bool)
    requires c.maxChars <= 0
    ensures StreamSplit(buffer, c, first) == Cuts([], buffer)
  {
  }

  method SplitStreamBuffer(buffer: string, c: Config, flushAll: bool, first: bool)
    returns (ready: seq<string>, remaining: string)
    ensures !flushAll ==> Cuts(ready, remaining) == StreamSplit(buffer, c, first)
    ensures flushAll ==> ready == Flushed(StreamSplit(buffer, c, first), c) && remaining == ""
  {
    hide StreamSplit, Boundary, AnswerSegments, Flushed;
    FlushUnfolds([], buffer, c);
    if buffer == "" {
      NothingToSplit(c, first);
      return [], "";
    }
    if c.maxChars <= 0 {
      NoLimitNoCut(buffer, c, first);
      if flushAll {
        return [buffer], "";
      }
      return [], buffer;
    }
    var minChars := if c.minChars < 1 then 1 else c.minChars;
    if minChars > c.maxChars {
      minChars := c.maxChars;
    }
    ready, remaining := [], buffer;
    var useFirst := first;
    ghost var whole := StreamSplit(buffer, c, first);
    while remaining != ""
      invariant var more := StreamSplit(remaining, c, useFirst);
                whole == Cuts(ready + more.ready, more.rest)
      decreases |remaining|
    {
      StreamUnfolds(remaining, c, useFirst);
      var boundary := NextBoundary(remaining, c, minChars, useFirst);
      if boundary < 0 {
        assert whole == Cuts(ready, remaining);
        break;
      }
      ready := ready + [remaining[..boundary + 1]];
      remaining := remaining[boundary + 1..];
      useFirst := false;
    }
    if remaining == "" {
      NothingToSplit(c, useFirst);
    }
    assert whole == Cuts(ready, remaining);
    FlushUnfolds(ready, remaining, c);
    if flushAll && remaining != "" {
      FlushLimits(remaining, c, minChars);
      var flushed := SplitAnswerText(remaining, minChars, c.maxChars);
      ready := ready + flushed;
      remaining := "";
    }
  }

  // ---------------------------------------------------------------- nothing is lost

  ghost predicate Speakable(segments: seq<string>, bound: nat) {
    forall i :: 0 <= i < |segments| ==> 0 < |segments[i]| <= bound
  }

  lemma ConcatFirst(s: string, n: nat, more: Cuts)
    requires n <= |s| && Concat(more.ready) + more.rest == s[n..]
    ensures Concat([s[..n]] + more.ready) + more.rest == s
  {
    var all := [s[..n]] + more.ready;
    assert all[1..] == more.ready;
    assert (s[..n] + Concat(more.ready)) + more.rest == s[..n] + (Concat(more.ready) + more.rest);
  }

  lemma SpeakableAppend(a: seq<string>, b: seq<string>, bound: nat)
    requires Speakable(a, bound) && Speakable(b, bound)
    ensures Speakable(a + b, bound)
  {
  }

  lemma {:induction false} SplitLosesNothing(s: string, lo: nat, hi: nat)
    requires 1 <= lo <= hi
    ensures Concat(Split(s, lo, hi).ready) + Split(s, lo, hi).rest == s
    ensures Speakable(Split(s, lo, hi).ready, hi)
    ensures Cut(Split(s, lo, hi).rest, lo, hi) < 0
    decreases |s|
  {
    var b := Cut(s, lo, hi);
    if b >= 0 {
      SplitLosesNothing(s[b + 1..], lo, hi);
      ConcatFirst(s, b + 1, Split(s[b + 1..], lo, hi));
    }
  }

  lemma {:induction false} LongPartLosesNothing(s: string, lo: nat, hi: nat)
    requires 1 <= lo <= hi
    ensures Concat(LongPart(s, lo, hi)) == s
    ensures Speakable(LongPart(s, lo, hi), hi)
    decreases |s|
  {
    if |s| > hi {
      var n := LongCut(s, lo, hi);
      LongPartLosesNothing(s[n..], lo, hi);
      assert s == s[..n] + s[n..];
    }
  }

  lemma TextUnfolds(s: string, lo: nat, hi: nat)
    requires 1 <= lo <= hi && s != ""
    ensures TextSegments(s, lo, hi) ==
            LongPart(s[..PartLength(s)], lo, hi) + TextSegments(s[PartLength(s)..], lo, hi)
  {
  }

  lemma {:induction false} TextLosesNothing(s: string, lo: nat, hi: nat)
    requires 1 <= lo <= hi
    ensures Concat(TextSegments(s, lo, hi)) == s
    ensures Speakable(TextSegments(s, lo, hi), hi)
    decreases |s|
  {
    if s != "" {
      var n := PartLength(s);
      TextUnfolds(s, lo, hi);
      LongPartLosesNothing(s[..n], lo, hi);
      TextLosesNothing(s[n..], lo, hi);
      hide LongPart, Concat, TextSegments, PartLength, Speakable;
      ConcatAppend(LongPart(s[..n], lo, hi), TextSegments(s[n..], lo, hi));
      SpeakableAppend(LongPart(s[..n], lo, hi), TextSegments(s[n..], lo, hi), hi);
      assert s == s[..n] + s[n..];
    }
  }

  /** The longest segment the settings allow. */
  function Bound(c: Config): nat
    requires c.maxChars > 0
  {
    if FirstHi(c) > c.maxChars then FirstHi(c) else c.maxChars
  }

  lemma StreamLosesNothing(s: string, c: Config, first: bool)
    ensures Concat(StreamSplit(s, c, first).ready) + StreamSplit(s, c, first).rest == s
    ensures c.maxChars > 0 ==>
              Speakable(StreamSplit(s, c, first).ready, if first then Bound(c) else c.maxChars)
  {
    hide Split, FirstCut, Cut;
    if c.maxChars > 0 {
      var lo, hi := Lo(c.minChars, c.maxChars), c.maxChars;
      SplitLosesNothing(s, lo, hi);
      if s != "" && first {
        var b := FirstCut(s, c);
        if b >= 0 {
          SplitLosesNothing(s[b + 1..], lo, hi);
          ConcatFirst(s, b + 1, Split(s[b + 1..], lo, hi));
        }
      }
    }
  }

  lemma AnswerLosesNothing(text: string, minChars: int, maxChars: int)
    ensures Concat(AnswerSegments(text, minChars, maxChars)) == Stripped(text)
    ensures maxChars > 0 ==> Speakable(AnswerSegments(text, minChars, maxChars), maxChars)
  {
    var s := Stripped(text);
    if maxChars > 0 {
      TextLosesNothing(s, Lo(minChars, maxChars), maxChars);
    } else if s != "" {
      assert Concat([s]) == s + Concat([s][1..]);
    }
  }

  // ---------------------------------------------------------------- arrival does not matter

  lemma CutIsStable(a: string, b: string, lo: nat, hi: nat)
    requires Cut(a, lo, hi) >= 0
    ensures Cut(a + b, lo, hi) == Cut(a, lo, hi)
  {
    var i := Cut(a, lo, hi);
    assert forall k :: 0 <= k <= i ==> (a + b)[k] == a[k];
    CutIsUnique(a + b, i, lo, hi);
  }

  /** Splitting what has arrived and then the remainder with what follows gives the cuts of the
      whole text. */
  lemma {:induction false} ArrivalIrrelevant(a: string, b: string, lo: nat, hi: nat)
    ensures var early := Split(a, lo, hi);
            var late := Split(early.rest + b, lo, hi);
            Split(a + b, lo, hi) == Cuts(early.ready + late.ready, late.rest)
    decreases |a|
  {
    hide Cut, Split;
    var i := Cut(a, lo, hi);
    SplitUnfolds(a, lo, hi);
    if i < 0 {
      assert [] + Split(a + b, lo, hi).ready == Split(a + b, lo, hi).ready;
    } else {
      CutIsStable(a, b, lo, hi);
      SplitUnfolds(a + b, lo, hi);
      assert (a + b)[..i + 1] == a[..i + 1];
      assert (a + b)[i + 1..] == a[i + 1..] + b;
      ArrivalIrrelevant(a[i + 1..], b, lo, hi);
      var early := Split(a[i + 1..], lo, hi);
      var late := Split(early.rest + b, lo, hi);
      assert [a[..i + 1]] + (early.ready + late.ready) == ([a[..i + 1]] + early.ready) + late.ready;
    }
  }

  /** What the incremental splitter leaves over is a single segment for the one-shot splitter. */
  lemma RemainderIsOneSegment(s: string, lo: nat, hi: nat)
    requires 1 <= lo <= hi
    requires Cut(s, lo, hi) < 0 && s != ""
    ensures TextSegments(s, lo, hi) == [s]
  {
    hide IsEnding, IsHint;
    var n := PartLength(s);
    assert !Stops(s[n - 1], n - 1, lo, hi);
    assert s[..n] == s && s[n..] == "";
  }

  /** The segments of a text that arrives in one piece and is then flushed. */
  function Spoken(text: string, c: Config): seq<string> {
    var cuts := StreamSplit(text, c, false);
    if cuts.rest == "" then cuts.ready else cuts.ready + [cuts.rest]
  }

  lemma FlushIsRemainder(text: string, c: Config)
    ensures var cuts := StreamSplit(Stripped(text), c, false);
            cuts.ready + AnswerSegments(cuts.rest, c.minChars, c.maxChars) == Spoken(Stripped(text), c)
  {
    var s := Stripped(text);
    var cuts := StreamSplit(s, c, false);
    StreamLosesNothing(s, c, false);
    StrippedHasNoSpace(text);
    assert forall x :: x in cuts.rest ==> x in Concat(cuts.ready) + cuts.rest;
    assert Stripped(cuts.rest) == cuts.rest;
    if c.maxChars > 0 && cuts.rest != "" {
      SplitLosesNothing(s, Lo(c.minChars, c.maxChars), c.maxChars);
      RemainderIsOneSegment(cuts.rest, Lo(c.minChars, c.maxChars), c.maxChars);
    }
  }

  // ---------------------------------------------------------------- the two answer pipelines

  /** Segmentation for the file-based speech engine: the same segments however the answer was
      cut into chunks. */
  method CollectSegments(chunks: seq<string>, c: Config) returns (segments: seq<string>)
    ensures segments == Spoken(Stripped(Concat(chunks)), c)
    ensures Concat(segments) == Stripped(Concat(chunks))
    ensures c.maxChars > 0 ==> Speakable(segments, c.maxChars)
  {
    hide StreamSplit, Stripped, AnswerSegments, Concat, Spoken;
    segments := [];
    var pending := "";
    StrippedNothing();
    NothingToSplit(c, false);
    for i := 0 to |chunks|
      invariant Cuts(segments, pending) == StreamSplit(Stripped(Concat(chunks[..i])), c, false)
    {
      ConcatUpTo(chunks, i);
      StrippedAppend(Concat(chunks[..i]), chunks[i]);
      StreamArrival(Stripped(Concat(chunks[..i])), Stripped(chunks[i]), c);
      if chunks[i] == "" {
        StrippedNothing();
        assert Stripped(Concat(chunks[..i + 1])) == Stripped(Concat(chunks[..i]));
      } else {
        var ready;
        pending := pending + Stripped(chunks[i]);
        ready, pending := SplitStreamBuffer(pending, c, false, false);
        segments := segments + ready;
      }
    }
    assert chunks[..|chunks|] == chunks;
    FlushIsRemainder(Concat(chunks), c);
    SpokenLosesNothing(Concat(chunks), c);
    if pending == "" {
      SpokenWithoutRest(Stripped(Concat(chunks)), c);
    } else {
      var flushed := SplitAnswerText(pending, c.minChars, c.maxChars);
      segments := segments + flushed;
    }
  }

  lemma StrippedNothing()
    ensures Stripped("") == "" && Stripped(Concat([])) == ""
  {
  }

  lemma StreamArrival(a: string, b: string, c: Config)
    ensures var early := StreamSplit(a, c, false);
            var late := StreamSplit(early.rest + b, c, false);
            StreamSplit(a + b, c, false) == Cuts(early.ready + late.ready, late.rest)
  {
    hide Split;
    if c.maxChars > 0 {
      ArrivalIrrelevant(a, b, Lo(c.minChars, c.maxChars), c.maxChars);
    }
  }

  lemma SpokenWithoutRest(text: string, c: Config)
    requires StreamSplit(text, c, false).rest == ""
    ensures Spoken(text, c) == StreamSplit(text, c, false).ready
  {
  }

  lemma SpokenLosesNothing(text: string, c: Config)
    ensures Concat(Spoken(Stripped(text), c)) == Stripped(text)
    ensures c.maxChars > 0 ==> Speakable(Spoken(Stripped(text), c), c.maxChars)
  {
    var s := Stripped(text);
    hide Stripped, Concat, Split, Cut;
    var cuts := StreamSplit(s, c, false);
    StreamLosesNothing(s, c, false);
    ConcatSnoc(cuts.ready, cuts.rest);
    assert Concat(cuts.ready) + "" == Concat(cuts.ready);
    if c.maxChars > 0 {
      SplitLosesNothing(s, Lo(c.minChars, c.maxChars), c.maxChars);
    }
  }

  /** What the streaming speech engine has been given, and what is pending, after some chunks:
      until the first segment is out, the shorter first-segment limits apply. */
  function Fed(chunks: seq<string>, c: Config): Cuts {
    if chunks == [] then Cuts([], "")
    else
      var early, chunk := Fed(chunks[..|chunks| - 1], c), chunks[|chunks| - 1];
      if chunk == "" then early
      else
        var late := StreamSplit(early.rest + Stripped(chunk), c, early.ready == []);
        Cuts(early.ready + late.ready, late.rest)
  }

  lemma FedUnfolds(chunks: seq<string>, i: nat, c: Config)
    requires i < |chunks|
    ensures var early := Fed(chunks[..i], c);
            var late := StreamSplit(early.rest + Stripped(chunks[i]), c, early.ready == []);
            Fed(chunks[..i + 1], c) == if chunks[i] == "" then early else Cuts(early.ready + late.ready, late.rest)
  {
    hide StreamSplit, Stripped;
    assert chunks[..i + 1][..i] == chunks[..i];
  }

  /** Segmentation for the streaming speech engine. When the language model fails, what is
      pending is not spoken. */
  method SpeakSegments(chunks: seq<string>, c: Config, failed: bool)
    returns (segments: seq<string>, pending: string)
    ensures failed ==> Cuts(segments, pending) == Fed(chunks, c)
    ensures !failed ==> segments == Said(chunks, c) && pending == ""
    ensures Concat(segments) + pending == Stripped(Concat(chunks))
    ensures c.maxChars > 0 ==> Speakable(segments, Bound(c))
  {
    hide StreamSplit, Fed, Stripped, AnswerSegments, Concat, Speakable, Bound;
    segments, pending := [], "";
    NothingFed(c);
    for i := 0 to |chunks|
      invariant Cuts(segments, pending) == Fed(chunks[..i], c)
    {
      FedUnfolds(chunks, i, c);
      if chunks[i] != "" {
        var ready;
        pending := pending + Stripped(chunks[i]);
        ready, pending := SplitStreamBuffer(pending, c, false, |segments| == 0);
        segments := segments + ready;
      }
    }
    assert chunks[..|chunks|] == chunks;
    FedLosesNothing(chunks, c);
    SaidLosesNothing(chunks, c);
    NothingToAnswer(c);
    if !failed {
      if pending != "" {
        var flushed := SplitAnswerText(pending, c.minChars, c.maxChars);
        segments := segments + flushed;
        pending := "";
      }
      assert Concat(segments) + "" == Concat(segments);
    }
  }

  /** The limit of the first segment: the configured one if there is one, and at least one. */
  function FirstBound(c: Config): nat {
    if c.firstMax.Some? && c.firstMax.value >= 1 then c.firstMax.value
    else if c.firstMax.Some? && c.firstMax.value < 0 then 1
    else if c.maxChars >= 1 then c.maxChars else 1
  }

  /** The first segment keeps to its own limit, all later ones to the general limit. */
  predicate WithinLimits(segments: seq<string>, c: Config) {
    && (segments != [] ==> |segments[0]| <= FirstBound(c))
    && (forall i :: 1 <= i < |segments| ==> |segments[i]| <= c.maxChars)
  }

  /** The limits that the settings ask for, where they make sense. */
  lemma FirstLimitsMean(c: Config)
    requires c.maxChars > 0
    ensures FirstHi(c) == FirstBound(c) && 1 <= FirstLo(c) <= FirstBound(c)
    ensures c.firstMin.Some? && 1 <= c.firstMin.value <= FirstBound(c) ==> FirstLo(c) == c.firstMin.value
    ensures c.firstMin.Some? && c.firstMin.value > FirstBound(c) ==> FirstLo(c) == FirstBound(c)
    ensures (c.firstMin.None? || c.firstMin.value == 0) && 1 <= c.minChars <= c.maxChars
            && c.minChars <= FirstBound(c) ==>
              FirstLo(c) == c.minChars
    ensures 1 <= c.minChars <= c.maxChars ==> Lo(c.minChars, c.maxChars) == c.minChars
    ensures c.minChars > c.maxChars ==> Lo(c.minChars, c.maxChars) == c.maxChars
    ensures c.minChars < 1 ==> Lo(c.minChars, c.maxChars) == 1
  {
  }

  /** A first segment shorter than its minimum is the end of a sentence. */
  lemma OpeningWithinLimits(s: string, c: Config)
    requires c.maxChars > 0
    ensures WithinLimits(StreamSplit(s, c, true).ready, c)
    ensures var ready := StreamSplit(s, c, true).ready;
            ready != [] && 0 < |ready[0]| < FirstLo(c) ==> IsEnding(ready[0][|ready[0]| - 1])
  {
    hide StreamSplit, FirstCut, Split, IsEnding, FirstLo, Concat, Lo, Cut;
    if s == "" {
      NothingToSplit(c, true);
    } else {
      var b := FirstCut(s, c);
      OpeningEnds(s, c);
      OpeningShape(s, c);
      if b >= 0 {
        SplitLosesNothing(s[b + 1..], Lo(c.minChars, c.maxChars), c.maxChars);
      }
    }
  }

  lemma OpeningShape(s: string, c: Config)
    requires c.maxChars > 0 && s != ""
    ensures FirstCut(s, c) < 0 ==> StreamSplit(s, c, true).ready == []
    ensures FirstCut(s, c) >= 0 ==>
              var b := FirstCut(s, c);
              && b + 1 <= FirstBound(c)
              && StreamSplit(s, c, true).ready ==
                 [s[..b + 1]] + Split(s[b + 1..], Lo(c.minChars, c.maxChars), c.maxChars).ready
  {
    hide Cut, Split;
  }

  lemma OpeningEnds(s: string, c: Config)
    requires c.maxChars > 0
    ensures 0 <= FirstCut(s, c) && FirstCut(s, c) + 1 < FirstLo(c) ==> IsEnding(s[FirstCut(s, c)])
  {
    var b := Cut(s, FirstLo(c), FirstHi(c));
    assert b >= 0 ==> Stops(s[b], b, FirstLo(c), FirstHi(c));
    hide IsEnding, IsHint;
  }

  lemma {:induction false} FedWithinLimits(chunks: seq<string>, c: Config)
    requires c.maxChars > 0
    ensures WithinLimits(Fed(chunks, c).ready, c)
  {
    hide StreamSplit, Stripped, Fed, FirstBound, Speakable;
    if chunks == [] {
      NothingFed(c);
    } else {
      var i := |chunks| - 1;
      assert chunks[..i + 1] == chunks;
      FedUnfolds(chunks, i, c);
      FedWithinLimits(chunks[..i], c);
      var early := Fed(chunks[..i], c);
      var s := early.rest + Stripped(chunks[i]);
      OpeningWithinLimits(s, c);
      StreamLosesNothing(s, c, false);
      ShortEnough(StreamSplit(s, c, false).ready, c.maxChars);
    }
  }

  lemma ShortEnough(segments: seq<string>, bound: nat)
    requires Speakable(segments, bound)
    ensures forall i :: 0 <= i < |segments| ==> |segments[i]| <= bound
  {
  }

  /** Once a segment was cut before the end of the answer, so does what is spoken. */
  lemma SaidWithinLimits(chunks: seq<string>, c: Config)
    requires c.maxChars > 0 && Fed(chunks, c).ready != []
    ensures WithinLimits(Said(chunks, c), c)
  {
    hide AnswerSegments, Fed, FirstBound, Speakable;
    FedWithinLimits(chunks, c);
    AnswerLosesNothing(Fed(chunks, c).rest, c.minChars, c.maxChars);
    ShortEnough(AnswerSegments(Fed(chunks, c).rest, c.minChars, c.maxChars), c.maxChars);
  }

  /** What the streaming speech engine is given of an answer that was received completely. */
  function Said(chunks: seq<string>, c: Config): seq<string> {
    Fed(chunks, c).ready + AnswerSegments(Fed(chunks, c).rest, c.minChars, c.maxChars)
  }

  lemma NothingToAnswer(c: Config)
    ensures AnswerSegments("", c.minChars, c.maxChars) == []
  {
  }

  lemma NothingFed(c: Config)
    ensures Fed([], c) == Cuts([], "")
  {
  }

  lemma {:induction false} FedLosesNothing(chunks: seq<string>, c: Config)
    ensures Concat(Fed(chunks, c).ready) + Fed(chunks, c).rest == Stripped(Concat(chunks))
    ensures c.maxChars > 0 ==> Speakable(Fed(chunks, c).ready, Bound(c))
  {
    hide StreamSplit, Stripped, AnswerSegments, Concat, Speakable, Bound, Fed;
    assert chunks[..|chunks|] == chunks;
    if chunks == [] {
      StrippedNothing();
      NothingFed(c);
      NothingSaid(if c.maxChars > 0 then Bound(c) else 0);
    } else {
      var i := |chunks| - 1;
      FedLosesNothing(chunks[..i], c);
      FedUnfolds(chunks, i, c);
      ConcatUpTo(chunks, i);
      StrippedAppend(Concat(chunks[..i]), chunks[i]);
      if chunks[i] == "" {
        StrippedNothing();
      } else {
        var early := Fed(chunks[..i], c);
        SaidMore(early.ready, early.rest, Stripped(chunks[i]), c, early.ready == []);
      }
    }
  }

  lemma SaidLosesNothing(chunks: seq<string>, c: Config)
    ensures Concat(Said(chunks, c)) == Stripped(Concat(chunks))
    ensures c.maxChars > 0 ==> Speakable(Said(chunks, c), Bound(c))
  {
    hide Stripped, AnswerSegments, Concat, Speakable, Bound, Fed;
    FedLosesNothing(chunks, c);
    SaidTheRest(Concat(chunks), Fed(chunks, c).ready, Fed(chunks, c).rest, c);
  }

  lemma NothingSaid(bound: nat)
    ensures Concat<char>([]) == "" && Speakable([], bound)
  {
  }

  lemma SaidMore(segments: seq<string>, pending: string, more: string, c: Config, first: bool)
    requires c.maxChars > 0 ==> Speakable(segments, Bound(c))
    ensures var cuts := StreamSplit(pending + more, c, first);
            && Concat(segments + cuts.ready) + cuts.rest == (Concat(segments) + pending) + more
            && (c.maxChars > 0 ==> Speakable(segments + cuts.ready, Bound(c)))
  {
    hide StreamSplit, Concat;
    var cuts := StreamSplit(pending + more, c, first);
    StreamLosesNothing(pending + more, c, first);
    ConcatAppend(segments, cuts.ready);
    assert (Concat(segments) + pending) + more == Concat(segments) + (pending + more);
    assert (Concat(segments) + Concat(cuts.ready)) + cuts.rest == Concat(segments) + (Concat(cuts.ready) + cuts.rest);
  }

  lemma SaidTheRest(text: string, segments: seq<string>, pending: string, c: Config)
    requires Concat(segments) + pending == Stripped(text)
    requires c.maxChars > 0 ==> Speakable(segments, Bound(c))
    ensures var rest := AnswerSegments(pending, c.minChars, c.maxChars);
            && Concat(segments + rest) == Stripped(text)
            && (c.maxChars > 0 ==> Speakable(segments + rest, Bound(c)))
  {
    hide AnswerSegments, Concat, Stripped;
    var rest := AnswerSegments(pending, c.minChars, c.maxChars);
    AnswerLosesNothing(pending, c.minChars, c.maxChars);
    PendingHasNoSpace(text, Concat(segments), pending);
    ConcatAppend(segments, rest);
  }

  lemma PendingHasNoSpace(text: string, before: string, pending: string)
    requires before + pending == Stripped(text)
    ensures Stripped(pending) == pending
  {
    StrippedHasNoSpace(text);
    assert forall x :: x in pending ==> x in before + pending;
  }

  // ---------------------------------------------------------------- the first segment and arrival

  /** More text does not move the first cut: the text is too short to be cut, or it is cut at a
      sentence ending, a hint or the length limit. */
  predicate OpeningStands(text: string, c: Config)
    requires c.maxChars > 0
  {
    |text| < FirstLo(c) || Cut(text, FirstLo(c), FirstHi(c)) >= 0
  }

  lemma CutComesLater(a: string, b: string, lo: nat, hi: nat)
    requires Cut(a, lo, hi) < 0
    ensures Cut(a + b, lo, hi) < 0 || Cut(a + b, lo, hi) >= |a|
  {
    hide IsEnding, IsHint;
    assert forall k :: 0 <= k < |a| ==> (a + b)[k] == a[k] && !Stops(a[k], k, lo, hi);
  }

  lemma ThenMore(first: string, a: seq<string>, b: seq<string>)
    ensures [first] + (a + b) == ([first] + a) + b
  {
  }

  lemma OpeningUnfolds(s: string, i: nat, c: Config)
    requires c.maxChars > 0 && i < |s| && Cut(s, FirstLo(c), FirstHi(c)) == i
    ensures var more := StreamSplit(s[i + 1..], c, false);
            StreamSplit(s, c, true) == Cuts([s[..i + 1]] + more.ready, more.rest)
  {
    assert Boundary(s, c, true) == i;
    hide Cut, StreamSplit, Boundary;
    StreamUnfolds(s, c, true);
  }

  /** A first segment cut at a place the text sets. */
  lemma OpeningCut(a: string, b: string, c: Config)
    requires c.maxChars > 0 && Cut(a, FirstLo(c), FirstHi(c)) >= 0
    ensures var early := StreamSplit(a, c, true);
            var late := StreamSplit(early.rest + b, c, early.ready == []);
            StreamSplit(a + b, c, true) == Cuts(early.ready + late.ready, late.rest)
  {
    hide StreamSplit, FirstLo, FirstHi;
    var i := Cut(a, FirstLo(c), FirstHi(c));
    CutIsStable(a, b, FirstLo(c), FirstHi(c));
    hide Cut;
    OpeningUnfolds(a, i, c);
    OpeningUnfolds(a + b, i, c);
    var rest := a[i + 1..];
    assert (a + b)[..i + 1] == a[..i + 1] && (a + b)[i + 1..] == rest + b;
    StreamArrival(rest, b, c);
    var more := StreamSplit(rest, c, false);
    ThenMore(a[..i + 1], more.ready, StreamSplit(more.rest + b, c, false).ready);
    assert [a[..i + 1]] + more.ready != [];
  }

  /** A first segment that is just all the text there was. */
  lemma OpeningTakesAll(a: string, b: string, c: Config)
    requires c.maxChars > 0 && !OpeningStands(a, c)
    ensures StreamSplit(a, c, true) == Cuts([a], "")
    ensures b != "" ==> var whole := StreamSplit(a + b, c, true); whole.ready != [] && |whole.ready[0]| > |a|
  {
    CutComesLater(a, b, FirstLo(c), FirstHi(c));
    hide Cut, Split, StreamSplit;
    NothingToSplit(c, false);
    StreamUnfolds(a, c, true);
    assert a[..|a|] == a && a[|a|..] == "";
    if b != "" {
      StreamUnfolds(a + b, c, true);
    }
  }

  lemma OpeningTooShort(a: string, c: Config)
    requires c.maxChars > 0 && |a| < FirstLo(c) && Cut(a, FirstLo(c), FirstHi(c)) < 0
    ensures StreamSplit(a, c, true) == Cuts([], a)
  {
    hide Cut, Split, StreamSplit;
    NothingToSplit(c, true);
    if a != "" {
      StreamUnfolds(a, c, true);
    }
  }

  /** Under the first-segment limits, text that arrives in two pieces is cut like text that
      arrives at once exactly if there is no second piece, the first one is too short for a
      segment, or its first segment ends at a sentence ending, a hint or the length limit. */
  lemma FirstSegmentArrivalExactlyWhen(a: string, b: string, c: Config)
    requires c.maxChars > 0
    ensures var early := StreamSplit(a, c, true);
            var late := StreamSplit(early.rest + b, c, early.ready == []);
            StreamSplit(a + b, c, true) == Cuts(early.ready + late.ready, late.rest) <==>
            b == "" || OpeningStands(a, c)
  {
    hide Cut, Split, StreamSplit;
    if Cut(a, FirstLo(c), FirstHi(c)) >= 0 {
      OpeningCut(a, b, c);
    } else if |a| < FirstLo(c) {
      OpeningTooShort(a, c);
      assert [] + StreamSplit(a + b, c, true).ready == StreamSplit(a + b, c, true).ready;
    } else {
      OpeningTakesAll(a, b, c);
      NothingToSplit(c, false);
      assert a + "" == a && "" + b == b && [a] + [] == [a];
    }
  }

  // ---------------------------------------------------------------- any number of chunks

  function TextOf(chunks: seq<string>): string {
    Stripped(Concat(chunks))
  }

  /** How many chunks it takes until the first segment is cut, or all of them. */
  function OpeningChunks(chunks: seq<string>, c: Config): (n: nat)
    ensures n <= |chunks|
    ensures n < |chunks| ==> Fed(chunks[..n], c).ready != []
    ensures n > 0 ==> Fed(chunks[..n - 1], c).ready == []
  {
    if chunks == [] then 0
    else
      var shorter := chunks[..|chunks| - 1];
      var n := OpeningChunks(shorter, c);
      assert forall k :: 0 <= k <= |shorter| ==> shorter[..k] == chunks[..k];
      if n == |shorter| && Fed(shorter, c).ready == [] then |chunks| else n
  }

  /** The text the first segment is cut from. */
  function Opening(chunks: seq<string>, c: Config): string {
    TextOf(chunks[..OpeningChunks(chunks, c)])
  }

  lemma TextOfUpTo(chunks: seq<string>, i: nat)
    requires i < |chunks|
    ensures TextOf(chunks[..i + 1]) == TextOf(chunks[..i]) + Stripped(chunks[i])
    ensures chunks[i] == "" ==> TextOf(chunks[..i + 1]) == TextOf(chunks[..i])
  {
    hide Stripped, Concat;
    ConcatUpTo(chunks, i);
    StrippedAppend(Concat(chunks[..i]), chunks[i]);
    StrippedNothing();
  }

  lemma TextOfNothing()
    ensures TextOf([]) == ""
  {
    StrippedNothing();
  }

  /** As long as nothing is cut, everything is pending. */
  lemma UncutRest(s: string, c: Config)
    requires StreamSplit(s, c, true).ready == []
    ensures StreamSplit(s, c, true).rest == s
  {
    hide StreamSplit;
    StreamLosesNothing(s, c, true);
    NothingSaid(0);
  }

  /** Up to the chunk that brings the first cut, the chunks do not matter. */
  lemma {:induction false} FedAtOnce(chunks: seq<string>, c: Config)
    requires chunks != [] ==> Fed(chunks[..|chunks| - 1], c).ready == []
    ensures Fed(chunks, c) == StreamSplit(TextOf(chunks), c, true)
  {
    hide StreamSplit, Stripped, Concat, Fed, TextOf;
    NothingFed(c);
    NothingToSplit(c, true);
    if chunks == [] {
      TextOfNothing();
    } else {
      var i := |chunks| - 1;
      assert chunks[..i + 1] == chunks;
      FedUnfolds(chunks, i, c);
      TextOfUpTo(chunks, i);
      if i > 0 {
        FedUnfolds(chunks, i - 1, c);
        assert chunks[..i][..i - 1] == chunks[..i - 1];
      }
      FedAtOnce(chunks[..i], c);
      UncutRest(TextOf(chunks[..i]), c);
      var late := StreamSplit(TextOf(chunks), c, true);
      assert [] + late.ready == late.ready;
    }
  }

  /** After a cut, what is pending has to wait for more text. */
  lemma RestStands(s: string, c: Config)
    requires c.maxChars > 0 && StreamSplit(s, c, true).ready != []
    ensures var rest := StreamSplit(s, c, true).rest; StreamSplit(rest, c, false) == Cuts([], rest)
  {
    var lo, hi := Lo(c.minChars, c.maxChars), c.maxChars;
    var b := FirstCut(s, c);
    hide Cut, FirstCut, Split;
    NothingToSplit(c, true);
    SplitLosesNothing(s[b + 1..], lo, hi);
    SplitUnfolds(StreamSplit(s, c, true).rest, lo, hi);
  }

  /** Once the first segment is out, the chunks do not matter either. */
  lemma {:induction false} FedOn(chunks: seq<string>, n: nat, c: Config)
    requires c.maxChars > 0 && n <= |chunks|
    requires var early := Fed(chunks[..n], c);
             early.ready != [] && StreamSplit(early.rest, c, false) == Cuts([], early.rest)
    ensures var early := Fed(chunks[..n], c);
            var late := StreamSplit(early.rest + TextOf(chunks[n..]), c, false);
            Fed(chunks, c) == Cuts(early.ready + late.ready, late.rest)
    decreases |chunks|
  {
    hide StreamSplit, Stripped, Concat, Fed, TextOf;
    var early := Fed(chunks[..n], c);
    if n == |chunks| {
      TextOfNothing();
      assert chunks[..n] == chunks && chunks[n..] == [] && early.rest + "" == early.rest;
      assert early.ready + [] == early.ready;
    } else {
      var i := |chunks| - 1;
      var shorter := chunks[..i];
      assert shorter[..n] == chunks[..n] && shorter[n..] == chunks[n..][..i - n] && chunks[..i + 1] == chunks;
      assert chunks[n..][i - n] == chunks[i] && chunks[n..][..i - n + 1] == chunks[n..];
      FedOn(shorter, n, c);
      FedUnfolds(chunks, i, c);
      TextOfUpTo(chunks[n..], i - n);
      var before := early.rest + TextOf(shorter[n..]);
      assert chunks[i] != "" ==> early.rest + TextOf(chunks[n..]) == before + Stripped(chunks[i]);
      StreamArrival(before, Stripped(chunks[i]), c);
      var late := StreamSplit(before, c, false);
      assert early.ready + late.ready != [];
      assert (early.ready + late.ready) + StreamSplit(late.rest + Stripped(chunks[i]), c, false).ready
          == early.ready + (late.ready + StreamSplit(late.rest + Stripped(chunks[i]), c, false).ready);
    }
  }

  /** Under the first-segment limits a text is cut in the same way however it arrives, except
      when the text that had arrived by the first cut had no place to cut and was taken whole,
      although more followed. */
  lemma ArrivalMattersExactlyWhen(chunks: seq<string>, c: Config)
    requires c.maxChars > 0
    ensures Fed(chunks, c) == StreamSplit(TextOf(chunks), c, true) <==>
            Opening(chunks, c) == TextOf(chunks) || OpeningStands(Opening(chunks, c), c)
  {
    hide StreamSplit, Stripped, Concat, Fed, TextOf, OpeningStands;
    var n := OpeningChunks(chunks, c);
    var a, b := TextOf(chunks[..n]), TextOf(chunks[n..]);
    assert n > 0 ==> chunks[..n][..n - 1] == chunks[..n - 1];
    FedAtOnce(chunks[..n], c);
    TextOfTwo(chunks, n);
    FirstSegmentArrivalExactlyWhen(a, b, c);
    if Fed(chunks[..n], c).ready != [] {
      RestStands(a, c);
      FedOn(chunks, n, c);
    } else {
      assert chunks[..n] == chunks;
    }
  }

  lemma TextOfTwo(chunks: seq<string>, n: nat)
    requires n <= |chunks|
    ensures TextOf(chunks) == TextOf(chunks[..n]) + TextOf(chunks[n..])
    ensures TextOf(chunks) == TextOf(chunks[..n]) <==> TextOf(chunks[n..]) == ""
  {
    hide Stripped, Concat;
    assert chunks == chunks[..n] + chunks[n..];
    ConcatAppend(chunks[..n], chunks[n..]);
    StrippedAppend(Concat(chunks[..n]), Concat(chunks[n..]));
  }

  const SHORT_OPENING := Config(4, 8, Some(2), Some(6))

  lemma ShortOpenings()
    ensures StreamSplit("abcd", SHORT_OPENING, true) == Cuts(["abcd"], "")
    ensures StreamSplit("ab", SHORT_OPENING, true) == Cuts(["ab"], "")
    ensures StreamSplit("cd", SHORT_OPENING, false) == Cuts([], "cd")
  {
    assert Cut("abcd", 2, 6) == -1 && Cut("ab", 2, 6) == -1 && Cut("cd", 4, 8) == -1 && Cut("", 4, 8) == -1;
    assert FirstCut("abcd", SHORT_OPENING) == 3 && FirstCut("ab", SHORT_OPENING) == 1;
    assert "abcd"[..4] == "abcd" && "ab"[..2] == "ab";
  }

  lemma NoSpaces()
    ensures Stripped("abcd") == "abcd" && Stripped("ab") == "ab" && Stripped("cd") == "cd"
  {
  }

  /** One text that arrives in one piece and in two: "abcd" is a segment, "ab" and then "cd" are
      not. */
  lemma FirstSegmentDependsOnArrival()
    ensures Fed(["abcd"], SHORT_OPENING) == Cuts(["abcd"], "")
    ensures Fed(["ab", "cd"], SHORT_OPENING) == Cuts(["ab"], "cd")
  {
    hide StreamSplit, Stripped, Fed;
    ShortOpenings();
    NoSpaces();
    NothingFed(SHORT_OPENING);
    var one, two := ["abcd"], ["ab", "cd"];
    assert one[..0] == [] && one[..1] == one && "" + "abcd" == "abcd" && "" + "ab" == "ab";
    assert two[..0] == [] && two[..1] == ["ab"] && two[..2] == two && "" + "cd" == "cd";
    assert [] + ["abcd"] == ["abcd"] && [] + ["ab"] == ["ab"] && ["ab"] + [] == ["ab"];
    FedUnfolds(one, 0, SHORT_OPENING);
    FedUnfolds(two, 0, SHORT_OPENING);
    FedUnfolds(two, 1, SHORT_OPENING);
  }

  // ---------------------------------------------------------------- against the one-shot splitter

  /** The segments of a text that arrives in one piece, under one pair of limits. */
  function StreamSegments(s: string, lo: nat, hi: nat): seq<string> {
    var cuts := Split(s, lo, hi);
    if cuts.rest == "" then cuts.ready else cuts.ready + [cuts.rest]
  }

  /** Where the incremental splitter ends its first segment. */
  function StreamLength(s: string, lo: nat, hi: nat): (n: nat)
    ensures n <= |s|
    ensures s != "" ==> n > 0
  {
    var b := Cut(s, lo, hi);
    if b < 0 then |s| else b + 1
  }

  /** Where the one-shot splitter ends its first segment. */
  function TextLength(s: string, lo: nat, hi: nat): (n: nat)
    requires 1 <= lo <= hi
    ensures n <= |s|
    ensures s != "" ==> n > 0
  {
    var n := PartLength(s);
    if n <= hi then n else LongCut(s[..n], lo, hi)
  }

  lemma StreamStep(s: string, lo: nat, hi: nat)
    requires s != ""
    ensures var n := StreamLength(s, lo, hi);
            StreamSegments(s, lo, hi) == [s[..n]] + StreamSegments(s[n..], lo, hi)
  {
    hide Cut, Split;
    SplitUnfolds(s, lo, hi);
    var b := Cut(s, lo, hi);
    if b < 0 {
      assert s[..|s|] == s && s[|s|..] == "";
      SplitUnfolds("", lo, hi);
    } else {
      var more := Split(s[b + 1..], lo, hi);
      assert ([s[..b + 1]] + more.ready) + [more.rest] == [s[..b + 1]] + (more.ready + [more.rest]);
    }
  }

  lemma TextStep(s: string, lo: nat, hi: nat)
    requires 1 <= lo <= hi && s != ""
    ensures var n := TextLength(s, lo, hi);
            TextSegments(s, lo, hi) == [s[..n]] + TextSegments(s[n..], lo, hi)
  {
    hide PartLength, TextSegments, LongPart, LongCut;
    var part := s[..PartLength(s)];
    TextUnfolds(s, lo, hi);
    LongPartStep(part, lo, hi);
    if |part| > hi {
      LongTextStep(s, TextLength(s, lo, hi), lo, hi);
    }
  }

  /** A long first sentence that is cut inside. */
  lemma LongTextStep(s: string, k: nat, lo: nat, hi: nat)
    requires 1 <= lo <= hi && 0 < k < PartLength(s)
    requires var part := s[..PartLength(s)];
             LongPart(part, lo, hi) == [part[..k]] + LongPart(part[k..], lo, hi)
    ensures TextSegments(s, lo, hi) == [s[..k]] + TextSegments(s[k..], lo, hi)
  {
    hide PartLength, TextSegments, LongPart;
    var n := PartLength(s);
    var rest := s[k..];
    PartLengthDrop(s, k);
    TextUnfolds(s, lo, hi);
    TextUnfolds(rest, lo, hi);
    assert s[..n][..k] == s[..k];
    assert s[..n][k..] == rest[..n - k];
    assert rest[n - k..] == s[n..];
  }

  /** No soft hint from one position up to another. */
  predicate NoHint(s: string, from: nat, to: int) {
    forall k :: from <= k < to && k < |s| ==> !IsHint(s[k])
  }

  predicate AtMostOneHint(s: string, from: nat, to: nat) {
    forall j, k :: from <= j < k < to && k < |s| ==> !(IsHint(s[j]) && IsHint(s[k]))
  }

  /** A sentence that fits has no allowed hint before its end, a longer one has at most one
      allowed hint within the limit. */
  predicate SameFirstCut(s: string, lo: nat, hi: nat)
    requires 1 <= lo
  {
    var n := PartLength(s);
    if n <= hi then NoHint(s, lo - 1, n - 1) else AtMostOneHint(s, lo - 1, hi)
  }

  lemma FirstCutsCoincideExactlyWhen(s: string, lo: nat, hi: nat)
    requires 1 <= lo <= hi && s != ""
    ensures StreamLength(s, lo, hi) == TextLength(s, lo, hi) <==> SameFirstCut(s, lo, hi)
  {
    hide IsEnding, IsHint;
    if PartLength(s) <= hi {
      ShortSentence(s, lo, hi);
    } else {
      LongSentence(s, lo, hi);
    }
  }

  lemma ShortSentence(s: string, lo: nat, hi: nat)
    requires 1 <= lo <= hi && s != "" && PartLength(s) <= hi
    ensures StreamLength(s, lo, hi) == PartLength(s) <==> NoHint(s, lo - 1, PartLength(s) - 1)
  {
    hide IsEnding, IsHint;
    var n, m := PartLength(s), StreamLength(s, lo, hi);
    assert forall k :: 0 <= k < m - 1 ==> !Stops(s[k], k, lo, hi);
    assert m < |s| ==> Stops(s[m - 1], m - 1, lo, hi);
    assert n < |s| ==> Stops(s[n - 1], n - 1, lo, hi);
  }

  lemma LongSentence(s: string, lo: nat, hi: nat)
    requires 1 <= lo <= hi && PartLength(s) > hi
    ensures StreamLength(s, lo, hi) == LongCut(s[..PartLength(s)], lo, hi) <==> AtMostOneHint(s, lo - 1, hi)
  {
    hide IsEnding, IsHint;
    var n, m := PartLength(s), StreamLength(s, lo, hi);
    var part := s[..n];
    var soft := LastHint(part, hi);
    assert forall k :: 0 <= k < n ==> part[k] == s[k];
    assert forall k :: 0 <= k < m - 1 ==> !Stops(s[k], k, lo, hi);
    assert Stops(s[m - 1], m - 1, lo, hi);
    assert m <= hi && !IsEnding(s[m - 1]);
  }

  /** The condition at every cut of a text. */
  predicate SameCuts(s: string, lo: nat, hi: nat)
    requires 1 <= lo <= hi
    decreases |s|
  {
    s == "" || (SameFirstCut(s, lo, hi) && SameCuts(s[TextLength(s, lo, hi)..], lo, hi))
  }

  /** The incremental and the one-shot splitter make the same segments of a text exactly if at
      every cut a sentence that fits has no allowed hint before its end and a longer one at most
      one within the limit. */
  lemma {:induction false} SplittersAgreeExactlyWhen(s: string, lo: nat, hi: nat)
    requires 1 <= lo <= hi
    ensures StreamSegments(s, lo, hi) == TextSegments(s, lo, hi) <==> SameCuts(s, lo, hi)
    decreases |s|
  {
    hide SameFirstCut, StreamLength, TextLength, StreamSegments, TextSegments;
    if s == "" {
      NothingInEither(lo, hi);
    } else {
      var n, m := StreamLength(s, lo, hi), TextLength(s, lo, hi);
      StreamStep(s, lo, hi);
      TextStep(s, lo, hi);
      FirstCutsCoincideExactlyWhen(s, lo, hi);
      if n == m {
        SplittersAgreeExactlyWhen(s[m..], lo, hi);
        SameHead(s[..n], StreamSegments(s[n..], lo, hi), TextSegments(s[n..], lo, hi));
      } else {
        assert |s[..n]| != |s[..m]|;
        assert StreamSegments(s, lo, hi)[0] == s[..n] && TextSegments(s, lo, hi)[0] == s[..m];
      }
    }
  }

  lemma SameHead(first: string, a: seq<string>, b: seq<string>)
    ensures [first] + a == [first] + b <==> a == b
  {
    assert ([first] + a)[1..] == a && ([first] + b)[1..] == b;
  }

  lemma NothingInEither(lo: nat, hi: nat)
    requires 1 <= lo <= hi
    ensures StreamSegments("", lo, hi) == TextSegments("", lo, hi) == []
  {
    SplitUnfolds("", lo, hi);
  }

  /** The two answer pipelines, the same text and the same settings. */
  lemma PipelinesAgreeExactlyWhen(text: string, c: Config)
    ensures Spoken(Stripped(text), c) == AnswerSegments(text, c.minChars, c.maxChars) <==>
            (c.maxChars > 0 ==> SameCuts(Stripped(text), Lo(c.minChars, c.maxChars), c.maxChars))
  {
    var s := Stripped(text);
    hide Stripped, Split, TextSegments, SameCuts;
    if c.maxChars > 0 {
      var lo := Lo(c.minChars, c.maxChars);
      SplittersAgreeExactlyWhen(s, lo, c.maxChars);
      NothingInEither(lo, c.maxChars);
    }
  }

  /** They disagree on "a,b": the incremental splitter takes the first allowed hint, the one-shot
      one keeps a sentence that fits. */
  lemma SplittersDiffer()
    ensures StreamSegments("a,b", 1, 8) == ["a,", "b"] && TextSegments("a,b", 1, 8) == ["a,b"]
  {
    var s := "a,b";
    assert s[..2] == "a," && s[2..] == "b" && s[..3] == s && s[3..] == "" && "b"[..1] == "b" && "b"[1..] == "";
    CutIsUnique(s, 1, 1, 8);
    CutIsUnique("b", -1, 1, 8);
    assert PartLength(s) == 3 by {
      assert s[1..] == ",b" && s[1..][1..] == "b";
    }
    hide Cut, PartLength, StreamSegments, TextSegments;
    StreamStep(s, 1, 8);
    StreamStep("b", 1, 8);
    TextStep(s, 1, 8);
    NothingInEither(1, 8);
  }

  /** Without soft hints they agree on every text. */
  lemma SplittersAgreeWithoutHints(s: string, lo: nat, hi: nat)
    requires 1 <= lo <= hi
    requires forall k :: 0 <= k < |s| ==> !IsHint(s[k])
    ensures StreamSegments(s, lo, hi) == TextSegments(s, lo, hi)
  {
    NoHintsNoDifference(s, lo, hi);
    SplittersAgreeExactlyWhen(s, lo, hi);
  }

  lemma {:induction false} NoHintsNoDifference(s: string, lo: nat, hi: nat)
    requires 1 <= lo <= hi
    requires forall k :: 0 <= k < |s| ==> !IsHint(s[k])
    ensures SameCuts(s, lo, hi)
    decreases |s|
  {
    hide IsHint, TextLength;
    if s != "" {
      NoHintsNoDifference(s[TextLength(s, lo, hi)..], lo, hi);
    }
  }

  lemma {:induction false} PartLengthDrop(s: string, k: nat)
    requires k < PartLength(s)
    ensures PartLength(s[k..]) == PartLength(s) - k
    decreases k
  {
    hide IsEnding;
    if k == 0 {
      assert s[0..] == s;
    } else {
      PartLengthDrop(s[1..], k - 1);
      assert s[1..][k - 1..] == s[k..];
    }
  }
}
