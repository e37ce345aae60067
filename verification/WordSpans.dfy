/** Words of a line, and where the changed ones are. */
module WordSpans {
  import opened Common
  import opened Text

  /** Half open: from start up to, not including, end. */
  datatype Span = Span(start: nat, end: nat)

  datatype Tag = Same | Changed | Removed | Added

  /** One stretch a matcher found: before[i1..i2] against after[j1..j2]. */
  datatype Opcode = Opcode(tag: Tag, i1: nat, i2: nat, j1: nat, j2: nat)

  /** Any sequence matcher, of lines or of words. */
  type Matcher = (seq<string>, seq<string>) -> seq<Opcode>

  // ---------------------------------------------------------------- what a matcher promises

  function OldAt(ops: seq<Opcode>, n: nat): nat
    requires n <= |ops|
  {
    if n == 0 then 0 else ops[n - 1].i2
  }

  function NewAt(ops: seq<Opcode>, n: nat): nat
    requires n <= |ops|
  {
    if n == 0 then 0 else ops[n - 1].j2
  }

  ghost predicate OpFits(op: Opcode, before: seq<string>, after: seq<string>) {
    && op.i1 <= op.i2 <= |before| && op.j1 <= op.j2 <= |after|
    && (op.tag.Same? ==> before[op.i1..op.i2] == after[op.j1..op.j2])
    && (op.tag.Removed? ==> op.j1 == op.j2)
    && (op.tag.Added? ==> op.i1 == op.i2)
  }

  ghost predicate Tile(ops: seq<Opcode>, k: nat, before: seq<string>, after: seq<string>)
    requires k < |ops|
  {
    ops[k].i1 == OldAt(ops, k) && ops[k].j1 == NewAt(ops, k) && OpFits(ops[k], before, after)
  }

  /** The opcodes follow on from one another and cover both sequences. */
  ghost predicate Tiles(ops: seq<Opcode>, before: seq<string>, after: seq<string>) {
    && (forall k :: 0 <= k < |ops| ==> Tile(ops, k, before, after))
    && OldAt(ops, |ops|) == |before| && NewAt(ops, |ops|) == |after|
  }

  ghost predicate ValidMatcher(matcher: Matcher) {
    forall before, after :: Tiles(matcher(before, after), before, after)
  }

  // ---------------------------------------------------------------- words

  function SpacesAt(s: string, i: nat): (n: nat)
    requires i <= |s|
    ensures i + n <= |s| && (forall k :: i <= k < i + n ==> Space(s[k])) && (i + n < |s| ==> !Space(s[i + n]))
    decreases |s| - i
  {
    if i < |s| && Space(s[i]) then 1 + SpacesAt(s, i + 1) else 0
  }

  function WordAt(s: string, i: nat): (n: nat)
    requires i <= |s|
    ensures i + n <= |s| && (forall k :: i <= k < i + n ==> !Space(s[k])) && (i + n < |s| ==> Space(s[i + n]))
    decreases |s| - i
  {
    if i < |s| && !Space(s[i]) then 1 + WordAt(s, i + 1) else 0
  }

  /** Each word with the spaces after it. Spaces before the first word belong to none. */
  function TokensFrom(s: string, i: nat): (tokens: seq<string>)
    requires i <= |s| && (i < |s| ==> !Space(s[i]))
    ensures forall t :: t in tokens ==> t != "" && !Space(t[0])
    ensures Joined(tokens) == s[i..]
    decreases |s| - i
  {
    if i == |s| then []
    else
      var word := WordAt(s, i);
      var spaces := SpacesAt(s, i + word);
      JoinedOne(s[i..i + word + spaces], TokensFrom(s, i + word + spaces));
      [s[i..i + word + spaces]] + TokensFrom(s, i + word + spaces)
  }

  function Leading(s: string): (n: nat)
    ensures n <= |s| && (n < |s| ==> !Space(s[n]))
  {
    SpacesAt(s, 0)
  }

  function Tokens(s: string): (tokens: seq<string>)
    ensures forall t :: t in tokens ==> t != "" && !Space(t[0])
    ensures Joined(tokens) == s[Leading(s)..]
  {
    TokensFrom(s, Leading(s))
  }

  function Joined(tokens: seq<string>): string {
    if tokens == [] then "" else Joined(tokens[..|tokens| - 1]) + tokens[|tokens| - 1]
  }

  lemma {:induction false} JoinedAppend(x: seq<string>, y: seq<string>)
    ensures Joined(x + y) == Joined(x) + Joined(y)
  {
    if y == [] {
      assert x + y == x;
    } else {
      assert (x + y)[..|x + y| - 1] == x + y[..|y| - 1];
      JoinedAppend(x, y[..|y| - 1]);
    }
  }

  lemma JoinedOne(t: string, rest: seq<string>)
    ensures Joined([t] + rest) == t + Joined(rest)
  {
    assert Joined([t]) == t by {
      assert [t][..0] == [];
    }
    JoinedAppend([t], rest);
  }

  /** Where the k-th token starts, counting from the first word. */
  function Offset(tokens: seq<string>, k: nat): nat
    requires k <= |tokens|
  {
    |Joined(tokens[..k])|
  }

  method TokenOffsets(tokens: seq<string>) returns (offsets: seq<nat>)
    ensures |offsets| == |tokens| && forall k :: 0 <= k < |tokens| ==> offsets[k] == Offset(tokens, k)
  {
    offsets := [];
    var pos := 0;
    for k := 0 to |tokens|
      invariant |offsets| == k && pos == Offset(tokens, k)
      invariant forall j :: 0 <= j < k ==> offsets[j] == Offset(tokens, j)
    {
      offsets := offsets + [pos];
      pos := pos + |tokens[k]|;
      assert tokens[..k + 1][..k] == tokens[..k];
    }
  }

  /** The length of a text without the spaces at its end. */
  function Stripped(t: string): (n: nat)
    ensures n <= |t| && (forall k :: n <= k < |t| ==> Space(t[k])) && (n > 0 ==> !Space(t[n - 1]))
  {
    if t == "" then 0 else if Space(t[|t| - 1]) then Stripped(t[..|t| - 1]) else |t|
  }

  function SpanFor(tokens: seq<string>, first: nat, last: nat): Span
    requires first < last <= |tokens|
  {
    Span(Offset(tokens, first), Offset(tokens, last - 1) + Stripped(tokens[last - 1]))
  }

  function OldSpans(tokens: seq<string>, ops: seq<Opcode>): seq<Span>
    requires forall k :: 0 <= k < |ops| ==> ops[k].i2 <= |tokens|
  {
    if ops == [] then []
    else
      var op := ops[|ops| - 1];
      OldSpans(tokens, ops[..|ops| - 1]) + if !op.tag.Same? && op.i1 < op.i2 then [SpanFor(tokens, op.i1, op.i2)]
          else []
  }

  function NewSpans(tokens: seq<string>, ops: seq<Opcode>): seq<Span>
    requires forall k :: 0 <= k < |ops| ==> ops[k].j2 <= |tokens|
  {
    if ops == [] then []
    else
      var op := ops[|ops| - 1];
      NewSpans(tokens, ops[..|ops| - 1]) + if !op.tag.Same? && op.j1 < op.j2 then [SpanFor(tokens, op.j1, op.j2)]
          else []
  }

  lemma TilesInBounds(ops: seq<Opcode>, before: seq<string>, after: seq<string>)
    requires Tiles(ops, before, after)
    ensures forall k :: 0 <= k < |ops| ==> ops[k].i2 <= |before| && ops[k].j2 <= |after|
  {
    forall k | 0 <= k < |ops|
      ensures ops[k].i2 <= |before| && ops[k].j2 <= |after|
    {
      assert Tile(ops, k, before, after);
    }
  }

  function LineSpans(before: string, after: string, matcher: Matcher): (seq<Span>, seq<Span>)
    requires ValidMatcher(matcher)
  {
    var ops := matcher(Tokens(before), Tokens(after));
    TilesInBounds(ops, Tokens(before), Tokens(after));
    (OldSpans(Tokens(before), ops), NewSpans(Tokens(after), ops))
  }

  method FindSpans(before: string, after: string, matcher: Matcher) returns (olds: seq<Span>, news: seq<Span>)
    requires ValidMatcher(matcher)
    ensures (olds, news) == LineSpans(before, after, matcher)
  {
    var oldTokens, newTokens := Tokens(before), Tokens(after);
    var ops := matcher(oldTokens, newTokens);
    TilesInBounds(ops, oldTokens, newTokens);
    olds, news := MarkChanges(oldTokens, newTokens, ops);
  }

  lemma SpansOneMore(oldTokens: seq<string>, newTokens: seq<string>, ops: seq<Opcode>, k: nat)
    requires k < |ops| && forall k :: 0 <= k < |ops| ==> ops[k].i2 <= |oldTokens| && ops[k].j2 <= |newTokens|
    ensures OldSpans(oldTokens, ops[..k + 1])
         == OldSpans(oldTokens, ops[..k]) + if !ops[k].tag.Same? && ops[k].i1 < ops[k].i2
             then [SpanFor(oldTokens, ops[k].i1, ops[k].i2)] else []
    ensures NewSpans(newTokens, ops[..k + 1])
         == NewSpans(newTokens, ops[..k]) + if !ops[k].tag.Same? && ops[k].j1 < ops[k].j2
             then [SpanFor(newTokens, ops[k].j1, ops[k].j2)] else []
  {
    assert ops[..k + 1][..k] == ops[..k];
  }

  method MarkOne(tokens: seq<string>, offsets: seq<nat>, first: nat, last: nat,
                 spans: seq<Span>) returns (more: seq<Span>)
    requires last <= |tokens| && |offsets| == |tokens| && forall k ::
          0 <= k < |tokens| ==> offsets[k] == Offset(tokens, k)
    ensures more == spans + if first < last then [SpanFor(tokens, first, last)] else []
  {
    more := spans;
    if last > first {
      more := more + [Span(offsets[first], offsets[last - 1] + Stripped(tokens[last - 1]))];
    }
  }

  method MarkChanges(oldTokens: seq<string>, newTokens: seq<string>, ops: seq<Opcode>)
    returns (olds: seq<Span>, news: seq<Span>)
    requires forall k :: 0 <= k < |ops| ==> ops[k].i2 <= |oldTokens| && ops[k].j2 <= |newTokens|
    ensures olds == OldSpans(oldTokens, ops) && news == NewSpans(newTokens, ops)
  {
    var oldOffsets := TokenOffsets(oldTokens);
    var newOffsets := TokenOffsets(newTokens);
    olds, news := [], [];
    for k := 0 to |ops|
      invariant olds == OldSpans(oldTokens, ops[..k]) && news == NewSpans(newTokens, ops[..k])
    {
      var op := ops[k];
      SpansOneMore(oldTokens, newTokens, ops, k);
      if !op.tag.Same? {
        olds := MarkOne(oldTokens, oldOffsets, op.i1, op.i2, olds);
        news := MarkOne(newTokens, newOffsets, op.j1, op.j2, news);
      }
    }
    assert ops[..|ops|] == ops;
  }

  // ---------------------------------------------------------------- where the spans lie

  ghost predicate Ordered(spans: seq<Span>, length: nat) {
    && (forall k :: 0 <= k < |spans| ==> spans[k].start < spans[k].end <= length)
    && forall j, k :: 0 <= j < k < |spans| ==> spans[j].end <= spans[k].start
  }

  lemma {:induction false} OffsetsGrow(tokens: seq<string>, i: nat, j: nat)
    requires i <= j <= |tokens|
    ensures Offset(tokens, i) <= Offset(tokens, j) <= |Joined(tokens)|
    ensures Joined(tokens)[Offset(tokens, i)..Offset(tokens, j)] == Joined(tokens[i..j])
  {
    assert tokens[..i] + tokens[i..j] == tokens[..j];
    JoinedAppend(tokens[..i], tokens[i..j]);
    assert tokens[..j] + tokens[j..] == tokens;
    JoinedAppend(tokens[..j], tokens[j..]);
  }

  lemma OneToken(tokens: seq<string>, k: nat)
    requires k < |tokens|
    ensures Offset(tokens, k + 1) == Offset(tokens, k) + |tokens[k]|
  {
    assert tokens[..k + 1][..k] == tokens[..k];
  }

  lemma SpanInside(tokens: seq<string>, first: nat, last: nat)
    requires first < last <= |tokens| && forall t :: t in tokens ==> t != "" && !Space(t[0])
    ensures Offset(tokens, first)
         == SpanFor(tokens, first, last).start < SpanFor(tokens, first, last).end <= Offset(tokens, last)
  {
    OffsetsGrow(tokens, first, last - 1);
    OneToken(tokens, last - 1);
    assert tokens[last - 1] in tokens;
  }

  lemma OneMoreSpan(tokens: seq<string>, spans: seq<Span>, first: nat, last: nat, marked: bool)
    requires first <= last <= |tokens| && forall t :: t in tokens ==> t != "" && !Space(t[0])
    requires marked ==> first < last
    requires Ordered(spans, Offset(tokens, first))
    ensures Ordered(spans + if marked then [SpanFor(tokens, first, last)] else [], Offset(tokens, last))
  {
    OffsetsGrow(tokens, first, last);
    if marked {
      SpanInside(tokens, first, last);
    }
  }

  lemma {:induction false} OldSpansOrdered(tokens: seq<string>, others: seq<string>, ops: seq<Opcode>, n: nat)
    requires Tiles(ops, tokens, others) && n <= |ops| && forall t :: t in tokens ==> t != "" && !Space(t[0])
    requires forall k :: 0 <= k < |ops| ==> ops[k].i2 <= |tokens|
    ensures OldAt(ops, n) <= |tokens| && Ordered(OldSpans(tokens, ops[..n]), Offset(tokens, OldAt(ops, n)))
  {
    if n > 0 {
      OldSpansOrdered(tokens, others, ops, n - 1);
      var op := ops[n - 1];
      assert Tile(ops, n - 1, tokens, others);
      assert ops[..n][..n - 1] == ops[..n - 1];
      var spans := OldSpans(tokens, ops[..n - 1]);
      OneMoreSpan(tokens, spans, op.i1, op.i2, !op.tag.Same? && op.i1 < op.i2);
    }
  }

  lemma {:induction false} NewSpansOrdered(others: seq<string>, tokens: seq<string>, ops: seq<Opcode>, n: nat)
    requires Tiles(ops, others, tokens) && n <= |ops| && forall t :: t in tokens ==> t != "" && !Space(t[0])
    requires forall k :: 0 <= k < |ops| ==> ops[k].j2 <= |tokens|
    ensures NewAt(ops, n) <= |tokens| && Ordered(NewSpans(tokens, ops[..n]), Offset(tokens, NewAt(ops, n)))
  {
    if n > 0 {
      NewSpansOrdered(others, tokens, ops, n - 1);
      var op := ops[n - 1];
      assert Tile(ops, n - 1, others, tokens);
      assert ops[..n][..n - 1] == ops[..n - 1];
      var spans := NewSpans(tokens, ops[..n - 1]);
      OneMoreSpan(tokens, spans, op.j1, op.j2, !op.tag.Same? && op.j1 < op.j2);
    }
  }

  /** In any two lines, the spans of each are in order, apart, never empty and inside the line. */
  lemma SpansLieInTheirLine(before: string, after: string, matcher: Matcher)
    requires ValidMatcher(matcher)
    ensures Ordered(LineSpans(before, after, matcher).0, |before|)
    ensures Ordered(LineSpans(before, after, matcher).1, |after|)
  {
    var ops := matcher(Tokens(before), Tokens(after));
    TilesInBounds(ops, Tokens(before), Tokens(after));
    OldSpansOrdered(Tokens(before), Tokens(after), ops, |ops|);
    NewSpansOrdered(Tokens(before), Tokens(after), ops, |ops|);
    assert ops[..|ops|] == ops;
    assert Tokens(before)[..|Tokens(before)|] == Tokens(before) && Tokens(after)[..|Tokens(after)|] == Tokens(after);
  }

  // ---------------------------------------------------------------- what the spans mark

  /** A span marks the changed words and the spaces between them, without the spaces that follow. The
      range that does so starts where the line's first word does. */
  lemma SpanMarksItsWords(line: string, first: nat, last: nat)
    requires first < last <= |Tokens(line)|
    ensures var tokens := Tokens(line);
            var span := SpanFor(tokens, first, last);
            var words := Joined(tokens[first..last]);
            span.start < span.end && Leading(line) + span.end <= |line|
            && line[Leading(line) + span.start..Leading(line) + span.end] == words[..Stripped(words)]
  {
    SpanText(Tokens(line), first, last);
    var span := SpanFor(Tokens(line), first, last);
    SliceOfSuffix(line, Leading(line), Joined(Tokens(line)), span.start, span.end);
  }

  lemma SliceOfSuffix(s: string, n: nat, t: string, a: nat, b: nat)
    requires n <= |s| && t == s[n..] && a <= b <= |t|
    ensures n + b <= |s| && s[n + a..n + b] == t[a..b]
  {
  }

  lemma SpanText(tokens: seq<string>, first: nat, last: nat)
    requires first < last <= |tokens| && forall t :: t in tokens ==> t != "" && !Space(t[0])
    ensures var span := SpanFor(tokens, first, last);
            var words := Joined(tokens[first..last]);
            span.start < span.end <= |Joined(tokens)|
                && Joined(tokens)[span.start..span.end] == words[..Stripped(words)]
  {
    SpanInside(tokens, first, last);
    OffsetsGrow(tokens, first, last);
    SpanIs(tokens, first, last);
    var words := Joined(tokens[first..last]);
    SliceOfSlice(Joined(tokens), Offset(tokens, first), Offset(tokens, last), words, Stripped(words));
  }

  lemma SpanIs(tokens: seq<string>, first: nat, last: nat)
    requires first < last <= |tokens| && forall t :: t in tokens ==> t != "" && !Space(t[0])
    ensures SpanFor(tokens, first, last)
         == Span(Offset(tokens, first), Offset(tokens, first) + Stripped(Joined(tokens[first..last])))
  {
    WordsEnd(tokens, first, last);
  }

  lemma SliceOfSlice(s: string, a: nat, b: nat, t: string, n: nat)
    requires a <= b <= |s| && s[a..b] == t && n <= |t|
    ensures a + n <= |s| && s[a..a + n] == t[..n]
  {
  }

  lemma WordsEnd(tokens: seq<string>, first: nat, last: nat)
    requires first < last <= |tokens| && forall t :: t in tokens ==> t != "" && !Space(t[0])
    ensures Offset(tokens, first) + Stripped(Joined(tokens[first..last]))
         == Offset(tokens, last - 1) + Stripped(tokens[last - 1])
  {
    var t, head := tokens[last - 1], Joined(tokens[first..last - 1]);
    OffsetsGrow(tokens, first, last - 1);
    assert tokens[first..last][..last - 1 - first] == tokens[first..last - 1];
    assert t in tokens;
    StrippedIs(head + t, |head| + Stripped(t));
  }

  lemma {:induction false} StrippedIs(t: string, n: nat)
    requires n <= |t| && (forall k :: n <= k < |t| ==> Space(t[k])) && (n > 0 ==> !Space(t[n - 1]))
    ensures Stripped(t) == n
  {
    if n < |t| {
      StrippedIs(t[..|t| - 1], n);
    }
  }

  /** So a span is where its words are exactly when the line starts with a word. */
  lemma SpansRightExactly(line: string, first: nat, last: nat)
    requires first < last <= |Tokens(line)|
    ensures var span := SpanFor(Tokens(line), first, last);
            span == Span(Leading(line) + span.start, Leading(line) + span.end) <==> line != "" && !Space(line[0])
  {
    assert Tokens(line) != [];
    assert Joined(Tokens(line)) == line[Leading(line)..];
    SpanInside(Tokens(line), first, last);
    OffsetsGrow(Tokens(line), first, last);
  }

  /** In an indented line the spans are off: here the word is "a", and what is marked is the space. */
  lemma IndentedLineIsMarkedWrongly()
    ensures var line := " a";
            Tokens(line) == ["a"] && SpanFor(Tokens(line), 0, 1) == Span(0, 1) && line[0..1] == " "
  {
    IndentedTokens();
    JoinedOne("", []);
    StrippedIs("a", 1);
  }

  lemma IndentedTokens()
    ensures Tokens(" a") == ["a"]
  {
    var line := " a";
    assert SpacesAt(line, 1) == 0;
    assert WordAt(line, 2) == 0 && SpacesAt(line, 2) == 0;
    assert TokensFrom(line, 2) == [] && line[1..2] == "a";
  }

  /** The words outside the changed stretches are the same words, in the same order, on both sides. */
  function Kept(tokens: seq<string>, ops: seq<Opcode>): seq<string>
    requires forall k :: 0 <= k < |ops| ==> ops[k].i1 <= ops[k].i2 <= |tokens|
  {
    if ops == [] then []
    else
      var op := ops[|ops| - 1];
      Kept(tokens, ops[..|ops| - 1]) + if op.tag.Same? then tokens[op.i1..op.i2] else []
  }

  function KeptAfter(tokens: seq<string>, ops: seq<Opcode>): seq<string>
    requires forall k :: 0 <= k < |ops| ==> ops[k].j1 <= ops[k].j2 <= |tokens|
  {
    if ops == [] then []
    else
      var op := ops[|ops| - 1];
      KeptAfter(tokens, ops[..|ops| - 1]) + if op.tag.Same? then tokens[op.j1..op.j2] else []
  }

  lemma {:induction false} OutsideSpansAgree(before: seq<string>, after: seq<string>, ops: seq<Opcode>, n: nat)
    requires Tiles(ops, before, after) && n <= |ops|
    requires forall k :: 0 <= k < |ops| ==> ops[k].i1 <= ops[k].i2 <= |before| && ops[k].j1 <= ops[k].j2 <= |after|
    ensures Kept(before, ops[..n]) == KeptAfter(after, ops[..n])
  {
    if n > 0 {
      OutsideSpansAgree(before, after, ops, n - 1);
      assert ops[..n][..n - 1] == ops[..n - 1];
      assert Tile(ops, n - 1, before, after);
    }
  }
}
