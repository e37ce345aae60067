/** What a diff's rows and word marks say, character by character. */
module DiffEffects {
  import opened Common
  import opened WordSpans
  import opened DocumentDiff
  import opened DiffCollapse

  // ---------------------------------------------------------------- words

  ghost predicate White(c: char) {
    c == ' ' || c == '\t' || c == '\n' || c == '\r'
  }

  ghost predicate AllWhite(s: string, from: int, to: int) {
    0 <= from <= to <= |s| && forall i :: from <= i < to ==> White(s[i])
  }

  /** A word of at least one character, then nothing but white space. */
  ghost predicate WordAndSpaces(t: string) {
    exists n :: 0 < n <= |t| && (forall i :: 0 <= i < n ==> !White(t[i])) && AllWhite(t, n, |t|)
  }

  ghost predicate AllWords(tokens: seq<string>) {
    forall t :: t in tokens ==> WordAndSpaces(t)
  }

  /** Where the token that starts at i ends. */
  function TokenEnd(s: string, i: nat): nat
    requires i <= |s|
  {
    i + WordAt(s, i) + SpacesAt(s, i + WordAt(s, i))
  }

  lemma FirstToken(s: string, i: nat)
    requires i < |s| && !White(s[i])
    ensures i < TokenEnd(s, i) <= |s| && (TokenEnd(s, i) < |s| ==> !White(s[TokenEnd(s, i)]))
    ensures TokensFrom(s, i) == [s[i..TokenEnd(s, i)]] + TokensFrom(s, TokenEnd(s, i))
  {
  }

  lemma FirstIsWord(s: string, i: nat)
    requires i < |s| && !White(s[i])
    ensures i < TokenEnd(s, i) <= |s| && WordAndSpaces(s[i..TokenEnd(s, i)])
  {
    OneToken(s, i, WordAt(s, i), SpacesAt(s, i + WordAt(s, i)));
  }

  lemma {:induction false} TokensFromAre(s: string, i: nat)
    requires i <= |s| && (i < |s| ==> !White(s[i]))
    ensures AllWords(TokensFrom(s, i))
    decreases |s| - i
  {
    if i < |s| {
      var next := TokenEnd(s, i);
      FirstToken(s, i);
      FirstIsWord(s, i);
      TokensFromAre(s, next);
      FirstAndRest(s[i..next], TokensFrom(s, next));
    }
  }

  lemma FirstAndRest(t: string, rest: seq<string>)
    requires WordAndSpaces(t) && AllWords(rest)
    ensures AllWords([t] + rest)
  {
  }

  lemma OneToken(s: string, i: nat, word: nat, spaces: nat)
    requires 0 < word && i + word + spaces <= |s| && forall k :: i <= k < i + word ==> !White(s[k])
    requires forall k :: i + word <= k < i + word + spaces ==> White(s[k])
    ensures WordAndSpaces(s[i..i + word + spaces])
  {
    var t := s[i..i + word + spaces];
    assert AllWhite(t, word, |t|) && forall k :: 0 <= k < word ==> !White(t[k]);
  }

  /** The words of a line, each with the spaces after it, are the line without its leading spaces. */
  lemma TokensAreWords(s: string)
    ensures AllWords(Tokens(s))
    ensures AllWhite(s, 0, Leading(s)) && Joined(Tokens(s)) == s[Leading(s)..]
  {
    TokensFromAre(s, Leading(s));
  }

  /** The mark of the words first to last of a text: from the first character of the first to the last
      character of the last. */
  ghost predicate MarksWords(tokens: seq<string>, first: nat, last: nat, span: Span)
    requires first < last <= |tokens|
  {
    var text := Joined(tokens);
    && span.start == |Joined(tokens[..first])| && span.start < span.end <= |Joined(tokens[..last])| <= |text|
    && !White(text[span.end - 1]) && AllWhite(text, span.end, |Joined(tokens[..last])|)
  }

  lemma SpanMarks(tokens: seq<string>, first: nat, last: nat)
    requires first < last <= |tokens| && forall t :: t in tokens ==> t != "" && !White(t[0])
    ensures MarksWords(tokens, first, last, SpanFor(tokens, first, last))
  {
    var words := Joined(tokens[first..last]);
    SpanInside(tokens, first, last);
    SpanIs(tokens, first, last);
    OffsetsGrow(tokens, first, last);
    WordsEndBefore(Joined(tokens), Offset(tokens, first), Offset(tokens, last), words, Stripped(words));
  }

  lemma WordsEndBefore(text: string, a: nat, b: nat, words: string, n: nat)
    requires a <= b <= |text| && text[a..b] == words && 0 < n <= |words|
    requires !White(words[n - 1]) && forall k :: n <= k < |words| ==> White(words[k])
    ensures !White(text[a + n - 1]) && AllWhite(text, a + n, b)
  {
    forall i | a + n <= i < b
      ensures White(text[i])
    {
      assert text[i] == words[i - a];
    }
    assert text[a + n - 1] == words[n - 1];
  }

  /** The marks of a side are those of the stretches the matcher says changed, where they have words. */
  lemma {:induction false} OldSpansAre(tokens: seq<string>, ops: seq<Opcode>, s: Span)
    requires forall k :: 0 <= k < |ops| ==> ops[k].i2 <= |tokens|
    ensures s in OldSpans(tokens, ops) <==>
            exists op :: op in ops && op.tag != Same && op.i1 < op.i2 && s == SpanFor(tokens, op.i1, op.i2)
  {
    if ops != [] {
      var init, op := ops[..|ops| - 1], ops[|ops| - 1];
      OldSpansAre(tokens, init, s);
      assert ops == init + [op];
    }
  }

  lemma {:induction false} NewSpansAre(tokens: seq<string>, ops: seq<Opcode>, s: Span)
    requires forall k :: 0 <= k < |ops| ==> ops[k].j2 <= |tokens|
    ensures s in NewSpans(tokens, ops) <==>
            exists op :: op in ops && op.tag != Same && op.j1 < op.j2 && s == SpanFor(tokens, op.j1, op.j2)
  {
    if ops != [] {
      var init, op := ops[..|ops| - 1], ops[|ops| - 1];
      NewSpansAre(tokens, init, s);
      assert ops == init + [op];
    }
  }

  /** What the marks of the old and the new line are, for any two lines. */
  lemma LineSpansMark(before: string, after: string, matcher: Matcher, op: Opcode)
    requires ValidMatcher(matcher) && op in matcher(Tokens(before), Tokens(after)) && op.tag != Same
    ensures op.i2 <= |Tokens(before)| && op.j2 <= |Tokens(after)|
    ensures op.i1 < op.i2 ==>
              exists s :: s in LineSpans(before, after, matcher).0 && MarksWords(Tokens(before), op.i1, op.i2, s)
    ensures op.j1 < op.j2 ==>
              exists s :: s in LineSpans(before, after, matcher).1 && MarksWords(Tokens(after), op.j1, op.j2, s)
  {
    var ops := matcher(Tokens(before), Tokens(after));
    TilesInBounds(ops, Tokens(before), Tokens(after));
    if op.i1 < op.i2 {
      OldSpansAre(Tokens(before), ops, SpanFor(Tokens(before), op.i1, op.i2));
      SpanMarks(Tokens(before), op.i1, op.i2);
    }
    if op.j1 < op.j2 {
      NewSpansAre(Tokens(after), ops, SpanFor(Tokens(after), op.j1, op.j2));
      SpanMarks(Tokens(after), op.j1, op.j2);
    }
  }

  /** And no mark is of anything else. */
  lemma OnlyChangesAreMarked(before: string, after: string, matcher: Matcher, s: Span)
    requires ValidMatcher(matcher)
    ensures s in LineSpans(before, after, matcher).0 ==> exists op ::
              op in matcher(Tokens(before), Tokens(after)) && op.tag != Same
                && op.i1 < op.i2 <= |Tokens(before)| && s == SpanFor(Tokens(before), op.i1, op.i2)
    ensures s in LineSpans(before, after, matcher).1 ==> exists op ::
              op in matcher(Tokens(before), Tokens(after)) && op.tag != Same
                && op.j1 < op.j2 <= |Tokens(after)| && s == SpanFor(Tokens(after), op.j1, op.j2)
  {
    var ops := matcher(Tokens(before), Tokens(after));
    TilesInBounds(ops, Tokens(before), Tokens(after));
    OldSpansAre(Tokens(before), ops, s);
    NewSpansAre(Tokens(after), ops, s);
  }

  // ---------------------------------------------------------------- rows

  /** A row of an opcode, by the lines it is about: the same on both sides, changed, gone or come. */
  ghost predicate RowSays(op: Opcode, before: Lines, after: Lines, matcher: Matcher, k: nat, r: DiffRow)
    requires ValidMatcher(matcher)
  {
    var a, b := op.i1 + k, op.j1 + k;
    var gone, come := a < op.i2 && a < |before|, b < op.j2 && b < |after|;
    if op.tag == Same then
      && gone && come && before[a] == after[b]
      && r == DiffRow(Equal, Some(a + 1), Some(b + 1), Some(before[a]), Some(after[b]), [], [], 0)
    else if gone && come then
      r == DiffRow(Replace, Some(a + 1), Some(b + 1), Some(before[a]), Some(after[b]),
                   LineSpans(before[a], after[b], matcher).0, LineSpans(before[a], after[b], matcher).1, 0)
    else if gone then r == DiffRow(Delete, Some(a + 1), None, Some(before[a]), None, [], [], 0)
    else come && r == DiffRow(Insert, None, Some(b + 1), None, Some(after[b]), [], [], 0)
  }

  lemma OpRowSays(op: Opcode, before: Lines, after: Lines, matcher: Matcher, k: nat)
    requires ValidMatcher(matcher) && OpFits(op, before, after) && k < RowCount(op)
    ensures RowSays(op, before, after, matcher, k, OpRow(op, before, after, MarkerBy(matcher), k))
  {
    if op.tag.Same? {
      assert before[op.i1..op.i2][k] == after[op.j1..op.j2][k];
    }
  }

  ghost predicate SaidBy(ops: seq<Opcode>, before: Lines, after: Lines, matcher: Matcher, r: DiffRow)
    requires ValidMatcher(matcher)
  {
    exists op, k: nat :: op in ops && RowSays(op, before, after, matcher, k, r)
  }

  /** Every row of a diff is what one of the matcher's opcodes says of its lines: in particular an unchanged
      row is of lines that are the same, and any other of lines the matcher found changed. */
  lemma {:induction false} RowsSay(ops: seq<Opcode>, before: Lines, after: Lines, matcher: Matcher, r: DiffRow)
    requires ValidMatcher(matcher) && OpsFit(ops, before, after)
    requires r in AllRows(ops, before, after, MarkerBy(matcher))
    ensures SaidBy(ops, before, after, matcher, r)
  {
    var init, op := ops[..|ops| - 1], ops[|ops| - 1];
    if r in AllRows(init, before, after, MarkerBy(matcher)) {
      RowsSay(init, before, after, matcher, r);
      var q, k: nat :| q in init && RowSays(q, before, after, matcher, k, r);
      assert q in ops;
    } else {
      var rows := OpRows(op, before, after, MarkerBy(matcher));
      var k: nat :| k < |rows| && rows[k] == r;
      OpRowSays(op, before, after, matcher, k);
      assert op in ops;
    }
  }

  /** Bodies that are the same have nothing but unchanged rows. */
  lemma NothingChanged(body: Lines, matcher: Matcher, r: DiffRow)
    requires ValidMatcher(matcher) && r in FullRows(body, body, matcher)
    ensures r.op == Equal
  {
    var rows := FullRows(body, body, matcher);
    var k: nat :| k < |rows| && rows[k] == r;
    assert rows == EqualRun(body, body, 0, 0, |body|);
    assert rows[k] == EqualRow(body, body, 0 + k, 0 + k);
  }

  /** Asked for a negative context, a diff puts nothing away. */
  lemma NegativeContextShowsAll(rows: Rows, context: int)
    requires context < 0
    ensures Collapsed(rows, context) == rows
  {
  }
}
