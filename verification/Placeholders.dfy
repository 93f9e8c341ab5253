/**
  The sidecar's `?` translator (sidecar/driverplugin/execute.go).

  Three views of one translation are related here:
    - `TranslatePlaceholders`, the byte loop with its quote flag, counter and lookaround;
    - `Positional`, which decides every position on its own, from the query alone;
    - `Scan`, a tokenizer by structural recursion, which carries the inductions.
*/
module Placeholders {
  import opened Common

  datatype Style = Question | Dollar | Colon | AtP

  /** What the translator emits: source text as it stands, or the n-th parameter marker. */
  datatype Token = Verbatim(text: string) | Numbered(index: nat)

  predicate IsBlank(c: char) {
    c == ' ' || c == '\t' || c == '\n' || c == '\r'
  }

  predicate IsIdentChar(c: char) {
    'a' <= c <= 'z' || 'A' <= c <= 'Z' || '0' <= c <= '9' || c == '_'
  }

  /** After such a character a lone `?` is read as an operator. */
  predicate EndsOperand(c: char) {
    IsIdentChar(c) || c == ')' || c == '\'' || c == ']'
  }

  // ---------------------------------------------------------------------
  // Markers
  // ---------------------------------------------------------------------

  function Decimal(n: nat): (s: string)
    ensures s != ""
    ensures forall i :: 0 <= i < |s| ==> '0' <= s[i] <= '9'
  {
    if n < 10 then ['0' + n as char] else Decimal(n / 10) + ['0' + (n % 10) as char]
  }

  function Marker(style: Style, n: nat): (s: string)
    ensures s != ""
    ensures style != Question ==> forall i :: 0 <= i < |s| ==> s[i] != '?' && s[i] != '\''
  {
    match style
    case Question => "?"
    case Dollar => "$" + Decimal(n)
    case Colon => ":" + Decimal(n)
    case AtP => "@p" + Decimal(n)
  }

  // ---------------------------------------------------------------------
  // Deciding one position from the query alone
  // ---------------------------------------------------------------------

  /** Last non-blank character before position i, or NUL when there is none. */
  function PrevNonBlank(q: string, i: nat): char
    requires i <= |q|
  {
    if i == 0 then '\0' else if IsBlank(q[i - 1]) then PrevNonBlank(q, i - 1) else q[i - 1]
  }

  /** Whether an odd number of quotes stands before position i. */
  predicate Quoted(q: string, i: nat)
    requires i <= |q|
  {
    i > 0 && if q[i - 1] == '\'' then !Quoted(q, i - 1) else Quoted(q, i - 1)
  }

  /** How many consecutive `?` stand right before position i. */
  function MarksBefore(q: string, i: nat): nat
    requires i <= |q|
  {
    if i == 0 || q[i - 1] != '?' then 0 else 1 + MarksBefore(q, i - 1)
  }

  predicate OperatorAhead(q: string, i: nat)
    requires i < |q|
  {
    i + 1 < |q| && (q[i + 1] == '?' || q[i + 1] == '|' || q[i + 1] == '&')
  }

  /** Position i of q is a parameter: an unquoted `?`, not the second half of a `??`,
      not the start of `??`, `?|` or `?&`, and not standing after an operand. */
  predicate NumberedAt(q: string, i: nat)
    requires i < |q|
  {
    && q[i] == '?'
    && !Quoted(q, i)
    && MarksBefore(q, i) % 2 == 0
    && !OperatorAhead(q, i)
    && !EndsOperand(PrevNonBlank(q, i))
  }

  function NumberedBefore(q: string, i: nat): nat
    requires i <= |q|
  {
    if i == 0 then 0 else NumberedBefore(q, i - 1) + if NumberedAt(q, i - 1) then 1 else 0
  }

  /** What position i contributes to the output. */
  function PieceAt(q: string, style: Style, i: nat): string
    requires i < |q|
  {
    if NumberedAt(q, i) then Marker(style, NumberedBefore(q, i) + 1) else [q[i]]
  }

  /** The translation of q[..i], position by position. */
  function Positional(q: string, style: Style, i: nat): string
    requires i <= |q|
  {
    if i == 0 then "" else Positional(q, style, i - 1) + PieceAt(q, style, i - 1)
  }

  /** A position the left-to-right scan can stop at: not the second half of an unquoted `??`. */
  predicate Aligned(q: string, i: nat)
    requires i <= |q|
  {
    i < |q| && q[i] == '?' && !Quoted(q, i) ==> MarksBefore(q, i) % 2 == 0
  }

  predicate PairAt(q: string, i: nat)
    requires i < |q|
  {
    q[i] == '?' && !Quoted(q, i) && i + 1 < |q| && q[i + 1] == '?'
  }

  /** Neither half of a `??` met by the scan is a parameter, and the scan resumes after it. */
  lemma PairStep(q: string, i: nat)
    requires i < |q| && Aligned(q, i) && PairAt(q, i)
    ensures !NumberedAt(q, i) && !NumberedAt(q, i + 1)
    ensures Aligned(q, i + 2) && !Quoted(q, i + 2) && PrevNonBlank(q, i + 2) == '?'
  {
    assert MarksBefore(q, i + 1) == MarksBefore(q, i) + 1;
    assert MarksBefore(q, i + 2) == MarksBefore(q, i) + 2;
  }

  /** Anywhere else the scan advances by one character. */
  lemma SingleStep(q: string, i: nat)
    requires i < |q| && Aligned(q, i) && !PairAt(q, i)
    ensures Aligned(q, i + 1)
    ensures NumberedAt(q, i) <==>
      q[i] == '?' && !Quoted(q, i) && !OperatorAhead(q, i) && !EndsOperand(PrevNonBlank(q, i))
  {
  }

  // ---------------------------------------------------------------------
  // The same from the text alone
  // ---------------------------------------------------------------------

  predicate IsDigits(s: string) {
    s != "" && forall i :: 0 <= i < |s| ==> '0' <= s[i] <= '9'
  }

  /** The number a string of digits denotes. */
  function DigitsValue(s: string): nat
    requires IsDigits(s)
  {
    (if |s| > 1 then 10 * DigitsValue(s[..|s| - 1]) else 0) + (s[|s| - 1] as int - '0' as int)
  }

  predicate Denotes(s: string, n: nat) {
    IsDigits(s) && DigitsValue(s) == n
  }

  lemma {:induction false} DecimalDenotes(n: nat)
    ensures Denotes(Decimal(n), n)
  {
    if n >= 10 {
      DecimalDenotes(n / 10);
      assert Decimal(n)[..|Decimal(n)| - 1] == Decimal(n / 10);
    }
  }

  /** What the drivers read as parameter n: `$n` PostgreSQL, `:n` Oracle, `@pn` SQL Server, `?` the rest. */
  predicate ReadsAs(text: string, style: Style, n: nat) {
    match style
    case Question => text == "?"
    case Dollar => |text| > 1 && text[0] == '$' && Denotes(text[1..], n)
    case Colon => |text| > 1 && text[0] == ':' && Denotes(text[1..], n)
    case AtP => |text| > 2 && text[0] == '@' && text[1] == 'p' && Denotes(text[2..], n)
  }

  lemma MarkerReads(style: Style, n: nat)
    ensures ReadsAs(Marker(style, n), style, n)
  {
    DecimalDenotes(n);
    var m, d := Marker(style, n), Decimal(n);
    match style
    case Question =>
    case Dollar => assert m[1..] == d;
    case Colon => assert m[1..] == d;
    case AtP => assert m[2..] == d;
  }

  lemma OneMorePiece(q: string, style: Style, i: nat)
    requires i < |q|
    ensures Positional(q, style, i + 1) == Positional(q, style, i) + PieceAt(q, style, i)
  {
    hide PieceAt;
  }

  lemma {:induction false} PositionalGrows(q: string, style: Style, i: nat, j: nat)
    requires i <= j <= |q|
    ensures Positional(q, style, i) <= Positional(q, style, j)
  {
    hide PieceAt;
    if i < j {
      PositionalGrows(q, style, i, j - 1);
      OneMorePiece(q, style, j - 1);
    }
  }

  /** Where the output for position i of the query starts. */
  function Offset(q: string, style: Style, i: nat): nat
    requires i <= |q|
  {
    |Positional(q, style, i)|
  }

  /** The output is the concatenation of what the positions contribute: for a parameter, text that the driver
      reads as its number, counted from 1; for any other position, the character itself. */
  predicate ReadsBack(result: string, q: string, style: Style, i: nat)
    requires i < |q|
  {
    var from, to := Offset(q, style, i), Offset(q, style, i + 1);
    && from <= to <= |result|
    && if NumberedAt(q, i) then ReadsAs(result[from..to], style, NumberedBefore(q, i) + 1)
       else result[from..to] == [q[i]]
  }

  lemma PositionReadsBack(q: string, style: Style, i: nat)
    requires i < |q|
    ensures ReadsBack(Positional(q, style, |q|), q, style, i)
    ensures Offset(q, style, 0) == 0 && Offset(q, style, |q|) == |Positional(q, style, |q|)|
  {
    hide Marker, NumberedAt, NumberedBefore;
    PositionalGrows(q, style, i, i + 1);
    PositionalGrows(q, style, i + 1, |q|);
    var out, from, to := Positional(q, style, |q|), Offset(q, style, i), Offset(q, style, i + 1);
    OneMorePiece(q, style, i);
    assert out[..to] == Positional(q, style, i + 1);
    assert out[from..to] == out[..to][from..] == PieceAt(q, style, i);
    if NumberedAt(q, i) {
      MarkerReads(style, NumberedBefore(q, i) + 1);
    }
  }

  /** The last character before position i that is no blank, spelled out. */
  ghost predicate LastBefore(q: string, i: nat, j: nat)
    requires i <= |q|
  {
    && j < i && q[j] !in {' ', '\t', '\n', '\r'}
    && forall m :: j < m < i ==> q[m] in {' ', '\t', '\n', '\r'}
  }

  lemma {:induction false} LastIsPrev(q: string, i: nat, j: nat)
    requires i <= |q| && LastBefore(q, i, j)
    ensures PrevNonBlank(q, i) == q[j]
  {
    if j < i - 1 {
      LastIsPrev(q, i - 1, j);
    }
  }

  lemma {:induction false} NoLast(q: string, i: nat)
    requires i <= |q| && forall m :: 0 <= m < i ==> q[m] in {' ', '\t', '\n', '\r'}
    ensures PrevNonBlank(q, i) == '\0'
  {
    if i > 0 {
      NoLast(q, i - 1);
    }
  }

  lemma {:induction false} QuotedIsOdd(q: string, i: nat)
    requires i <= |q|
    ensures Quoted(q, i) <==> multiset(q[..i])['\''] % 2 == 1
  {
    if i > 0 {
      assert q[..i] == q[..i - 1] + [q[i - 1]];
      QuotedIsOdd(q, i - 1);
    }
  }

  /** The run of `?` before i starts at j. */
  lemma {:induction false} MarksRun(q: string, i: nat, j: nat)
    requires j <= i <= |q| && (forall m :: j <= m < i ==> q[m] == '?') && (j > 0 ==> q[j - 1] != '?')
    ensures MarksBefore(q, i) == i - j
  {
    if j < i {
      MarksRun(q, i - 1, j);
    }
  }

  /** After this character a `?` is an operator: a letter, a digit, `_`, `)`, `'` or `]`. */
  predicate ClosesOperand(c: char) {
    || 'a' <= c <= 'z' || 'A' <= c <= 'Z' || '0' <= c <= '9'
    || c in {'_', ')', '\'', ']'}
  }

  /** Which `?` is a parameter, from the text alone: an even number of quotes stands before it, it is at an
      even place j, j + 2, ... of the run of `?` it belongs to, the character after it is not `?`, `|` or `&`,
      and the last character before it that is no blank, if any, does not close an operand. */
  lemma NumberedMeans(q: string, i: nat, j: nat)
    requires j <= i < |q| && q[i] == '?'
    requires (forall m :: j <= m < i ==> q[m] == '?') && (j > 0 ==> q[j - 1] != '?')
    ensures NumberedAt(q, i) <==>
      && multiset(q[..i])['\''] % 2 == 0
      && (i - j) % 2 == 0
      && (i + 1 < |q| ==> q[i + 1] !in {'?', '|', '&'})
      && (forall p :: 0 <= p < i && LastBefore(q, i, p) ==> !ClosesOperand(q[p]))
  {
    QuotedIsOdd(q, i);
    MarksRun(q, i, j);
    forall p | 0 <= p < i && LastBefore(q, i, p) ensures PrevNonBlank(q, i) == q[p] {
      LastIsPrev(q, i, p);
    }
    if forall p :: 0 <= p < i ==> !LastBefore(q, i, p) {
      NothingBefore(q, i, i);
      NoLast(q, i);
    }
  }

  lemma {:induction false} NothingBefore(q: string, i: nat, k: nat)
    requires k <= i <= |q| && forall p :: 0 <= p < i ==> !LastBefore(q, i, p)
    ensures forall m :: i - k <= m < i ==> q[m] in {' ', '\t', '\n', '\r'}
  {
    if k > 0 {
      NothingBefore(q, i, k - 1);
      assert !LastBefore(q, i, i - k);
    }
  }

  // ---------------------------------------------------------------------
  // The loop
  // ---------------------------------------------------------------------

  method PrevNonWhitespace(s: string, i: nat) returns (c: char)
    requires i <= |s|
    ensures c == PrevNonBlank(s, i)
  {
    var j := i;
    while j > 0
      invariant 0 <= j <= i
      invariant PrevNonBlank(s, i) == PrevNonBlank(s, j)
    {
      if !IsBlank(s[j - 1]) {
        return s[j - 1];
      }
      j := j - 1;
    }
    return '\0';
  }

  /** What one turn of the loop must add for an ordinary position. */
  lemma SingleTurn(q: string, style: Style, i: nat)
    requires i < |q|
    ensures Positional(q, style, i + 1)
         == Positional(q, style, i) + if NumberedAt(q, i) then Marker(style, NumberedBefore(q, i) + 1) else [q[i]]
    ensures NumberedBefore(q, i + 1) == NumberedBefore(q, i) + if NumberedAt(q, i) then 1 else 0
    ensures Quoted(q, i + 1) == if q[i] == '\'' then !Quoted(q, i) else Quoted(q, i)
  {
    hide NumberedAt, Marker, MarksBefore, PrevNonBlank;
    OneMorePiece(q, style, i);
  }

  lemma PairTurn(q: string, style: Style, i: nat)
    requires i < |q| && Aligned(q, i) && PairAt(q, i)
    ensures Positional(q, style, i + 2) == Positional(q, style, i) + "?" + "?"
    ensures NumberedBefore(q, i + 2) == NumberedBefore(q, i)
    ensures Quoted(q, i + 2) == Quoted(q, i) == false && Aligned(q, i + 2)
  {
    hide Quoted, MarksBefore, PrevNonBlank, NumberedAt;
    PairStep(q, i);
    assert Quoted(q, i) == false by { PairUnquoted(q, i); }
  }

  lemma PairUnquoted(q: string, i: nat)
    requires i < |q| && PairAt(q, i)
    ensures !Quoted(q, i)
  {
  }

  lemma StartOfScan(q: string, style: Style)
    ensures Positional(q, style, 0) == "" && NumberedBefore(q, 0) == 0 && !Quoted(q, 0) && Aligned(q, 0)
  {
  }

  /** The loop translates exactly the positions that `NumberedAt` names, in order,
      and its early exits agree with that. */
  method TranslatePlaceholders(query: string, style: Style) returns (result: string)
    ensures style == Question ==> result == query
    ensures style != Question ==> result == Positional(query, style, |query|)
    ensures style != Question ==> forall i :: 0 <= i < |query| ==> ReadsBack(result, query, style, i)
    ensures style != Question ==> Offset(query, style, 0) == 0 && Offset(query, style, |query|) == |result|
    ensures result == Translate(query, style)
  {
    AllReadBack(query, style);
    hide Positional, NumberedBefore, NumberedAt, Quoted, MarksBefore, PrevNonBlank, Aligned, Marker, Translate;
    QuestionKeeps(query);
    if style == Question {
      return query;
    }
    TranslateIsPositional(query, style);
    if '?' !in query {
      NoMarksNoChange(query, style, |query|);
      assert query[..|query|] == query;
      return query;
    }
    result := "";
    var inString := false;
    var paramIdx := 0;
    var i := 0;
    StartOfScan(query, style);
    while i < |query|
      invariant i <= |query|
      invariant inString == Quoted(query, i)
      invariant paramIdx == NumberedBefore(query, i)
      invariant Aligned(query, i)
      invariant result == Positional(query, style, i)
    {
      var ch := query[i];
      if ch == '?' && !inString && i + 1 < |query| && query[i + 1] == '?' {
        PairTurn(query, style, i);
        result := result + [ch];
        i := i + 1;
        result := result + "?";
        i := i + 1;
        continue;
      }
      SingleStep(query, i);
      SingleTurn(query, style, i);
      if ch == '\'' {
        inString := !inString;
        result := result + [ch];
      } else if ch == '?' && !inString {
        var isOperator := false;
        if i + 1 < |query| && (query[i + 1] == '|' || query[i + 1] == '&') {
          isOperator := true;
        } else {
          var prevCh := PrevNonWhitespace(query, i);
          isOperator := EndsOperand(prevCh);
        }
        if isOperator {
          result := result + [ch];
        } else {
          paramIdx := paramIdx + 1;
          result := result + Marker(style, paramIdx);
        }
      } else {
        result := result + [ch];
      }
      i := i + 1;
    }
  }

  lemma AllReadBack(q: string, style: Style)
    ensures forall i :: 0 <= i < |q| ==> ReadsBack(Positional(q, style, |q|), q, style, i)
    ensures Offset(q, style, 0) == 0 && Offset(q, style, |q|) == |Positional(q, style, |q|)|
  {
    hide Positional, NumberedAt, ReadsAs;
    forall i | 0 <= i < |q| ensures ReadsBack(Positional(q, style, |q|), q, style, i) {
      PositionReadsBack(q, style, i);
    }
    EmptyOffset(q, style);
  }

  lemma EmptyOffset(q: string, style: Style)
    ensures Offset(q, style, 0) == 0
  {
  }

  lemma QuestionKeeps(q: string)
    ensures Translate(q, Question) == q
  {
  }

  lemma {:induction false} NoMarksNoChange(q: string, style: Style, i: nat)
    requires '?' !in q && i <= |q|
    ensures Positional(q, style, i) == q[..i]
  {
    if i > 0 {
      NoMarksNoChange(q, style, i - 1);
      assert q[..i] == q[..i - 1] + [q[i - 1]];
    }
  }

  // ---------------------------------------------------------------------
  // The tokenizer
  // ---------------------------------------------------------------------

  /** Tokens of rest, given the quote flag, the last non-blank character already read
      and the number of markers already emitted. */
  function Scan(rest: string, inString: bool, prev: char, k: nat): seq<Token>
    decreases |rest|
  {
    if rest == "" then []
    else if rest[0] == '\'' then
      [Verbatim("'")] + Scan(rest[1..], !inString, '\'', k)
    else if rest[0] == '?' && !inString then
      if |rest| > 1 && rest[1] == '?' then [Verbatim("??")] + Scan(rest[2..], false, '?', k)
      else if OperatorAhead(rest, 0) || EndsOperand(prev) then
        [Verbatim("?")] + Scan(rest[1..], false, '?', k)
      else
        [Numbered(k + 1)] + Scan(rest[1..], false, '?', k + 1)
    else
      [Verbatim([rest[0]])] + Scan(rest[1..], inString, if IsBlank(rest[0]) then prev else rest[0], k)
  }

  function Tokens(q: string): seq<Token> { Scan(q, false, '\0', 0) }

  function Shown(style: Style, t: Token): string {
    match t
    case Verbatim(text) => text
    case Numbered(n) => Marker(style, n)
  }

  function Render(style: Style, ts: seq<Token>): string {
    if ts == [] then "" else Shown(style, ts[0]) + Render(style, ts[1..])
  }

  function Erase(ts: seq<Token>): string {
    if ts == [] then ""
    else (match ts[0] case Verbatim(text) => text case Numbered(_) => "?") + Erase(ts[1..])
  }

  function IndicesOf(t: Token): seq<nat> {
    match t case Verbatim(_) => [] case Numbered(n) => [n]
  }

  /** The marker numbers, left to right. */
  function Indices(ts: seq<Token>): seq<nat> {
    if ts == [] then []
    else IndicesOf(ts[0]) + Indices(ts[1..])
  }

  function Translate(q: string, style: Style): string {
    if style == Question then q else Render(style, Tokens(q))
  }

  /** The scan of q from position i, with the state the prefix q[..i] leaves behind. */
  function ScanFrom(q: string, i: nat): seq<Token>
    requires i <= |q|
  {
    Scan(q[i..], Quoted(q, i), PrevNonBlank(q, i), NumberedBefore(q, i))
  }

  lemma ScanFromPair(q: string, i: nat)
    requires i < |q| && Aligned(q, i) && PairAt(q, i)
    ensures ScanFrom(q, i) == [Verbatim("??")] + ScanFrom(q, i + 2)
  {
    PairStep(q, i);
    assert q[i..][2..] == q[i + 2..];
    assert NumberedBefore(q, i + 1) == NumberedBefore(q, i);
  }

  lemma ScanFromSingle(q: string, i: nat)
    requires i < |q| && Aligned(q, i) && !PairAt(q, i)
    ensures ScanFrom(q, i) ==
      [if NumberedAt(q, i) then Numbered(NumberedBefore(q, i) + 1) else Verbatim([q[i]])] + ScanFrom(q, i + 1)
  {
    SingleStep(q, i);
    var rest := q[i..];
    assert rest[1..] == q[i + 1..];
    assert rest[0] == q[i];
    assert OperatorAhead(rest, 0) == OperatorAhead(q, i);
  }

  /** From every aligned position, rendering the rest of the scan completes the translation. */
  lemma {:induction false} ScanIsPositional(q: string, style: Style, i: nat)
    requires i <= |q| && Aligned(q, i)
    ensures Positional(q, style, i) + Render(style, ScanFrom(q, i)) == Positional(q, style, |q|)
    decreases |q| - i
  {
    hide ScanFrom, Quoted, PrevNonBlank, MarksBefore, NumberedBefore, Marker, NumberedAt, Render, Positional, Aligned;
    if i == |q| {
      ScanFromEnd(q);
      NothingRendered(style);
      assert Positional(q, style, i) + "" == Positional(q, style, i);
    } else if PairAt(q, i) {
      PairStep(q, i);
      ScanFromPair(q, i);
      ScanIsPositional(q, style, i + 2);
      PairPieces(q, style, i);
      ConsToken(style, Verbatim("??"), ScanFrom(q, i + 2));
      Assoc(Positional(q, style, i), "??", Render(style, ScanFrom(q, i + 2)));
    } else {
      SingleStep(q, i);
      ScanFromSingle(q, i);
      ScanIsPositional(q, style, i + 1);
      SingleTurn(q, style, i);
      var t := if NumberedAt(q, i) then Numbered(NumberedBefore(q, i) + 1) else Verbatim([q[i]]);
      ConsToken(style, t, ScanFrom(q, i + 1));
      Assoc(Positional(q, style, i), Shown(style, t), Render(style, ScanFrom(q, i + 1)));
    }
  }

  lemma NothingRendered(style: Style)
    ensures Render(style, []) == ""
  {
  }

  lemma PairPieces(q: string, style: Style, i: nat)
    requires i + 1 < |q| && q[i] == '?' && q[i + 1] == '?' && !NumberedAt(q, i) && !NumberedAt(q, i + 1)
    ensures Positional(q, style, i + 2) == Positional(q, style, i) + "??"
  {
    assert Positional(q, style, i + 2) == Positional(q, style, i + 1) + "?";
    Assoc(Positional(q, style, i), "?", "?");
    assert "?" + "?" == "??";
  }

  lemma ScanFromEnd(q: string)
    ensures ScanFrom(q, |q|) == []
  {
  }

  /** The tokenizer and the position-by-position reading translate every query alike. */
  lemma TranslateIsPositional(q: string, style: Style)
    requires style != Question
    ensures Translate(q, style) == Positional(q, style, |q|)
  {
    ScanIsPositional(q, style, 0);
    assert q[0..] == q;
  }

  /** Forgetting the numbers gives back the query, character for character. */
  lemma {:induction false} EraseScan(rest: string, inString: bool, prev: char, k: nat)
    ensures Erase(Scan(rest, inString, prev, k)) == rest
    decreases |rest|
  {
    if rest != "" {
      if rest[0] == '?' && !inString && |rest| > 1 && rest[1] == '?' {
        EraseScan(rest[2..], false, '?', k);
        assert rest == "??" + rest[2..];
      } else {
        var ts := Scan(rest, inString, prev, k);
        if rest[0] == '\'' {
          EraseScan(rest[1..], !inString, '\'', k);
        } else if rest[0] == '?' && !inString {
          EraseScan(rest[1..], false, '?', if ts[0].Numbered? then k + 1 else k);
        } else {
          EraseScan(rest[1..], inString, if IsBlank(rest[0]) then prev else rest[0], k);
        }
        assert rest == [rest[0]] + rest[1..];
      }
    }
  }

  /** Markers are numbered k+1, k+2, ... left to right without gaps. */
  lemma {:induction false} IndicesConsecutive(rest: string, inString: bool, prev: char, k: nat, j: nat)
    requires j < |Indices(Scan(rest, inString, prev, k))|
    ensures Indices(Scan(rest, inString, prev, k))[j] == k + 1 + j
    decreases |rest|
  {
    if rest[0] == '\'' {
      IndicesConsecutive(rest[1..], !inString, '\'', k, j);
    } else if rest[0] == '?' && !inString {
      if |rest| > 1 && rest[1] == '?' {
        IndicesConsecutive(rest[2..], false, '?', k, j);
      } else if OperatorAhead(rest, 0) || EndsOperand(prev) {
        IndicesConsecutive(rest[1..], false, '?', k, j);
      } else if j > 0 {
        IndicesConsecutive(rest[1..], false, '?', k + 1, j - 1);
      }
    } else {
      IndicesConsecutive(rest[1..], inString, if IsBlank(rest[0]) then prev else rest[0], k, j);
    }
  }

  /** As many markers as there are positions `NumberedAt` names. */
  lemma {:induction false} IndicesCounted(q: string, i: nat)
    requires i <= |q| && Aligned(q, i)
    ensures NumberedBefore(q, i) + |Indices(ScanFrom(q, i))| == NumberedBefore(q, |q|)
    decreases |q| - i
  {
    if i < |q| {
      if PairAt(q, i) {
        PairStep(q, i);
        ScanFromPair(q, i);
        IndicesCounted(q, i + 2);
        assert NumberedBefore(q, i + 1) == NumberedBefore(q, i);
      } else {
        SingleStep(q, i);
        ScanFromSingle(q, i);
        IndicesCounted(q, i + 1);
      }
    }
  }

  /** Without numbered tokens nothing is rewritten. */
  lemma {:induction false} RenderUnnumbered(style: Style, ts: seq<Token>)
    requires Indices(ts) == []
    ensures Render(style, ts) == Erase(ts)
  {
    if ts != [] {
      RenderUnnumbered(style, ts[1..]);
    }
  }

  // ---------------------------------------------------------------------
  // Translating twice
  // ---------------------------------------------------------------------

  /** Text copied token by token. */
  function Copied(p: string): (ts: seq<Token>)
    ensures Erase(ts) == p
    ensures Indices(ts) == []
  {
    if p == "" then [] else [Verbatim([p[0]])] + Copied(p[1..])
  }

  /** The last non-blank character once p has been read. */
  function Carry(p: string, prev: char): char {
    if p == "" then prev else Carry(p[1..], if IsBlank(p[0]) then prev else p[0])
  }

  /** Text without `?` and without quotes passes through the scanner. */
  lemma {:induction false} ScanPlain(p: string, rest: string, inString: bool, prev: char, k: nat)
    requires forall i :: 0 <= i < |p| ==> p[i] != '?' && p[i] != '\''
    ensures Scan(p + rest, inString, prev, k) == Copied(p) + Scan(rest, inString, Carry(p, prev), k)
  {
    if p == "" {
      assert p + rest == rest;
    } else {
      var prev' := if IsBlank(p[0]) then prev else p[0];
      assert (p + rest)[0] == p[0] && (p + rest)[1..] == p[1..] + rest;
      ScanPlain(p[1..], rest, inString, prev', k);
      Assoc([Verbatim([p[0]])], Copied(p[1..]), Scan(rest, inString, Carry(p[1..], prev'), k));
    }
  }

  lemma {:induction false} IndicesAppend(a: seq<Token>, b: seq<Token>)
    ensures Indices(a + b) == Indices(a) + Indices(b)
  {
    if a == [] {
      assert a + b == b;
    } else {
      assert (a + b)[0] == a[0] && (a + b)[1..] == a[1..] + b;
      IndicesAppend(a[1..], b);
      Assoc(IndicesOf(a[0]), Indices(a[1..]), Indices(b));
    }
  }

  function Output(style: Style, rest: string, inString: bool, prev: char, k: nat): string {
    Render(style, Scan(rest, inString, prev, k))
  }

  /** A character other than `?` is still the first one after translation, and nothing stays nothing. */
  lemma OutputHead(style: Style, rest: string, inString: bool, prev: char, k: nat)
    ensures rest == "" ==> Output(style, rest, inString, prev, k) == ""
    ensures rest != "" && rest[0] != '?' ==>
      Output(style, rest, inString, prev, k) != "" && Output(style, rest, inString, prev, k)[0] == rest[0]
  {
  }

  /** The scanner's quote flag and last character after one more character. */
  function Flag(c: char, inString: bool): bool { if c == '\'' then !inString else inString }

  function LastChar(c: char, prev: char): char { if IsBlank(c) then prev else c }

  lemma ScanOther(c: char, tail: string, inString: bool, prev: char, k: nat)
    requires c != '?' || inString
    ensures Scan([c] + tail, inString, prev, k) == [Verbatim([c])] + Scan(tail, Flag(c, inString), LastChar(c, prev), k)
  {
    assert ([c] + tail)[1..] == tail;
  }

  lemma ScanPair(tail: string, prev: char, k: nat)
    ensures Scan("??" + tail, false, prev, k) == [Verbatim("??")] + Scan(tail, false, '?', k)
  {
    assert ("??" + tail)[2..] == tail;
  }

  predicate KeepsMark(tail: string, prev: char) {
    (tail != "" && (tail[0] == '|' || tail[0] == '&')) || EndsOperand(prev)
  }

  lemma ScanLone(tail: string, prev: char, k: nat)
    requires tail == "" || tail[0] != '?'
    ensures Scan("?" + tail, false, prev, k) ==
      if KeepsMark(tail, prev) then [Verbatim("?")] + Scan(tail, false, '?', k)
      else [Numbered(k + 1)] + Scan(tail, false, '?', k + 1)
  {
    assert ("?" + tail)[1..] == tail;
  }

  lemma ConsToken(style: Style, t: Token, ts: seq<Token>)
    ensures Render(style, [t] + ts) == Shown(style, t) + Render(style, ts)
    ensures Indices([t] + ts) == IndicesOf(t) + Indices(ts)
  {
  }

  /** A second scan over translated text numbers nothing: each `?` the first scan kept is kept again.
      It may start after other text, so long as an operand then still ends in an operand. */
  lemma {:induction false} SecondScan(style: Style, rest: string, inString: bool, prev: char, k: nat, prev2: char,
          k2: nat)
    requires EndsOperand(prev) ==> EndsOperand(prev2)
    requires style != Question
    ensures Indices(Scan(Output(style, rest, inString, prev, k), inString, prev2, k2)) == []
    decreases |rest|
  {
    hide Scan, Render, Indices, Marker;
    if rest == "" {
      NothingTwice(style, inString, prev, k, prev2, k2);
    } else if rest[0] != '?' || inString {
      var c, tail := rest[0], rest[1..];
      assert rest == [c] + tail;
      var flag, last := Flag(c, inString), LastChar(c, prev);
      SecondScan(style, tail, flag, last, k, LastChar(c, prev2), k2);
      ScanOther(c, tail, inString, prev, k);
      ConsToken(style, Verbatim([c]), Scan(tail, flag, last, k));
      var more := Output(style, tail, flag, last, k);
      ScanOther(c, more, inString, prev2, k2);
      ConsToken(style, Verbatim([c]), Scan(more, flag, LastChar(c, prev2), k2));
    } else if |rest| > 1 && rest[1] == '?' {
      var tail := rest[2..];
      assert rest == "??" + tail;
      SecondScan(style, tail, false, '?', k, '?', k2);
      ScanPair(tail, prev, k);
      ConsToken(style, Verbatim("??"), Scan(tail, false, '?', k));
      var more := Output(style, tail, false, '?', k);
      ScanPair(more, prev2, k2);
      ConsToken(style, Verbatim("??"), Scan(more, false, '?', k2));
    } else {
      assert rest == "?" + rest[1..];
      SecondLone(style, rest[1..], prev, k, prev2, k2);
      if KeepsMark(rest[1..], prev) {
        SecondScan(style, rest[1..], false, '?', k, '?', k2);
      } else {
        var mark := Marker(style, k + 1);
        SecondScan(style, rest[1..], false, '?', k + 1, Carry(mark, prev2), k2);
      }
    }
  }

  lemma NothingTwice(style: Style, inString: bool, prev: char, k: nat, prev2: char, k2: nat)
    ensures Indices(Scan(Output(style, "", inString, prev, k), inString, prev2, k2)) == []
  {
  }

  /** A lone `?` outside quotes: kept, it is kept again; numbered, its marker is passed over. */
  lemma SecondLone(style: Style, tail: string, prev: char, k: nat, prev2: char, k2: nat)
    requires (EndsOperand(prev) ==> EndsOperand(prev2)) && style != Question
    requires tail == "" || tail[0] != '?'
    ensures Indices(Scan(Output(style, "?" + tail, false, prev, k), false, prev2, k2)) ==
      if KeepsMark(tail, prev) then Indices(Scan(Output(style, tail, false, '?', k), false, '?', k2))
      else Indices(Scan(Output(style, tail, false, '?', k + 1), false, Carry(Marker(style, k + 1), prev2), k2))
  {
    hide Scan, Render, Indices, Marker;
    ScanLone(tail, prev, k);
    if KeepsMark(tail, prev) {
      var more := Output(style, tail, false, '?', k);
      OutputHead(style, tail, false, '?', k);
      ConsToken(style, Verbatim("?"), Scan(tail, false, '?', k));
      ScanLone(more, prev2, k2);
      ConsToken(style, Verbatim("?"), Scan(more, false, '?', k2));
    } else {
      var mark, more := Marker(style, k + 1), Output(style, tail, false, '?', k + 1);
      ConsToken(style, Numbered(k + 1), Scan(tail, false, '?', k + 1));
      ScanPlain(mark, more, false, prev2, k2);
      IndicesAppend(Copied(mark), Scan(more, false, Carry(mark, prev2), k2));
    }
  }

  /** The explain path translates the query, puts `EXPLAIN ...` in front and translates again:
      the second pass leaves it as it is, for every query, style and quote-free, `?`-free prefix. */
  lemma TranslateTwice(p: string, q: string, style: Style)
    requires forall i :: 0 <= i < |p| ==> p[i] != '?' && p[i] != '\''
    ensures Translate(p + Translate(q, style), style) == p + Translate(q, style)
  {
    if style == Question {
      return;
    }
    var once := Translate(q, style);
    ScanPlain(p, once, false, '\0', 0);
    SecondScan(style, q, false, '\0', 0, Carry(p, '\0'), 0);
    IndicesAppend(Copied(p), Scan(once, false, Carry(p, '\0'), 0));
    RenderUnnumbered(style, Tokens(p + once));
    EraseScan(p + once, false, '\0', 0);
  }

  /** The texts `handleExplain` has executed off SQL Server: the first attempt and its fallback. */
  method ExplainTexts(query: string, style: Style, analyze: bool) returns (first: string, fallback: string)
    ensures first == "EXPLAIN QUERY PLAN " + Translate(query, style)
    ensures fallback == (if analyze then "EXPLAIN ANALYZE " else "EXPLAIN ") + Translate(query, style)
  {
    hide Translate, Positional;
    var translated := TranslatePlaceholders(query, style);
    TranslateTwice("EXPLAIN QUERY PLAN ", query, style);
    first := TranslatePlaceholders("EXPLAIN QUERY PLAN " + translated, style);
    var prefix := if analyze then "EXPLAIN ANALYZE " else "EXPLAIN ";
    TranslateTwice(prefix, query, style);
    fallback := TranslatePlaceholders(prefix + translated, style);
  }
}
