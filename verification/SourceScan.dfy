/** Scanning C code from which comments, literals and line splices are already removed:
    brace matching, the interval a condition controls, brace depth, and the check that no
    forward jump bypasses an interval. */
module SourceScan {

  function Weight(c: char): int {
    if c == '{' then 1 else if c == '}' then -1 else 0
  }

  /** braces opened minus braces closed between two offsets. */
  function Depth(code: string, i: nat, j: nat): int
    requires i <= j <= |code|
    decreases j
  {
    if i == j then 0 else Depth(code, i, j - 1) + Weight(code[j - 1])
  }

  /** The block of the brace at `open` ends before `end`, and not earlier. */
  ghost predicate Block(code: string, open: nat, end: nat) {
    && open < end <= |code| && code[open] == '{' && Depth(code, open, end) == 0
    && forall k | open < k < end :: Depth(code, open, k) > 0
  }

  lemma {:induction false} DepthSplits(code: string, i: nat, j: nat, k: nat)
    requires i <= j <= k <= |code|
    ensures Depth(code, i, k) == Depth(code, i, j) + Depth(code, j, k)
    decreases k
  {
    if j == k {
    } else {
      DepthSplits(code, i, j, k - 1);
    }
  }

  lemma {:induction false} DepthLocal(code: string, other: string, i: nat, j: nat, shift: nat)
    requires i <= j <= |code| && j + shift <= |other|
    requires forall k | i <= k < j :: other[k + shift] == code[k]
    ensures Depth(other, i + shift, j + shift) == Depth(code, i, j)
    decreases j
  {
    if i == j {
    } else {
      DepthLocal(code, other, i, j - 1, shift);
      assert other[(j - 1) + shift] == code[j - 1];
    }
  }

  /** Depths inside a part, seen from before it. */
  lemma DepthOfPart(code: string, open: nat, i: nat, j: nat, k: nat)
    requires open <= i <= j <= |code| && k <= j - i
    ensures Depth(code, open, i + k) == Depth(code, open, i) + Depth(code[i..j], 0, k)
  {
    DepthSplits(code, open, i, i + k);
    DepthLocal(code[i..j], code, 0, k, i);
  }

  lemma DepthOfTail(code: string, open: nat, i: nat, k: nat)
    requires open <= i <= |code| && k <= |code| - i
    ensures Depth(code, open, i + k) == Depth(code, open, i) + Depth(code[i..], 0, k)
  {
    DepthOfPart(code, open, i, |code|, k);
    assert code[i..|code|] == code[i..];
  }

  // ---- the scanners ----

  datatype Found = At(offset: nat) | Missing

  function Find(code: string, c: char, start: nat): (r: Found)
    ensures r.At? ==> start <= r.offset < |code| && code[r.offset] == c && c !in code[start..r.offset]
    ensures r.Missing? ==> start >= |code| || c !in code[start..]
    decreases |code| - start
  {
    if start >= |code| then Missing
    else if code[start] == c then
      assert code[start..start] == [];
      At(start)
    else
      var r := Find(code, c, start + 1);
      assert code[start..] == [code[start]] + code[start + 1..];
      assert r.At? ==> code[start..r.offset] == [code[start]] + code[start + 1..r.offset];
      r
  }

  /** The loop over a block's characters: the only end of the block opened at `open`. */
  method BlockEnd(code: string, open: nat) returns (r: Found)
    requires open < |code| && code[open] == '{'
    ensures forall end: nat :: Block(code, open, end) <==> r == At(end)
  {
    var depth := 0;
    for offset := open to |code|
      invariant depth == Depth(code, open, offset)
      invariant offset == open || depth > 0
      invariant forall k | open < k <= offset :: Depth(code, open, k) > 0
    {
      if code[offset] == '{' {
        depth := depth + 1;
      } else if code[offset] == '}' {
        depth := depth - 1;
        if depth == 0 {
          assert Block(code, open, offset + 1);
          forall end: nat | Block(code, open, end) ensures end == offset + 1 {
            BlockIsUnique(code, open, end, offset + 1);
          }
          return At(offset + 1);
        }
        if depth < 0 { break; }
      }
    }
    r := Missing;
  }

  datatype Interval = Interval(start: nat, end: nat) | NoInterval

  /** The characters the scripts' language counts as white space. */
  predicate IsSpace(c: char) {
    var n := c as int;
    || 9 <= n <= 13 || 28 <= n <= 32 || n == 0x85 || n == 0xa0 || n == 0x1680 || 0x2000 <= n <= 0x200a
    || n == 0x2028 || n == 0x2029 || n == 0x202f || n == 0x205f || n == 0x3000
  }

  /** Among the ASCII characters these are the blank, the controls from tab to carriage return,
      and the four separators; every printing character is none. */
  lemma AsciiSpaces(c: char)
    requires c as int < 128
    ensures IsSpace(c) <==> c in {' ', '\t', '\n', '\r', '\U{0b}', '\U{0c}', '\U{1c}', '\U{1d}', '\U{1e}', '\U{1f}'}
  {
  }

  /** Beyond ASCII, in the order of their code points. */
  lemma WideSpaces(c: char)
    requires c as int >= 128
    ensures IsSpace(c) <==>
              c in {'\U{85}', '\U{a0}', '\U{1680}', '\U{2000}', '\U{2001}', '\U{2002}', '\U{2003}', '\U{2004}',
                    '\U{2005}', '\U{2006}', '\U{2007}', '\U{2008}', '\U{2009}', '\U{200a}', '\U{2028}', '\U{2029}',
                    '\U{202f}', '\U{205f}', '\U{3000}'}
  {
  }

  /** The function whose definition begins at `definition`, through its closing brace. */
  method FunctionCode(code: string, definition: nat) returns (r: Interval)
    requires definition <= |code|
    ensures r.Interval? ==>
              var open := Find(code, '{', definition);
              && open.At? && r.start == definition && Block(code, open.offset, r.end)
              && ';' !in code[definition..open.offset]
    ensures r.NoInterval? ==>
              var open := Find(code, '{', definition);
              open.Missing? || ';' in code[definition..open.offset] || forall end :: !Block(code, open.offset, end)
  {
    var opening, semicolon := Find(code, '{', definition), Find(code, ';', definition);
    if opening.Missing? { return NoInterval; }
    if semicolon.At? && semicolon.offset < opening.offset {
      assert code[definition..opening.offset][semicolon.offset - definition] == ';';
      return NoInterval;
    }
    assert ';' !in code[definition..opening.offset] by {
      var span := code[definition..opening.offset];
      if semicolon.At? {
        assert span <= code[definition..semicolon.offset];
      } else if definition < |code| {
        assert span <= code[definition..];
      }
    }
    var end := BlockEnd(code, opening.offset);
    r := if end.At? then Interval(definition, end.offset) else NoInterval;
  }

  function SkipSpace(code: string, i: nat): (j: nat)
    requires i <= |code|
    ensures i <= j <= |code| && (forall k | i <= k < j :: IsSpace(code[k])) && (j < |code| ==> !IsSpace(code[j]))
    decreases |code| - i
  {
    if i < |code| && IsSpace(code[i]) then SkipSpace(code, i + 1) else i
  }

  /** The interval one condition controls: the block behind it, or the statement up to its
      semicolon. */
  method ControlledStatement(code: string, conditionEnd: nat) returns (r: Interval)
    requires conditionEnd <= |code|
    ensures var at := SkipSpace(code, conditionEnd);
            && (r.Interval? ==> r.start == at < r.end <= |code|)
            && (r.Interval? && code[at] == '{' ==> Block(code, at, r.end))
            && (r.Interval? && code[at] != '{' ==> code[r.end - 1] == ';' && ';' !in code[at..r.end - 1])
            && (r.NoInterval? && at < |code| ==>
                  if code[at] == '{' then forall end :: !Block(code, at, end) else ';' !in code[at..])
  {
    var cursor := conditionEnd;
    while cursor < |code| && IsSpace(code[cursor])
      invariant conditionEnd <= cursor <= |code| && SkipSpace(code, cursor) == SkipSpace(code, conditionEnd)
    {
      cursor := cursor + 1;
    }
    if cursor >= |code| { return NoInterval; }
    if code[cursor] != '{' {
      var semicolon := Find(code, ';', cursor);
      return if semicolon.At? then Interval(cursor, semicolon.offset + 1) else NoInterval;
    }
    var end := BlockEnd(code, cursor);
    r := if end.At? then Interval(cursor, end.offset) else NoInterval;
  }

  /** The depth at an offset is defined: a brace was opened before it, and never more were
      closed than opened. */
  ghost predicate DepthDefined(code: string, offset: nat)
    requires offset <= |code|
  {
    var open := Find(code, '{', 0);
    open.At? && open.offset <= offset && forall k | open.offset <= k <= offset :: Depth(code, open.offset, k) >= 0
  }

  ghost function LevelAt(code: string, offset: nat): int
    requires offset <= |code| && DepthDefined(code, offset)
  {
    Depth(code, Find(code, '{', 0).offset, offset)
  }

  datatype Level = Level(depth: int) | BadOrder

  /** The brace depth at an offset, counted from the first brace of the code. */
  method BraceDepth(code: string, offset: nat) returns (r: Level)
    requires offset <= |code|
    ensures r.Level? <==> DepthDefined(code, offset)
    ensures r.Level? ==> r.depth == LevelAt(code, offset)
  {
    var opening := Find(code, '{', 0);
    if opening.Missing? || offset < opening.offset { return BadOrder; }
    var depth := 0;
    for k := opening.offset to offset
      invariant depth == Depth(code, opening.offset, k)
      invariant forall j | opening.offset <= j <= k :: Depth(code, opening.offset, j) >= 0
    {
      if code[k] == '{' {
        depth := depth + 1;
      } else if code[k] == '}' {
        depth := depth - 1;
        if depth < 0 {
          assert Depth(code, opening.offset, k + 1) < 0;
          return BadOrder;
        }
      }
    }
    r := Level(depth);
  }

  // ---- direct statements ----

  /** Opening minus closing characters of one kind between two offsets. */
  function Nest(code: string, o: char, c: char, i: nat, j: nat): int
    requires i <= j <= |code|
    decreases j
  {
    if i == j then 0
    else Nest(code, o, c, i, j - 1) + (if code[j - 1] == o then 1 else if code[j - 1] == c then -1 else 0)
  }

  /** The character at `k` ends a statement of the scope that begins at `from`: a semicolon of
      the scope itself, outside parentheses and brackets, or the end of a block in it. */
  predicate EndsStatement(code: string, from: nat, k: nat)
    requires from <= k < |code|
  {
    || (code[k] == '}' && Depth(code, from, k + 1) == 0)
    || (code[k] == ';' && Depth(code, from, k) == 0
        && Nest(code, '(', ')', from, k) == 0 && Nest(code, '[', ']', from, k) == 0)
  }

  ghost predicate Ordered(code: string, from: nat, to: nat)
    requires from <= to <= |code|
  {
    forall k | from <= k <= to :: Nest(code, '(', ')', from, k) >= 0 && Nest(code, '[', ']', from, k) >= 0
  }

  predicate Blank(code: string, from: nat, to: nat)
    requires from <= to <= |code|
  {
    forall k | from <= k < to :: IsSpace(code[k])
  }

  /** Only blanks lie between the start of the scope, or the end of a statement of it, and `to`. */
  ghost predicate StartsStatement(code: string, from: nat, to: nat)
    requires from <= to <= |code|
  {
    exists b :: from <= b <= to && Boundary(code, from, b) && Blank(code, b, to)
  }

  predicate Boundary(code: string, from: nat, b: nat)
    requires from <= b <= |code|
  {
    b == from || EndsStatement(code, from, b - 1)
  }

  /** The scan from the scope's start to a place in it: the last statement boundary, or a
      closing parenthesis or bracket without its opening one. */
  method LastBoundary(code: string, from: nat, to: nat) returns (ok: bool, boundary: nat)
    requires from <= to <= |code|
    ensures ok <==> Ordered(code, from, to)
    ensures ok ==> from <= boundary <= to && Boundary(code, from, boundary)
    ensures ok ==> forall k | boundary <= k < to :: !EndsStatement(code, from, k)
  {
    boundary := from;
    var depth, parentheses, brackets := 0, 0, 0;
    for k := from to to
      invariant depth == Depth(code, from, k)
      invariant parentheses == Nest(code, '(', ')', from, k) && brackets == Nest(code, '[', ']', from, k)
      invariant Ordered(code, from, k) && from <= boundary <= k && Boundary(code, from, boundary)
      invariant forall j | boundary <= j < k :: !EndsStatement(code, from, j)
    {
      var token := code[k];
      if token == '{' {
        depth := depth + 1;
      } else if token == '}' {
        depth := depth - 1;
        if depth == 0 { boundary := k + 1; }
      } else if token == '(' {
        parentheses := parentheses + 1;
      } else if token == ')' {
        parentheses := parentheses - 1;
        if parentheses < 0 {
          assert Nest(code, '(', ')', from, k + 1) < 0;
          return false, from;
        }
      } else if token == '[' {
        brackets := brackets + 1;
      } else if token == ']' {
        brackets := brackets - 1;
        if brackets < 0 {
          assert Nest(code, '[', ']', from, k + 1) < 0;
          return false, from;
        }
      } else if token == ';' && depth == 0 && parentheses == 0 && brackets == 0 {
        boundary := k + 1;
      }
    }
    ok := true;
  }

  /** Where the scope of a controlled statement begins: behind its brace, if it has one. */
  function ScopeOf(code: string, start: nat): (from: nat)
    requires start < |code|
    ensures start <= from <= start + 1
  {
    if code[start] == '{' then start + 1 else start
  }

  /** A match is accepted as one direct statement of a scope: brace order is valid up to both,
      the match lies at the scope's own brace depth, and it starts a statement there. In front
      of the scope there is no text to look at, so the depth alone decides. */
  ghost predicate Direct(code: string, start: nat, m: nat)
    requires start < |code| && m <= |code|
  {
    var from := ScopeOf(code, start);
    && DepthDefined(code, from) && DepthDefined(code, m) && LevelAt(code, m) == LevelAt(code, from)
    && (from <= m ==> Ordered(code, from, m) && StartsStatement(code, from, m))
  }

  /** Brace order is valid behind a scope's opening brace exactly if it is in front of it. */
  lemma ScopeDepth(code: string, start: nat)
    requires start < |code|
    ensures DepthDefined(code, ScopeOf(code, start)) <==> DepthDefined(code, start)
    ensures DepthDefined(code, start) ==>
              LevelAt(code, ScopeOf(code, start)) == LevelAt(code, start) + if code[start] == '{' then 1 else 0
  {
    var open := Find(code, '{', 0);
    if code[start] == '{' && open.At? && open.offset <= start {
      assert Depth(code, open.offset, start + 1) == Depth(code, open.offset, start) + 1;
    }
  }

  method RequireDirectStatement(code: string, start: nat, m: nat) returns (ok: bool)
    requires start < |code| && m <= |code|
    ensures ok <==> Direct(code, start, m)
  {
    ScopeDepth(code, start);
    var level := BraceDepth(code, start);
    if level.BadOrder? { return false; }
    var expected := if code[start] == '{' then level.depth + 1 else level.depth;
    var here := BraceDepth(code, m);
    if here.BadOrder? || here.depth != expected { return false; }
    var from := ScopeOf(code, start);
    if m < from { return true; }
    var boundary;
    ok, boundary := LastBoundary(code, from, m);
    if !ok { return; }
    LastIsTheOne(code, from, m, boundary);
    for k := boundary to m
      invariant Blank(code, boundary, k)
    {
      if !IsSpace(code[k]) { return false; }
    }
  }

  /** Only the last boundary can have nothing but blanks behind it. */
  lemma LastIsTheOne(code: string, from: nat, to: nat, last: nat)
    requires from <= last <= to <= |code| && Boundary(code, from, last)
    requires forall k | last <= k < to :: !EndsStatement(code, from, k)
    ensures StartsStatement(code, from, to) <==> Blank(code, last, to)
  {
    if last > from {
      assert !IsSpace(code[last - 1]);
      forall b | from <= b < last ensures !Blank(code, b, to) {}
    }
    if StartsStatement(code, from, to) {
      var b :| from <= b <= to && Boundary(code, from, b) && Blank(code, b, to);
      assert b >= last;
    }
  }

  // ---- blocks ----

  /** A block ends before the depth from its brace can be back at zero. */
  lemma BlockEndsFirst(code: string, open: nat, end: nat, k: nat)
    requires Block(code, open, end) && open < k <= |code| && Depth(code, open, k) <= 0
    ensures end <= k
  {
  }

  lemma BlockIsUnique(code: string, open: nat, end: nat, other: nat)
    requires Block(code, open, end) && Block(code, open, other)
    ensures end == other
  {
    BlockEndsFirst(code, open, end, other);
    BlockEndsFirst(code, open, other, end);
  }

  /** Two blocks are disjoint or one lies inside the other. */
  lemma BlocksAreLaminar(code: string, a: nat, b: nat, c: nat, d: nat)
    requires Block(code, a, b) && Block(code, c, d) && a < c
    ensures b <= c || d < b
  {
    if c < b {
      assert Depth(code, a, c) > 0;
      DepthSplits(code, a, c, b);
      BlockEndsFirst(code, c, d, b);
    }
  }

  /** Words of the brace grammar: nothing, another character and a word, or a braced word
      and a word. */
  ghost predicate Balanced(s: string)
    decreases |s|
  {
    || s == []
    || (s[0] != '{' && s[0] != '}' && Balanced(s[1..]))
    || (s[0] == '{' && exists k :: 0 < k < |s| && s[k] == '}' && Balanced(s[1..k]) && Balanced(s[k + 1..]))
  }

  ghost predicate NeverNegative(s: string) {
    forall k | 0 <= k <= |s| :: Depth(s, 0, k) >= 0
  }

  lemma {:induction false} BalancedDepth(s: string)
    requires Balanced(s)
    ensures Depth(s, 0, |s|) == 0 && NeverNegative(s)
    decreases |s|
  {
    if s == [] {
    } else if s[0] != '{' {
      BalancedDepth(s[1..]);
      PlainDepth(s);
    } else {
      var m :| 0 < m < |s| && s[m] == '}' && Balanced(s[1..m]) && Balanced(s[m + 1..]);
      BalancedDepth(s[1..m]);
      BalancedDepth(s[m + 1..]);
      BracedDepth(s, m);
    }
  }

  lemma PlainDepth(s: string)
    requires s != [] && Weight(s[0]) == 0
    ensures Depth(s, 0, |s|) == Depth(s[1..], 0, |s| - 1)
    ensures NeverNegative(s[1..]) ==> NeverNegative(s)
  {
    forall k | 1 <= k <= |s| ensures Depth(s, 0, k) == Depth(s[1..], 0, k - 1) {
      DepthOfTail(s, 0, 1, k - 1);
    }
  }

  lemma BracedDepth(s: string, m: nat)
    requires 0 < m < |s| && s[0] == '{' && s[m] == '}'
    requires Depth(s[1..m], 0, m - 1) == 0 && NeverNegative(s[1..m])
    ensures Depth(s, 0, |s|) == Depth(s[m + 1..], 0, |s| - m - 1)
    ensures NeverNegative(s[m + 1..]) ==> NeverNegative(s)
  {
    forall k | 1 <= k <= m ensures Depth(s, 0, k) == 1 + Depth(s[1..m], 0, k - 1) {
      DepthOfPart(s, 0, 1, m, k - 1);
    }
    assert Depth(s, 0, m + 1) == 0;
    forall k | m + 1 <= k <= |s| ensures Depth(s, 0, k) == Depth(s[m + 1..], 0, k - m - 1) {
      DepthOfTail(s, 0, m + 1, k - m - 1);
    }
  }

  /** The least offset at which the depth from `open` is back at zero. */
  lemma FirstReturn(code: string, open: nat, end: nat)
    returns (close: nat)
    requires open < end <= |code| && code[open] == '{' && Depth(code, open, end) <= 0
    ensures close <= end && Block(code, open, close) && code[close - 1] == '}'
  {
    close := open + 1;
    while Depth(code, open, close) != 0
      invariant open < close <= end && forall k | open < k < close :: Depth(code, open, k) > 0
      invariant Depth(code, open, close) >= 0
      decreases end - close
    {
      close := close + 1;
    }
    assert Depth(code, open, close - 1) + Weight(code[close - 1]) == 0;
  }

  lemma {:induction false} DepthBalanced(s: string)
    requires Depth(s, 0, |s|) == 0 && NeverNegative(s)
    ensures Balanced(s)
    decreases |s|
  {
    if s == [] {
    } else if s[0] != '{' {
      assert Depth(s, 0, 1) == Weight(s[0]);
      forall k | 0 <= k <= |s[1..]| ensures Depth(s[1..], 0, k) >= 0 && (k == |s[1..]| ==> Depth(s[1..], 0, k) == 0) {
        DepthOfTail(s, 0, 1, k);
      }
      DepthBalanced(s[1..]);
    } else {
      var close := FirstReturn(s, 0, |s|);
      SplitBalanced(s, close - 1);
      DepthBalanced(s[1..close - 1]);
      DepthBalanced(s[close - 1 + 1..]);
    }
  }

  lemma SplitBalanced(s: string, m: nat)
    requires Depth(s, 0, |s|) == 0 && NeverNegative(s) && 0 < m && Block(s, 0, m + 1)
    ensures Depth(s[1..m], 0, |s[1..m]|) == 0 && NeverNegative(s[1..m])
    ensures Depth(s[m + 1..], 0, |s[m + 1..]|) == 0 && NeverNegative(s[m + 1..])
  {
    assert Depth(s, 0, 1) == 1 && Depth(s, 0, m) > 0;
    forall k | 0 <= k <= |s[1..m]| ensures Depth(s[1..m], 0, k) >= 0 {
      DepthOfPart(s, 0, 1, m, k);
      assert Depth(s, 0, 1 + k) > 0;
    }
    DepthOfPart(s, 0, 1, m, m - 1);
    var rest := s[m + 1..];
    forall k | 0 <= k <= |rest| ensures Depth(rest, 0, k) >= 0 {
      DepthOfTail(s, 0, m + 1, k);
    }
    DepthOfTail(s, 0, m + 1, |s| - m - 1);
  }

  /** What the scanner returns is the grammar's braced word: an opening brace, a balanced
      text, and a closing brace. */
  lemma BlockIsBracedWord(code: string, open: nat, end: nat)
    requires open < end <= |code|
    ensures Block(code, open, end) <==>
              open + 1 < end && code[open] == '{' && code[end - 1] == '}' && Balanced(code[open + 1..end - 1])
  {
    if open + 1 < end && code[open] == '{' {
      var inner := code[open + 1..end - 1];
      assert Depth(code, open, open + 1) == 1;
      forall k | open + 1 <= k <= end - 1 ensures Depth(code, open, k) == 1 + Depth(inner, 0, k - open - 1) {
        DepthOfPart(code, open, open + 1, end - 1, k - open - 1);
      }
      if Block(code, open, end) {
        forall k | 0 <= k <= |inner| ensures Depth(inner, 0, k) >= 0 { assert Depth(code, open, open + 1 + k) > 0; }
        DepthBalanced(inner);
      }
      if code[end - 1] == '}' && Balanced(inner) {
        BalancedDepth(inner);
      }
    } else if code[open] == '{' {
      assert Depth(code, open, end) == 1;
    }
  }

  /** A position is one level below a block's brace exactly if no smaller block of it covers
      the position: equal brace depth means the same enclosing statement. */
  lemma DirectIff(code: string, open: nat, end: nat, m: nat)
    requires Block(code, open, end) && open < m < end
    ensures Depth(code, open, m) == 1 <==>
              forall o: nat, e: nat | open < o < m && Block(code, o, e) :: e <= m
  {
    if Depth(code, open, m) == 1 {
      forall o: nat, e: nat | open < o < m && Block(code, o, e) ensures e <= m {
        DepthSplits(code, open, o, m);
        assert Depth(code, open, o) > 0;
        BlockEndsFirst(code, o, e, m);
      }
    } else {
      var o, e := CoveringBlock(code, open, end, m);
    }
  }

  lemma CoveringBlock(code: string, open: nat, end: nat, m: nat) returns (o: nat, e: nat)
    requires Block(code, open, end) && open < m < end && Depth(code, open, m) != 1
    ensures open < o < m < e && Block(code, o, e)
  {
    assert Depth(code, open, open + 1) == 1;
    o := m - 1;
    while Depth(code, open, o) != 1
      invariant open < o < m && forall k | o < k <= m :: Depth(code, open, k) > 1
      decreases o
    {
      o := o - 1;
    }
    assert Depth(code, open, o + 1) == 1 + Weight(code[o]);
    DepthSplits(code, open, o, end);
    e := FirstReturn(code, o, end);
    DepthSplits(code, open, o, e);
  }

  /** What a direct statement of a block means: no smaller block of it covers the match. */
  lemma DirectIsUncovered(code: string, open: nat, end: nat, m: nat)
    requires Block(code, open, end) && open < m < end && Direct(code, open, m)
    ensures forall o: nat, e: nat | open < o < m && Block(code, o, e) :: e <= m
  {
    var first := Find(code, '{', 0).offset;
    DepthSplits(code, first, open + 1, m);
    DepthSplits(code, open, open + 1, m);
    assert Depth(code, open, open + 1) == 1;
    DirectIff(code, open, end, m);
  }

  // ---- conditional preprocessing ----

  /** A directive, with the text behind an opening one. */
  datatype Directive = Open(kind: string, tail: string) | Branch(kind: string) | Close

  /** An open conditional and its latest branch. */
  datatype Entry = Entry(kind: string, tail: string, branch: string)

  datatype Stacked = Stack(entries: seq<Entry>) | Unmatched

  function Push(s: Stacked, d: Directive): Stacked {
    match s
    case Unmatched => Unmatched
    case Stack(es) =>
      match d
      case Open(kind, tail) => Stack(es + [Entry(kind, tail, "initial")])
      case Branch(kind) => if es == [] then Unmatched else Stack(es[|es| - 1 := es[|es| - 1].(branch := kind)])
      case Close => if es == [] then Unmatched else Stack(es[..|es| - 1])
  }

  function StackAfter(s: Stacked, ds: seq<Directive>): Stacked
    decreases |ds|
  {
    if ds == [] then s else StackAfter(Push(s, ds[0]), ds[1..])
  }

  /** The loop over the directives before an offset. */
  method ConditionalStackAt(ds: seq<Directive>) returns (r: Stacked)
    ensures r == StackAfter(Stack([]), ds)
  {
    var stack: seq<Entry> := [];
    for n := 0 to |ds|
      invariant StackAfter(Stack(stack), ds[n..]) == StackAfter(Stack([]), ds)
    {
      assert ds[n..][1..] == ds[n + 1..];
      match ds[n]
      case Open(kind, tail) => stack := stack + [Entry(kind, tail, "initial")];
      case Branch(kind) =>
        if stack == [] { UnmatchedStays(ds[n + 1..]); return Unmatched; }
        stack := stack[|stack| - 1 := stack[|stack| - 1].(branch := kind)];
      case Close =>
        if stack == [] { UnmatchedStays(ds[n + 1..]); return Unmatched; }
        stack := stack[..|stack| - 1];
    }
    r := Stack(stack);
  }

  lemma {:induction false} UnmatchedStays(ds: seq<Directive>)
    ensures StackAfter(Unmatched, ds) == Unmatched
  {
    if ds != [] { UnmatchedStays(ds[1..]); }
  }

  lemma {:induction false} StackSplits(s: Stacked, a: seq<Directive>, b: seq<Directive>)
    ensures StackAfter(s, a + b) == StackAfter(StackAfter(s, a), b)
    decreases |a|
  {
    if a == [] {
      assert a + b == b;
    } else {
      assert (a + b)[0] == a[0] && (a + b)[1..] == a[1..] + b;
      StackSplits(Push(s, a[0]), a[1..], b);
    }
  }

  /** Complete conditional groups, one after the other, each possibly with branches and with
      groups inside its branches; `inside` allows branches at this level too. */
  ghost predicate Groups(ds: seq<Directive>, inside: bool)
    decreases |ds|
  {
    || ds == []
    || (ds[0].Branch? && inside && Groups(ds[1..], inside))
    || (ds[0].Open? && exists k ::
          0 < k < |ds| && ds[k].Close? && Groups(ds[1..k], true) && Groups(ds[k + 1..], inside))
  }

  predicate SameUpToBranch(a: seq<Entry>, b: seq<Entry>) {
    |a| == |b| > 0 && a[..|a| - 1] == b[..|b| - 1]
    && a[|a| - 1].kind == b[|b| - 1].kind && a[|a| - 1].tail == b[|b| - 1].tail
  }

  /** A group whose body only changed its own entry is gone after its end. */
  lemma OneGroup(es: seq<Entry>, d: Directive, body: seq<Directive>, close: Directive, rest: seq<Directive>)
    requires d.Open? && close.Close?
    requires var r := StackAfter(Push(Stack(es), d), body);
             r.Stack? && SameUpToBranch(Push(Stack(es), d).entries, r.entries)
    ensures StackAfter(Stack(es), [d] + body + [close] + rest) == StackAfter(Stack(es), rest)
  {
    var all := [d] + body + [close] + rest;
    assert all == [d] + (body + ([close] + rest)) && all[1..] == body + ([close] + rest);
    var start := Push(Stack(es), d);
    StackSplits(start, body, [close] + rest);
    assert start.entries[..|es|] == es;
    assert ([close] + rest)[1..] == rest;
    assert Push(StackAfter(start, body), close) == Stack(es);
  }

  lemma BranchStep(es: seq<Entry>, d: Directive, r: seq<Entry>)
    requires d.Branch? && es != [] && SameUpToBranch(Push(Stack(es), d).entries, r)
    ensures SameUpToBranch(es, r)
  {
  }

  lemma GroupParts(ds: seq<Directive>, k: nat)
    requires 0 < k < |ds|
    ensures ds == [ds[0]] + ds[1..k] + [ds[k]] + ds[k + 1..]
  {
  }

  /** Complete groups leave no trace on the stack, except that branches at their own level
      change the branch of the innermost open conditional. */
  lemma {:induction false} GroupsLeaveNoTrace(es: seq<Entry>, ds: seq<Directive>, inside: bool)
    requires Groups(ds, inside) && (inside ==> es != [])
    ensures var r := StackAfter(Stack(es), ds);
            r.Stack? && if inside then SameUpToBranch(es, r.entries) else r == Stack(es)
    decreases |ds|
  {
    if ds == [] {
    } else if ds[0].Branch? {
      var after := Push(Stack(es), ds[0]);
      assert after.Stack? && after.entries != [];
      GroupsLeaveNoTrace(after.entries, ds[1..], inside);
      assert StackAfter(Stack(es), ds) == StackAfter(after, ds[1..]);
      BranchStep(es, ds[0], StackAfter(after, ds[1..]).entries);
    } else {
      var k :| 0 < k < |ds| && ds[k].Close? && Groups(ds[1..k], true) && Groups(ds[k + 1..], inside);
      var body, rest := ds[1..k], ds[k + 1..];
      GroupsLeaveNoTrace(Push(Stack(es), ds[0]).entries, body, true);
      OneGroup(es, ds[0], body, ds[k], rest);
      GroupParts(ds, k);
      GroupsLeaveNoTrace(es, rest, inside);
    }
  }

  function HeightAfter(es: seq<Entry>, ds: seq<Directive>, k: nat): int
    requires k <= |ds|
  {
    match StackAfter(Stack(es), ds[..k])
    case Unmatched => -1
    case Stack(r) => |r|
  }

  /** The directives never close a conditional that was open before them. */
  ghost predicate Above(es: seq<Entry>, ds: seq<Directive>) {
    forall k | 0 <= k <= |ds| :: HeightAfter(es, ds, k) >= |es|
  }

  lemma HeightSplits(es: seq<Entry>, ds: seq<Directive>, m: nat, k: nat)
    requires m <= k <= |ds| && StackAfter(Stack(es), ds[..m]).Stack?
    ensures HeightAfter(es, ds, k) == HeightAfter(StackAfter(Stack(es), ds[..m]).entries, ds[m..], k - m)
  {
    assert ds[..k] == ds[..m] + ds[m..][..k - m];
    StackSplits(Stack(es), ds[..m], ds[m..][..k - m]);
  }

  lemma HeightStep(es: seq<Entry>, ds: seq<Directive>, k: nat)
    requires k < |ds| && StackAfter(Stack(es), ds[..k]).Stack?
    ensures var h := HeightAfter(es, ds, k);
            HeightAfter(es, ds, k + 1) ==
              if ds[k].Open? then h + 1 else if h == 0 then -1 else if ds[k].Branch? then h else h - 1
  {
    assert ds[..k + 1] == ds[..k] + [ds[k]];
    StackSplits(Stack(es), ds[..k], [ds[k]]);
    assert StackAfter(StackAfter(Stack(es), ds[..k]), [ds[k]]) == Push(StackAfter(Stack(es), ds[..k]), ds[k]);
  }

  /** A part of the directives between two places of equal height stays above it. */
  lemma PartIsAbove(es: seq<Entry>, ds: seq<Directive>, m: nat, n: nat)
    requires m <= n <= |ds| && StackAfter(Stack(es), ds[..m]).Stack?
    requires forall k | m <= k <= n :: HeightAfter(es, ds, k) >= HeightAfter(es, ds, m)
    ensures var part := StackAfter(Stack(es), ds[..m]).entries;
            Above(part, ds[m..n]) && HeightAfter(part, ds[m..n], n - m) == HeightAfter(es, ds, n)
  {
    var part, span := StackAfter(Stack(es), ds[..m]).entries, ds[m..n];
    forall k | 0 <= k <= |span| ensures HeightAfter(part, span, k) == HeightAfter(es, ds, m + k) {
      HeightSplits(es, ds, m, m + k);
      assert span[..k] == ds[m..][..k];
    }
  }

  /** The end of the conditional that the first directive opens. */
  lemma FirstClose(es: seq<Entry>, ds: seq<Directive>) returns (k: nat)
    requires ds != [] && ds[0].Open? && Above(es, ds) && HeightAfter(es, ds, |ds|) == |es|
    ensures 0 < k < |ds| && ds[k].Close?
    ensures HeightAfter(es, ds, 1) == |es| + 1 && HeightAfter(es, ds, k) == |es| + 1 &&
            HeightAfter(es, ds, k + 1) == |es|
    ensures forall j | 1 <= j <= k :: HeightAfter(es, ds, j) > |es|
  {
    assert HeightAfter(es, ds, 0) == |es|;
    HeightStep(es, ds, 0);
    k := 1;
    while HeightAfter(es, ds, k + 1) != |es|
      invariant 0 < k < |ds| && forall j | 1 <= j <= k :: HeightAfter(es, ds, j) > |es|
      decreases |ds| - k
    {
      assert HeightAfter(es, ds, k + 1) >= |es|;
      k := k + 1;
    }
    assert HeightAfter(es, ds, k) > |es|;
    HeightStep(es, ds, k);
  }

  lemma {:induction false} ReturnsAreGroups(es: seq<Entry>, ds: seq<Directive>)
    requires Above(es, ds) && HeightAfter(es, ds, |ds|) == |es|
    ensures Groups(ds, es != [])
    decreases |ds|
  {
    if ds == [] {
    } else {
      assert HeightAfter(es, ds, 0) == |es| && HeightAfter(es, ds, 1) >= |es|;
      HeightStep(es, ds, 0);
      if ds[0].Branch? {
        PartIsAbove(es, ds, 1, |ds|);
        assert ds[1..|ds|] == ds[1..];
        ReturnsAreGroups(StackAfter(Stack(es), ds[..1]).entries, ds[1..]);
      } else {
        var k := FirstClose(es, ds);
        PartIsAbove(es, ds, 1, k);
        ReturnsAreGroups(StackAfter(Stack(es), ds[..1]).entries, ds[1..k]);
        PartIsAbove(es, ds, k + 1, |ds|);
        assert ds[k + 1..|ds|] == ds[k + 1..];
        ReturnsAreGroups(StackAfter(Stack(es), ds[..k + 1]).entries, ds[k + 1..]);
      }
    }
  }

  /** No conditional is open at an offset exactly if the directives before it form complete
      groups. */
  lemma NotEnclosedIff(ds: seq<Directive>)
    ensures StackAfter(Stack([]), ds) == Stack([]) <==> Groups(ds, false)
  {
    if Groups(ds, false) { GroupsLeaveNoTrace([], ds, false); }
    if StackAfter(Stack([]), ds) == Stack([]) {
      assert ds[..|ds|] == ds;
      forall k | 0 <= k <= |ds| ensures HeightAfter([], ds, k) >= 0 {
        assert ds == ds[..k] + ds[k..];
        StackSplits(Stack([]), ds[..k], ds[k..]);
        UnmatchedStays(ds[k..]);
      }
      ReturnsAreGroups([], ds);
    }
  }

  // ---- forward jumps ----

  /** A jump statement and the label it names; a label and its place. */
  datatype Jump = Jump(at: nat, goal: string)
  datatype Label = Label(name: string, at: nat)

  datatype Target = To(at: nat) | Absent

  /** The last label of a name wins. */
  function TargetOf(labels: seq<Label>, name: string): (r: Target)
    ensures r.Absent? <==> forall k | 0 <= k < |labels| :: labels[k].name != name
    ensures r.To? ==> exists k ::
              && 0 <= k < |labels| && labels[k] == Label(name, r.at)
              && forall j | k < j < |labels| :: labels[j].name != name
  {
    if labels == [] then Absent
    else if labels[|labels| - 1].name == name then To(labels[|labels| - 1].at)
    else TargetOf(labels[..|labels| - 1], name)
  }

  ghost predicate Bypasses(labels: seq<Label>, j: Jump, start: nat, end: nat) {
    j.at < start && TargetOf(labels, j.goal).To? && TargetOf(labels, j.goal).at >= end
  }

  method RejectForwardGoto(jumps: seq<Jump>, labels: seq<Label>, start: nat, end: nat) returns (ok: bool)
    ensures ok <==> forall j | j in jumps :: TargetOf(labels, j.goal).To? && !Bypasses(labels, j, start, end)
  {
    for n := 0 to |jumps|
      invariant forall k | 0 <= k < n :: TargetOf(labels, jumps[k].goal).To? && !Bypasses(labels, jumps[k], start, end)
    {
      var target := TargetOf(labels, jumps[n].goal);
      if target.Absent? { return false; }
      if jumps[n].at < start && target.at >= end {
        assert jumps[n] in jumps && Bypasses(labels, jumps[n], start, end);
        return false;
      }
    }
    ok := true;
  }

  /** One move of control: to the next offset, or along a jump. */
  ghost predicate Moves(jumps: seq<Jump>, labels: seq<Label>, from: nat, to: nat) {
    || to == from + 1
    || exists j :: j in jumps && j.at == from && TargetOf(labels, j.goal) == To(to)
  }

  ghost predicate Walk(jumps: seq<Jump>, labels: seq<Label>, p: seq<nat>) {
    |p| > 0 && forall k | 0 <= k < |p| - 1 :: Moves(jumps, labels, p[k], p[k + 1])
  }

  predicate Visits(p: seq<nat>, start: nat, end: nat) {
    exists k :: 0 <= k < |p| && start <= p[k] < end
  }

  lemma MoveStops(jumps: seq<Jump>, labels: seq<Label>, start: nat, end: nat, from: nat, to: nat)
    requires start < end && forall j | j in jumps :: !Bypasses(labels, j, start, end)
    requires Moves(jumps, labels, from, to) && from < start
    ensures to < end
  {
    if to != from + 1 {
      var j :| j in jumps && j.at == from && TargetOf(labels, j.goal) == To(to);
      assert !Bypasses(labels, j, start, end);
    }
  }

  lemma {:induction false} CrossingVisits(jumps: seq<Jump>, labels: seq<Label>, start: nat, end: nat, p: seq<nat>)
    requires start < end && forall j | j in jumps :: !Bypasses(labels, j, start, end)
    requires Walk(jumps, labels, p) && p[0] < start && p[|p| - 1] >= end
    ensures Visits(p, start, end)
    decreases |p|
  {
    MoveStops(jumps, labels, start, end, p[0], p[1]);
    if p[1] < start {
      var q := p[1..];
      assert Walk(jumps, labels, q) by {
        forall k | 0 <= k < |q| - 1 ensures Moves(jumps, labels, q[k], q[k + 1]) {
          assert Moves(jumps, labels, p[k + 1], p[k + 2]);
        }
      }
      CrossingVisits(jumps, labels, start, end, q);
      var k :| 0 <= k < |q| && start <= q[k] < end;
      assert p[k + 1] == q[k];
    }
  }

  /** The interval is a cut: no jump bypasses it exactly if every walk by fall-through and
      jumps from before it to behind it passes through it. */
  lemma NoBypassIffCut(jumps: seq<Jump>, labels: seq<Label>, start: nat, end: nat)
    requires start < end
    ensures (forall j | j in jumps :: !Bypasses(labels, j, start, end)) <==>
            (forall p | Walk(jumps, labels, p) && p[0] < start && p[|p| - 1] >= end :: Visits(p, start, end))
  {
    if forall j | j in jumps :: !Bypasses(labels, j, start, end) {
      forall p | Walk(jumps, labels, p) && p[0] < start && p[|p| - 1] >= end ensures Visits(p, start, end) {
        CrossingVisits(jumps, labels, start, end, p);
      }
    } else {
      var j :| j in jumps && Bypasses(labels, j, start, end);
      var p := [j.at, TargetOf(labels, j.goal).at];
      assert Moves(jumps, labels, p[0], p[1]);
      assert Walk(jumps, labels, p) && !Visits(p, start, end);
    }
  }
}
