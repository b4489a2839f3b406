/**
 * Bracket matching in the source editor (BracketMatchingTextArea.java).
 * Only "(", "{", "[" open and only ")", "}", "]" close, and the kinds are
 * not told apart.  The scans walk from a bracket, counting openers against
 * closers, until the count returns to zero; the caret handler highlights
 * the stretch between the bracket at or before the caret and its partner.
 */
module Brackets {

  const OPENING_PARENS: string := "({["
  const CLOSING_PARENS: string := ")}]"

  predicate IsOpen(c: char) { c in OPENING_PARENS }
  predicate IsClose(c: char) { c in CLOSING_PARENS }

  /** What a character adds to the nesting depth. */
  function Weight(c: char): (w: int)
    ensures -1 <= w <= 1
    ensures w == 1 <==> IsOpen(c)
    ensures w == -1 <==> IsClose(c)
  {
    if IsOpen(c) then 1 else if IsClose(c) then -1 else 0
  }

  /** Openers minus closers. */
  function Balance(s: string): int
  {
    if |s| == 0 then 0 else Balance(s[..|s| - 1]) + Weight(s[|s| - 1])
  }

  lemma {:induction false} BalanceAppend(a: string, b: string)
    ensures Balance(a + b) == Balance(a) + Balance(b)
    decreases |b|
  {
    if |b| > 0 {
      assert (a + b)[..|a + b| - 1] == a + b[..|b| - 1];
      assert (a + b)[|a + b| - 1] == b[|b| - 1];
      BalanceAppend(a, b[..|b| - 1]);
    } else {
      assert a + b == a;
    }
  }

  lemma BalanceOne(c: char)
    ensures Balance([c]) == Weight(c)
  {
    assert [c][..0] == [];
  }

  // ------------------------------------------------------------ specification

  /** The stretch from the bracket at d up to i is balanced. */
  predicate ClosesAt(text: string, d: nat, i: nat)
    requires d <= i < |text|
  {
    Balance(text[d..i + 1]) == 0
  }

  /** The stretch from i up to the bracket at d is balanced. */
  predicate OpensAt(text: string, i: nat, d: nat)
    requires i <= d < |text|
  {
    Balance(text[i..d + 1]) == 0
  }

  /**
   * The partner of the bracket at d searched from j on: the least
   * i >= j whose stretch d..i is balanced, or -1.
   */
  function FirstBalanced(text: string, d: nat, j: nat): int
    requires d <= |text|
    decreases |text| - j
  {
    if j >= |text| then -1
    else if d <= j && ClosesAt(text, d, j) then j
    else FirstBalanced(text, d, j + 1)
  }

  /** The closing partner of the bracket at d, or -1. */
  function MatchClose(text: string, d: nat): int
    requires d < |text|
  {
    FirstBalanced(text, d, d)
  }

  /**
   * The partner of the bracket at d searched from j down: the greatest
   * i <= j whose stretch i..d is balanced, or -1.
   */
  function LastBalanced(text: string, d: nat, j: int): int
    requires d < |text| && j <= d
    decreases j + 1
  {
    if j < 0 then -1
    else if OpensAt(text, j, d) then j
    else LastBalanced(text, d, j - 1)
  }

  /** The opening partner of the bracket at d, or -1. */
  function MatchOpen(text: string, d: nat): int
    requires d < |text|
  {
    LastBalanced(text, d, d)
  }

  // ------------------------------------------------------------ the scans

  /** Scans forwards from dot for the bracket that closes the one at dot. */
  method FindMatchingClose(text: string, dot: nat) returns (r: int)
    requires dot < |text|
    ensures r == MatchClose(text, dot)
  {
    var count := 0;
    var i := dot;
    while true
      invariant dot <= i < |text|
      invariant count == Balance(text[dot..i])
      invariant MatchClose(text, dot) == FirstBalanced(text, dot, i)
      decreases |text| - i
    {
      if IsOpen(text[i]) {
        count := count + 1;
      } else if IsClose(text[i]) {
        count := count - 1;
      }
      assert text[dot..i + 1][..i - dot] == text[dot..i];
      if count == 0 {
        return i;
      }
      i := i + 1;
      if i >= |text| {
        return -1;
      }
    }
  }

  /** Scans backwards from dot for the bracket that opens the one at dot. */
  method FindMatchingOpen(text: string, dot: nat) returns (r: int)
    requires dot < |text|
    ensures r == MatchOpen(text, dot)
  {
    var count := 0;
    var i := dot;
    while true
      invariant 0 <= i <= dot
      invariant count == -Balance(text[i + 1..dot + 1])
      invariant MatchOpen(text, dot) == LastBalanced(text, dot, i)
      decreases i
    {
      if IsOpen(text[i]) {
        count := count - 1;
      } else if IsClose(text[i]) {
        count := count + 1;
      }
      assert text[i..dot + 1] == [text[i]] + text[i + 1..dot + 1];
      BalanceAppend([text[i]], text[i + 1..dot + 1]);
      BalanceOne(text[i]);
      if count == 0 {
        return i;
      }
      i := i - 1;
      if i < 0 {
        return -1;
      }
    }
  }

  // ------------------------------------------------------------ the partners

  lemma {:induction false} FirstBalancedSpec(text: string, d: nat, j: nat)
    requires d <= j <= |text|
    ensures var r := FirstBalanced(text, d, j);
      (r == -1 || (j <= r < |text| && Balance(text[d..r + 1]) == 0)) &&
      (forall i :: j <= i < |text| && (r == -1 || i < r) ==> !ClosesAt(text, d, i))
    decreases |text| - j
  {
    if j < |text| && Balance(text[d..j + 1]) != 0 {
      FirstBalancedSpec(text, d, j + 1);
    }
  }

  /**
   * The closing partner is the first position from d on at which the
   * stretch from d is balanced, or -1 when there is none.
   */
  lemma MatchCloseLeast(text: string, d: nat)
    requires d < |text|
    ensures var r := MatchClose(text, d);
      (r == -1 || (d <= r < |text| && Balance(text[d..r + 1]) == 0)) &&
      (forall i :: d <= i < |text| && (r == -1 || i < r) ==> !ClosesAt(text, d, i))
  {
    FirstBalancedSpec(text, d, d);
  }

  lemma {:induction false} LastBalancedSpec(text: string, d: nat, j: int)
    requires d < |text| && -1 <= j <= d
    ensures var r := LastBalanced(text, d, j);
      (r == -1 || (0 <= r <= j && Balance(text[r..d + 1]) == 0)) &&
      (forall i :: 0 <= i <= j && r < i ==> !OpensAt(text, i, d))
    decreases j + 1
  {
    if j >= 0 && Balance(text[j..d + 1]) != 0 {
      LastBalancedSpec(text, d, j - 1);
    }
  }

  /**
   * The opening partner is the last position up to d from which the
   * stretch to d is balanced, or -1 when there is none.
   */
  lemma MatchOpenGreatest(text: string, d: nat)
    requires d < |text|
    ensures var r := MatchOpen(text, d);
      (r == -1 || (0 <= r <= d && Balance(text[r..d + 1]) == 0)) &&
      (forall i :: 0 <= i <= d && r < i ==> !OpensAt(text, i, d))
  {
    LastBalancedSpec(text, d, d);
  }

  /** From an opener, the stretch stays above zero until it first balances. */
  lemma {:induction false} OpenStaysPositive(text: string, d: nat, j: nat)
    requires d <= j < |text| && IsOpen(text[d])
    requires forall i :: d <= i <= j ==> !ClosesAt(text, d, i)
    ensures Balance(text[d..j + 1]) >= 1
    decreases j - d
  {
    if j == d {
      BalanceOne(text[d]);
      assert text[d..d + 1] == [text[d]];
    } else {
      OpenStaysPositive(text, d, j - 1);
      assert text[d..j + 1][..j - d] == text[d..j];
      assert !ClosesAt(text, d, j);
    }
  }

  /** The closing partner of an opener lies after it and is a closer. */
  lemma MatchCloseIsCloser(text: string, d: nat)
    requires d < |text| && IsOpen(text[d]) && MatchClose(text, d) != -1
    ensures var r := MatchClose(text, d); d < r < |text| && IsClose(text[r])
  {
    MatchCloseLeast(text, d);
    var r := MatchClose(text, d);
    BalanceOne(text[d]);
    assert text[d..d + 1] == [text[d]];
    assert r != d;
    OpenStaysPositive(text, d, r - 1);
    assert text[d..r + 1][..r - d] == text[d..r];
  }

  /** To the left of a closer, the stretch stays below zero until it first balances. */
  lemma {:induction false} CloseStaysNegative(text: string, d: nat, j: nat)
    requires j <= d < |text| && IsClose(text[d])
    requires forall i :: j <= i <= d ==> !OpensAt(text, i, d)
    ensures Balance(text[j..d + 1]) <= -1
    decreases d - j
  {
    if j == d {
      BalanceOne(text[d]);
      assert text[d..d + 1] == [text[d]];
    } else {
      CloseStaysNegative(text, d, j + 1);
      assert !OpensAt(text, j, d);
      assert text[j..d + 1] == [text[j]] + text[j + 1..d + 1];
      BalanceAppend([text[j]], text[j + 1..d + 1]);
      BalanceOne(text[j]);
    }
  }

  /** The opening partner of a closer lies before it and is an opener. */
  lemma MatchOpenIsOpener(text: string, d: nat)
    requires d < |text| && IsClose(text[d]) && MatchOpen(text, d) != -1
    ensures var r := MatchOpen(text, d); 0 <= r < d && IsOpen(text[r])
  {
    MatchOpenGreatest(text, d);
    var r := MatchOpen(text, d);
    BalanceOne(text[d]);
    assert text[d..d + 1] == [text[d]];
    assert r != d;
    CloseStaysNegative(text, d, r + 1);
    assert text[r..d + 1] == [text[r]] + text[r + 1..d + 1];
    BalanceAppend([text[r]], text[r + 1..d + 1]);
    BalanceOne(text[r]);
  }

  // ------------------------------------------------------------ the caret

  /** The character under the caret, 0 at the end of the text. */
  function CharOn(text: string, dot: nat): char
  {
    if dot >= |text| then '\0' else text[dot]
  }

  /** The character before the caret, 0 at the start of the text. */
  function CharBefore(text: string, dot: nat): char
  {
    if dot == 0 || dot > |text| then '\0' else text[dot - 1]
  }

  /**
   * The begin and end the caret handler computes, -1 for none: an opener
   * under the caret is matched forwards, otherwise a closer before the
   * caret is matched backwards.
   */
  function CaretRange(text: string, dot: nat): (range: (int, int))
    requires dot <= |text|
  {
    if IsOpen(CharOn(text, dot)) then (dot, MatchClose(text, dot) + 1)
    else if IsClose(CharBefore(text, dot)) then (MatchOpen(text, dot - 1), dot)
    else (-1, -1)
  }

  /** The highlight set for a begin and end: the stretch when both exist, otherwise the empty one at 0. */
  function Highlight(range: (int, int)): (h: (int, int))
    ensures h == range || h == (0, 0)
    ensures range.0 != -1 && range.1 != -1 <==> h == range
  {
    if range.0 != -1 && range.1 != -1 then range else (0, 0)
  }

  /** The caret handler's computation of the stretch to highlight. */
  method CaretUpdate(text: string, dot: nat) returns (begin: int, end: int)
    requires dot <= |text|
    ensures (begin, end) == Highlight(CaretRange(text, dot))
  {
    var charOn := if dot == |text| then '\0' else text[dot];
    var charBefore := if dot == 0 then '\0' else text[dot - 1];
    begin := -1;
    end := -1;
    if IsOpen(charOn) {
      var m := FindMatchingClose(text, dot);
      end := m + 1;
      begin := dot;
    } else if IsClose(charBefore) {
      end := dot;
      begin := FindMatchingOpen(text, dot - 1);
    }
    if !(begin != -1 && end != -1) {
      begin, end := 0, 0;
    }
  }

  // ------------------------------------------------------------ properties

  /**
   * A highlighted stretch that is not empty runs from an opener to a
   * closer and is balanced.
   */
  lemma HighlightIsPair(text: string, dot: nat)
    requires dot <= |text|
    ensures var (b, e) := Highlight(CaretRange(text, dot));
      b < e ==> 0 <= b && e <= |text| && IsOpen(text[b]) && IsClose(text[e - 1]) && Balance(text[b..e]) == 0
  {
    if IsOpen(CharOn(text, dot)) {
      if MatchClose(text, dot) != -1 {
        MatchCloseLeast(text, dot);
        MatchCloseIsCloser(text, dot);
      }
    } else if IsClose(CharBefore(text, dot)) {
      if MatchOpen(text, dot - 1) != -1 {
        MatchOpenGreatest(text, dot - 1);
        MatchOpenIsOpener(text, dot - 1);
      }
    }
  }

  /** An opener under the caret wins over a closer just before it. */
  lemma OpenerFirst(text: string, dot: nat)
    requires 0 < dot < |text| && IsOpen(text[dot]) && IsClose(text[dot - 1])
    ensures CaretRange(text, dot).0 == dot
    ensures CaretRange("()()", 2) == (2, 4)
  {
    assert "()()"[2..4] == "()";
    assert "()()"[2..3] == "(";
    BalanceOne('(');
    assert "()"[..1] == "(";
  }

  /** The kinds are not compared: "{" is closed by ")". */
  lemma KindsIgnored()
    ensures Highlight(CaretRange("{x)", 0)) == (0, 3)
    ensures Highlight(CaretRange("{x)", 3)) == (0, 3)
  {
    var t := "{x)";
    assert t[0..1] == "{" && t[0..2] == "{x" && t[0..3] == t;
    assert t[2..3] == ")" && t[1..3] == "x)";
    assert "{x"[..1] == "{" && "x)"[..1] == "x" && t[..2] == "{x";
    assert "x"[..0] == "" && "{"[..0] == "" && ")"[..0] == "";
  }

  /** Angle brackets are plain characters: nothing is highlighted around "<x>". */
  lemma AnglesIgnored(dot: nat)
    requires dot <= 3
    ensures Highlight(CaretRange("<x>", dot)) == (0, 0)
  {
    var t := "<x>";
    assert !IsOpen(t[0]) && !IsOpen(t[1]) && !IsOpen(t[2]);
    assert !IsClose(t[0]) && !IsClose(t[1]) && !IsClose(t[2]);
    NoBracketsNoHighlight(t, dot);
  }

  /** A text without brackets has nothing highlighted, wherever the caret is. */
  lemma NoBracketsNoHighlight(text: string, dot: nat)
    requires dot <= |text|
    requires forall i :: 0 <= i < |text| ==> !IsOpen(text[i]) && !IsClose(text[i])
    ensures CaretRange(text, dot) == (-1, -1) && Highlight(CaretRange(text, dot)) == (0, 0)
  {
    assert !IsOpen(CharOn(text, dot)) && !IsClose(CharBefore(text, dot));
  }

  // ------------------------------------------------------------ the unmatched opener

  /**
   * As written, an opener without partner gives end -1 + 1 = 0, so the
   * pair (dot, 0) passes the test for "both found" and is highlighted, in
   * breach of the handler's own assertion that begin < end.
   */
  lemma UnmatchedOpenerKept(text: string, dot: nat)
    requires dot < |text| && IsOpen(text[dot]) && MatchClose(text, dot) == -1
    ensures Highlight(CaretRange(text, dot)) == (dot, 0)
    ensures Highlight(CaretRange("a(", 1)) == (1, 0)
  {
    assert "a("[1..2] == "(";
    BalanceOne('(');
  }

  /** The caret handler as evidently intended: no partner, no end. */
  function IntendedCaretRange(text: string, dot: nat): (int, int)
    requires dot <= |text|
  {
    if IsOpen(CharOn(text, dot)) then
      var m := MatchClose(text, dot);
      (dot, if m == -1 then -1 else m + 1)
    else CaretRange(text, dot)
  }

  /**
   * With the intended end, whatever is highlighted keeps begin < end, and
   * an opener without partner clears the highlight.
   */
  lemma IntendedKeepsOrder(text: string, dot: nat)
    requires dot <= |text|
    ensures var (b, e) := Highlight(IntendedCaretRange(text, dot));
      (b, e) == (0, 0) || (0 <= b < e <= |text| && IsOpen(text[b]) && IsClose(text[e - 1]) && Balance(text[b..e]) == 0)
    ensures dot < |text| && IsOpen(text[dot]) && MatchClose(text, dot) == -1 ==>
      Highlight(IntendedCaretRange(text, dot)) == (0, 0)
  {
    if IsOpen(CharOn(text, dot)) {
      if MatchClose(text, dot) != -1 {
        MatchCloseLeast(text, dot);
        MatchCloseIsCloser(text, dot);
      }
    } else if IsClose(CharBefore(text, dot)) {
      if MatchOpen(text, dot - 1) != -1 {
        MatchOpenGreatest(text, dot - 1);
        MatchOpenIsOpener(text, dot - 1);
      }
    }
  }
}
