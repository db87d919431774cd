/**
 * The few JavaScript string operations the formatter and the budget manager
 * use, over strings as ECMAScript defines them: sequences of UTF-16 code
 * units. `length`, `substring` offsets and selection offsets all count code
 * units, so a styled letter outside the Basic Multilingual Plane counts two.
 */
module JsText {
  import opened Wrappers

  newtype CodeUnit = x: int | 0 <= x < 0x1_0000
  type JsString = seq<CodeUnit>

  const TAB: CodeUnit := 0x09
  const LF: CodeUnit := 0x0A
  const CR: CodeUnit := 0x0D
  const SPACE: CodeUnit := 0x20
  const PLUS: CodeUnit := 0x2B
  const MINUS: CodeUnit := 0x2D
  const ZERO: CodeUnit := 0x30

  /**
   * A string literal of the source as the code units a JavaScript engine
   * holds. Every literal the model uses lies in the Basic Multilingual
   * Plane, where each character is the one code unit of the same value;
   * a character beyond it would take two and is not a literal this model
   * writes.
   */
  function Bmp(s: string): (r: JsString)
    ensures |r| == |s|
  {
    seq(|s|, i requires 0 <= i < |s| => (s[i] as int % 0x1_0000) as CodeUnit)
  }

  /**
   * WhiteSpace or LineTerminator (ECMA-262, sections 12.2 and 12.3): the set
   * that String.prototype.trim removes, that the regular-expression class \s
   * matches and that parseInt skips.
   */
  predicate IsWhiteSpace(c: CodeUnit)
  {
    || c == TAB || c == 0x0B || c == 0x0C || c == SPACE || c == 0xA0 || c == 0xFEFF
    || c == 0x1680 || (0x2000 <= c <= 0x200A) || c == 0x202F || c == 0x205F || c == 0x3000
    || c == LF || c == CR || c == 0x2028 || c == 0x2029
  }

  predicate AllWhiteSpace(s: JsString)
  {
    forall i :: 0 <= i < |s| ==> IsWhiteSpace(s[i])
  }

  /** `s.trimStart()`: drops the leading white space and nothing else. */
  function TrimStart(s: JsString): (r: JsString)
    ensures |r| <= |s| && r == s[|s| - |r|..]
    ensures AllWhiteSpace(s[..|s| - |r|])
    ensures r != [] ==> !IsWhiteSpace(r[0])
  {
    if s != [] && IsWhiteSpace(s[0]) then TrimStart(s[1..]) else s
  }

  /** `s.trimEnd()`: drops the trailing white space and nothing else. */
  function TrimEnd(s: JsString): (r: JsString)
    ensures |r| <= |s| && r == s[..|r|]
    ensures AllWhiteSpace(s[|r|..])
    ensures r != [] ==> !IsWhiteSpace(r[|r| - 1])
  {
    if s != [] && IsWhiteSpace(s[|s| - 1]) then TrimEnd(s[..|s| - 1]) else s
  }

  /**
   * `s.trim()` (String.prototype.trim, ECMA-262 TrimString with where =
   * start+end): trimEnd of what trimStart keeps, which is the text from its
   * first visible code unit on (`TrimStartFrom`).
   */
  function Trim(s: JsString): (r: JsString)
    ensures r == [] <==> AllWhiteSpace(s)
    ensures r != [] ==> !IsWhiteSpace(r[0]) && !IsWhiteSpace(r[|r| - 1])
    ensures var i := FirstNonWhiteSpace(s);
      && i + |r| <= |s| && r == s[i..i + |r|]
      && AllWhiteSpace(s[..i]) && AllWhiteSpace(s[i + |r|..])
  {
    var i := FirstNonWhiteSpace(s);
    var t := s[i..];
    assert t != [] ==> t[0] == s[i];
    TrimFacts(s, i, t, TrimEnd(t));
    TrimEnd(t)
  }

  /**
   * A white-space prefix of length `i`, then `t` starting with a visible
   * code unit, of which `r` is a prefix followed only by white space: `r`
   * is the slice of `s` from `i`, and it is empty exactly when `s` is all
   * white space.
   */
  lemma TrimFacts(s: JsString, i: nat, t: JsString, r: JsString)
    requires i <= |s| && t == s[i..] && AllWhiteSpace(s[..i])
    requires t != [] ==> !IsWhiteSpace(t[0])
    requires |r| <= |t| && r == t[..|r|] && AllWhiteSpace(t[|r|..])
    requires r != [] ==> !IsWhiteSpace(r[|r| - 1])
    ensures i + |r| <= |s| && r == s[i..i + |r|] && AllWhiteSpace(s[i + |r|..])
    ensures r == [] <==> AllWhiteSpace(s)
    ensures r != [] ==> !IsWhiteSpace(r[0]) && !IsWhiteSpace(r[|r| - 1])
  {
    assert s[i + |r|..] == t[|r|..];
    if r == [] {
      assert t[|r|..] == t;
      assert t == [];
      assert s[..i] == s;
    } else {
      assert s[i] == t[0] == r[0];
    }
  }

  /** `trim` is `trimStart` followed by `trimEnd`. */
  lemma TrimIsBothEnds(s: JsString)
    ensures Trim(s) == TrimEnd(TrimStart(s))
  {
    TrimStartFrom(s);
  }

  /** What trimStart keeps starts at the first code unit that is not white space. */
  lemma {:induction false} TrimStartFrom(s: JsString)
    ensures TrimStart(s) == s[FirstNonWhiteSpace(s)..]
  {
    if s != [] && IsWhiteSpace(s[0]) {
      TrimStartFrom(s[1..]);
      assert s[1..][FirstNonWhiteSpace(s[1..])..] == s[1 + FirstNonWhiteSpace(s[1..])..];
    }
  }

  function Min(a: int, b: int): int { if a <= b then a else b }
  function Max(a: int, b: int): int { if a <= b then b else a }

  /**
   * `s.substring(start, end)` for non-negative offsets: both are clamped to
   * the length, and they are swapped when `start` exceeds `end`.
   */
  function Substring(s: JsString, start: nat, end: nat): (r: JsString)
    ensures start <= end <= |s| ==> r == s[start..end]
    ensures end <= start <= |s| ==> r == s[end..start]
    ensures |s| <= start && |s| <= end ==> r == []
    ensures start <= |s| <= end ==> r == s[start..]
    ensures end <= |s| <= start ==> r == s[end..]
    ensures |r| <= |s|
  {
    var a, b := Min(start, |s|), Min(end, |s|);
    s[Min(a, b)..Max(a, b)]
  }

  /** The index of the first white-space code unit of `s`, or `|s|`. */
  function FirstWhiteSpace(s: JsString): (i: nat)
    ensures i <= |s|
    ensures forall k :: 0 <= k < i ==> !IsWhiteSpace(s[k])
    ensures i < |s| ==> IsWhiteSpace(s[i])
  {
    if s == [] || IsWhiteSpace(s[0]) then 0 else 1 + FirstWhiteSpace(s[1..])
  }

  /** The index of the first non-white-space code unit of `s`, or `|s|`. */
  function FirstNonWhiteSpace(s: JsString): (i: nat)
    ensures i <= |s|
    ensures AllWhiteSpace(s[..i])
    ensures i < |s| ==> !IsWhiteSpace(s[i])
  {
    if s == [] || !IsWhiteSpace(s[0]) then 0 else 1 + FirstNonWhiteSpace(s[1..])
  }

  predicate NoWhiteSpace(s: JsString)
  {
    forall i :: 0 <= i < |s| ==> !IsWhiteSpace(s[i])
  }

  /** `pieces[0] + gaps[0] + pieces[1] + ... + gaps[n - 1] + pieces[n]`. */
  function Weave(pieces: seq<JsString>, gaps: seq<JsString>): JsString
    requires |pieces| == |gaps| + 1
    decreases |gaps|
  {
    if gaps == [] then pieces[0] else pieces[0] + gaps[0] + Weave(pieces[1..], gaps[1..])
  }

  /** The words have no white space, the runs are non-empty white space, and no word between two runs is empty. */
  predicate WordsAndRuns(pieces: seq<JsString>, gaps: seq<JsString>)
  {
    && |pieces| == |gaps| + 1
    && (forall k :: 0 <= k < |pieces| ==> NoWhiteSpace(pieces[k]))
    && (forall k :: 0 <= k < |gaps| ==> gaps[k] != [] && AllWhiteSpace(gaps[k]))
    && (forall k :: 0 < k < |gaps| ==> pieces[k] != [])
  }

  /**
   * `s` read as words without white space, separated by non-empty runs of
   * white space `gaps`; a word between two runs is never empty, so each
   * run is a maximal one.
   */
  predicate IsWhiteSpaceSplit(s: JsString, pieces: seq<JsString>, gaps: seq<JsString>)
  {
    WordsAndRuns(pieces, gaps) && s == Weave(pieces, gaps)
  }

  lemma WeaveCons(w: JsString, g: JsString, pieces: seq<JsString>, gaps: seq<JsString>)
    requires |pieces| == |gaps| + 1
    ensures Weave([w] + pieces, [g] + gaps) == w + g + Weave(pieces, gaps)
  {
    assert ([w] + pieces)[1..] == pieces && ([g] + gaps)[1..] == gaps;
  }

  /** A woven text whose first word is not empty starts with that word's first code unit. */
  lemma WeaveHead(pieces: seq<JsString>, gaps: seq<JsString>)
    requires |pieces| == |gaps| + 1 && pieces[0] != []
    ensures Weave(pieces, gaps) != [] && Weave(pieces, gaps)[0] == pieces[0][0]
  {
  }

  lemma WordsAndRunsCons(w: JsString, g: JsString, pieces: seq<JsString>, gaps: seq<JsString>)
    requires |pieces| == |gaps| + 1
    ensures WordsAndRuns([w] + pieces, [g] + gaps) <==>
      && NoWhiteSpace(w) && g != [] && AllWhiteSpace(g)
      && (gaps != [] ==> pieces[0] != [])
      && WordsAndRuns(pieces, gaps)
  {
    var p, q := [w] + pieces, [g] + gaps;
    assert forall k :: 0 < k < |p| ==> p[k] == pieces[k - 1];
    assert forall k :: 0 < k < |q| ==> q[k] == gaps[k - 1];
    if WordsAndRuns(p, q) {
      assert p[0] == w && q[0] == g;
      assert forall k :: 0 <= k < |pieces| ==> pieces[k] == p[k + 1];
      assert forall k :: 0 <= k < |gaps| ==> gaps[k] == q[k + 1];
    }
  }

  /**
   * `s.split(/\s+/)`: the pieces between the maximal runs of white space.
   * A leading or trailing run gives an empty first or last piece, and the
   * empty string gives one empty piece, as in JavaScript.
   */
  function SplitOnWhiteSpace(s: JsString): (pieces: seq<JsString>)
    ensures |pieces| >= 1
    ensures forall k, i :: 0 <= k < |pieces| && 0 <= i < |pieces[k]| ==> !IsWhiteSpace(pieces[k][i])
    decreases |s|
  {
    var i := FirstWhiteSpace(s);
    if i == |s| then [s]
    else
      var j := i + FirstNonWhiteSpace(s[i..]);
      assert j > i;
      [s[..i]] + SplitOnWhiteSpace(s[j..])
  }

  /** The split's pieces, with the runs of white space between them woven back in, are `s`. */
  lemma {:induction false} SplitIsWeave(s: JsString)
    ensures exists gaps :: IsWhiteSpaceSplit(s, SplitOnWhiteSpace(s), gaps)
    decreases |s|
  {
    var i := FirstWhiteSpace(s);
    if i == |s| {
      assert SplitOnWhiteSpace(s) == [s];
      assert NoWhiteSpace(s);
      assert IsWhiteSpaceSplit(s, [s], []);
    } else {
      var j := i + FirstNonWhiteSpace(s[i..]);
      SplitIsWeave(s[j..]);
      SplitStep(s, i, j);
      FirstRun(s, i, j);
      Split3(s, i, j);
      WeaveOneMore(s[..i], s[i..j], s[j..], SplitOnWhiteSpace(s[j..]));
    }
  }

  /** A word, a run of white space, then any reading of what follows as words and runs. */
  lemma WeaveOneMore(w: JsString, run: JsString, t: JsString, rest: seq<JsString>)
    requires NoWhiteSpace(w) && run != [] && AllWhiteSpace(run)
    requires t != [] ==> !IsWhiteSpace(t[0])
    requires exists gaps :: IsWhiteSpaceSplit(t, rest, gaps)
    ensures exists gaps :: IsWhiteSpaceSplit(w + run + t, [w] + rest, gaps)
  {
    var g :| IsWhiteSpaceSplit(t, rest, g);
    WeaveCons(w, run, rest, g);
    if g != [] && rest[0] == [] {
      WeaveStartsWithRun(rest, g);
      assert false;
    }
    WordsAndRunsCons(w, run, rest, g);
    assert IsWhiteSpaceSplit(w + run + t, [w] + rest, [run] + g);
  }

  /** Around the first run of white space: the word before it, the run, and what follows it. */
  lemma FirstRun(s: JsString, i: nat, j: nat)
    requires i == FirstWhiteSpace(s) < |s|
    requires j == i + FirstNonWhiteSpace(s[i..])
    ensures j <= |s| && NoWhiteSpace(s[..i])
    ensures s[i..j] != [] && AllWhiteSpace(s[i..j])
    ensures s[j..] != [] ==> !IsWhiteSpace(s[j..][0])
  {
    forall k | 0 <= k < j - i ensures IsWhiteSpace(s[i..j][k]) {
      assert s[i..j][k] == s[i..][..j - i][k];
    }
    if j < |s| {
      assert s[j..][0] == s[i..][j - i];
    }
  }

  lemma Split3(s: JsString, i: nat, j: nat)
    requires i <= j <= |s|
    ensures s == s[..i] + s[i..j] + s[j..]
  {
    assert s[..j] == s[..i] + s[i..j];
    assert s == s[..j] + s[j..];
  }

  /** A woven text whose first word is empty starts with white space. */
  lemma WeaveStartsWithRun(pieces: seq<JsString>, gaps: seq<JsString>)
    requires WordsAndRuns(pieces, gaps) && gaps != [] && pieces[0] == []
    ensures Weave(pieces, gaps) != [] && IsWhiteSpace(Weave(pieces, gaps)[0])
  {
    assert Weave(pieces, gaps) == pieces[0] + gaps[0] + Weave(pieces[1..], gaps[1..]);
    assert gaps[0] != [] && AllWhiteSpace(gaps[0]);
  }

  /** A reading of `s` as words and maximal runs of white space is the one split(/\s+/) gives. */
  lemma {:induction false} SplitUnique(s: JsString, pieces: seq<JsString>, gaps: seq<JsString>)
    requires IsWhiteSpaceSplit(s, pieces, gaps)
    ensures pieces == SplitOnWhiteSpace(s)
    decreases |gaps|
  {
    var w := pieces[0];
    if gaps == [] {
      FirstWhiteSpaceAt(s, |s|);
    } else {
      var g, rest, gs := gaps[0], pieces[1..], gaps[1..];
      assert pieces == [w] + rest && gaps == [g] + gs;
      WordsAndRunsCons(w, g, rest, gs);
      var tail := Weave(rest, gs);
      WeaveCons(w, g, rest, gs);
      assert s == w + g + tail;
      assert s[..|w|] == w;
      assert s[|w|] == g[0];
      FirstWhiteSpaceAt(s, |w|);
      var j := |w| + |g|;
      assert s[|w|..] == g + tail;
      if rest[0] != [] {
        WeaveHead(rest, gs);
      } else {
        assert tail == [];
      }
      assert (g + tail)[..|g|] == g;
      FirstNonWhiteSpaceAt(g + tail, |g|);
      assert s[j..] == tail;
      SplitUnique(tail, rest, gs);
      SplitStep(s, |w|, j);
    }
  }

  /** The first white space is at `i` when nothing before `i` is white space and `s[i]` is (or `i` is the end). */
  lemma {:induction false} FirstWhiteSpaceAt(s: JsString, i: nat)
    requires i <= |s| && NoWhiteSpace(s[..i]) && (i < |s| ==> IsWhiteSpace(s[i]))
    ensures FirstWhiteSpace(s) == i
  {
    if i > 0 {
      assert s[..i][0] == s[0];
      assert s[1..][..i - 1] == s[..i][1..];
      FirstWhiteSpaceAt(s[1..], i - 1);
    }
  }

  lemma {:induction false} FirstNonWhiteSpaceAt(s: JsString, i: nat)
    requires i <= |s| && AllWhiteSpace(s[..i]) && (i < |s| ==> !IsWhiteSpace(s[i]))
    ensures FirstNonWhiteSpace(s) == i
  {
    if i > 0 {
      assert s[..i][0] == s[0];
      assert s[1..][..i - 1] == s[..i][1..];
      FirstNonWhiteSpaceAt(s[1..], i - 1);
    }
  }

  /** One step of the split: the piece before the first run of white space, then the split of what follows the run. */
  lemma SplitStep(s: JsString, i: nat, j: nat)
    requires i == FirstWhiteSpace(s) < |s|
    requires j == i + FirstNonWhiteSpace(s[i..])
    ensures SplitOnWhiteSpace(s) == [s[..i]] + SplitOnWhiteSpace(s[j..])
  {
  }

  predicate IsDecimalDigit(c: CodeUnit) { ZERO <= c <= 0x39 }

  predicate AllDigits(s: JsString)
  {
    forall i :: 0 <= i < |s| ==> IsDecimalDigit(s[i])
  }

  /** The length of the longest prefix of `s` made of decimal digits. */
  function DigitPrefixLength(s: JsString): (n: nat)
    ensures n <= |s| && AllDigits(s[..n])
    ensures n < |s| ==> !IsDecimalDigit(s[n])
  {
    if s == [] || !IsDecimalDigit(s[0]) then 0 else 1 + DigitPrefixLength(s[1..])
  }

  /** The value of a string of decimal digits, most significant first. */
  function DecimalValue(d: JsString): nat
    requires AllDigits(d)
  {
    if d == [] then 0 else 10 * DecimalValue(d[..|d| - 1]) + (d[|d| - 1] - ZERO) as int
  }

  /** The value of the longest prefix of decimal digits, or `None` when there is none. */
  function ParseDigits(u: JsString): Option<nat>
  {
    var n := DigitPrefixLength(u);
    if n == 0 then None else Some(DecimalValue(u[..n]))
  }

  /**
   * `parseInt(s, 10)` (ECMA-262, section 19.2.5): skip leading white space,
   * take an optional sign, then the longest run of decimal digits; `None`
   * stands for NaN, returned when that run is empty. parseInt("-0") is -0 in
   * JavaScript; here it is 0, which every caller treats the same way.
   */
  function ParseInt(s: JsString): (r: Option<int>)
  {
    ParseSigned(TrimStart(s))
  }

  /** parseInt after the white space: an optional sign, then the digits. */
  function ParseSigned(t: JsString): Option<int>
  {
    if |t| > 0 && t[0] == MINUS then
      match ParseDigits(t[1..])
      case None => None
      case Some(v) => Some(-(v as int))
    else if |t| > 0 && t[0] == PLUS then
      match ParseDigits(t[1..])
      case None => None
      case Some(v) => Some(v as int)
    else
      match ParseDigits(t)
      case None => None
      case Some(v) => Some(v as int)
  }

  function DigitOf(d: nat): CodeUnit
    requires d < 10
  {
    (ZERO as int + d) as CodeUnit
  }

  /** The shortest decimal spelling of `n`, as String(n) gives it. */
  function DecimalString(n: nat): (r: JsString)
    ensures |r| >= 1 && AllDigits(r)
  {
    if n < 10 then [DigitOf(n)] else DecimalString(n / 10) + [DigitOf(n % 10)]
  }

  lemma {:induction false} DecimalValueOfDecimalString(n: nat)
    ensures DecimalValue(DecimalString(n)) == n
  {
    if n >= 10 {
      var r := DecimalString(n);
      assert r[..|r| - 1] == DecimalString(n / 10);
      DecimalValueOfDecimalString(n / 10);
    }
  }

  /** parseInt reads back every non-negative integer written in decimal. */
  lemma ParseIntDecimalString(n: nat)
    ensures ParseInt(DecimalString(n)) == Some(n)
  {
    var d := DecimalString(n);
    ParseDigitsOfDigits(d, []);
    assert d + [] == d;
    DecimalValueOfDecimalString(n);
  }

  /** parseInt reads a minus sign followed by digits as the negated value. */
  lemma ParseIntNegated(n: nat)
    ensures ParseInt([MINUS] + DecimalString(n)) == Some(-(n as int))
  {
    var d := DecimalString(n);
    var s := [MINUS] + d;
    TrimStartKeeps(s);
    assert s[1..] == d + [];
    ParseDigitsOfDigits(d, []);
    DecimalValueOfDecimalString(n);
  }

  /** parseInt ignores leading white space. */
  lemma ParseIntSkipsWhiteSpace(w: JsString, s: JsString)
    requires AllWhiteSpace(w)
    ensures ParseInt(w + s) == ParseInt(s)
  {
    TrimStartSkips(w, s);
  }

  /** parseInt stops at the first code unit after the digits that is not a digit ("12.5" reads as 12). */
  lemma ParseIntStopsAtNonDigit(d: JsString, rest: JsString)
    requires |d| > 0 && AllDigits(d)
    requires rest != [] ==> !IsDecimalDigit(rest[0])
    ensures ParseInt(d + rest) == Some(DecimalValue(d) as int)
  {
    ParseDigitsOfDigits(d, rest);
  }

  /** Digits followed by anything that does not start with a digit: the digits' value, with nothing to trim and no sign. */
  lemma ParseDigitsOfDigits(d: JsString, rest: JsString)
    requires |d| > 0 && AllDigits(d)
    requires rest != [] ==> !IsDecimalDigit(rest[0])
    ensures ParseDigits(d + rest) == Some(DecimalValue(d))
    ensures TrimStart(d + rest) == d + rest
    ensures (d + rest)[0] != MINUS && (d + rest)[0] != PLUS
  {
    var s := d + rest;
    assert s[0] == d[0];
    assert IsDecimalDigit(s[0]);
    DigitPrefixSplit(d, rest);
    assert s[..|d|] == d;
  }

  lemma {:induction false} DigitPrefixAll(d: JsString)
    requires AllDigits(d)
    ensures DigitPrefixLength(d) == |d|
  {
    if d != [] {
      DigitPrefixAll(d[1..]);
    }
  }

  lemma {:induction false} DigitPrefixSplit(d: JsString, rest: JsString)
    requires AllDigits(d)
    requires rest != [] ==> !IsDecimalDigit(rest[0])
    ensures DigitPrefixLength(d + rest) == |d|
  {
    if d != [] {
      assert (d + rest)[1..] == d[1..] + rest;
      DigitPrefixSplit(d[1..], rest);
    } else {
      assert d + rest == rest;
    }
  }

  lemma TrimStartKeeps(s: JsString)
    requires s != [] && !IsWhiteSpace(s[0])
    ensures TrimStart(s) == s
  {
  }

  lemma {:induction false} TrimStartSkips(w: JsString, s: JsString)
    requires AllWhiteSpace(w)
    ensures TrimStart(w + s) == TrimStart(s)
  {
    if w == [] {
      assert w + s == s;
    } else {
      assert (w + s)[1..] == w[1..] + s;
      TrimStartSkips(w[1..], s);
    }
  }
}
