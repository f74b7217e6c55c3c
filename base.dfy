/**
 * Definitions shared by several parts of the model: an optional value,
 * machine integer widths, decimal digit strings, and the splitting of a
 * character string into tokens by delimiter characters (the common core
 * of the logger's strtok and of the tokenizer used by the command parser).
 */
module Base {

  datatype Option<T> = None | Some(value: T)

  /** An unsigned 8-bit value, as stored in a `uint8_t` or an EEPROM byte. */
  newtype u8 = x: int | 0 <= x < 256

  const TWO_POW_16: nat := 0x1_0000
  const TWO_POW_32: nat := 0x1_0000_0000

  /** Conversion to `uint8_t`: keep the value modulo 2^8. */
  function ToU8(x: int): (r: u8)
    ensures 0 <= x < 256 ==> r as int == x
    ensures (x - r as int) % 256 == 0
  {
    (x % 256) as u8
  }

  function Min(a: int, b: int): (r: int)
    ensures r <= a && r <= b && (r == a || r == b)
  {
    if a <= b then a else b
  }

  /** `n` copies of `x`. */
  function Repeat<T>(x: T, n: nat): (r: seq<T>)
    ensures |r| == n
    ensures forall i :: 0 <= i < n ==> r[i] == x
  {
    if n == 0 then [] else Repeat(x, n - 1) + [x]
  }

  // ---------------------------------------------------------------------
  // C character strings
  // ---------------------------------------------------------------------

  /** Writing `s` into a fixed-capacity string keeps its first `cap` characters. */
  function Clip(s: string, cap: nat): (r: string)
    ensures |r| == Min(|s|, cap) && r == s[..|r|]
  {
    s[..Min(|s|, cap)]
  }

  /** The text of a C string: the characters before the first NUL. */
  function CText(text: string): (r: string)
    ensures r <= text && '\0' !in r
    ensures |r| < |text| ==> text[|r|] == '\0'
  {
    if text == [] || text[0] == '\0' then [] else [text[0]] + CText(text[1..])
  }

  /** A text without NUL is its own C string. */
  lemma {:induction false} CTextOfPlain(t: string)
    requires forall k :: 0 <= k < |t| ==> t[k] != '\0'
    ensures CText(t) == t
    decreases |t|
  {
    if t != [] {
      assert forall k :: 0 <= k < |t[1..]| ==> t[1..][k] == t[k + 1];
      CTextOfPlain(t[1..]);
    }
  }

  // ---------------------------------------------------------------------
  // Decimal digits
  // ---------------------------------------------------------------------

  predicate IsDigit(c: char)
  {
    '0' <= c <= '9'
  }

  predicate AllDigits(s: string)
  {
    forall i :: 0 <= i < |s| ==> IsDigit(s[i])
  }

  function DigitChar(d: nat): (c: char)
    requires d < 10
    ensures IsDigit(c) && c as int - '0' as int == d
  {
    ('0' as int + d) as char
  }

  /** The value of a string of decimal digits (as `strtoul` reads it, unbounded). */
  function DigitsValue(s: string): nat
    requires AllDigits(s)
  {
    if s == [] then 0 else DigitsValue(s[..|s| - 1]) * 10 + (s[|s| - 1] as int - '0' as int)
  }

  /** The decimal representation of `n` without leading zeros ("0" for zero). */
  function Decimal(n: nat): (s: string)
    ensures AllDigits(s) && |s| > 0
    ensures n < 10 ==> |s| == 1
    ensures 10 <= n < 100 ==> |s| == 2
  {
    if n < 10 then [DigitChar(n)] else Decimal(n / 10) + [DigitChar(n % 10)]
  }

  /** `n` printed with at least two digits, as by the `%.2u` conversion. */
  function Decimal2(n: nat): (s: string)
    ensures AllDigits(s) && |s| >= 2
    ensures n < 100 ==> |s| == 2
  {
    if n < 10 then ['0', DigitChar(n)] else Decimal(n)
  }

  /** Reading back a printed number gives the number. */
  lemma {:induction false} DigitsValueDecimal(n: nat)
    ensures DigitsValue(Decimal(n)) == n
  {
    if n >= 10 {
      DigitsValueDecimal(n / 10);
      var s := Decimal(n);
      assert s[..|s| - 1] == Decimal(n / 10);
    }
  }

  lemma DigitsValueDecimal2(n: nat)
    ensures DigitsValue(Decimal2(n)) == n
  {
    if n < 10 {
      var s := Decimal2(n);
      assert s[..1] == ['0'];
      assert DigitsValue(['0']) == 0 by {
        assert ['0'][..0] == [];
      }
    } else {
      DigitsValueDecimal(n);
    }
  }

  lemma {:induction false} DigitsValueAppend(s: string, t: string)
    requires AllDigits(s) && AllDigits(t)
    ensures AllDigits(s + t)
    ensures DigitsValue(s + t) == DigitsValue(s) * Pow10(|t|) + DigitsValue(t)
  {
    if t == [] {
      assert s + t == s;
    } else {
      var t', u := t[..|t| - 1], s + t;
      assert u[..|u| - 1] == s + t';
      DigitsValueAppend(s, t');
      assert u[|u| - 1] == t[|t| - 1];
      Regroup(DigitsValue(s), Pow10(|t'|), DigitsValue(t'), t[|t| - 1] as int - '0' as int);
    }
  }

  /** One more digit after a shifted prefix: `(a * p + b) * 10 + d` regrouped. */
  lemma Regroup(a: int, p: int, b: int, d: int)
    ensures (a * p + b) * 10 + d == a * (10 * p) + (b * 10 + d)
  {
  }

  function Pow10(k: nat): (r: nat)
    ensures r >= 1
  {
    if k == 0 then 1 else 10 * Pow10(k - 1)
  }

  // ---------------------------------------------------------------------
  // Token spans: a string cut at delimiter characters
  // ---------------------------------------------------------------------

  /**
   * The first position at or after `i` holding a character that is not in
   * `drop`, or `|s|` when there is none.
   */
  function SkipDelims(s: string, drop: seq<char>, i: nat): (j: nat)
    requires i <= |s|
    ensures i <= j <= |s|
    ensures forall k :: i <= k < j ==> s[k] in drop
    ensures j < |s| ==> s[j] !in drop
    decreases |s| - i
  {
    if i == |s| || s[i] !in drop then i else SkipDelims(s, drop, i + 1)
  }

  /**
   * The end of the run of characters starting at `i` that are neither in
   * `drop` nor in `keep`.
   */
  function RunEnd(s: string, drop: seq<char>, keep: seq<char>, i: nat): (j: nat)
    requires i <= |s|
    ensures i <= j <= |s|
    ensures forall k :: i <= k < j ==> s[k] !in drop && s[k] !in keep
    ensures j < |s| ==> s[j] in drop || s[j] in keep
    decreases |s| - i
  {
    if i == |s| || s[i] in drop || s[i] in keep then i else RunEnd(s, drop, keep, i + 1)
  }

  /** A token: the half-open range `[start, end)` of the input string. */
  datatype Span = Span(start: nat, end: nat)

  /**
   * The tokens of `s` from position `i` on: characters in `drop` separate
   * tokens and are discarded, a character in `keep` is a token of its own,
   * and every other maximal run of characters is a token.
   */
  function Spans(s: string, drop: seq<char>, keep: seq<char>, i: nat): (r: seq<Span>)
    requires i <= |s|
    ensures forall k :: 0 <= k < |r| ==> i <= r[k].start < r[k].end <= |s|
    decreases |s| - i
  {
    var j := SkipDelims(s, drop, i);
    if j == |s| then []
    else if s[j] in keep then [Span(j, j + 1)] + Spans(s, drop, keep, j + 1)
    else
      var e := RunEnd(s, drop, keep, j);
      [Span(j, e)] + Spans(s, drop, keep, e)
  }

  /** The text of each span. */
  function Texts(s: string, spans: seq<Span>): (r: seq<string>)
    requires forall k :: 0 <= k < |spans| ==> spans[k].start <= spans[k].end <= |s|
    ensures |r| == |spans|
    ensures forall k :: 0 <= k < |spans| ==> r[k] == s[spans[k].start..spans[k].end]
  {
    if spans == [] then [] else [s[spans[0].start..spans[0].end]] + Texts(s, spans[1..])
  }

  /** The texts of a first span and of the spans after it. */
  lemma TextsCons(s: string, sp: Span, rest: seq<Span>)
    requires sp.start <= sp.end <= |s|
    requires forall k :: 0 <= k < |rest| ==> rest[k].start <= rest[k].end <= |s|
    ensures Texts(s, [sp] + rest) == [s[sp.start..sp.end]] + Texts(s, rest)
  {
    assert ([sp] + rest)[1..] == rest;
  }

  /**
   * What one token is, independently of how it is found: a non-empty range
   * of the input with no delimiter in it; a kept character stands alone,
   * and any other token is a maximal run free of kept characters, ended by
   * a delimiter, a kept character or the end of the input.
   */
  predicate TokenShape(s: string, drop: seq<char>, keep: seq<char>, sp: Span)
  {
    && sp.start < sp.end <= |s|
    && (forall m :: sp.start <= m < sp.end ==> s[m] !in drop)
    && (s[sp.start] in keep ==> sp.end == sp.start + 1)
    && (s[sp.start] !in keep ==>
          && (forall m :: sp.start <= m < sp.end ==> s[m] !in keep)
          && (sp.end < |s| ==> s[sp.end] in drop || s[sp.end] in keep))
  }

  /** The tokens from `i` on are well shaped, lie after `i`, and come in order. */
  lemma {:induction false} SpansShape(s: string, drop: seq<char>, keep: seq<char>, i: nat)
    requires i <= |s|
    ensures forall k :: 0 <= k < |Spans(s, drop, keep, i)| ==>
      i <= Spans(s, drop, keep, i)[k].start && TokenShape(s, drop, keep, Spans(s, drop, keep, i)[k])
    ensures forall k :: 0 <= k < |Spans(s, drop, keep, i)| - 1 ==>
      Spans(s, drop, keep, i)[k].end <= Spans(s, drop, keep, i)[k + 1].start
    decreases |s| - i
  {
    var j := SkipDelims(s, drop, i);
    if j < |s| {
      var e := FirstSpan(s, drop, keep, i);
      SpansShape(s, drop, keep, e);
      ShapedCons(s, drop, keep, Spans(s, drop, keep, i), Span(j, e), Spans(s, drop, keep, e), i);
    }
  }

  /** The first token from `i` on, when there is one, is well shaped and is followed by the tokens from its end. */
  lemma FirstSpan(s: string, drop: seq<char>, keep: seq<char>, i: nat) returns (e: nat)
    requires i <= |s| && SkipDelims(s, drop, i) < |s|
    ensures SkipDelims(s, drop, i) < e <= |s|
    ensures Spans(s, drop, keep, i) == [Span(SkipDelims(s, drop, i), e)] + Spans(s, drop, keep, e)
    ensures TokenShape(s, drop, keep, Span(SkipDelims(s, drop, i), e))
  {
    var j := SkipDelims(s, drop, i);
    e := if s[j] in keep then j + 1 else RunEnd(s, drop, keep, j);
  }

  /** A well-shaped token before well-shaped, ordered tokens that start after it gives well-shaped, ordered tokens. */
  lemma ShapedCons(s: string, drop: seq<char>, keep: seq<char>, sp: seq<Span>, first: Span, rest: seq<Span>, i: nat)
    requires sp == [first] + rest && i <= first.start && TokenShape(s, drop, keep, first)
    requires forall k :: 0 <= k < |rest| ==> first.end <= rest[k].start && TokenShape(s, drop, keep, rest[k])
    requires forall k :: 0 <= k < |rest| - 1 ==> rest[k].end <= rest[k + 1].start
    ensures forall k :: 0 <= k < |sp| ==> i <= sp[k].start && TokenShape(s, drop, keep, sp[k])
    ensures forall k :: 0 <= k < |sp| - 1 ==> sp[k].end <= sp[k + 1].start
  {
    forall k | 0 <= k < |sp|
      ensures i <= sp[k].start && TokenShape(s, drop, keep, sp[k])
    {
      if k > 0 {
        assert sp[k] == rest[k - 1];
      }
    }
    forall k | 0 <= k < |sp| - 1
      ensures sp[k].end <= sp[k + 1].start
    {
      assert sp[k + 1] == rest[k];
      if k > 0 {
        assert sp[k] == rest[k - 1];
      }
    }
  }

  /** Every character outside the delimiters belongs to some token. */
  lemma {:induction false} SpansCover(s: string, drop: seq<char>, keep: seq<char>, i: nat, m: nat)
    requires i <= m < |s| && s[m] !in drop
    ensures exists k :: (0 <= k < |Spans(s, drop, keep, i)|
      && Spans(s, drop, keep, i)[k].start <= m < Spans(s, drop, keep, i)[k].end)
    decreases |s| - i
  {
    var j := SkipDelims(s, drop, i);
    assert j <= m;
    var e := if s[j] in keep then j + 1 else RunEnd(s, drop, keep, j);
    var sp := Spans(s, drop, keep, i);
    assert sp[0] == Span(j, e);
    if m < e {
      assert sp[0].start <= m < sp[0].end;
    } else {
      SpansCover(s, drop, keep, e, m);
      var rest := Spans(s, drop, keep, e);
      assert sp == [Span(j, e)] + rest;
      var k :| 0 <= k < |rest| && rest[k].start <= m < rest[k].end;
      assert sp[k + 1] == rest[k];
    }
  }

  /** Tokens of a string that contains no delimiter and no kept character: the whole string, once. */
  lemma SpansOfPlainWord(s: string, drop: seq<char>, keep: seq<char>)
    requires |s| > 0
    requires forall k :: 0 <= k < |s| ==> s[k] !in drop && s[k] !in keep
    ensures Spans(s, drop, keep, 0) == [Span(0, |s|)]
  {
    assert SkipDelims(s, drop, 0) == 0;
    RunEndAt(s, drop, keep, 0, |s|);
  }

  /** A run free of delimiters and kept characters, ended by one of them or by the end, ends where it is ended. */
  lemma {:induction false} RunEndAt(s: string, drop: seq<char>, keep: seq<char>, i: nat, j: nat)
    requires i <= j <= |s|
    requires forall k :: i <= k < j ==> s[k] !in drop && s[k] !in keep
    requires j < |s| ==> s[j] in drop || s[j] in keep
    ensures RunEnd(s, drop, keep, i) == j
    decreases j - i
  {
    if i < j {
      RunEndAt(s, drop, keep, i + 1, j);
    }
  }
}
