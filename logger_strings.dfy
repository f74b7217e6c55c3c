/**
 * The string helpers of the logger's common part: the bounded copy
 * `strlcpy`, the re-entrant tokenizer `log_strtok_r`, the wildcard
 * comparison `wildcmp` used to match domain names, the truncation of a
 * field to its display width, the trimming of a raw print, and the table
 * of configuration limits.
 *
 * A C string argument is given as its text: the characters before its
 * terminating NUL, so it holds no NUL. A buffer the code writes a NUL into is
 * modelled as an `array<char>`.
 */
module LoggerStrings {
  import opened Base

  // ---------------------------------------------------------------------
  // Configuration limits (the full configuration, not LOGGER_SMALL)
  // ---------------------------------------------------------------------

  const MAX_TRACE: nat := 1024
  const MAX_DOMAIN_REPR: nat := 32
  const MAX_FUNCTION_REPR: nat := 64
  const MAX_FILE_REPR: nat := 48
  const MAX_PROCESS_NAME: nat := 16
  const MAX_THREAD_ID_REPR: nat := 12
  const MAX_LINE_NUMBER_REPR: nat := 8
  const MAX_DOMAINS: nat := 32
  const MAX_DOMAIN_LEVEL_FILTERS: nat := 16
  const MAX_DOMAIN_LIST_LENGTH: nat := MAX_DOMAINS * (MAX_DOMAIN_REPR + 1)

  /** The identifiers of `logLimit_t`, in declaration order. */
  const LIMIT_TRACE: int := 0
  const LIMIT_DOMAIN_REPR: int := 1
  const LIMIT_FUNCTION_REPR: int := 2
  const LIMIT_FILE_REPR: int := 3
  const LIMIT_PROCESS_REPR: int := 4
  const LIMIT_THREAD_ID_REPR: int := 5
  const LIMIT_LINE_REPR: int := 6
  const LIMIT_DOMAIN_LEVEL_FILTERS: int := 7
  const LIMIT_BANNED_THREADS: int := 8
  const LIMIT_DOMAINS: int := 9
  const LIMIT_MASKS: int := 10

  /** `_log_get_limit(type)`: the size of each configured table, -1 for anything else. */
  function GetLimit(id: int): (r: int)
    ensures r == -1 <==> id !in {LIMIT_TRACE, LIMIT_DOMAIN_REPR, LIMIT_FUNCTION_REPR,
      LIMIT_FILE_REPR, LIMIT_PROCESS_REPR, LIMIT_THREAD_ID_REPR, LIMIT_LINE_REPR,
      LIMIT_DOMAIN_LEVEL_FILTERS, LIMIT_DOMAINS, LIMIT_MASKS}
    ensures r != -1 ==> r > 0
    ensures id == LIMIT_MASKS ==> r == MAX_DOMAIN_LIST_LENGTH
  {
    if id == LIMIT_TRACE then MAX_TRACE
    else if id == LIMIT_DOMAIN_REPR then MAX_DOMAIN_REPR
    else if id == LIMIT_FUNCTION_REPR then MAX_FUNCTION_REPR
    else if id == LIMIT_FILE_REPR then MAX_FILE_REPR
    else if id == LIMIT_PROCESS_REPR then MAX_PROCESS_NAME
    else if id == LIMIT_THREAD_ID_REPR then MAX_THREAD_ID_REPR
    else if id == LIMIT_LINE_REPR then MAX_LINE_NUMBER_REPR
    else if id == LIMIT_DOMAIN_LEVEL_FILTERS then MAX_DOMAIN_LEVEL_FILTERS
    else if id == LIMIT_DOMAINS then MAX_DOMAINS
    else if id == LIMIT_MASKS then MAX_DOMAIN_LIST_LENGTH
    else -1
  }

  // ---------------------------------------------------------------------
  // strlcpy
  // ---------------------------------------------------------------------

  /**
   * The buffer after `strlcpy(dst, src, size)`: at most `size - 1`
   * characters of the text followed by a NUL, the rest of the buffer as it
   * was; a size of zero writes nothing.
   */
  function StrlcpyInto(buf: seq<char>, src: string, size: nat): (r: seq<char>)
    requires size <= |buf|
    ensures |r| == |buf|
  {
    if size == 0 then buf
    else
      var c := Clip(CText(src), size - 1);
      c + ['\0'] + buf[|c| + 1..]
  }

  /** `strlen` of a suffix of a C string. */
  lemma {:induction false} CTextSuffix(s: string, i: nat)
    requires i <= |CText(s)|
    ensures CText(s[i..]) == CText(s)[i..]
    decreases i
  {
    if i > 0 {
      assert s != [] && s[0] != '\0';
      assert CText(s) == [s[0]] + CText(s[1..]);
      assert s[1..][i - 1..] == s[i..];
      CTextSuffix(s[1..], i - 1);
    }
  }

  /** `strlcpy(dst, src, size)`: copies while there is room for the NUL, and returns the length of the whole text. */
  method Strlcpy(dst: array<char>, src: string, size: nat) returns (len: nat)
    requires size <= dst.Length
    modifies dst
    ensures len == |CText(src)|
    ensures dst[..] == StrlcpyInto(old(dst[..]), src, size)
  {
    ghost var c := CText(src);
    var i: nat := 0;
    var room: nat := size;
    while room > 1 && i < |src| && src[i] != '\0'
      invariant i <= |c| && room + i == size && (size > 0 ==> room >= 1)
      invariant forall k :: 0 <= k < i ==> dst[k] == c[k]
      invariant forall k :: i <= k < dst.Length ==> dst[k] == old(dst[k])
      decreases room
    {
      assert src[i] == c[i];
      dst[i] := src[i];
      i := i + 1;
      room := room - 1;
    }
    if i < |c| {
      assert src[i] == c[i];
    }
    if room > 0 {
      dst[i] := '\0';
    }
    CTextSuffix(src, i);
    len := i + |CText(src[i..])|;
    if size > 0 {
      assert i == Min(|c|, size - 1);
      assert Clip(c, size - 1) == c[..i];
      CopiedThenNul(dst[..], old(dst[..]), c, i);
    }
  }

  /** A buffer holding the first `i` characters of `c`, a NUL, and then what it held before. */
  lemma CopiedThenNul(d: seq<char>, before: seq<char>, c: string, i: nat)
    requires |d| == |before| && i < |d| && i <= |c|
    requires forall k :: 0 <= k < i ==> d[k] == c[k]
    requires d[i] == '\0' && forall k :: i < k < |d| ==> d[k] == before[k]
    ensures d == c[..i] + ['\0'] + before[i + 1..]
  {
  }

  /** After the copy the destination holds as much of the text as fits, and the returned length says whether it all did. */
  lemma StrlcpyReadsBack(buf: seq<char>, src: string, size: nat)
    requires 0 < size <= |buf|
    ensures CText(StrlcpyInto(buf, src, size)) == Clip(CText(src), size - 1)
    ensures CText(StrlcpyInto(buf, src, size)) == CText(src) <==> |CText(src)| < size
  {
    var c := Clip(CText(src), size - 1);
    var rest := ['\0'] + buf[|c| + 1..];
    assert '\0' !in c;
    CTextPrefix(c, rest);
    assert StrlcpyInto(buf, src, size) == c + rest;
  }

  /** A text without NUL followed by a NUL is read back whole. */
  lemma {:induction false} CTextPrefix(c: string, rest: seq<char>)
    requires '\0' !in c && rest != [] && rest[0] == '\0'
    ensures CText(c + rest) == c
    decreases |c|
  {
    if c == [] {
      assert c + rest == rest;
    } else {
      assert (c + rest)[1..] == c[1..] + rest;
      CTextPrefix(c[1..], rest);
    }
  }

  // ---------------------------------------------------------------------
  // log_strtok_r
  // ---------------------------------------------------------------------

  /** The first NUL at or after `i`. */
  function NulFrom(a: seq<char>, i: nat): (r: nat)
    requires exists k :: i <= k < |a| && a[k] == '\0'
    ensures i <= r < |a| && a[r] == '\0'
    ensures forall k :: i <= k < r ==> a[k] != '\0'
    decreases |a| - i
  {
    if a[i] == '\0' then i else NulFrom(a, i + 1)
  }

  /** A run of delimiters ended by a non-delimiter or the end is skipped to that point. */
  lemma {:induction false} SkipDelimsAt(s: string, drop: seq<char>, i: nat, j: nat)
    requires i <= j <= |s|
    requires forall k :: i <= k < j ==> s[k] in drop
    requires j < |s| ==> s[j] !in drop
    ensures SkipDelims(s, drop, i) == j
    decreases j - i
  {
    if i < j {
      SkipDelimsAt(s, drop, i + 1, j);
    }
  }

  /**
   * `log_strtok_r(s, delim, last)`. The next token starts at `s` when one is
   * given, else where the previous call left off (`*last`). The method
   * returns the token's position and the new `*last`, and writes a NUL over
   * the delimiter that ends the token.
   *
   * In the text `x` from the array's start to the NUL that ends the scanned
   * string, the token is the first span of `Spans(x, delim, [], start)`, and
   * the spans after it are the ones from the new `*last` on.
   */
  method Strtok(buf: array<char>, s: Option<nat>, last: Option<nat>, delim: string)
    returns (tok: Option<nat>, next: Option<nat>)
    requires '\0' !in delim
    requires s.Some? ==> exists k :: s.value <= k < buf.Length && buf[k] == '\0'
    requires s.None? && last.Some? ==> exists k :: last.value <= k < buf.Length && buf[k] == '\0'
    modifies buf
    ensures s.None? && last.None? ==> tok.None? && next.None? && buf[..] == old(buf[..])
    ensures s.Some? || last.Some? ==>
      var start := if s.Some? then s.value else last.value;
      var n := NulFrom(old(buf[..]), start);
      var x := old(buf[..])[..n];
      var sp := Spans(x, delim, [], start);
      && (tok.None? <==> sp == [])
      && (tok.None? ==> next.None? && buf[..] == old(buf[..]))
      && (tok.Some? ==>
            && sp[0].start == tok.value
            && (next.None? ==> sp[0].end == n && sp[1..] == [] && buf[..] == old(buf[..]))
            && (next.Some? ==>
                  && sp[0].end + 1 == next.value <= n
                  && buf[..] == old(buf[..])[sp[0].end := '\0']
                  && sp[1..] == Spans(x, delim, [], next.value)))
  {
    var p: nat;
    if s.Some? {
      p := s.value;
    } else if last.Some? {
      p := last.value;
    } else {
      return None, None;
    }
    ghost var start := p;
    ghost var n := NulFrom(buf[..], start);
    ghost var x := buf[..][..n];
    p := SkipIn(buf, p, delim, n);
    if buf[p] == '\0' {
      return None, None;
    }
    var e := RunIn(buf, p, delim, n);
    FirstSpan(x, delim, start, p, e);
    if buf[e] == '\0' {
      tok, next := Some(p), None;
    } else {
      buf[e] := '\0';
      tok, next := Some(p), Some(e + 1);
    }
  }

  /** The first loop of `log_strtok_r`: the delimiters from `p0` on are skipped. */
  method SkipIn(buf: array<char>, p0: nat, delim: string, ghost n: nat) returns (p: nat)
    requires '\0' !in delim && p0 <= n < buf.Length && buf[n] == '\0'
    requires forall k :: p0 <= k < n ==> buf[k] != '\0'
    ensures p0 <= p <= n && SkipDelims(buf[..][..n], delim, p0) == p
    ensures p < n <==> buf[p] != '\0'
    ensures p < n ==> buf[p] !in delim
  {
    p := p0;
    while buf[p] in delim
      invariant p0 <= p <= n
      invariant forall k :: p0 <= k < p ==> buf[k] in delim
      decreases n - p
    {
      p := p + 1;
    }
    SkipDelimsAt(buf[..][..n], delim, p0, p);
  }

  /** The second loop of `log_strtok_r`: the token runs to the next delimiter or NUL. */
  method RunIn(buf: array<char>, p: nat, delim: string, ghost n: nat) returns (e: nat)
    requires p < n < buf.Length && buf[n] == '\0' && buf[p] !in delim
    requires forall k :: p <= k < n ==> buf[k] != '\0'
    ensures p < e <= n && RunEnd(buf[..][..n], delim, [], p) == e
    ensures e < n ==> buf[e] in delim
    ensures e < n <==> buf[e] != '\0'
  {
    e := p + 1;
    while buf[e] !in delim && buf[e] != '\0'
      invariant p < e <= n
      invariant forall k :: p <= k < e ==> buf[k] !in delim && buf[k] != '\0'
      decreases n - e
    {
      e := e + 1;
    }
    RunEndAt(buf[..][..n], delim, [], p, e);
  }

  /** The first token of `x` from `start`, and the tokens after it. */
  lemma FirstSpan(x: string, delim: seq<char>, start: nat, p: nat, e: nat)
    requires start <= p < e <= |x|
    requires SkipDelims(x, delim, start) == p && RunEnd(x, delim, [], p) == e
    requires e < |x| ==> x[e] in delim
    ensures Spans(x, delim, [], start) == [Span(p, e)] + Spans(x, delim, [], e)
    ensures e < |x| ==> Spans(x, delim, [], e) == Spans(x, delim, [], e + 1)
  {
    if e < |x| {
      assert SkipDelims(x, delim, e) == SkipDelims(x, delim, e + 1);
    }
  }

  // ---------------------------------------------------------------------
  // wildcmp
  // ---------------------------------------------------------------------

  /**
   * The reference meaning of a wildcard pattern: `?` matches any one
   * character, `*` any run of characters (the empty run included), and
   * every other character itself.
   */
  predicate Glob(w: string, s: string)
    decreases |w| + |s|
  {
    if w == [] then s == []
    else if w[0] == '*' then Glob(w[1..], s) || (s != [] && Glob(w, s[1..]))
    else s != [] && (w[0] == '?' || w[0] == s[0]) && Glob(w[1..], s[1..])
  }

  /** The characters of a pattern that are not `?`: the score of a match without `*`. */
  function NonWild(w: string): (r: nat)
    ensures r <= |w|
  {
    if w == [] then 0 else NonWild(w[..|w| - 1]) + (if w[|w| - 1] == '?' then 0 else 1)
  }

  /** A star with what follows it: the rest of the pattern from any later position. */
  lemma {:induction false} StarAbsorbs(w: string, s: string, wi: nat, i: nat, k: nat)
    requires wi < |w| && w[wi] == '*' && i <= k <= |s|
    requires Glob(w[wi + 1..], s[k..])
    ensures Glob(w[wi..], s[i..])
    decreases k - i
  {
    assert w[wi..][1..] == w[wi + 1..];
    if i == k {
    } else {
      StarAbsorbs(w, s, wi, i + 1, k);
      assert s[i..][1..] == s[i + 1..];
    }
  }

  /** A star's part of a match can always be split off. */
  lemma {:induction false} StarSplit(w: string, s: string, wi: nat, si: nat)
    requires wi < |w| && w[wi] == '*' && si <= |s|
    requires Glob(w[wi..], s[si..])
    ensures exists k :: si <= k <= |s| && Glob(w[wi + 1..], s[k..])
    decreases |s| - si
  {
    assert w[wi..][1..] == w[wi + 1..];
    if !Glob(w[wi + 1..], s[si..]) {
      assert s[si..][1..] == s[si + 1..];
      StarSplit(w, s, wi, si + 1);
    }
  }

  /** A star-free stretch of pattern matches exactly as many characters. */
  lemma {:induction false} StarFreeStretch(w: string, s: string, a: nat, b: nat, j: nat)
    requires a <= b <= |w| && j <= |s|
    requires forall m :: a <= m < b ==> w[m] != '*'
    requires Glob(w[a..], s[j..])
    ensures j + (b - a) <= |s| && Glob(w[b..], s[j + (b - a)..])
    decreases b - a
  {
    if a < b {
      assert w[a..][1..] == w[a + 1..];
      assert s[j..][1..] == s[j + 1..];
      StarFreeStretch(w, s, a + 1, b, j + 1);
    }
  }

  /** A match of the rest of the pattern from here gives a match of the whole. */
  predicate SoundAt(w: string, s: string, wi: nat, si: nat)
    requires wi <= |w| && si <= |s|
  {
    Glob(w[wi..], s[si..]) ==> Glob(w, s)
  }

  /** A whole match leaves a match of the rest of the pattern from here. */
  predicate CompleteAt(w: string, s: string, wi: nat, si: nat)
    requires wi <= |w| && si <= |s|
  {
    Glob(w, s) ==> Glob(w[wi..], s[si..])
  }

  /** A match of the pattern after the last star, from any position at or after `from`, gives a match of the whole. */
  predicate SoundFrom(w: string, s: string, mp: nat, from: nat)
    requires mp <= |w|
  {
    forall k :: from <= k <= |s| && Glob(w[mp..], s[k..]) ==> Glob(w, s)
  }

  /** A whole match leaves a match of the pattern after the last star from some position at or after `from`. */
  predicate CompleteFrom(w: string, s: string, mp: nat, from: nat)
    requires mp <= |w|
  {
    Glob(w, s) ==> exists k :: from <= k <= |s| && Glob(w[mp..], s[k..])
  }

  /** The current attempt: the star-free pattern `w[mp..wi]` laid over the string from `k0` to `si`. */
  predicate Attempt(w: string, mp: nat, k0: nat, wi: nat, si: nat)
  {
    mp <= wi <= |w| && k0 <= si && wi - mp == si - k0 && forall m :: mp <= m < wi ==> w[m] != '*'
  }

  /** A pattern character other than `*` that fits the string character is stepped over both ways. */
  lemma CharStep(w: string, s: string, wi: nat, si: nat)
    requires wi < |w| && si < |s| && w[wi] != '*' && (w[wi] == '?' || w[wi] == s[si])
    ensures Glob(w[wi..], s[si..]) <==> Glob(w[wi + 1..], s[si + 1..])
  {
    assert w[wi..][1..] == w[wi + 1..] && s[si..][1..] == s[si + 1..];
  }

  /** A pattern character other than `*` that does not fit, or the end of the pattern, cannot match what is left. */
  lemma Mismatch(w: string, s: string, wi: nat, si: nat)
    requires wi <= |w| && si < |s|
    requires wi == |w| || (w[wi] != '*' && w[wi] != '?' && w[wi] != s[si])
    ensures !Glob(w[wi..], s[si..])
  {
    if wi < |w| {
      assert w[wi..][0] == w[wi];
    }
    assert s[si..][0] == s[si];
  }

  /** Meeting a star: whatever follows it may start anywhere from here on. */
  /** Stepping over a fitting character keeps the current position sound and complete, and extends the attempt. */
  lemma CharAdvance(w: string, s: string, mp: nat, k0: nat, wi: nat, si: nat)
    requires wi < |w| && si < |s| && w[wi] != '*' && (w[wi] == '?' || w[wi] == s[si])
    ensures SoundAt(w, s, wi, si) ==> SoundAt(w, s, wi + 1, si + 1)
    ensures CompleteAt(w, s, wi, si) ==> CompleteAt(w, s, wi + 1, si + 1)
    ensures Attempt(w, mp, k0, wi, si) ==> Attempt(w, mp, k0, wi + 1, si + 1)
  {
    CharStep(w, s, wi, si);
  }

  lemma StarOpen(w: string, s: string, wi: nat, si: nat)
    requires wi < |w| && w[wi] == '*' && si <= |s|
    requires SoundAt(w, s, wi, si)
    ensures SoundAt(w, s, wi + 1, si) && SoundFrom(w, s, wi + 1, si)
  {
    forall k | si <= k <= |s| && Glob(w[wi + 1..], s[k..])
      ensures Glob(w, s)
    {
      StarAbsorbs(w, s, wi, si, k);
    }
  }

  /** Meeting the first star: a whole match continues after it from some position. */
  lemma StarFirst(w: string, s: string, wi: nat, si: nat)
    requires wi < |w| && w[wi] == '*' && si <= |s|
    requires CompleteAt(w, s, wi, si)
    ensures CompleteFrom(w, s, wi + 1, si)
  {
    if Glob(w, s) {
      StarSplit(w, s, wi, si);
    }
  }

  /** Meeting a later star: the earliest place the stretch before it fits is as good as any, so the attempt is kept. */
  lemma StarCommit(w: string, s: string, mp: nat, k0: nat, wi: nat, si: nat)
    requires wi < |w| && w[wi] == '*' && si <= |s|
    requires Attempt(w, mp, k0, wi, si) && CompleteFrom(w, s, mp, k0)
    ensures CompleteFrom(w, s, wi + 1, si)
  {
    if Glob(w, s) {
      var k :| k0 <= k <= |s| && Glob(w[mp..], s[k..]);
      StarFreeStretch(w, s, mp, wi, k);
      StarSplit(w, s, wi, k + (wi - mp));
    }
  }

  /** A failed attempt: the stretch after the star moves on by one character. */
  lemma Backtrack(w: string, s: string, mp: nat, k0: nat, wi: nat, si: nat)
    requires si < |s| && Attempt(w, mp, k0, wi, si)
    requires wi == |w| || (w[wi] != '*' && w[wi] != '?' && w[wi] != s[si])
    requires SoundFrom(w, s, mp, k0) && CompleteFrom(w, s, mp, k0)
    ensures SoundAt(w, s, mp, k0 + 1) && SoundFrom(w, s, mp, k0 + 1) && CompleteFrom(w, s, mp, k0 + 1)
  {
    Mismatch(w, s, wi, si);
    if Glob(w[mp..], s[k0..]) {
      StarFreeStretch(w, s, mp, wi, k0);
    }
  }

  /** At the end of the string, only the attempt in progress can still lead to a match. */
  lemma AtEnd(w: string, s: string, mp: nat, k0: nat, wi: nat)
    requires Attempt(w, mp, k0, wi, |s|) && CompleteFrom(w, s, mp, k0)
    ensures CompleteAt(w, s, wi, |s|)
  {
    if Glob(w, s) {
      var k :| k0 <= k <= |s| && Glob(w[mp..], s[k..]);
      StarFreeStretch(w, s, mp, wi, k);
    }
  }

  /** Every pattern character from `a` up to `b` is other than `*`. */
  predicate StarFree(w: string, a: nat, b: nat)
    requires b <= |w|
  {
    forall m :: a <= m < b ==> w[m] != '*'
  }

  /**
   * The first loop of `wildcmp`: the pattern and the string are stepped
   * over together up to the first `*` of the pattern or the end of the
   * string; a character that does not fit ends the comparison.
   */
  method MatchHead(w: string, s: string) returns (fail: bool, wi: nat, score: nat)
    ensures fail ==> !Glob(w, s)
    ensures !fail ==> wi <= |w| && wi <= |s| && StarFree(w, 0, wi) && score == NonWild(w[..wi])
    ensures !fail ==> SoundAt(w, s, wi, wi) && CompleteAt(w, s, wi, wi)
    ensures !fail && wi < |s| ==> wi < |w| && w[wi] == '*'
  {
    wi, score := 0, 0;
    while wi < |s| && (wi == |w| || w[wi] != '*')
      invariant wi <= |w| && wi <= |s|
      invariant score == NonWild(w[..wi])
      invariant StarFree(w, 0, wi)
      invariant SoundAt(w, s, wi, wi) && CompleteAt(w, s, wi, wi)
    {
      if wi == |w| || (w[wi] != s[wi] && w[wi] != '?') {
        Mismatch(w, s, wi, wi);
        return true, wi, score;
      }
      CharStep(w, s, wi, wi);
      assert w[..wi + 1] == w[..wi] + [w[wi]];
      if w[wi] != '?' {
        score := score + 1;
      }
      wi := wi + 1;
    }
    fail := false;
  }

  /**
   * The second loop of `wildcmp`, entered at the first `*`: each star
   * records where the pattern resumes (`mp`) and the next place to retry
   * in the string (`cp`); a character that does not fit goes back to the
   * pattern after the star and retries one character further on. It ends
   * at the end of the string, or at a star that ends the pattern.
   */
  method MatchTail(w: string, s: string, wi0: nat, score0: nat) returns (broke: bool, wi: nat, score: nat)
    requires wi0 <= |w| && wi0 <= |s| && SoundAt(w, s, wi0, wi0) && CompleteAt(w, s, wi0, wi0)
    requires wi0 < |s| ==> wi0 < |w| && w[wi0] == '*'
    ensures broke ==> wi == |w| && Glob(w, s)
    ensures !broke ==> wi <= |w| && SoundAt(w, s, wi, |s|) && CompleteAt(w, s, wi, |s|)
    ensures wi0 == |s| ==> !broke && wi == wi0 && score == score0
  {
    var si: nat := wi0;
    wi, score := wi0, score0;
    var mp: nat, cp: nat := 0, 0;
    ghost var starSeen := false;
    ghost var k0: nat := 0;
    broke := false;
    while si < |s| && !broke
      invariant wi <= |w| && si <= |s|
      invariant wi0 == |s| ==> si == |s| && wi == wi0 && score == score0 && !broke
      invariant broke ==> wi == |w| && Glob(w, s)
      invariant !broke ==> SoundAt(w, s, wi, si)
      invariant !starSeen && !broke ==> CompleteAt(w, s, wi, si)
      invariant !starSeen && !broke && si < |s| ==> wi < |w| && w[wi] == '*'
      invariant !starSeen ==> cp == 0
      invariant starSeen ==> 1 <= mp <= wi && cp == k0 + 1 && k0 <= si && SoundFrom(w, s, mp, k0)
      invariant starSeen && !broke ==> Attempt(w, mp, k0, wi, si) && CompleteFrom(w, s, mp, k0)
      decreases |s| + 1 - cp, |s| - si, |w| - wi
    {
      if wi < |w| && w[wi] == '*' {
        StarOpen(w, s, wi, si);
        if wi + 1 == |w| {
          StarEnds(w, s, wi, si);
          wi := wi + 1;
          broke := true;
        } else {
          if !starSeen {
            StarFirst(w, s, wi, si);
          } else {
            StarCommit(w, s, mp, k0, wi, si);
          }
          wi := wi + 1;
          mp, cp := wi, si + 1;
          k0 := si;
          starSeen := true;
        }
      } else if wi < |w| && (w[wi] == '?' || w[wi] == s[si]) {
        CharAdvance(w, s, mp, k0, wi, si);
        if w[wi] != '?' {
          score := score + 1;
        }
        wi, si := wi + 1, si + 1;
      } else {
        Backtrack(w, s, mp, k0, wi, si);
        wi, si := mp, cp;
        cp := cp + 1;
        k0 := k0 + 1;
      }
    }
    if !broke && starSeen {
      AtEnd(w, s, mp, k0, wi);
    }
  }

  /** A star that ends the pattern matches whatever is left. */
  lemma StarEnds(w: string, s: string, wi: nat, si: nat)
    requires wi + 1 == |w| && w[wi] == '*' && si <= |s|
    ensures Glob(w[wi..], s[si..])
  {
    assert Glob(w[wi + 1..], s[|s|..]);
    StarAbsorbs(w, s, wi, si, |s|);
  }

  /** Stars at the end of the pattern match the empty rest of the string, and only they do. */
  method SkipStars(w: string, wi0: nat) returns (wi: nat)
    requires wi0 <= |w|
    ensures wi0 <= wi <= |w| && (wi < |w| ==> w[wi] != '*')
    ensures Glob(w[wi0..], []) <==> wi == |w|
  {
    wi := wi0;
    while wi < |w| && w[wi] == '*'
      invariant wi0 <= wi <= |w|
      invariant Glob(w[wi..], []) == Glob(w[wi0..], [])
    {
      assert w[wi..][1..] == w[wi + 1..];
      wi := wi + 1;
    }
    if wi < |w| {
      assert w[wi..][0] == w[wi];
    }
  }

  /**
   * `wildcmp(wild, str, &bestScore)`. The comparison succeeds when the
   * pattern matches the whole string and the new score (the characters
   * matched as themselves) beats `bestScore`, or `bestScore` is not
   * positive; on success `bestScore` becomes the new score, otherwise it is
   * left alone.
   */
  method Wildcmp(wild: string, str: string, bestScore: int) returns (ok: bool, best: int)
    requires '\0' !in wild && '\0' !in str
    ensures ok ==> Glob(wild, str) && best >= 0 && (bestScore <= 0 || best > bestScore)
    ensures !ok ==> best == bestScore
    ensures Glob(wild, str) && bestScore <= 0 ==> ok
    ensures '*' !in wild && Glob(wild, str) ==>
      (ok <==> bestScore <= 0 || NonWild(wild) > bestScore) && (ok ==> best == NonWild(wild))
  {
    var fail, wi, score := MatchHead(wild, str);
    if fail {
      return false, bestScore;
    }
    ghost var noStar := '*' !in wild;
    var broke;
    broke, wi, score := MatchTail(wild, str, wi, score);
    var end := wi;
    if !broke {
      end := SkipStars(wild, wi);
      assert str[|str|..] == [];
    }
    assert Glob(wild, str) <==> end == |wild|;
    if noStar && end == |wild| {
      assert wild[..wi] == wild;
    }
    if end == |wild| && (bestScore <= 0 || score > bestScore) {
      return true, score;
    }
    return false, bestScore;
  }

  /** Without `*`, a pattern matches exactly the strings of its length that agree with it outside the `?` positions. */
  lemma {:induction false} NoStarGlob(w: string, s: string)
    requires '*' !in w
    ensures Glob(w, s) <==> |w| == |s| && forall i :: 0 <= i < |w| ==> w[i] == '?' || w[i] == s[i]
    decreases |w|
  {
    if w != [] && s != [] {
      assert '*' !in w[1..];
      NoStarGlob(w[1..], s[1..]);
      if |w| == |s| && (forall i :: 0 <= i < |w[1..]| ==> w[1..][i] == '?' || w[1..][i] == s[1..][i]) {
        assert forall i :: 1 <= i < |w| ==> w[i] == w[1..][i - 1] && s[i] == s[1..][i - 1];
      }
    }
  }

  /** The lone `*` matches every string. */
  lemma LoneStar(s: string)
    ensures Glob("*", s)
  {
    assert Glob(""[..], s[|s|..]);
    StarAbsorbs("*", s, 0, 0, |s|);
    assert "*"[0..] == "*" && s[0..] == s;
  }

  /** `a*` matches `a`, `ab` and `a.b`: a prefix followed by a star matches every extension of it. */
  lemma PrefixStar(p: string, s: string)
    requires '*' !in p && p <= s
    ensures Glob(p + "*", s)
  {
    var w := p + "*";
    LoneStar(s[|p|..]);
    assert w[|p|..] == "*";
    assert forall m :: 0 <= m < |p| ==> w[m] != '*' by {
      assert forall m :: 0 <= m < |p| ==> w[m] == p[m];
    }
    PrefixFits(w, s, |p|);
  }

  /** A star-free head of the pattern that agrees with the head of the string can be stepped over. */
  lemma {:induction false} PrefixFits(w: string, s: string, n: nat)
    requires n <= |w| && n <= |s|
    requires forall m :: 0 <= m < n ==> w[m] != '*' && (w[m] == '?' || w[m] == s[m])
    requires Glob(w[n..], s[n..])
    ensures Glob(w, s)
    decreases n
  {
    if n > 0 {
      assert w[1..][n - 1..] == w[n..] && s[1..][n - 1..] == s[n..];
      PrefixFits(w[1..], s[1..], n - 1);
    }
  }

  // ---------------------------------------------------------------------
  // Field truncation and raw prints
  // ---------------------------------------------------------------------

  const ELLIPSIS: string := "..."

  /** A field as shown: its tail, and whether the ellipsis mark goes in front of it. */
  datatype Shown = Shown(text: string, marked: bool)

  /**
   * `log_get_truncated_string(p, maxLength, &mark)`: a text longer than
   * `maxLength + 1` keeps only its tail, so that the mark and the tail
   * together are `maxLength` characters; a shorter text is shown whole.
   * The source indexes past the text for widths below three.
   */
  function TruncatedString(p: string, maxLength: int): (r: Shown)
    requires maxLength >= 3
    ensures r.marked <==> |p| > maxLength + 1
    ensures r.marked ==> |ELLIPSIS + r.text| == maxLength && r.text == p[|p| - |r.text|..]
    ensures !r.marked ==> r.text == p && |r.text| <= maxLength + 1
  {
    var l := |p| - maxLength - 1;
    if l > 0 then Shown(p[l + |ELLIPSIS| + 1..], true) else Shown(p, false)
  }

  const CR: char := '\r'
  const LF: char := '\n'

  /** The end of line `_log_printf` removes: one CR or LF, and before it the other one of the pair. */
  function TrimEol(t: string): (r: string)
    ensures r <= t && |t| - 2 <= |r|
    ensures |r| < |t| ==> t[|t| - 1] in {CR, LF}
  {
    if t == [] || t[|t| - 1] !in {CR, LF} then t
    else
      var last := t[|t| - 1];
      var u := t[..|t| - 1];
      if u != [] && u[|u| - 1] in {CR, LF} && u[|u| - 1] != last then u[..|u| - 1] else u
  }

  /** CR LF and LF CR are both removed whole, a doubled line end loses one of its two, other texts are kept. */
  lemma TrimEolCases(t: string)
    ensures TrimEol(t + [CR, LF]) == t && TrimEol(t + [LF, CR]) == t
    ensures TrimEol(t + [LF, LF]) == t + [LF] && TrimEol(t + [CR, CR]) == t + [CR]
    ensures t == [] || t[|t| - 1] !in {CR, LF} ==> TrimEol(t) == t
  {
    assert (t + [CR, LF])[..|t| + 1] == t + [CR];
    assert (t + [LF, CR])[..|t| + 1] == t + [LF];
    assert (t + [LF, LF])[..|t| + 1] == t + [LF];
    assert (t + [CR, CR])[..|t| + 1] == t + [CR];
    assert (t + [CR])[..|t|] == t && (t + [LF])[..|t|] == t;
  }

  /** `sizeof(_log_buffer)`: the largest trace and its NUL. */
  const BUFFER: nat := MAX_TRACE + 1

  /**
   * What `_log_printf` hands to the output for a formatted text, as
   * written: a text that fits the buffer loses its line end; a text that
   * does not fit is cut to the buffer, and the ellipsis replaces its last
   * three characters only when the text is longer than the buffer itself.
   */
  function PrintedTextAsWritten(formatted: string): (r: string)
  {
    var n := |formatted|;
    if n <= MAX_TRACE then TrimEol(formatted)
    else if BUFFER < n then formatted[..BUFFER - |ELLIPSIS| - 1] + ELLIPSIS
    else formatted[..MAX_TRACE]
  }

  /** A text exactly one character too long for the buffer is cut without the ellipsis. */
  lemma PrintedTextAsWrittenCutsSilently()
    ensures var t := Repeat('a', BUFFER);
      var r := PrintedTextAsWritten(t);
      |r| == MAX_TRACE && r < t && r[|r| - 1] != '.'
  {
  }

  /**
   * `_log_printf`, with the test the comment beside it describes: the
   * ellipsis marks every text the buffer could not hold with its NUL.
   */
  function PrintedText(formatted: string): (r: string)
    ensures |r| <= MAX_TRACE
    ensures |formatted| <= MAX_TRACE ==> r == TrimEol(formatted)
    ensures |formatted| > MAX_TRACE ==>
      && |r| == MAX_TRACE
      && r[..MAX_TRACE - |ELLIPSIS|] == formatted[..MAX_TRACE - |ELLIPSIS|]
      && r[MAX_TRACE - |ELLIPSIS|..] == ELLIPSIS
  {
    var n := |formatted|;
    if n <= MAX_TRACE then TrimEol(formatted)
    else formatted[..BUFFER - |ELLIPSIS| - 1] + ELLIPSIS
  }

  /** The two readings agree on every text whose length is not exactly the buffer's size. */
  lemma PrintedTextOnlyDiffersAtBufferSize(formatted: string)
    requires |formatted| != BUFFER
    ensures PrintedText(formatted) == PrintedTextAsWritten(formatted)
  {
  }
}
