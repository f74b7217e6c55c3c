/**
 * The character separator of the embedded template library's tokenizer:
 * it cuts a character sequence into tokens at delimiter characters. A
 * dropped delimiter only separates tokens; a kept delimiter is a token of
 * its own. With the "drop empty tokens" policy runs of dropped delimiters
 * count as one; with "keep empty tokens" every dropped delimiter ends a
 * token, so two delimiters in a row enclose an empty one.
 *
 * The separator walks the input by an index `next` (the C++ iterator) and
 * reports each token as a `Span` of the input.
 */
module Tokenizer {
  import opened Base

  datatype EmptyTokenPolicy = DropEmptyTokens | KeepEmptyTokens

  /** The characters `isspace` accepts in the C locale. */
  const WHITESPACE: string := [' ', '\t', '\n', 11 as char, 12 as char, '\r']

  /** The characters `ispunct` accepts in the C locale. */
  const PUNCTUATION: string := "!\"#$%&'()*+,-./:;<=>?@[\\]^_`{|}~"

  /**
   * The tokens found with the "keep empty tokens" policy and no kept
   * delimiter, from position `i`; `done` is the separator's "output done"
   * flag, set once the token before a pending delimiter has been returned.
   */
  function KeepTokens(s: string, drop: seq<char>, i: nat, done: bool): (t: seq<Span>)
    requires i <= |s|
    ensures forall k :: 0 <= k < |t| ==> i <= t[k].start <= t[k].end <= |s|
    decreases |s| - i, if done then 0 else 1
  {
    if i == |s| then (if done then [] else [Span(i, i)])
    else if s[i] in drop && !done then [Span(i, i)] + KeepTokens(s, drop, i, true)
    else
      var st := if s[i] in drop then i + 1 else i;
      var e := RunEnd(s, drop, [], st);
      [Span(st, e)] + KeepTokens(s, drop, e, true)
  }

  /** The strings `ts` joined with `d` between consecutive ones. */
  function Join(ts: seq<string>, d: char): string
  {
    if |ts| == 0 then [] else if |ts| == 1 then ts[0] else ts[0] + [d] + Join(ts[1..], d)
  }

  lemma {:induction false} KeepTokensBounds(s: string, drop: seq<char>, i: nat, done: bool)
    requires i <= |s|
    ensures forall k, m :: (0 <= k < |KeepTokens(s, drop, i, done)| &&
      KeepTokens(s, drop, i, done)[k].start <= m < KeepTokens(s, drop, i, done)[k].end) ==> s[m] !in drop
    decreases |s| - i, if done then 0 else 1
  {
    if i < |s| {
      var t := KeepTokens(s, drop, i, done);
      if s[i] in drop && !done {
        KeepTokensBounds(s, drop, i, true);
        assert t == [Span(i, i)] + KeepTokens(s, drop, i, true);
      } else {
        var st := if s[i] in drop then i + 1 else i;
        var e := RunEnd(s, drop, [], st);
        KeepTokensBounds(s, drop, e, true);
        var rest := KeepTokens(s, drop, e, true);
        assert t == [Span(st, e)] + rest;
        assert forall k :: 1 <= k < |t| ==> t[k] == rest[k - 1];
      }
    }
  }

  /**
   * With the "keep empty tokens" policy and a single delimiter `d`, no token
   * contains `d` and joining the tokens with `d` gives back the input: the
   * separator splits at every delimiter and loses nothing else.
   */
  lemma KeepTokensJoin(s: string, d: char)
    ensures forall k :: 0 <= k < |KeepTokens(s, [d], 0, false)| ==>
      d !in s[KeepTokens(s, [d], 0, false)[k].start..KeepTokens(s, [d], 0, false)[k].end]
    ensures Join(Texts(s, KeepTokens(s, [d], 0, false)), d) == s
  {
    KeepTokensBounds(s, [d], 0, false);
    var t := KeepTokens(s, [d], 0, false);
    forall k | 0 <= k < |t|
      ensures d !in s[t[k].start..t[k].end]
    {
      assert forall m :: t[k].start <= m < t[k].end ==> s[m] != d;
    }
    KeepJoinFrom(s, d, 0, false);
  }

  lemma {:induction false} KeepJoinFrom(s: string, d: char, i: nat, done: bool)
    requires i <= |s|
    requires done && i < |s| ==> s[i] == d
    ensures var ts := Texts(s, KeepTokens(s, [d], i, done));
      if done && i < |s| then [d] + Join(ts, d) == s[i..] else Join(ts, d) == s[i..]
    decreases |s| - i, if done then 0 else 1, 2
  {
    if i == |s| {
    } else if s[i] == d && !done {
      KeepJoinPending(s, d, i);
    } else {
      KeepJoinRun(s, d, i, done);
    }
  }

  /** A delimiter seen before its token was returned: an empty token, then the rest. */
  lemma {:induction false} KeepJoinPending(s: string, d: char, i: nat)
    requires i < |s| && s[i] == d
    ensures Join(Texts(s, KeepTokens(s, [d], i, false)), d) == s[i..]
    decreases |s| - i, 1, 0
  {
    KeepJoinFrom(s, d, i, true);
    var rest := KeepTokens(s, [d], i, true);
    assert KeepTokens(s, [d], i, false) == [Span(i, i)] + rest;
    TextsCons(s, Span(i, i), rest);
    assert rest != [];
    JoinCons([], Texts(s, rest), d);
  }

  /** A run of non-delimiters (after the pending delimiter, if any), then the rest. */
  lemma {:induction false} KeepJoinRun(s: string, d: char, i: nat, done: bool)
    requires i < |s| && (done ==> s[i] == d) && (!done ==> s[i] != d)
    ensures var ts := Texts(s, KeepTokens(s, [d], i, done));
      if done then [d] + Join(ts, d) == s[i..] else Join(ts, d) == s[i..]
    decreases |s| - i, if done then 0 else 1, 1
  {
    KeepJoinRunText(s, d, i, done);
    if done {
      assert s[i..] == [d] + s[i + 1..];
    }
  }

  /** The texts from a run on join back into the text from the start of the run. */
  lemma {:induction false} KeepJoinRunText(s: string, d: char, i: nat, done: bool)
    requires i < |s| && (done ==> s[i] == d) && (!done ==> s[i] != d)
    ensures Join(Texts(s, KeepTokens(s, [d], i, done)), d) == s[if done then i + 1 else i..]
    decreases |s| - i, if done then 0 else 1, 0
  {
    var st := if done then i + 1 else i;
    var e := RunEnd(s, [d], [], st);
    var rest := KeepTokens(s, [d], e, true);
    KeepTokensRunUnfold(s, d, i, done);
    TextsCons(s, Span(st, e), rest);
    var tr := Texts(s, rest);
    assert Texts(s, KeepTokens(s, [d], i, done)) == [s[st..e]] + tr;
    if e == |s| {
      assert rest == [];
      assert Join([s[st..e]] + tr, d) == s[st..];
    } else {
      KeepJoinFrom(s, d, e, true);
      JoinAfterRun(s, d, st, e, tr);
    }
  }

  lemma KeepTokensRunUnfold(s: string, d: char, i: nat, done: bool)
    requires i < |s| && (done ==> s[i] == d) && (!done ==> s[i] != d)
    ensures var st := if done then i + 1 else i;
      var e := RunEnd(s, [d], [], st);
      && (e < |s| ==> s[e] == d && KeepTokens(s, [d], e, true) != [])
      && KeepTokens(s, [d], i, done) == [Span(st, e)] + KeepTokens(s, [d], e, true)
  {
  }

  lemma JoinAfterRun(s: string, d: char, st: nat, e: nat, tr: seq<string>)
    requires st <= e < |s| && tr != [] && [d] + Join(tr, d) == s[e..]
    ensures Join([s[st..e]] + tr, d) == s[st..]
  {
    JoinCons(s[st..e], tr, d);
    assert s[st..] == s[st..e] + s[e..];
  }

  lemma JoinCons(a: string, ts: seq<string>, d: char)
    requires ts != []
    ensures Join([a] + ts, d) == a + [d] + Join(ts, d)
  {
    assert ([a] + ts)[1..] == ts;
  }

  class CharSeparator {
    const droppedDelims: string
    /** Never set: the constructor that takes kept delimiters does not store them. */
    const keptDelims: string
    const useIspunct: bool
    const useIsspace: bool
    const policy: EmptyTokenPolicy
    var outputDone: bool

    /** `char_separator(dropped, kept, policy)`. */
    constructor Explicit(dropped: string, kept: string, emptyTokens: EmptyTokenPolicy)
      ensures droppedDelims == dropped && keptDelims == [] && policy == emptyTokens
      ensures !useIspunct && !useIsspace && !outputDone
      ensures Valid()
    {
      droppedDelims := dropped;
      keptDelims := [];
      useIspunct := false;
      useIsspace := false;
      policy := emptyTokens;
      outputDone := false;
    }

    /** `char_separator()`: white space is dropped and punctuation kept. */
    constructor Default()
      ensures droppedDelims == [] && keptDelims == [] && policy == DropEmptyTokens
      ensures useIspunct && useIsspace && !outputDone
      ensures Valid()
    {
      droppedDelims := [];
      keptDelims := [];
      useIspunct := true;
      useIsspace := true;
      policy := DropEmptyTokens;
      outputDone := false;
    }

    /** Keeping empty tokens is only offered by the explicit constructor, which keeps no delimiter. */
    predicate Valid()
    {
      policy == KeepEmptyTokens ==> keptDelims == [] && !useIspunct
    }

    /** `is_dropped` */
    predicate IsDropped(c: char)
    {
      if |droppedDelims| > 0 then c in droppedDelims
      else if useIsspace then c in WHITESPACE
      else false
    }

    /** `is_kept` */
    predicate IsKept(c: char)
    {
      if |keptDelims| > 0 then c in keptDelims
      else if useIspunct then c in PUNCTUATION
      else false
    }

    /** The characters that are dropped delimiters. */
    function Dropped(): (d: seq<char>)
      ensures forall c :: c in d <==> IsDropped(c)
    {
      if |droppedDelims| > 0 then droppedDelims else if useIsspace then WHITESPACE else []
    }

    /** The characters that are kept delimiters. */
    function Kept(): (k: seq<char>)
      ensures forall c :: c in k <==> IsKept(c)
    {
      if |keptDelims| > 0 then keptDelims else if useIspunct then PUNCTUATION else []
    }

    /** The tokens still to come from position `next`, given the current "output done" flag. */
    function Remaining(input: string, next: nat, done: bool): seq<Span>
      requires next <= |input|
    {
      if policy == DropEmptyTokens then Spans(input, Dropped(), Kept(), next)
      else KeepTokens(input, Dropped(), next, done)
    }

    /**
     * `operator()(next, end, tok)`: finds the next token from `next`. When
     * there is one it is `input[start..next']` and the tokens after it are
     * the ones remaining from `next'`; when there is none, `ok` is false.
     */
    method NextToken(input: string, next: nat) returns (ok: bool, start: nat, next': nat)
      requires Valid() && next <= |input|
      modifies this
      ensures policy == DropEmptyTokens ==> outputDone == old(outputDone)
      ensures start <= next' <= |input|
      ensures ok == (Remaining(input, next, old(outputDone)) != [])
      ensures ok ==> Remaining(input, next, old(outputDone))
                     == [Span(start, next')] + Remaining(input, next', outputDone)
      ensures ok ==> next < next' || (next == next' && !old(outputDone) && outputDone)
    {
      if policy == DropEmptyTokens {
        ok, start, next' := NextDropping(input, next);
      } else {
        ok, start, next' := NextKeeping(input, next);
      }
    }

    /** The "drop empty tokens" half of `operator()`. */
    method NextDropping(input: string, next: nat) returns (ok: bool, start: nat, next': nat)
      requires policy == DropEmptyTokens && next <= |input|
      ensures start <= next' <= |input|
      ensures ok == (Spans(input, Dropped(), Kept(), next) != [])
      ensures ok ==> next < next'
      ensures ok ==> Spans(input, Dropped(), Kept(), next)
                     == [Span(start, next')] + Spans(input, Dropped(), Kept(), next')
    {
      next' := next;
      while next' < |input| && IsDropped(input[next'])
        invariant next <= next' <= |input|
        invariant SkipDelims(input, Dropped(), next) == SkipDelims(input, Dropped(), next')
      {
        next' := next' + 1;
      }
      start := next';
      if next' == |input| {
        return false, start, next';
      }
      if IsKept(input[next']) {
        next' := next' + 1;
      } else {
        while next' < |input| && !IsDropped(input[next']) && !IsKept(input[next'])
          invariant start <= next' <= |input|
          invariant RunEnd(input, Dropped(), Kept(), start) == RunEnd(input, Dropped(), Kept(), next')
        {
          next' := next' + 1;
        }
      }
      ok := true;
    }

    /** The "keep empty tokens" half of `operator()`. */
    method NextKeeping(input: string, next: nat) returns (ok: bool, start: nat, next': nat)
      requires Valid() && policy == KeepEmptyTokens && next <= |input|
      modifies this
      ensures start <= next' <= |input|
      ensures ok == (KeepTokens(input, Dropped(), next, old(outputDone)) != [])
      ensures ok ==> KeepTokens(input, Dropped(), next, old(outputDone))
                     == [Span(start, next')] + KeepTokens(input, Dropped(), next', outputDone)
      ensures ok ==> next < next' || (next == next' && !old(outputDone) && outputDone)
    {
      next' := next;
      start := next';
      if next' == |input| {
        if !outputDone {
          outputDone := true;
          return true, start, next';
        } else {
          return false, start, next';
        }
      }
      if IsKept(input[next']) {
        // No kept delimiter exists with this policy.
        assert false;
      } else if !outputDone && IsDropped(input[next']) {
        assert KeepTokens(input, Dropped(), next, false)
            == [Span(next, next)] + KeepTokens(input, Dropped(), next, true);
        outputDone := true;
      } else {
        ghost var done, d := outputDone, Dropped();
        if IsDropped(input[next']) {
          next' := next' + 1;
          start := next';
        }
        while next' < |input| && !IsDropped(input[next']) && !IsKept(input[next'])
          invariant start <= next' <= |input|
          invariant RunEnd(input, d, [], start) == RunEnd(input, d, [], next')
        {
          assert input[next'] !in d;
          next' := next' + 1;
        }
        assert next' == RunEnd(input, d, [], start);
        assert KeepTokens(input, d, next, done) == [Span(start, next')] + KeepTokens(input, d, next', true);
        outputDone := true;
      }
      ok := true;
    }

    /**
     * The tokens found by iterating over the whole input, as a range-based
     * `for` over a tokenizer built with this separator does.
     */
    method AllTokens(input: string) returns (spans: seq<Span>)
      requires Valid()
      modifies this
      ensures spans == Remaining(input, 0, old(outputDone))
    {
      spans := [];
      var next := 0;
      while true
        invariant next <= |input|
        invariant spans + Remaining(input, next, outputDone) == Remaining(input, 0, old(outputDone))
        decreases 2 * (|input| - next) + (if outputDone then 0 else 1)
      {
        ghost var rest := Remaining(input, next, outputDone);
        var ok, start, next' := NextToken(input, next);
        if !ok {
          assert spans + rest == spans;
          return;
        }
        assert spans + rest == (spans + [Span(start, next')]) + Remaining(input, next', outputDone);
        spans := spans + [Span(start, next')];
        next := next';
      }
    }
  }
}
