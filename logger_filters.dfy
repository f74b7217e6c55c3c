/**
 * The logger's domain filtering: the list of domains to show (the mask),
 * the list of domains to hide (the not-mask), the table of per-domain
 * levels, the global level, and the decision whether a trace of a given
 * domain and level goes out.
 *
 * A list slot or a table slot is free when its name is empty; a list has
 * one slot more than it can fill, so that a free slot always ends it. A
 * C string argument is given as its text (see LoggerStrings), and a
 * null pointer as `None`.
 */
module LoggerFilters {
  import opened Base
  import opened LoggerStrings

  const LEVEL_ERROR: nat := 0
  const LEVEL_WARN: nat := 1
  const LEVEL_MILE: nat := 2
  const LEVEL_INFO: nat := 3
  const LEVEL_TRACE: nat := 4
  const LEVEL_DEBUG: nat := 5

  /** `seps`: the characters that separate domains in a list argument. */
  const SEPS: seq<char> := ['|', ':', ';', ',', '!', '/']

  /** A stored name keeps this many characters; its array holds the NUL too. */
  const NAME_CAP: nat := MAX_DOMAIN_REPR - 1

  /** `_LOG_MAX_DOMAINS + 1`: the slots of a list, the last one being the end mark. */
  const LIST_SLOTS: nat := MAX_DOMAINS + 1

  // ---------------------------------------------------------------------
  // Tokens of a list argument
  // ---------------------------------------------------------------------

  /** A text without separators. */
  predicate NoSeps(n: string)
  {
    FreeOf(n, SEPS)
  }

  /** The domains named by a list argument: it is copied into a buffer of `MAX_DOMAIN_LIST_LENGTH` and cut at the separators. */
  function Tokens(arg: string): (r: seq<string>)
    ensures forall k :: 0 <= k < |r| ==> r[k] != []
    ensures forall k :: 0 <= k < |r| ==> NoSeps(r[k])
    ensures '\0' !in arg ==> forall k :: 0 <= k < |r| ==> '\0' !in r[k]
    ensures forall k :: 0 <= k < |r| ==> |r[k]| < MAX_DOMAIN_LIST_LENGTH
  {
    var t := Clip(arg, MAX_DOMAIN_LIST_LENGTH - 1);
    SpansShape(t, SEPS, [], 0);
    Texts(t, Spans(t, SEPS, [], 0))
  }

  /** A single name without separators is its own, only token. */
  lemma TokensOfName(name: string)
    requires name != [] && |name| < MAX_DOMAIN_LIST_LENGTH
    requires NoSeps(name)
    ensures Tokens(name) == [name]
  {
    assert Clip(name, MAX_DOMAIN_LIST_LENGTH - 1) == name;
    SpansOfPlainWord(name, SEPS, []);
  }

  /** Names joined by `:`, as `_log_copy_mask_to_string` writes them. */
  function JoinNames(ns: seq<string>): (r: string)
    ensures ns == [] ==> r == []
  {
    if ns == [] then [] else if |ns| == 1 then ns[0] else ns[0] + ":" + JoinNames(ns[1..])
  }

  lemma {:induction false} JoinSnoc(ns: seq<string>, x: string)
    requires ns != []
    ensures JoinNames(ns + [x]) == JoinNames(ns) + ":" + x
    decreases |ns|
  {
    if |ns| == 1 {
      assert (ns + [x])[1..] == [x];
    } else {
      assert (ns + [x])[1..] == ns[1..] + [x];
      JoinSnoc(ns[1..], x);
    }
  }

  /** Joining a prefix of the names gives a prefix of the joined names. */
  lemma {:induction false} JoinPrefix(ns: seq<string>, e: nat)
    requires e <= |ns|
    ensures JoinNames(ns[..e]) <= JoinNames(ns)
    decreases |ns| - e
  {
    if e == |ns| {
      assert ns[..e] == ns;
    } else {
      JoinPrefix(ns, e + 1);
      var a := JoinNames(ns[..e]);
      var b := JoinNames(ns[..e + 1]);
      var c := JoinNames(ns);
      if e > 0 {
        assert ns[..e + 1] == ns[..e] + [ns[e]];
        JoinSnoc(ns[..e], ns[e]);
        assert b == a + ":" + ns[e];
      } else {
        assert ns[..e] == [];
      }
      assert a == b[..|a|];
      assert b == c[..|b|];
    }
  }

  /** At most `n` names of at most `cap` characters join into at most `n * (cap + 1)` characters. */
  lemma {:induction false} JoinLength(ns: seq<string>, cap: nat, n: nat)
    requires |ns| <= n && forall k :: 0 <= k < |ns| ==> |ns[k]| <= cap
    ensures |JoinNames(ns)| <= n * (cap + 1)
    decreases |ns|
  {
    if |ns| > 1 {
      JoinLength(ns[1..], cap, n - 1);
      assert (n - 1) * (cap + 1) + (cap + 1) == n * (cap + 1);
    } else if |ns| == 1 {
      assert n * (cap + 1) >= cap + 1;
    }
  }

  /** A text without any of the characters of `drop`. */
  predicate FreeOf(n: string, drop: seq<char>)
  {
    forall m :: 0 <= m < |n| ==> n[m] !in drop
  }

  /** A run of characters outside `drop` ended by `:` or by the end of the text is one token. */
  lemma WordSpan(s: string, drop: seq<char>, p: nat, e: nat)
    requires ':' in drop
    requires p < e <= |s|
    requires forall k :: p <= k < e ==> s[k] !in drop
    requires e < |s| ==> s[e] == ':'
    ensures e == |s| ==> Spans(s, drop, [], p) == [Span(p, e)]
    ensures e < |s| ==> Spans(s, drop, [], p) == [Span(p, e)] + Spans(s, drop, [], e + 1)
  {
    SkipDelimsAt(s, drop, p, p);
    RunEndAt(s, drop, [], p, e);
    if e < |s| {
      assert SkipDelims(s, drop, e) == SkipDelims(s, drop, e + 1);
    }
  }

  lemma HeadTail<T>(s: seq<T>)
    requires s != []
    ensures s == [s[0]] + s[1..]
  {
  }

  /** Where the first name of a joined text ends, and what follows it. */
  lemma JoinHead(s: string, ns: seq<string>, p: nat)
    requires p <= |s| && s[p..] == JoinNames(ns) && ns != []
    ensures p + |ns[0]| <= |s| && s[p..p + |ns[0]|] == ns[0]
    ensures |ns| == 1 ==> p + |ns[0]| == |s|
    ensures |ns| > 1 ==> p + |ns[0]| < |s| && s[p + |ns[0]|] == ':' && s[p + |ns[0]| + 1..] == JoinNames(ns[1..])
  {
    var n0 := ns[0];
    var J := JoinNames(ns);
    if |ns| > 1 {
      assert J == n0 + ":" + JoinNames(ns[1..]);
      assert s[p + |n0| + 1..] == J[|n0| + 1..];
    }
    assert J[..|n0|] == n0;
  }

  /** A word free of `drop` followed by `:` is the first token, and the tokens after the `:` follow it. */
  lemma FirstWord(s: string, drop: seq<char>, n: string, p: nat, q: nat)
    requires ':' in drop && n != [] && FreeOf(n, drop)
    requires q == p + |n| + 1 <= |s| && s[p..p + |n|] == n && s[p + |n|] == ':'
    ensures Texts(s, Spans(s, drop, [], p)) == [n] + Texts(s, Spans(s, drop, [], q))
  {
    var later := Spans(s, drop, [], q);
    FreeSlice(s, drop, n, p);
    WordSpan(s, drop, p, p + |n|);
    assert Spans(s, drop, [], p) == [Span(p, p + |n|)] + later;
    TextsCons(s, Span(p, p + |n|), later);
    assert Texts(s, [Span(p, p + |n|)] + later) == [n] + Texts(s, later);
  }

  /** A word free of `drop` that ends the text is its last token. */
  lemma LastWord(s: string, drop: seq<char>, n: string, p: nat)
    requires ':' in drop && n != [] && FreeOf(n, drop)
    requires p + |n| == |s| && s[p..] == n
    ensures Texts(s, Spans(s, drop, [], p)) == [n]
  {
    assert s[p..p + |n|] == n;
    FreeSlice(s, drop, n, p);
    WordSpan(s, drop, p, p + |n|);
    TextsCons(s, Span(p, p + |n|), []);
  }

  /** The first token of names joined by `:` is the first name, and the others follow the `:`. */
  lemma JoinFirstToken(s: string, drop: seq<char>, ns: seq<string>, p: nat, q: nat)
    requires ':' in drop
    requires p <= |s| && s[p..] == JoinNames(ns) && |ns| > 1
    requires ns[0] != [] && FreeOf(ns[0], drop) && q == p + |ns[0]| + 1
    ensures q <= |s| && s[q..] == JoinNames(ns[1..])
    ensures Texts(s, Spans(s, drop, [], p)) == [ns[0]] + Texts(s, Spans(s, drop, [], q))
  {
    JoinHead(s, ns, p);
    FirstWord(s, drop, ns[0], p, q);
  }

  /** The only token of one name is that name. */
  lemma JoinOnlyToken(s: string, drop: seq<char>, ns: seq<string>, p: nat)
    requires ':' in drop
    requires p <= |s| && s[p..] == JoinNames(ns) && |ns| == 1
    requires ns[0] != [] && FreeOf(ns[0], drop)
    ensures Texts(s, Spans(s, drop, [], p)) == [ns[0]]
  {
    JoinHead(s, ns, p);
    assert s[p..] == ns[0];
    LastWord(s, drop, ns[0], p);
  }

  lemma FreeSlice(s: string, drop: seq<char>, n: string, p: nat)
    requires p + |n| <= |s| && s[p..p + |n|] == n && FreeOf(n, drop)
    ensures forall k :: p <= k < p + |n| ==> s[k] !in drop
  {
    forall k | p <= k < p + |n|
      ensures s[k] !in drop
    {
      assert s[k] == n[k - p];
    }
  }

  /** Names free of the delimiters, joined by `:`, a delimiter, are cut back into the same names. */
  lemma {:induction false} SpansOfJoin(s: string, drop: seq<char>, ns: seq<string>, p: nat)
    requires ':' in drop
    requires p <= |s| && s[p..] == JoinNames(ns)
    requires forall k :: 0 <= k < |ns| ==> ns[k] != [] && FreeOf(ns[k], drop)
    ensures Texts(s, Spans(s, drop, [], p)) == ns
    decreases |ns|, 1
  {
    if ns == [] {
      NoSpansAtEnd(s, drop, p);
    } else if |ns| == 1 {
      JoinOnlyToken(s, drop, ns, p);
    } else {
      SpansOfJoinMore(s, drop, ns, p);
    }
  }

  /** The step of `SpansOfJoin` for two names or more. */
  lemma {:induction false} SpansOfJoinMore(s: string, drop: seq<char>, ns: seq<string>, p: nat)
    requires ':' in drop && |ns| > 1
    requires p <= |s| && s[p..] == JoinNames(ns)
    requires forall k :: 0 <= k < |ns| ==> ns[k] != [] && FreeOf(ns[k], drop)
    ensures Texts(s, Spans(s, drop, [], p)) == ns
    decreases |ns|, 0
  {
    var q := p + |ns[0]| + 1;
    NamesTail(ns, drop);
    JoinFirstToken(s, drop, ns, p, q);
    SpansOfJoin(s, drop, ns[1..], q);
    JoinStep(ns, Texts(s, Spans(s, drop, [], p)), Texts(s, Spans(s, drop, [], q)));
  }

  lemma NoSpansAtEnd(s: string, drop: seq<char>, p: nat)
    requires p == |s|
    ensures Texts(s, Spans(s, drop, [], p)) == []
  {
    assert SkipDelims(s, drop, p) == |s|;
  }

  lemma NamesTail(ns: seq<string>, drop: seq<char>)
    requires ns != [] && forall k :: 0 <= k < |ns| ==> ns[k] != [] && FreeOf(ns[k], drop)
    ensures forall k :: 0 <= k < |ns[1..]| ==> ns[1..][k] != [] && FreeOf(ns[1..][k], drop)
  {
    forall k | 0 <= k < |ns[1..]|
      ensures ns[1..][k] != [] && FreeOf(ns[1..][k], drop)
    {
      assert ns[1..][k] == ns[k + 1];
    }
  }

  lemma JoinStep(ns: seq<string>, a: seq<string>, b: seq<string>)
    requires |ns| > 1 && a == [ns[0]] + b && b == ns[1..]
    ensures a == ns
  {
    HeadTail(ns);
  }

  /** A domain name a list can hold: not empty, without separators or NUL, and short enough to be stored whole. */
  predicate StorableName(n: string)
  {
    n != [] && |n| <= NAME_CAP && '\0' !in n && NoSeps(n)
  }

  /** The text of up to `MAX_DOMAINS` storable names joined by `:` is cut back into those names. */
  lemma TokensOfJoin(ns: seq<string>)
    requires |ns| <= MAX_DOMAINS && forall k :: 0 <= k < |ns| ==> StorableName(ns[k])
    ensures Tokens(JoinNames(ns)) == ns
  {
    var s := JoinNames(ns);
    JoinLength(ns, NAME_CAP, MAX_DOMAINS);
    ClipShort(s, MAX_DOMAIN_LIST_LENGTH - 1);
    assert s[0..] == s;
    assert ':' in SEPS;
    forall k | 0 <= k < |ns|
      ensures ns[k] != [] && FreeOf(ns[k], SEPS)
    {
      assert StorableName(ns[k]);
    }
    SpansOfJoin(s, SEPS, ns, 0);
  }

  lemma ClipShort(s: string, cap: nat)
    requires |s| <= cap
    ensures Clip(s, cap) == s
  {
  }

  // ---------------------------------------------------------------------
  // The show and hide lists
  // ---------------------------------------------------------------------

  /** The number of leading slots in use: the entries a scan up to the first free slot sees. */
  function Used(l: seq<string>): (n: nat)
    ensures n <= |l|
    ensures forall k :: 0 <= k < n ==> l[k] != []
    ensures n < |l| ==> l[n] == []
  {
    if l == [] || l[0] == [] then 0 else 1 + Used(l[1..])
  }

  lemma {:induction false} UsedIs(l: seq<string>, n: nat)
    requires n <= |l| && (forall k :: 0 <= k < n ==> l[k] != []) && (n < |l| ==> l[n] == [])
    ensures Used(l) == n
    decreases n
  {
    if n > 0 {
      UsedIs(l[1..], n - 1);
    }
  }

  /** No free slot before a used one: the list has no holes. */
  predicate PackedList(l: seq<string>)
  {
    forall k :: Used(l) <= k < |l| ==> l[k] == []
  }

  /** A list as the logger keeps it: its slots, the end mark free, no holes, names without NUL. */
  predicate ListOk(l: seq<string>)
  {
    && |l| == LIST_SLOTS && l[MAX_DOMAINS] == [] && PackedList(l)
    && forall k :: 0 <= k < |l| ==> '\0' !in l[k] && |l[k]| <= NAME_CAP
  }

  /** The first slot before `n`, at or after `i`, named `dom`. */
  function FindName(l: seq<string>, dom: string, i: nat, n: nat): (r: Option<nat>)
    requires i <= n <= |l|
    ensures r.Some? ==> i <= r.value < n && l[r.value] == dom
    ensures r.Some? ==> forall k :: i <= k < r.value ==> l[k] != dom
    ensures r.None? ==> forall k :: i <= k < n ==> l[k] != dom
    decreases n - i
  {
    if i == n then None else if l[i] == dom then Some(i) else FindName(l, dom, i + 1, n)
  }

  /**
   * `_log_remove_mask_from_list(list, dom)`, as evidently intended: the
   * first used slot named `dom` takes the last used name, and that last
   * slot is freed.
   */
  function Removed(l: seq<string>, dom: string): (r: seq<string>)
    requires Used(l) < |l|
    ensures |r| == |l|
  {
    match FindName(l, dom, 0, Used(l))
    case None => l
    case Some(i) =>
      var j := Used(l) - 1;
      (if j != i then l[i := l[j]] else l)[j := []]
  }

  /** Taking slot `i` out by moving slot `j`, the last of the first `j + 1`, into it removes exactly that entry. */
  lemma SwapOut<T>(s: seq<T>, i: nat, j: nat, r: seq<T>)
    requires i <= j < |s| && r == if i != j then s[i := s[j]] else s
    ensures multiset(r[..j]) == multiset(s[..j + 1]) - multiset{s[i]}
  {
    assert s[..j + 1] == s[..j] + [s[j]];
    if i != j {
      SwapInside(s, i, j);
    } else {
      assert r[..j] == s[..j];
    }
  }

  /** The multiset step of `SwapOut` when the slot is not the last one. */
  lemma SwapInside<T>(s: seq<T>, i: nat, j: nat)
    requires i < j < |s|
    ensures multiset(s[i := s[j]][..j]) == multiset(s[..j]) - multiset{s[i]} + multiset{s[j]}
  {
    var r := s[i := s[j]];
    var a, b := s[..i], s[i + 1..j];
    assert s[..j] == a + [s[i]] + b;
    assert r[..j] == a + [s[j]] + b;
    assert multiset(s[..j]) == multiset(a) + multiset{s[i]} + multiset(b);
    assert multiset(r[..j]) == multiset(a) + multiset{s[j]} + multiset(b);
  }

  /**
   * Removing keeps a list a list, and takes away exactly one `dom` from the
   * names in use when there is one.
   */
  lemma RemovedTakesOne(l: seq<string>, dom: string)
    requires ListOk(l)
    ensures ListOk(Removed(l, dom))
    ensures dom !in l[..Used(l)] ==> Removed(l, dom) == l
    ensures dom in l[..Used(l)] ==>
      && Used(Removed(l, dom)) == Used(l) - 1
      && multiset(Removed(l, dom)[..Used(l) - 1]) == multiset(l[..Used(l)]) - multiset{dom}
  {
    var u := Used(l);
    match FindName(l, dom, 0, u)
    case None =>
      assert dom !in l[..u];
    case Some(i) =>
      assert dom in l[..u] by {
        assert l[..u][i] == dom;
      }
      RemovedAt(l, dom, i);
  }

  /** Removing the entry found at slot `i`: the last entry moves into it, and its own slot is freed. */
  lemma RemovedAt(l: seq<string>, dom: string, i: nat)
    requires ListOk(l) && FindName(l, dom, 0, Used(l)) == Some(i)
    ensures ListOk(Removed(l, dom))
    ensures Used(Removed(l, dom)) == Used(l) - 1
    ensures multiset(Removed(l, dom)[..Used(l) - 1]) == multiset(l[..Used(l)]) - multiset{dom}
  {
    var j := Used(l) - 1;
    var r0 := if j != i then l[i := l[j]] else l;
    var r := r0[j := []];
    assert Removed(l, dom) == r;
    MovedLastShape(l, i, j, r);
    SwapOut(l, i, j, r0);
    assert r[..j] == r0[..j];
    assert l[..j + 1] == l[..Used(l)];
  }

  /** Moving the last entry `j` into slot `i` and freeing slot `j` leaves a list of `j` entries. */
  lemma MovedLastShape(l: seq<string>, i: nat, j: nat, r: seq<string>)
    requires ListOk(l) && i <= j && j + 1 == Used(l)
    requires r == (if j != i then l[i := l[j]] else l)[j := []]
    ensures ListOk(r) && Used(r) == j
  {
    assert forall k :: 0 <= k < |r| ==> r[k] == if k == j then [] else if k == i then l[j] else l[k];
    UsedIs(r, j);
  }

  /** `_log_remove_mask_from_list` as written: it walks the characters of the first name instead of the slots of the list. */
  function RemovedAsWritten(l: seq<string>, dom: string): (r: seq<string>)
    requires |l| == LIST_SLOTS && |l[0]| <= NAME_CAP
  {
    if l[0] == [] || l[0] != dom then l
    else
      var j := |l[0]| - 1;
      l[0 := Clip(l[j], j)]
  }

  /** As written, a name after the first slot is never removed, and removing a one-character first name empties the whole list. */
  lemma RemovedAsWrittenMisses()
    ensures var l := ["AB", "C"] + Repeat("", MAX_DOMAINS - 1);
      Used(l) == 2 && RemovedAsWritten(l, "C") == l && Removed(l, "C") == ["AB"] + Repeat("", MAX_DOMAINS)
    ensures var l := ["A", "B"] + Repeat("", MAX_DOMAINS - 1);
      Used(l) == 2 && Used(RemovedAsWritten(l, "A")) == 0 && !PackedList(RemovedAsWritten(l, "A"))
      && Removed(l, "A") == ["B"] + Repeat("", MAX_DOMAINS)
  {
    var l := ["AB", "C"] + Repeat("", MAX_DOMAINS - 1);
    assert Used(l) == 2 by {
      UsedIs(l, 2);
    }
    assert FindName(l, "C", 0, 2) == Some(1);
    assert Removed(l, "C") == ["AB"] + Repeat("", MAX_DOMAINS);
    var m := ["A", "B"] + Repeat("", MAX_DOMAINS - 1);
    assert Used(m) == 2 by {
      UsedIs(m, 2);
    }
    assert FindName(m, "A", 0, 2) == Some(0);
    var w := RemovedAsWritten(m, "A");
    assert w[1] == "B";
    assert Removed(m, "A") == ["B"] + Repeat("", MAX_DOMAINS);
  }

  /** The list after `_log_apply_mask_to_list`: the first `MAX_DOMAINS` slots take the tokens in order, stored to `NAME_CAP`, then stay free. */
  function Applied(l: seq<string>, toks: seq<string>): (r: seq<string>)
    requires |l| == LIST_SLOTS
    ensures |r| == LIST_SLOTS && r[MAX_DOMAINS] == l[MAX_DOMAINS]
  {
    seq(LIST_SLOTS, k requires 0 <= k < LIST_SLOTS =>
      if k == MAX_DOMAINS then l[k] else if k < |toks| then Clip(toks[k], NAME_CAP) else [])
  }

  /** The tokens that find a place in a list. */
  function Placed(toks: seq<string>): (r: seq<string>)
    ensures r == toks[..Min(|toks|, MAX_DOMAINS)]
  {
    toks[..Min(|toks|, MAX_DOMAINS)]
  }

  /** Filling a list leaves a list whose names in use are the placed tokens, stored to `NAME_CAP`. */
  lemma AppliedIsList(l: seq<string>, toks: seq<string>)
    requires ListOk(l)
    requires forall k :: 0 <= k < |toks| ==> toks[k] != [] && '\0' !in toks[k]
    ensures ListOk(Applied(l, toks))
    ensures Used(Applied(l, toks)) == |Placed(toks)|
    ensures forall k :: 0 <= k < |Placed(toks)| ==> Applied(l, toks)[k] == Clip(toks[k], NAME_CAP)
  {
    var r := Applied(l, toks);
    UsedIs(r, |Placed(toks)|);
  }

  /** Storable names fill a list as they are. */
  lemma AppliedNames(l: seq<string>, ns: seq<string>)
    requires ListOk(l)
    requires |ns| <= MAX_DOMAINS && forall k :: 0 <= k < |ns| ==> StorableName(ns[k])
    ensures Applied(l, ns)[..Used(Applied(l, ns))] == ns
  {
    forall k | 0 <= k < |ns|
      ensures ns[k] != [] && '\0' !in ns[k]
    {
      assert StorableName(ns[k]);
    }
    AppliedIsList(l, ns);
    var r := Applied(l, ns);
    assert Used(r) == |ns|;
    forall k | 0 <= k < |ns|
      ensures r[k] == ns[k]
    {
      assert StorableName(ns[k]);
      ClipShort(ns[k], NAME_CAP);
    }
  }

  /** Setting the mask to storable names joined by `:` and reading it back gives the same text. */
  lemma MaskRoundTrip(l: seq<string>, ns: seq<string>)
    requires ListOk(l)
    requires |ns| <= MAX_DOMAINS && forall k :: 0 <= k < |ns| ==> StorableName(ns[k])
    ensures var r := Applied(l, Tokens(JoinNames(ns)));
      JoinNames(r[..Used(r)]) == JoinNames(ns)
  {
    TokensOfJoin(ns);
    AppliedNames(l, ns);
  }

  // ---------------------------------------------------------------------
  // The table of domain levels
  // ---------------------------------------------------------------------

  /** `_logDomainLevelPair_t` */
  datatype DomainLevel = DomainLevel(name: string, level: nat)

  const FREE_SLOT: DomainLevel := DomainLevel([], 0)

  function UsedSlots(t: seq<DomainLevel>): (n: nat)
    ensures n <= |t|
    ensures forall k :: 0 <= k < n ==> t[k].name != []
    ensures n < |t| ==> t[n].name == []
  {
    if t == [] || t[0].name == [] then 0 else 1 + UsedSlots(t[1..])
  }

  lemma {:induction false} UsedSlotsIs(t: seq<DomainLevel>, n: nat)
    requires n <= |t| && (forall k :: 0 <= k < n ==> t[k].name != []) && (n < |t| ==> t[n].name == [])
    ensures UsedSlots(t) == n
    decreases n
  {
    if n > 0 {
      UsedSlotsIs(t[1..], n - 1);
    }
  }

  predicate PackedSlots(t: seq<DomainLevel>)
  {
    forall k :: UsedSlots(t) <= k < |t| ==> t[k].name == []
  }

  /** The table as the logger keeps it: its slots, no holes, names without NUL. */
  predicate TableOk(t: seq<DomainLevel>)
  {
    |t| == MAX_DOMAIN_LEVEL_FILTERS && PackedSlots(t)
    && forall k :: 0 <= k < |t| ==> '\0' !in t[k].name && |t[k].name| <= NAME_CAP
  }

  function FindSlot(t: seq<DomainLevel>, token: string, i: nat, n: nat): (r: Option<nat>)
    requires i <= n <= |t|
    ensures r.Some? ==> i <= r.value < n && t[r.value].name == token
    ensures r.Some? ==> forall k :: i <= k < r.value ==> t[k].name != token
    ensures r.None? ==> forall k :: i <= k < n ==> t[k].name != token
    decreases n - i
  {
    if i == n then None else if t[i].name == token then Some(i) else FindSlot(t, token, i + 1, n)
  }

  /** The last used slot after `i` and before `j`, searched from the bottom, or `i` when there is none. */
  function LastUsedAbove(t: seq<DomainLevel>, i: nat, j: nat): (r: nat)
    requires i < j <= |t|
    ensures i <= r < j
    ensures r > i ==> t[r].name != [] && forall k :: r < k < j ==> t[k].name == []
    ensures r == i ==> forall k :: i < k < j ==> t[k].name == []
    decreases j
  {
    if j - 1 == i then i else if t[j - 1].name != [] then j - 1 else LastUsedAbove(t, i, j - 1)
  }

  /**
   * One token of `_log_clear_domain_level`: the first used slot named
   * `token` takes the last used slot of the table, and that last slot is
   * freed (its level stays behind in the free slot).
   */
  function ClearedOne(t: seq<DomainLevel>, token: string): (r: (seq<DomainLevel>, nat))
    ensures |r.0| == |t| && r.1 <= 1
    ensures r.1 == 0 <==> FindSlot(t, token, 0, UsedSlots(t)).None?
    ensures r.1 == 0 ==> r.0 == t
  {
    match FindSlot(t, token, 0, UsedSlots(t))
    case None => (t, 0)
    case Some(i) =>
      var j := LastUsedAbove(t, i, |t|);
      var t1 := if j != i then t[i := t[j]] else t;
      (t1[j := t1[j].(name := [])], 1)
  }

  /** In a table without holes, the last used slot after a used one is the last of the used slots. */
  lemma LastUsedIsLast(t: seq<DomainLevel>, i: nat)
    requires PackedSlots(t) && i < UsedSlots(t)
    ensures LastUsedAbove(t, i, |t|) == UsedSlots(t) - 1
  {
    var u := UsedSlots(t);
    var r := LastUsedAbove(t, i, |t|);
    assert t[u - 1].name != [];
    if r > i {
      assert r < u;
    }
  }

  /** Freeing the last used slot `j` after moving it into slot `i` leaves a table without holes, one slot shorter. */
  lemma SwapKeepsTable(t: seq<DomainLevel>, i: nat, j: nat, r: seq<DomainLevel>)
    requires TableOk(t) && i <= j && j + 1 == UsedSlots(t)
    requires r == (if j != i then t[i := t[j]] else t)[j := t[j].(name := [])]
    ensures TableOk(r) && UsedSlots(r) == j
  {
    forall k | 0 <= k < j
      ensures r[k].name != []
    {
      assert r[k] == (if k == i then t[j] else t[k]);
    }
    UsedSlotsIs(r, j);
  }

  /** The same swap takes exactly the entry of slot `i` out of the used slots. */
  lemma SwapTakesEntry(t: seq<DomainLevel>, i: nat, j: nat, r: seq<DomainLevel>)
    requires i <= j < |t|
    requires r == (if j != i then t[i := t[j]] else t)[j := t[j].(name := [])]
    ensures multiset(r[..j]) == multiset(t[..j + 1]) - multiset{t[i]}
  {
    var t1 := if j != i then t[i := t[j]] else t;
    SwapOut(t, i, j, t1);
    assert r[..j] == t1[..j];
  }

  /** Clearing keeps the table without holes and takes out exactly the entry found. */
  lemma ClearedTakesOne(t: seq<DomainLevel>, token: string)
    requires TableOk(t)
    ensures TableOk(ClearedOne(t, token).0)
    ensures ClearedOne(t, token).1 == 1 ==>
      var u := UsedSlots(t);
      var i := FindSlot(t, token, 0, u).value;
      && UsedSlots(ClearedOne(t, token).0) == u - 1
      && multiset(ClearedOne(t, token).0[..u - 1]) == multiset(t[..u]) - multiset{t[i]}
  {
    var u := UsedSlots(t);
    match FindSlot(t, token, 0, u)
    case None =>
    case Some(i) =>
      var j := LastUsedAbove(t, i, |t|);
      LastUsedIsLast(t, i);
      var t1 := if j != i then t[i := t[j]] else t;
      assert t1[j] == t[j];
      var r := ClearedOne(t, token).0;
      assert r == (if j != i then t[i := t[j]] else t)[j := t[j].(name := [])];
      SwapKeepsTable(t, i, j, r);
      SwapTakesEntry(t, i, j, r);
  }

  /** The used slots before `n` named `token`. */
  function Matches(t: seq<DomainLevel>, token: string, n: nat): (c: nat)
    requires n <= |t|
    ensures c <= n
    ensures c == 0 <==> forall k :: 0 <= k < n ==> t[k].name != token
  {
    if n == 0 then 0 else Matches(t, token, n - 1) + (if t[n - 1].name == token then 1 else 0)
  }

  /** Every slot before `n` named `token` takes the level `level`. */
  function Relevelled(t: seq<DomainLevel>, token: string, level: nat, n: nat): (r: seq<DomainLevel>)
    requires n <= |t|
    ensures |r| == |t|
    ensures forall k :: 0 <= k < |t| ==>
      r[k] == (if k < n && t[k].name == token then t[k].(level := level) else t[k])
  {
    seq(|t|, k requires 0 <= k < |t| => if k < n && t[k].name == token then t[k].(level := level) else t[k])
  }

  function FirstFree(t: seq<DomainLevel>, i: nat): (r: Option<nat>)
    requires i <= |t|
    ensures r.Some? ==> i <= r.value < |t| && t[r.value].name == [] && forall k :: i <= k < r.value ==> t[k].name != []
    ensures r.None? ==> forall k :: i <= k < |t| ==> t[k].name != []
    decreases |t| - i
  {
    if i == |t| then None else if t[i].name == [] then Some(i) else FirstFree(t, i + 1)
  }

  /**
   * One token of `_log_set_domain_level`: every used slot named `token`
   * takes the level; when there is none, the first free slot takes the
   * token, stored to `NAME_CAP`, with the level. The count is the number
   * of slots set.
   */
  function SetOne(t: seq<DomainLevel>, token: string, level: nat): (r: (seq<DomainLevel>, nat))
    ensures |r.0| == |t|
  {
    var n := UsedSlots(t);
    var m := Matches(t, token, n);
    if m > 0 then (Relevelled(t, token, level, n), m)
    else
      match FirstFree(t, 0)
      case None => (t, 0)
      case Some(k) => (t[k := DomainLevel(Clip(token, NAME_CAP), level)], 1)
  }

  /**
   * Setting a token keeps the table without holes; a token already in use
   * has its slots relevelled and nothing else changes; a new token goes
   * into the slot after the used ones, when there is one, and only a full
   * table sets nothing.
   */
  lemma SetOneProperties(t: seq<DomainLevel>, token: string, level: nat)
    requires TableOk(t) && token != [] && '\0' !in token
    ensures TableOk(SetOne(t, token, level).0)
    ensures SetOne(t, token, level).1 == 0 <==> UsedSlots(t) == |t| && Matches(t, token, |t|) == 0
    ensures Matches(t, token, UsedSlots(t)) > 0 ==>
      UsedSlots(SetOne(t, token, level).0) == UsedSlots(t)
    ensures Matches(t, token, UsedSlots(t)) == 0 && UsedSlots(t) < |t| ==>
      && SetOne(t, token, level).0 == t[UsedSlots(t) := DomainLevel(Clip(token, NAME_CAP), level)]
      && UsedSlots(SetOne(t, token, level).0) == UsedSlots(t) + 1
  {
    var n := UsedSlots(t);
    var r := SetOne(t, token, level).0;
    if Matches(t, token, n) > 0 {
      UsedSlotsIs(r, n);
    } else if n < |t| {
      assert FirstFree(t, 0) == Some(n);
      UsedSlotsIs(r, n + 1);
    } else {
      assert FirstFree(t, 0).None?;
    }
  }

  /** A new domain set to a level and then cleared leaves the used part of the table as it was. */
  lemma SetThenClear(t: seq<DomainLevel>, token: string, level: nat)
    requires TableOk(t) && token != [] && '\0' !in token && |token| <= NAME_CAP
    requires Matches(t, token, UsedSlots(t)) == 0 && UsedSlots(t) < |t|
    ensures var r := ClearedOne(SetOne(t, token, level).0, token);
      r.1 == 1 && UsedSlots(r.0) == UsedSlots(t) && r.0[..UsedSlots(t)] == t[..UsedSlots(t)]
  {
    var n := UsedSlots(t);
    SetOneProperties(t, token, level);
    var t1 := SetOne(t, token, level).0;
    assert t1[n].name == token;
    assert FindSlot(t1, token, 0, n + 1) == Some(n);
    assert LastUsedAbove(t1, n, |t1|) == n;
    var r := ClearedOne(t1, token).0;
    assert r[..n] == t[..n];
    UsedSlotsIs(r, n);
  }

  /** `SetOne` over a sequence of tokens, from the first: the table and the total count. */
  function SetAll(t: seq<DomainLevel>, toks: seq<string>, level: nat): (r: (seq<DomainLevel>, nat))
    ensures |r.0| == |t|
    decreases |toks|
  {
    if toks == [] then (t, 0)
    else
      var p := SetAll(t, toks[..|toks| - 1], level);
      var q := SetOne(p.0, toks[|toks| - 1], level);
      (q.0, p.1 + q.1)
  }

  /** `ClearedOne` over a sequence of tokens, from the first: the table and the total count. */
  function ClearAll(t: seq<DomainLevel>, toks: seq<string>): (r: (seq<DomainLevel>, nat))
    ensures |r.0| == |t|
    decreases |toks|
  {
    if toks == [] then (t, 0)
    else
      var p := ClearAll(t, toks[..|toks| - 1]);
      var q := ClearedOne(p.0, toks[|toks| - 1]);
      (q.0, p.1 + q.1)
  }

  /** `Removed` over a sequence of tokens, from the first. */
  function RemoveAll(l: seq<string>, toks: seq<string>): (r: seq<string>)
    requires ListOk(l)
    ensures ListOk(r)
    decreases |toks|
  {
    if toks == [] then l
    else
      var p := RemoveAll(l, toks[..|toks| - 1]);
      RemovedTakesOne(p, toks[|toks| - 1]);
      Removed(p, toks[|toks| - 1])
  }

  lemma {:induction false} SetAllKeepsTable(t: seq<DomainLevel>, toks: seq<string>, level: nat)
    requires TableOk(t) && forall k :: 0 <= k < |toks| ==> toks[k] != [] && '\0' !in toks[k]
    ensures TableOk(SetAll(t, toks, level).0)
    decreases |toks|
  {
    if toks != [] {
      SetAllKeepsTable(t, toks[..|toks| - 1], level);
      SetOneProperties(SetAll(t, toks[..|toks| - 1], level).0, toks[|toks| - 1], level);
    }
  }

  lemma {:induction false} ClearAllKeepsTable(t: seq<DomainLevel>, toks: seq<string>)
    requires TableOk(t)
    ensures TableOk(ClearAll(t, toks).0)
    decreases |toks|
  {
    if toks != [] {
      ClearAllKeepsTable(t, toks[..|toks| - 1]);
      ClearedTakesOne(ClearAll(t, toks[..|toks| - 1]).0, toks[|toks| - 1]);
    }
  }

  /** `_log_get_domain_levels`: the used slots among the first `n`, each name stored to `cap` characters. */
  function CopiedLevels(t: seq<DomainLevel>, cap: nat, n: nat): (r: seq<DomainLevel>)
    requires n <= |t|
    ensures |r| <= n
    decreases n
  {
    if n == 0 then []
    else
      var p := CopiedLevels(t, cap, n - 1);
      if t[n - 1].name != [] then p + [t[n - 1].(name := Clip(t[n - 1].name, cap))] else p
  }

  /** Names stored to `cap` or fewer characters are copied whole: a table without holes comes back as its used slots. */
  lemma {:induction false} CopiedLevelsWhole(t: seq<DomainLevel>, cap: nat, n: nat)
    requires TableOk(t) && n <= |t|
    requires forall k :: 0 <= k < |t| ==> |t[k].name| <= cap
    ensures CopiedLevels(t, cap, n) == t[..Min(n, UsedSlots(t))]
    decreases n
  {
    if n > 0 {
      CopiedLevelsWhole(t, cap, n - 1);
      var u := UsedSlots(t);
      if n - 1 < u {
        assert t[..n] == t[..n - 1] + [t[n - 1]];
        assert Clip(t[n - 1].name, cap) == t[n - 1].name;
      }
    }
  }

  /** The width the caller asks for, `maxNameLength`, counts the NUL; as written the copy keeps one character fewer. */
  function LevelsAsWritten(t: seq<DomainLevel>, maxNameLength: nat, maxDomains: nat): (r: seq<DomainLevel>)
    requires |t| == MAX_DOMAIN_LEVEL_FILTERS && maxNameLength >= 1
  {
    CopiedLevels(t, if maxNameLength >= 2 then maxNameLength - 2 else 0, Min(|t|, maxDomains))
  }

  /** As written, a name of the largest stored length comes back one character short at the advertised width. */
  lemma LevelsAsWrittenCutsName()
    ensures var name := Repeat('d', NAME_CAP);
      var t := [DomainLevel(name, LEVEL_INFO)] + Repeat(FREE_SLOT, MAX_DOMAIN_LEVEL_FILTERS - 1);
      var r := LevelsAsWritten(t, MAX_DOMAIN_REPR, MAX_DOMAIN_LEVEL_FILTERS);
      r != [] && r[0].name != name
  {
    var name := Repeat('d', NAME_CAP);
    var t := [DomainLevel(name, LEVEL_INFO)] + Repeat(FREE_SLOT, MAX_DOMAIN_LEVEL_FILTERS - 1);
    CopiedLevelsHead(t, NAME_CAP - 1, MAX_DOMAIN_LEVEL_FILTERS);
  }

  /** The first copied entry is the first slot, when it is used. */
  lemma {:induction false} CopiedLevelsHead(t: seq<DomainLevel>, cap: nat, n: nat)
    requires 0 < n <= |t| && t[0].name != []
    ensures CopiedLevels(t, cap, n) != [] && CopiedLevels(t, cap, n)[0] == t[0].(name := Clip(t[0].name, cap))
    decreases n
  {
    if n > 1 {
      CopiedLevelsHead(t, cap, n - 1);
    }
  }

  // ---------------------------------------------------------------------
  // Filtering
  // ---------------------------------------------------------------------

  /** Some used list slot before `n` matches the domain. */
  predicate AnyMatch(l: seq<string>, n: nat, domain: string)
    requires n <= |l|
  {
    exists k :: 0 <= k < n && Glob(l[k], domain)
  }

  /**
   * `_log_is_set(domain)`: with an empty show list every domain is shown
   * except those the hide list matches; otherwise only the domains the show
   * list matches are shown.
   */
  predicate DomainShown(mask: seq<string>, notMask: seq<string>, domain: string)
    requires |mask| > 0
  {
    if mask[0] == [] then !AnyMatch(notMask, Used(notMask), domain)
    else AnyMatch(mask, Used(mask), domain)
  }

  /** Some used table slot before `n` matches the domain. */
  predicate AnySlotMatch(t: seq<DomainLevel>, n: nat, domain: string)
    requires n <= |t|
  {
    exists k :: 0 <= k < n && Glob(t[k].name, domain)
  }

  /** No pattern among the first `n` slots holds a `*`; `wildcmp` then scores a match by `NonWild`. */
  predicate StarFreeSlots(t: seq<DomainLevel>, n: nat)
    requires n <= |t|
  {
    forall k :: 0 <= k < n ==> '*' !in t[k].name
  }

  /**
   * The best-match rule of `_log_filter_trace` for star-free patterns: the
   * slot whose level is kept after the first `n` slots, with the running
   * best score. A matching slot is kept when the best score so far is not
   * positive or its own score beats it.
   */
  function Kept(t: seq<DomainLevel>, n: nat, domain: string): (r: (Option<nat>, nat))
    requires n <= |t|
    ensures r.0.Some? ==> r.0.value < n && Glob(t[r.0.value].name, domain) && r.1 == NonWild(t[r.0.value].name)
    ensures r.0.None? ==> r.1 == 0
    ensures r.0.Some? <==> AnySlotMatch(t, n, domain)
  {
    if n == 0 then (None, 0)
    else
      var p := Kept(t, n - 1, domain);
      var s := NonWild(t[n - 1].name);
      if Glob(t[n - 1].name, domain) && (p.1 == 0 || s > p.1) then (Some(n - 1), s)
      else
        assert AnySlotMatch(t, n - 1, domain) ==> AnySlotMatch(t, n, domain);
        p
  }

  /** One more slot: `Kept` takes it exactly when it matches and beats the best score so far. */
  lemma KeptNext(t: seq<DomainLevel>, i: nat, domain: string)
    requires i < |t|
    ensures StarFreeSlots(t, i + 1) ==> StarFreeSlots(t, i) && '*' !in t[i].name
    ensures var p, s := Kept(t, i, domain), NonWild(t[i].name);
      Kept(t, i + 1, domain) == if Glob(t[i].name, domain) && (p.1 == 0 || s > p.1) then (Some(i), s) else p
  {
  }

  /** After `i` slots of a star-free table, the running best score and level are those of `Kept`. */
  predicate Tracks(t: seq<DomainLevel>, i: nat, domain: string, best: int, lvl: nat)
    requires i <= |t|
  {
    StarFreeSlots(t, i) ==>
      && best == Kept(t, i, domain).1
      && (Kept(t, i, domain).0.Some? ==> lvl == t[Kept(t, i, domain).0.value].level)
  }

  /** One turn of the scan, with `wildcmp`'s contract, keeps the running values those of `Kept`. */
  lemma TracksNext(t: seq<DomainLevel>, i: nat, domain: string, best: int, lvl: nat, ok: bool, best': int)
    requires i < |t| && Tracks(t, i, domain, best, lvl)
    requires ok ==> Glob(t[i].name, domain)
    requires !ok ==> best' == best
    requires '*' !in t[i].name && Glob(t[i].name, domain) ==>
      (ok <==> best <= 0 || NonWild(t[i].name) > best) && (ok ==> best' == NonWild(t[i].name))
    ensures Tracks(t, i + 1, domain, best', if ok then t[i].level else lvl)
  {
    KeptNext(t, i, domain);
  }

  /** No matching slot scores more than the slot kept. */
  lemma {:induction false} KeptScoreIsMax(t: seq<DomainLevel>, n: nat, domain: string)
    requires n <= |t|
    ensures forall j :: 0 <= j < n && Glob(t[j].name, domain) ==> NonWild(t[j].name) <= Kept(t, n, domain).1
  {
    if n > 0 {
      KeptScoreIsMax(t, n - 1, domain);
    }
  }

  /** A kept slot with a positive score beats every earlier match. */
  lemma {:induction false} KeptBeatsEarlier(t: seq<DomainLevel>, n: nat, domain: string)
    requires n <= |t| && Kept(t, n, domain).0.Some? && Kept(t, n, domain).1 > 0
    ensures forall j :: 0 <= j < Kept(t, n, domain).0.value && Glob(t[j].name, domain) ==> NonWild(t[j].name) < Kept(t, n, domain).1
  {
    var p := Kept(t, n - 1, domain);
    if Kept(t, n, domain).0 == Some(n - 1) {
      KeptScoreIsMax(t, n - 1, domain);
    } else {
      KeptBeatsEarlier(t, n - 1, domain);
    }
  }

  /** A kept slot with score 0 is the last matching slot. */
  lemma {:induction false} KeptZeroIsLast(t: seq<DomainLevel>, n: nat, domain: string)
    requires n <= |t| && Kept(t, n, domain).0.Some? && Kept(t, n, domain).1 == 0
    ensures forall j :: Kept(t, n, domain).0.value < j < n ==> !Glob(t[j].name, domain)
  {
    if Kept(t, n, domain).0 != Some(n - 1) {
      KeptZeroIsLast(t, n - 1, domain);
    }
  }

  /**
   * The slot kept has the highest score of all matching slots. With a
   * positive score it is the first slot reaching it; with score 0 (a
   * pattern of `?` only) no later slot matches.
   */
  lemma KeptIsBest(t: seq<DomainLevel>, n: nat, domain: string)
    requires n <= |t| && Kept(t, n, domain).0.Some?
    ensures var k := Kept(t, n, domain).0.value;
      && (forall j :: 0 <= j < n && Glob(t[j].name, domain) ==> NonWild(t[j].name) <= NonWild(t[k].name))
      && (NonWild(t[k].name) > 0 ==> forall j :: 0 <= j < k && Glob(t[j].name, domain) ==> NonWild(t[j].name) < NonWild(t[k].name))
      && (NonWild(t[k].name) == 0 ==> forall j :: k < j < n ==> !Glob(t[j].name, domain))
  {
    KeptScoreIsMax(t, n, domain);
    if Kept(t, n, domain).1 > 0 {
      KeptBeatsEarlier(t, n, domain);
    } else {
      KeptZeroIsLast(t, n, domain);
    }
  }

  /** Of `?b` at level 1 and `ab` at level 5, the domain `ab` keeps the closer match, `ab`. */
  lemma CloserMatchWins()
    ensures Kept([DomainLevel("?b", 1), DomainLevel("ab", 5)], 2, "ab").0 == Some(1)
  {
    var t := [DomainLevel("?b", 1), DomainLevel("ab", 5)];
    NoStarGlob("?b", "ab");
    NoStarGlob("ab", "ab");
    assert NonWild("?b") == 1 by { assert "?b"[..1] == "?"; assert "?"[..0] == ""; }
    assert NonWild("ab") == 2 by { assert "ab"[..1] == "a"; assert "a"[..0] == ""; }
  }

  // ---------------------------------------------------------------------
  // Reading the lists back
  // ---------------------------------------------------------------------

  /** The names in use in a list, joined by `:`. */
  function MaskText(l: seq<string>): string
  {
    JoinNames(l[..Used(l)])
  }

  /**
   * What `_log_copy_mask_to_string(list, dest, max)` leaves in `dest`: as
   * much of the text as fits in `max` characters, then a NUL when there is
   * room left; nothing at all when `max` is 0.
   */
  function CopyInto(buf: seq<char>, text: string, max: nat): (r: seq<char>)
    requires max <= |buf|
    ensures |r| == |buf| && r[max..] == buf[max..]
    ensures forall k :: 0 <= k < Min(|text|, max) ==> r[k] == text[k]
    ensures |text| < max ==> r[|text|] == '\0'
  {
    if |text| < max then text + ['\0'] + buf[|text| + 1..] else text[..max] + buf[max..]
  }

  /** A text that fits is read back whole from the buffer; one that does not is cut at `max`. */
  lemma CopyReadsBack(buf: seq<char>, text: string, max: nat)
    requires max <= |buf| && '\0' !in text
    ensures |text| < max ==> CText(CopyInto(buf, text, max)) == text
    ensures |text| >= max ==> CopyInto(buf, text, max)[..max] == text[..max]
  {
    var r := CopyInto(buf, text, max);
    if |text| < max {
      var rest := ['\0'] + buf[|text| + 1..];
      assert r == text + rest;
      CTextPrefix(text, rest);
    } else {
      var head := text[..max];
      assert r == head + buf[max..];
      assert r[..max] == head;
    }
  }

  /** Joined names without NUL have no NUL. */
  lemma {:induction false} JoinNoNul(ns: seq<string>)
    requires forall k :: 0 <= k < |ns| ==> '\0' !in ns[k]
    ensures '\0' !in JoinNames(ns)
    decreases |ns|
  {
    if |ns| > 1 {
      JoinNoNul(ns[1..]);
    }
  }

  /**
   * Setting the show list to storable names joined by `:` and reading the
   * masks into a buffer of `LOG_LIMIT_MASKS` characters or more gives back
   * the same text.
   */
  lemma GetMasksReadsBack(l: seq<string>, ns: seq<string>, buf: seq<char>, max: nat)
    requires ListOk(l)
    requires |ns| <= MAX_DOMAINS && forall k :: 0 <= k < |ns| ==> StorableName(ns[k])
    requires MAX_DOMAIN_LIST_LENGTH <= max <= |buf|
    ensures CText(CopyInto(buf, MaskText(Applied(l, Tokens(JoinNames(ns)))), max)) == JoinNames(ns)
  {
    MaskRoundTrip(l, ns);
    JoinLength(ns, NAME_CAP, MAX_DOMAINS);
    forall k | 0 <= k < |ns|
      ensures '\0' !in ns[k]
    {
      assert StorableName(ns[k]);
    }
    JoinNoNul(ns);
    CopyReadsBack(buf, JoinNames(ns), max);
  }

  /** The tokens of an optional list argument; a null pointer has none. */
  function ArgTokens(arg: Option<string>): seq<string>
  {
    if arg.None? then [] else Tokens(arg.value)
  }

  // ---------------------------------------------------------------------
  // The filter state
  // ---------------------------------------------------------------------

  /** `_log_copy_mask_to_string`'s inner loop: up to `room` characters of `name` go to `dest` from `pos`. */
  method CopyChars(dest: array<char>, pos: nat, name: string, room: nat) returns (n: nat)
    requires pos + room <= dest.Length
    modifies dest
    ensures n == Min(|name|, room)
    ensures forall k :: 0 <= k < dest.Length ==> dest[k] == if pos <= k < pos + n then name[k - pos] else old(dest[k])
  {
    n := 0;
    while n < room && n < |name|
      invariant n <= room && n <= |name|
      invariant forall k :: 0 <= k < dest.Length ==> dest[k] == if pos <= k < pos + n then name[k - pos] else old(dest[k])
    {
      dest[pos + n] := name[n];
      n := n + 1;
    }
  }

  /**
   * `_log_copy_mask_to_string(list, dest, max)`: the names in use, joined
   * by `:`, as far as `max` characters allow, then a NUL if there is room.
   */
  method CopyMaskToString(list: array<string>, dest: array<char>, max: nat)
    requires Used(list[..]) < list.Length && max <= dest.Length
    modifies dest
    ensures dest[..] == CopyInto(old(dest[..]), MaskText(list[..]), max)
  {
    ghost var text := MaskText(list[..]);
    if max == 0 {
      return;
    }
    var pos, room := CopyNames(list, dest, max);
    if room > 0 {
      dest[pos] := '\0';
    }
    assert dest[..] == CopyInto(old(dest[..]), text, max);
  }

  /** The names up to slot `i` joined are the names before it joined, a `:` and the name of slot `i`. */
  lemma JoinNext(l: seq<string>, u: nat, i: nat)
    requires i < u <= |l|
    ensures JoinNames(l[..i + 1]) <= JoinNames(l[..u])
    ensures i == 0 ==> JoinNames(l[..i + 1]) == l[i]
    ensures i > 0 ==> JoinNames(l[..i + 1]) == JoinNames(l[..i]) + ":" + l[i]
  {
    assert l[..i + 1] == l[..i] + [l[i]];
    JoinPrefix(l[..u], i + 1);
    assert l[..u][..i + 1] == l[..i + 1];
    if i > 0 {
      JoinSnoc(l[..i], l[i]);
    }
  }

  /** The loop of `_log_copy_mask_to_string`: the joined names go to `dest` until `max` characters are written. */
  method CopyNames(list: array<string>, dest: array<char>, max: nat) returns (pos: nat, room: nat)
    requires Used(list[..]) < list.Length && 0 < max <= dest.Length
    modifies dest
    ensures pos + room == max && pos == Min(|MaskText(list[..])|, max)
    ensures room > 0 ==> pos == |MaskText(list[..])|
    ensures forall k :: 0 <= k < pos ==> dest[k] == MaskText(list[..])[k]
    ensures forall k :: pos <= k < dest.Length ==> dest[k] == old(dest[k])
  {
    ghost var l := list[..];
    ghost var u := Used(l);
    ghost var text := MaskText(l);
    room := max;
    pos := 0;
    var again := false;
    var i: nat := 0;
    while list[i] != [] && room > 0
      invariant i <= u && pos + room == max && again == (i > 0)
      invariant JoinNames(l[..i]) <= text
      invariant pos == Min(|JoinNames(l[..i])|, max)
      invariant forall k :: 0 <= k < pos ==> dest[k] == text[k]
      invariant forall k :: pos <= k < dest.Length ==> dest[k] == old(dest[k])
      decreases u - i
    {
      ghost var before := JoinNames(l[..i]);
      ghost var after := JoinNames(l[..i + 1]);
      JoinNext(l, u, i);
      if again {
        dest[pos] := ':';
        pos := pos + 1;
        room := room - 1;
      }
      ghost var base := pos;
      assert forall k :: 0 <= k < |list[i]| ==> after[base + k] == list[i][k];
      var n := CopyChars(dest, pos, list[i], room);
      pos := pos + n;
      room := room - n;
      i := i + 1;
      again := true;
    }
    if room > 0 {
      assert i == u;
      assert l[..u] == l[..i];
    }
  }

  /**
   * The domain filters of the logger: the global level, the show list
   * (mask), the hide list (not-mask) and the table of domain levels.
   */
  class Logger {
    /** `_log_level` */
    var level: nat
    /** `_log_mask`: the domains to show. */
    const mask: array<string>
    /** `_log_not_mask`: the domains to hide. */
    const notMask: array<string>
    /** `_log_domain_level_lookup` */
    const levels: array<DomainLevel>

    ghost predicate Valid()
      reads this, mask, notMask, levels
    {
      ListsOk() && TableOk(levels[..])
    }

    /** The part of `Valid` that the table's operations leave alone. */
    ghost predicate ListsOk()
      reads this, mask, notMask
    {
      && mask != notMask && level <= LEVEL_DEBUG
      && ListOk(mask[..]) && ListOk(notMask[..])
    }

    /** The statically initialised state: level `LOG_LEVEL_MILE`, both lists and the table empty. */
    constructor ()
      ensures Valid() && level == LEVEL_MILE
      ensures mask[..] == Repeat([], LIST_SLOTS) && notMask[..] == Repeat([], LIST_SLOTS)
      ensures levels[..] == Repeat(FREE_SLOT, MAX_DOMAIN_LEVEL_FILTERS)
    {
      level := LEVEL_MILE;
      mask := new string[LIST_SLOTS](_ => []);
      notMask := new string[LIST_SLOTS](_ => []);
      levels := new DomainLevel[MAX_DOMAIN_LEVEL_FILTERS](_ => FREE_SLOT);
      new;
      UsedIs(mask[..], 0);
      UsedIs(notMask[..], 0);
      UsedSlotsIs(levels[..], 0);
    }

    /** `_log_set_level`: a level above `LOG_LEVEL_DEBUG` is ignored. */
    method SetLevel(l: nat)
      requires Valid()
      modifies this
      ensures Valid()
      ensures level == if l <= LEVEL_DEBUG then l else old(level)
    {
      if l <= LEVEL_DEBUG {
        level := l;
      }
    }

    /** `_log_reset_domain_level_filters` */
    method ResetLevels()
      requires Valid()
      modifies levels
      ensures Valid()
      ensures levels[..] == Repeat(FREE_SLOT, MAX_DOMAIN_LEVEL_FILTERS)
    {
      forall k | 0 <= k < levels.Length {
        levels[k] := FREE_SLOT;
      }
      UsedSlotsIs(levels[..], 0);
    }

    /** One token of `_log_clear_domain_level`. */
    method ClearToken(token: string) returns (cleared: nat)
      requires Valid()
      modifies levels
      ensures Valid()
      ensures (levels[..], cleared) == ClearedOne(old(levels[..]), token)
    {
      ghost var t := levels[..];
      var i: nat := 0;
      while i < levels.Length && levels[i].name != []
        invariant i <= levels.Length && levels[..] == t
        invariant forall k :: 0 <= k < i ==> t[k].name != [] && t[k].name != token
      {
        if levels[i].name == token {
          assert i < UsedSlots(t);
          assert FindSlot(t, token, 0, UsedSlots(t)) == Some(i);
          TakeSlot(i, token);
          return 1;
        }
        i := i + 1;
      }
      UsedSlotsIs(t, i);
      return 0;
    }

    /** The match at slot `i` of `_log_clear_domain_level`: the last used slot moves into it and is freed. */
    method TakeSlot(i: nat, ghost token: string)
      requires Valid() && i < levels.Length
      requires FindSlot(levels[..], token, 0, UsedSlots(levels[..])) == Some(i)
      modifies levels
      ensures Valid()
      ensures (levels[..], 1) == ClearedOne(old(levels[..]), token)
    {
      ghost var t := levels[..];
      var j := FindLastUsed(i);
      ghost var t1 := if j != i then t[i := t[j]] else t;
      if j != i {
        levels[i] := levels[j];
      }
      assert levels[..] == t1;
      levels[j] := levels[j].(name := []);
      assert levels[..] == t1[j := t1[j].(name := [])];
      assert j == LastUsedAbove(t, i, |t|);
      assert ClearedOne(t, token) == (levels[..], 1);
      ClearedTakesOne(t, token);
    }

    /** The search from the bottom of the table for the last used slot after slot `i`. */
    method FindLastUsed(i: nat) returns (j: nat)
      requires i < levels.Length
      ensures j == LastUsedAbove(levels[..], i, levels.Length)
    {
      j := levels.Length - 1;
      while j != i && levels[j].name == []
        invariant i <= j < levels.Length
        invariant forall k :: j < k < levels.Length ==> levels[k].name == []
      {
        j := j - 1;
      }
      LastUsedIs(levels[..], i, j);
    }

    /**
     * `_log_clear_domain_level(domains)`: a null or empty argument frees
     * every slot; otherwise each token is cleared in turn, and the count of
     * slots freed is returned.
     */
    method ClearDomainLevel(domains: Option<string>) returns (cleared: nat)
      requires Valid() && (domains.Some? ==> '\0' !in domains.value)
      modifies levels
      ensures Valid()
      ensures (domains.None? || domains.value == []) ==>
        cleared == 0 && levels[..] == Repeat(FREE_SLOT, MAX_DOMAIN_LEVEL_FILTERS)
      ensures domains.Some? && domains.value != [] ==>
        (levels[..], cleared) == ClearAll(old(levels[..]), Tokens(domains.value))
    {
      if domains.None? || domains.value == [] {
        ResetLevels();
        return 0;
      }
      var toks := Tokens(domains.value);
      ghost var t := levels[..];
      cleared := 0;
      var i: nat := 0;
      while i < |toks|
        invariant i <= |toks| && Valid()
        invariant levels[..] == ClearAll(t, toks[..i]).0 && cleared == ClearAll(t, toks[..i]).1
      {
        ClearAllStep(t, toks, i);
        var c := ClearToken(toks[i]);
        cleared := cleared + c;
        i := i + 1;
      }
      assert toks[..i] == toks;
    }

    /** The first loop of one token of `_log_set_domain_level`: every used slot named `token` takes the level. */
    method Relevel(token: string, lvl: nat) returns (count: nat)
      modifies levels
      ensures levels[..] == Relevelled(old(levels[..]), token, lvl, UsedSlots(old(levels[..])))
      ensures count == Matches(old(levels[..]), token, UsedSlots(old(levels[..])))
    {
      ghost var t := levels[..];
      count := 0;
      var i: nat := 0;
      // the stored names hold at most NAME_CAP characters, so comparing
      // the first MAX_DOMAIN_REPR characters is comparing the names
      while i < levels.Length && levels[i].name != []
        invariant i <= levels.Length
        invariant forall k :: 0 <= k < i ==> t[k].name != []
        invariant count == Matches(t, token, i)
        invariant levels[..] == Relevelled(t, token, lvl, i)
      {
        if levels[i].name == token {
          levels[i] := levels[i].(level := lvl);
          count := count + 1;
        }
        i := i + 1;
      }
      UsedSlotsIs(t, i);
    }

    /** The search of the second loop of one token of `_log_set_domain_level`: the first free slot. */
    method FindFree() returns (k: Option<nat>)
      ensures k == FirstFree(levels[..], 0)
    {
      var i: nat := 0;
      while i < levels.Length && levels[i].name != []
        invariant i <= levels.Length
        invariant forall m :: 0 <= m < i ==> levels[m].name != []
      {
        i := i + 1;
      }
      if i < levels.Length {
        return Some(i);
      }
      return None;
    }

    /** One token of `_log_set_domain_level`. */
    method SetToken(token: string, lvl: nat) returns (count: nat)
      requires Valid() && token != [] && '\0' !in token
      modifies levels
      ensures Valid()
      ensures (levels[..], count) == SetOne(old(levels[..]), token, lvl)
    {
      ghost var t := levels[..];
      SetOneProperties(t, token, lvl);
      count := Relevel(token, lvl);
      if count == 0 {
        assert levels[..] == t;
        var k := FindFree();
        if k.Some? {
          levels[k.value] := DomainLevel(Clip(token, NAME_CAP), lvl);
          count := 1;
        }
      }
    }

    /** The body of the token loop of `_log_set_domain_level`. */
    method SetAndUnmask(token: string, lvl: nat) returns (count: nat)
      requires Valid() && token != [] && '\0' !in token
      modifies levels, mask, notMask
      ensures Valid()
      ensures (levels[..], count) == SetOne(old(levels[..]), token, lvl)
      ensures mask[..] == Removed(old(mask[..]), token) && notMask[..] == Removed(old(notMask[..]), token)
    {
      count := SetToken(token, lvl);
      RemovedTakesOne(mask[..], token);
      RemovedTakesOne(notMask[..], token);
      RemoveFromList(mask, token);
      RemoveFromList(notMask, token);
    }

    /**
     * `_log_set_domain_level(domains, level)`: a null or empty argument
     * changes nothing; otherwise each token is set to the level in the
     * table and taken out of both lists, and the count of slots set is
     * returned.
     */
    method SetDomainLevel(domains: Option<string>, lvl: nat) returns (count: nat)
      requires Valid() && (domains.Some? ==> '\0' !in domains.value)
      modifies levels, mask, notMask
      ensures Valid()
      ensures (domains.None? || domains.value == []) ==>
        && count == 0 && levels[..] == old(levels[..])
        && mask[..] == old(mask[..]) && notMask[..] == old(notMask[..])
      ensures domains.Some? && domains.value != [] ==>
        && (levels[..], count) == SetAll(old(levels[..]), Tokens(domains.value), lvl)
        && mask[..] == RemoveAll(old(mask[..]), Tokens(domains.value))
        && notMask[..] == RemoveAll(old(notMask[..]), Tokens(domains.value))
    {
      if domains.None? || domains.value == [] {
        return 0;
      }
      var toks := Tokens(domains.value);
      ghost var t := levels[..];
      ghost var l := mask[..];
      ghost var h := notMask[..];
      count := 0;
      var i: nat := 0;
      while i < |toks|
        invariant i <= |toks| && Valid()
        invariant levels[..] == SetAll(t, toks[..i], lvl).0 && count == SetAll(t, toks[..i], lvl).1
        invariant mask[..] == RemoveAll(l, toks[..i])
        invariant notMask[..] == RemoveAll(h, toks[..i])
      {
        SetAllStep(t, toks, lvl, i);
        RemoveAllStep(l, toks, i);
        RemoveAllStep(h, toks, i);
        var c := SetAndUnmask(toks[i], lvl);
        count := count + c;
        i := i + 1;
      }
      assert toks[..i] == toks;
    }

    /**
     * `_log_apply_mask_to_list(arg, list, MAX_DOMAINS)`: the list is
     * emptied, then each token takes the first free slot, if any, and is
     * cleared from the table of domain levels.
     */
    method ApplyMaskToList(arg: Option<string>, list: array<string>)
      requires Valid() && (list == mask || list == notMask)
      requires arg.Some? ==> '\0' !in arg.value
      modifies list, levels
      ensures Valid()
      ensures list[..] == Applied(old(list[..]), ArgTokens(arg))
      ensures levels[..] == ClearAll(old(levels[..]), Placed(ArgTokens(arg))).0
    {
      ghost var l := list[..];
      ghost var t := levels[..];
      ClearList(list);
      AppliedIsList(l, []);
      if arg.None? {
        return;
      }
      var toks := Tokens(arg.value);
      PlaceTokens(list, toks, l, t);
    }

    /** The token loop of `_log_apply_mask_to_list`, from the emptied list. */
    method PlaceTokens(list: array<string>, toks: seq<string>, ghost l: seq<string>, ghost t: seq<DomainLevel>)
      requires Valid() && (list == mask || list == notMask) && ListOk(l)
      requires forall k :: 0 <= k < |toks| ==> toks[k] != [] && '\0' !in toks[k]
      requires forall k :: 0 <= k < |toks| ==> NoSeps(toks[k]) && |toks[k]| < MAX_DOMAIN_LIST_LENGTH
      requires list[..] == Applied(l, []) && levels[..] == t
      modifies list, levels
      ensures Valid()
      ensures list[..] == Applied(l, toks)
      ensures levels[..] == ClearAll(t, Placed(toks)).0
    {
      var n: nat := 0;
      while n < |toks|
        invariant n <= |toks| && Valid()
        invariant list[..] == Applied(l, toks[..n])
        invariant levels[..] == ClearAll(t, Placed(toks[..n])).0
      {
        ghost var before, lv := list[..], levels[..];
        PlaceToken(list, toks[n]);
        PlaceStep(l, t, toks, n, before, list[..], lv, levels[..]);
        n := n + 1;
      }
      assert toks[..n] == toks;
    }

    /**
     * The body of the token loop of `_log_apply_mask_to_list`: the token
     * takes the first free slot, if any, and is then cleared from the table
     * of domain levels.
     */
    method PlaceToken(list: array<string>, token: string)
      requires Valid() && (list == mask || list == notMask)
      requires token != [] && '\0' !in token && NoSeps(token) && |token| < MAX_DOMAIN_LIST_LENGTH
      modifies list, levels
      ensures Valid()
      ensures Used(old(list[..])) < MAX_DOMAINS ==>
        && list[..] == old(list[..])[Used(old(list[..])) := Clip(token, NAME_CAP)]
        && levels[..] == ClearAll(old(levels[..]), [token]).0
      ensures Used(old(list[..])) >= MAX_DOMAINS ==> list[..] == old(list[..]) && levels[..] == old(levels[..])
    {
      ghost var l := list[..];
      var i := FirstFreeName(list);
      UsedIs(l, i);
      if i != MAX_DOMAINS {
        list[i] := Clip(token, NAME_CAP);
        UsedIs(list[..], i + 1);
        TokensOfName(token);
        var _ := ClearDomainLevel(Some(token));
      }
    }

    /** `_log_set_mask(arg)`: the show list takes the tokens and the hide list is emptied. */
    method SetMask(arg: Option<string>)
      requires Valid() && (arg.Some? ==> '\0' !in arg.value)
      modifies mask, notMask, levels
      ensures Valid()
      ensures mask[..] == Applied(old(mask[..]), ArgTokens(arg))
      ensures notMask[..] == Applied(old(notMask[..]), [])
      ensures levels[..] == ClearAll(old(levels[..]), Placed(ArgTokens(arg))).0
    {
      ApplyMaskToList(arg, mask);
      ApplyMaskToList(None, notMask);
    }

    /** `_log_set_not_mask(arg)`: the hide list takes the tokens and the show list is emptied. */
    method SetNotMask(arg: Option<string>)
      requires Valid() && (arg.Some? ==> '\0' !in arg.value)
      modifies mask, notMask, levels
      ensures Valid()
      ensures notMask[..] == Applied(old(notMask[..]), ArgTokens(arg))
      ensures mask[..] == Applied(old(mask[..]), [])
      ensures levels[..] == ClearAll(old(levels[..]), Placed(ArgTokens(arg))).0
    {
      ApplyMaskToList(arg, notMask);
      ApplyMaskToList(None, mask);
    }

    /**
     * `_log_get_masks(masks, lMasks, notMasks, lNotMasks)`: the show list
     * goes to the first buffer, then the hide list to the second.
     */
    method GetMasks(masks: array<char>, lMasks: nat, notMasks: array<char>, lNotMasks: nat)
      requires Valid() && lMasks <= masks.Length && lNotMasks <= notMasks.Length
      modifies masks, notMasks
      ensures masks != notMasks ==> masks[..] == CopyInto(old(masks[..]), MaskText(mask[..]), lMasks)
      ensures masks != notMasks ==> notMasks[..] == CopyInto(old(notMasks[..]), MaskText(notMask[..]), lNotMasks)
      ensures masks == notMasks ==>
        notMasks[..] == CopyInto(CopyInto(old(masks[..]), MaskText(mask[..]), lMasks), MaskText(notMask[..]), lNotMasks)
    {
      CopyMaskToString(mask, masks, lMasks);
      CopyMaskToString(notMask, notMasks, lNotMasks);
    }

    /** `_log_is_set(domain)`, the show and hide decision. */
    method IsSet(domain: string) returns (shown: bool)
      requires Valid() && '\0' !in domain
      ensures shown == DomainShown(mask[..], notMask[..], domain)
    {
      if mask[0] == [] {
        var score := 0;
        var i: nat := 0;
        while notMask[i] != []
          invariant i <= Used(notMask[..]) && score == 0
          invariant forall k :: 0 <= k < i ==> !Glob(notMask[k], domain)
          decreases Used(notMask[..]) - i
        {
          var ok;
          ok, score := Wildcmp(notMask[i], domain, score);
          if ok {
            return false;
          }
          i := i + 1;
        }
        return true;
      }
      var score := 0;
      var i: nat := 0;
      // a do-while in the source; the first slot is known to be used
      while mask[i] != []
        invariant i <= Used(mask[..]) && score == 0
        invariant forall k :: 0 <= k < i ==> !Glob(mask[k], domain)
        decreases Used(mask[..]) - i
      {
        var ok;
        ok, score := Wildcmp(mask[i], domain, score);
        if ok {
          return true;
        }
        i := i + 1;
      }
      return false;
    }

    /**
     * The table scan of `_log_filter_trace`: every used slot is tried in
     * turn with the running best score, and the level of the last slot that
     * `wildcmp` accepts is kept, the global level when none is.
     */
    method BestLevel(d: string) returns (matched: bool, lvl: nat)
      requires Valid() && '\0' !in d
      ensures matched <==> AnySlotMatch(levels[..], UsedSlots(levels[..]), d)
      ensures matched ==> exists k :: 0 <= k < UsedSlots(levels[..]) && Glob(levels[k].name, d) && lvl == levels[k].level
      ensures StarFreeSlots(levels[..], UsedSlots(levels[..])) && matched ==>
        lvl == levels[Kept(levels[..], UsedSlots(levels[..]), d).0.value].level
    {
      var matches: nat := 0;
      lvl := level;
      var best := 0;
      var i: nat := 0;
      while i < levels.Length && levels[i].name != []
        invariant i <= levels.Length
        invariant forall k :: 0 <= k < i ==> levels[k].name != []
        invariant matches > 0 <==> AnySlotMatch(levels[..], i, d)
        invariant matches == 0 ==> best == 0
        invariant matches > 0 ==> exists k :: 0 <= k < i && Glob(levels[k].name, d) && lvl == levels[k].level
        invariant Tracks(levels[..], i, d, best, lvl)
      {
        var ok, best' := Wildcmp(levels[i].name, d, best);
        TracksNext(levels[..], i, d, best, lvl, ok, best');
        best := best';
        if ok {
          matches := matches + 1;
          lvl := levels[i].level;
        }
        i := i + 1;
      }
      UsedSlotsIs(levels[..], i);
      matched := matches > 0;
    }

    /**
     * `_log_filter_trace(domain, logLevel)`: whether a trace goes out. No
     * domain is judged by the global level alone; a domain some slot of the
     * table matches is judged by the level of the best match (`Kept`, when
     * no pattern holds a `*`); any other by the global level and the show
     * and hide lists.
     */
    method FilterTrace(domain: Option<string>, logLevel: nat) returns (pass: bool)
      requires Valid() && (domain.Some? ==> '\0' !in domain.value)
      ensures domain.None? ==> pass == (level >= logLevel)
      ensures domain.Some? && !AnySlotMatch(levels[..], UsedSlots(levels[..]), domain.value) ==>
        pass == (level >= logLevel && DomainShown(mask[..], notMask[..], domain.value))
      ensures domain.Some? && AnySlotMatch(levels[..], UsedSlots(levels[..]), domain.value) ==>
        exists k :: 0 <= k < UsedSlots(levels[..]) && Glob(levels[k].name, domain.value) && pass == (levels[k].level >= logLevel)
      ensures domain.Some? && StarFreeSlots(levels[..], UsedSlots(levels[..])) && AnySlotMatch(levels[..], UsedSlots(levels[..]), domain.value) ==>
        pass == (levels[Kept(levels[..], UsedSlots(levels[..]), domain.value).0.value].level >= logLevel)
    {
      if domain.None? {
        return level >= logLevel;
      }
      var d := domain.value;
      if levels[0].name == [] {
        UsedSlotsIs(levels[..], 0);
        if level >= logLevel {
          pass := IsSet(d);
        } else {
          pass := false;
        }
        return;
      }
      var matched, lvl := BestLevel(d);
      if matched {
        return lvl >= logLevel;
      }
      if level >= logLevel {
        pass := IsSet(d);
      } else {
        pass := false;
      }
    }

    /**
     * `_log_get_domain_levels(map, maxNameLength, maxDomains)`, as evidently
     * intended: the used slots among the first `maxDomains` are copied in
     * order to the front of `pairs`, each name kept to `maxNameLength - 1`
     * characters and the NUL; the rest of `pairs` is left as it was.
     */
    method GetDomainLevels(pairs: array<DomainLevel>, maxNameLength: nat, maxDomains: nat) returns (found: nat)
      requires levels.Length == MAX_DOMAIN_LEVEL_FILTERS && maxNameLength >= 1 && pairs != levels
      requires Min(MAX_DOMAIN_LEVEL_FILTERS, maxDomains) <= pairs.Length
      modifies pairs
      ensures var c := CopiedLevels(levels[..], maxNameLength - 1, Min(MAX_DOMAIN_LEVEL_FILTERS, maxDomains));
        found == |c| && pairs[..found] == c && pairs[found..] == old(pairs[found..])
    {
      ghost var t := levels[..];
      var cap: nat := maxNameLength - 1;
      var i: nat := 0;
      found := 0;
      while i < levels.Length && i < maxDomains
        invariant i <= Min(MAX_DOMAIN_LEVEL_FILTERS, maxDomains) && found <= i
        invariant found == |CopiedLevels(t, cap, i)|
        invariant pairs[..found] == CopiedLevels(t, cap, i)
        invariant forall k :: found <= k < pairs.Length ==> pairs[k] == old(pairs[k])
      {
        if levels[i].name != [] {
          var entry := levels[i].(name := Clip(levels[i].name, cap));
          pairs[found] := entry;
          assert pairs[..found + 1] == pairs[..found] + [entry];
          found := found + 1;
        }
        i := i + 1;
      }
      assert i == Min(MAX_DOMAIN_LEVEL_FILTERS, maxDomains);
      assert pairs[found..] == old(pairs[found..]);
    }
  }

  /** The `memset` of `_log_apply_mask_to_list`: the first `MAX_DOMAINS` slots are freed. */
  method ClearList(list: array<string>)
    requires list.Length == LIST_SLOTS
    modifies list
    ensures list[..] == Applied(old(list[..]), [])
  {
    forall k | 0 <= k < MAX_DOMAINS {
      list[k] := [];
    }
    assert list[..] == Applied(old(list[..]), []);
  }

  /** The first free slot of the first `MAX_DOMAINS`, or `MAX_DOMAINS` when all are used. */
  method FirstFreeName(list: array<string>) returns (i: nat)
    requires MAX_DOMAINS <= list.Length
    ensures i <= MAX_DOMAINS && (i < MAX_DOMAINS ==> list[i] == [])
    ensures forall k :: 0 <= k < i ==> list[k] != []
  {
    i := 0;
    while i != MAX_DOMAINS && list[i] != []
      invariant i <= MAX_DOMAINS
      invariant forall k :: 0 <= k < i ==> list[k] != []
    {
      i := i + 1;
    }
  }

  /** One token of `_log_apply_mask_to_list` takes both the list and the table one token further. */
  lemma PlaceStep(l: seq<string>, t: seq<DomainLevel>, toks: seq<string>, n: nat,
                  before: seq<string>, after: seq<string>, lv: seq<DomainLevel>, lv': seq<DomainLevel>)
    requires ListOk(l) && n < |toks|
    requires forall k :: 0 <= k < |toks| ==> toks[k] != [] && '\0' !in toks[k]
    requires before == Applied(l, toks[..n]) && lv == ClearAll(t, Placed(toks[..n])).0
    requires Used(before) < MAX_DOMAINS ==>
      after == before[Used(before) := Clip(toks[n], NAME_CAP)] && lv' == ClearAll(lv, [toks[n]]).0
    requires Used(before) >= MAX_DOMAINS ==> after == before && lv' == lv
    ensures after == Applied(l, toks[..n + 1]) && lv' == ClearAll(t, Placed(toks[..n + 1])).0
  {
    assert forall k :: 0 <= k < |toks[..n]| ==> toks[..n][k] == toks[k];
    AppliedIsList(l, toks[..n]);
    AppliedStep(l, toks, n);
    ClearAllSnoc(t, Placed(toks[..n]), toks[n]);
  }

  lemma AppliedStep(l: seq<string>, toks: seq<string>, n: nat)
    requires |l| == LIST_SLOTS && n < |toks|
    requires forall k :: 0 <= k < |toks| ==> toks[k] != []
    ensures forall k :: 0 <= k < Min(n, MAX_DOMAINS) ==> Applied(l, toks[..n])[k] != []
    ensures n < MAX_DOMAINS ==>
      && Applied(l, toks[..n + 1]) == Applied(l, toks[..n])[n := Clip(toks[n], NAME_CAP)]
      && Placed(toks[..n + 1]) == Placed(toks[..n]) + [toks[n]]
    ensures n >= MAX_DOMAINS ==>
      Applied(l, toks[..n + 1]) == Applied(l, toks[..n]) && Placed(toks[..n + 1]) == Placed(toks[..n])
  {
  }

  lemma ClearAllSnoc(t: seq<DomainLevel>, p: seq<string>, x: string)
    ensures ClearAll(t, p + [x]).0 == ClearAll(ClearAll(t, p).0, [x]).0
  {
    assert (p + [x])[..|p|] == p;
  }

  lemma ClearAllStep(t: seq<DomainLevel>, toks: seq<string>, i: nat)
    requires i < |toks|
    ensures var p := ClearAll(t, toks[..i]);
      var q := ClearedOne(p.0, toks[i]);
      ClearAll(t, toks[..i + 1]) == (q.0, p.1 + q.1)
  {
    var pre := toks[..i + 1];
    assert pre[..|pre| - 1] == toks[..i] && pre[|pre| - 1] == toks[i];
  }

  lemma SetAllStep(t: seq<DomainLevel>, toks: seq<string>, level: nat, i: nat)
    requires i < |toks|
    ensures var p := SetAll(t, toks[..i], level);
      var q := SetOne(p.0, toks[i], level);
      SetAll(t, toks[..i + 1], level) == (q.0, p.1 + q.1)
  {
    var pre := toks[..i + 1];
    assert pre[..|pre| - 1] == toks[..i] && pre[|pre| - 1] == toks[i];
  }

  lemma RemoveAllStep(l: seq<string>, toks: seq<string>, i: nat)
    requires ListOk(l) && i < |toks|
    ensures ListOk(RemoveAll(l, toks[..i]))
    ensures RemoveAll(l, toks[..i + 1]) == Removed(RemoveAll(l, toks[..i]), toks[i])
  {
    var pre := toks[..i + 1];
    assert pre[..|pre| - 1] == toks[..i] && pre[|pre| - 1] == toks[i];
  }

  /** `LastUsedAbove` is the slot that ends the search from the bottom. */
  lemma LastUsedIs(t: seq<DomainLevel>, i: nat, j: nat)
    requires i <= j < |t|
    requires j > i ==> t[j].name != []
    requires forall k :: j < k < |t| ==> t[k].name == []
    ensures LastUsedAbove(t, i, |t|) == j
  {
  }

  /** With a capacity the stored names fit in, the copied table is the used part of the table. */
  lemma DomainLevelsReadBack(t: seq<DomainLevel>, maxNameLength: nat)
    requires TableOk(t) && maxNameLength >= MAX_DOMAIN_REPR
    ensures CopiedLevels(t, maxNameLength - 1, Min(MAX_DOMAIN_LEVEL_FILTERS, MAX_DOMAIN_LEVEL_FILTERS)) == t[..UsedSlots(t)]
  {
    CopiedLevelsWhole(t, maxNameLength - 1, MAX_DOMAIN_LEVEL_FILTERS);
  }

  /**
   * `_log_remove_mask_from_list(list, dom)`, as evidently intended: the
   * used slots are searched for `dom`, and the one found takes the last
   * used name, whose slot is freed.
   */
  method RemoveFromList(list: array<string>, dom: string)
    requires ListOk(list[..])
    modifies list
    ensures list[..] == Removed(old(list[..]), dom)
  {
    ghost var l := list[..];
    ghost var u := Used(l);
    assert u < |l|;
    var i: nat := 0;
    while list[i] != []
      invariant i <= u && list[..] == l
      invariant forall k :: 0 <= k < i ==> l[k] != dom
      decreases u - i
    {
      if list[i] == dom {
        assert FindName(l, dom, 0, u) == Some(i);
        var j: nat := i + 1;
        while list[j] != []
          invariant i < j <= u
          decreases u - j
        {
          j := j + 1;
        }
        j := j - 1;
        if j != i {
          list[i] := list[j];
        }
        list[j] := [];
        return;
      }
      i := i + 1;
    }
    assert FindName(l, dom, 0, u).None?;
  }
}
