/**
  The four regular expressions of the monitor, each written as a matcher
  anchored at one position, and `re.search` over them: the start positions
  are tried from the left and the first one where the whole pattern matches
  wins.
 */
module Patterns {
  import opened Wrappers
  import opened Text

  /**
    `NameLine` is `name[s]?:\s*(.*?)(\n|$)`; `Number(key)` is
    `key[s]?:\s*([0-9.,]+)`; `SensTicker` is `/sens/.*?-(\w+)-`.
   */
  datatype Pattern = NameLine | Number(key: string) | SensTicker

  /** Where a search found its pattern first, and what group 1 captured. */
  datatype Hit = Hit(pos: nat, group: string)

  /** Where the keyword part `key[s]?:` ends, when it starts at `i`. */
  function KeyEnd(s: string, key: string, i: nat): (r: Option<nat>)
    ensures r.Some? <==> MatchesAt(s, key + ":", i) || MatchesAt(s, key + "s:", i)
    ensures r.Some? ==> i <= r.value <= |s|
    ensures r.Some? ==> s[i..r.value] == key + ":" || s[i..r.value] == key + "s:"
  {
    if MatchesAt(s, key + "s:", i) then Some(i + |key| + 2)
    else if MatchesAt(s, key + ":", i) then Some(i + |key| + 1)
    else None
  }

  /** `t` is a non-empty word with a '-' just before it, at `k`, and a '-' just after it. */
  predicate DashedWord(s: string, k: nat, t: string) {
    && |t| > 0
    && (forall m :: 0 <= m < |t| ==> IsWordChar(t[m]))
    && k + |t| + 1 < |s|
    && s[k] == '-'
    && s[k + 1..k + 1 + |t|] == t
    && s[k + 1 + |t|] == '-'
  }

  /** Group 1 of `-(\w+)-` anchored at `k`: `\w+` is greedy and must be followed by '-'. */
  function DashWordAt(s: string, k: nat): (r: Option<string>)
    ensures r.Some? ==> DashedWord(s, k, r.value)
  {
    if k < |s| && s[k] == '-' then
      var e := RunEnd(s, k + 1, IsWordChar);
      if k + 1 < e < |s| && s[e] == '-' then Some(s[k + 1..e]) else None
    else None
  }

  /**
    `-(\w+)-` matches at `k` with group `t` exactly when `t` is a word between
    two dashes there: '-' is no word character, so the greedy run stops at it.
   */
  lemma DashWordIs(s: string, k: nat, t: string)
    ensures DashWordAt(s, k) == Some(t) <==> DashedWord(s, k, t)
  {
    if DashedWord(s, k, t) {
      forall m | k + 1 <= m < k + 1 + |t|
        ensures IsWordChar(s[m])
      {
        assert s[m] == t[m - k - 1];
      }
      RunEndAt(s, k + 1, k + 1 + |t|, IsWordChar);
    }
  }

  /**
    `.*?-(\w+)-` from `lo`: the lazy `.*?` tries the stretches `s[lo..k]` for
    `k = lo, lo+1, ..., hi-1` in turn, and the first `k` where `-(\w+)-`
    matches wins.
   */
  function LazyTail(s: string, lo: nat, hi: nat): (r: Option<Hit>)
    ensures r.Some? ==>
      && lo <= r.value.pos < hi
      && DashWordAt(s, r.value.pos) == Some(r.value.group)
      && forall k: nat :: lo <= k < r.value.pos ==> DashWordAt(s, k).None?
    decreases hi - lo
  {
    if hi <= lo then None
    else match DashWordAt(s, lo)
      case Some(g) => Some(Hit(lo, g))
      case None => LazyTail(s, lo + 1, hi)
  }

  /** The lazy scan fails only when no start position from `lo` to `hi - 1` has `-(\w+)-`. */
  lemma {:induction false} LazyTailNone(s: string, lo: nat, hi: nat)
    ensures LazyTail(s, lo, hi).None? <==> forall k: nat :: lo <= k < hi ==> DashWordAt(s, k).None?
    decreases hi - lo
  {
    if lo < hi {
      if DashWordAt(s, lo).None? {
        LazyTailNone(s, lo + 1, hi);
        assert LazyTail(s, lo, hi) == LazyTail(s, lo + 1, hi);
      } else {
        assert LazyTail(s, lo, hi).Some?;
      }
    }
  }

  /**
    Group 1 of `pat` when the match is anchored at `i`; None when the
    pattern cannot match there. `[s]?` and `\s*` are greedy and the rest of
    each pattern never needs them to give back a character, so each one is
    one maximal run.
   */
  function At(pat: Pattern, s: string, i: nat): (r: Option<string>)
    ensures pat.NameLine? ==> (r.Some? <==> KeyEnd(s, "name", i).Some?)
    ensures pat.NameLine? && r.Some? ==> '\n' !in r.value
    ensures pat.Number? && r.Some? ==>
      && KeyEnd(s, pat.key, i).Some?
      && |r.value| > 0
      && forall m :: 0 <= m < |r.value| ==> IsPriceChar(r.value[m])
    ensures pat.SensTicker? && r.Some? ==> MatchesAt(s, "/sens/", i)
  {
    match pat
    case NameLine =>
      (match KeyEnd(s, "name", i)
       case None => None
       case Some(k) =>
         // `.*?` stops at the first place where `\n` or `$` matches
         var j := RunEnd(s, k, IsSpace);
         Some(s[j..RunEnd(s, j, NotNewline)]))
    case Number(key) =>
      (match KeyEnd(s, key, i)
       case None => None
       case Some(k) =>
         var j := RunEnd(s, k, IsSpace);
         var e := RunEnd(s, j, IsPriceChar);
         if j < e then Some(s[j..e]) else None)
    case SensTicker => SensAt(s, i)
  }

  /**
    `t` is a word between two dashes at `k`, after the "/sens/" at `i`, with
    no newline between the two.
   */
  ghost predicate SensParts(s: string, i: nat, k: nat, t: string) {
    && MatchesAt(s, "/sens/", i)
    && i + 6 <= k
    && DashedWord(s, k, t)
    && (forall m :: i + 6 <= m < k ==> s[m] != '\n')
  }

  /**
    Group 1 of `/sens/.*?-(\w+)-` anchored at `i`: a word laid out as
    `SensParts` says. The first two clauses spell out the lazy scan over the
    rest of the line.
   */
  function SensAt(s: string, i: nat): (r: Option<string>)
    ensures r.Some? <==> MatchesAt(s, "/sens/", i) && LazyTail(s, i + 6, RunEnd(s, i + 6, NotNewline) + 1).Some?
    ensures r.Some? ==> r == Some(LazyTail(s, i + 6, RunEnd(s, i + 6, NotNewline) + 1).value.group)
    ensures r.Some? ==> exists k: nat :: SensParts(s, i, k, r.value)
  {
    if MatchesAt(s, "/sens/", i) then
      // `.` does not match a newline, so `.*?` cannot stretch past one
      var q := i + 6;
      var stop := RunEnd(s, q, NotNewline);
      match LazyTail(s, q, stop + 1)
      case Some(h) =>
        assert q <= h.pos <= stop;
        assert SensParts(s, i, h.pos, h.group);
        Some(h.group)
      case None => None
    else None
  }

  /** The anchored match succeeds at a "/sens/" followed, on its line, by a word between dashes. */
  lemma SensAtParts(s: string, i: nat, k: nat, t: string)
    requires SensParts(s, i, k, t)
    ensures SensAt(s, i).Some?
  {
    var q := i + 6;
    var stop := RunEnd(s, q, NotNewline);
    assert k <= stop;
    DashWordIs(s, k, t);
    LazyTailNone(s, q, stop + 1);
  }

  /** The lazy `.*?` makes the anchored match capture the word at the first dash pair. */
  lemma SensAtFirst(s: string, i: nat, g: string, k: nat, t: string)
    requires SensAt(s, i) == Some(g)
    requires SensParts(s, i, k, t)
    requires forall k': nat, t': string :: k' < k ==> !SensParts(s, i, k', t')
    ensures g == t
  {
    var q := i + 6;
    var stop := RunEnd(s, q, NotNewline);
    var tail := LazyTail(s, q, stop + 1).value;
    assert tail.group == g;
    assert q <= tail.pos <= stop;
    assert SensParts(s, i, tail.pos, g);
    DashWordIs(s, k, t);
    assert tail.pos == k;
  }

  /** `re.search` restricted to the start positions `lo .. hi-1`. */
  function Search(pat: Pattern, s: string, lo: nat, hi: nat): (r: Option<Hit>)
    ensures r.None? <==> forall i: nat :: lo <= i < hi ==> At(pat, s, i).None?
    ensures r.Some? ==>
      && lo <= r.value.pos < hi
      && At(pat, s, r.value.pos) == Some(r.value.group)
      && forall i: nat :: lo <= i < r.value.pos ==> At(pat, s, i).None?
    decreases hi - lo
  {
    if hi <= lo then None
    else match At(pat, s, lo)
      case Some(g) => Some(Hit(lo, g))
      case None => Search(pat, s, lo + 1, hi)
  }

  /** `re.search(pat, s)`: every position of `s`, the end included. */
  function Find(pat: Pattern, s: string): (r: Option<Hit>)
    ensures r.None? <==> forall i: nat :: i <= |s| ==> At(pat, s, i).None?
    ensures r.Some? ==>
      && r.value.pos <= |s|
      && At(pat, s, r.value.pos) == Some(r.value.group)
      && forall i: nat :: i < r.value.pos ==> At(pat, s, i).None?
  {
    Search(pat, s, 0, |s| + 1)
  }
}
