/**
  Field extraction from the lower-cased plain text of one notice page
  (`parse_sens`): a presence gate, three first-match regex searches and
  four keyword tests.
 */
module Notices {
  import opened Wrappers
  import opened Text
  import opened Patterns

  datatype Notice = Notice(
    name: string,
    price: string,
    value: string,
    tradeType: string,
    onMarket: string,
    scheme: string,
    url: string)

  /** The sentinel for a field whose pattern found nothing. */
  const Unknown: string := "Unknown"

  /** The phrase a true disclosure notice must contain (singular "dealing"). */
  const Gate: string := "dealing in securities"

  /** `name_match.group(1).strip() if name_match else "Unknown"`. */
  function NameField(s: string): (r: string)
    ensures Stripped(r) && '\n' !in r
  {
    match Find(NameLine, s)
    case Some(h) =>
      StripWithin(h.group);
      Strip(h.group)
    case None => Unknown
  }

  /** `match.group(1) if match else "Unknown"` for the price and value patterns. */
  function NumberField(s: string, key: string): (r: string)
    ensures r == Unknown || (|r| > 0 && forall m :: 0 <= m < |r| ==> IsPriceChar(r[m]))
  {
    match Find(Number(key), s)
    case Some(h) => h.group
    case None => Unknown
  }

  /** The body of `parse_sens` once the text has been fetched and lower-cased. */
  function Extract(text: string, url: string): (r: Option<Notice>)
    ensures r.None? <==> !Contains(text, Gate)
    ensures r.Some? ==> r.value.url == url
    ensures r.Some? ==>
      && r.value.tradeType in {"buy", "sell"}
      && (r.value.tradeType == "buy" <==> Contains(text, "purchase") || Contains(text, "acquire"))
    ensures r.Some? ==>
      && r.value.onMarket in {"on-market", "off-market"}
      && (r.value.onMarket == "on-market" <==> Contains(text, "on market"))
    ensures r.Some? ==>
      && r.value.scheme in {"yes", "no"}
      && (r.value.scheme == "yes" <==> Contains(text, "incentive") || Contains(text, "scheme"))
  {
    if !Contains(text, Gate) then None
    else
      Some(Notice(
        name := NameField(text),
        price := NumberField(text, "price"),
        value := NumberField(text, "value"),
        tradeType := if Contains(text, "purchase") || Contains(text, "acquire") then "buy" else "sell",
        onMarket := if Contains(text, "on market") then "on-market" else "off-market",
        scheme := if Contains(text, "incentive") || Contains(text, "scheme") then "yes" else "no",
        url := url))
  }

  /** `parse_sens` on the page's plain text: lower-case it, then extract. */
  function ParseSens(pageText: string, url: string): (r: Option<Notice>)
    ensures r.None? <==> !Contains(Lower(pageText), Gate)
    ensures r.Some? ==> r.value.url == url
  {
    Extract(Lower(pageText), url)
  }

  // ----- What the searches find, as positions in the text -----

  /**
    The name match starts at `p`, the leftmost "name:" or "names:"; the
    keyword ends at `k`, whitespace (newlines included) runs to `j`, and the
    rest of that line runs from `j` to `e`.
   */
  ghost predicate NameParts(s: string, p: nat, k: nat, j: nat, e: nat) {
    && p <= k <= j <= e <= |s|
    && KeyEnd(s, "name", p) == Some(k)
    && (forall q: nat :: q < p ==> !MatchesAt(s, "name:", q) && !MatchesAt(s, "names:", q))
    && (forall m :: k <= m < j ==> IsSpace(s[m]))
    && (j == |s| || !IsSpace(s[j]))
    && (forall m :: j <= m < e ==> s[m] != '\n')
    && (e == |s| || s[e] == '\n')
  }

  lemma {:induction false} NameFieldFound(s: string)
    requires Contains(s, "name:") || Contains(s, "names:")
    ensures exists p: nat, k: nat, j: nat, e: nat :: NameParts(s, p, k, j, e) && NameField(s) == Strip(s[j..e])
    ensures '\n' !in NameField(s) && Stripped(NameField(s))
    ensures forall c :: c in NameField(s) ==> c in s
  {
    var w: nat :| w <= |s| && (MatchesAt(s, "name:", w) || MatchesAt(s, "names:", w));
    assert "name" + ":" == "name:" && "name" + "s:" == "names:";
    assert At(NameLine, s, w).Some?;
    var h := Find(NameLine, s).value;
    var p := h.pos;
    var k := KeyEnd(s, "name", p).value;
    var j := RunEnd(s, k, IsSpace);
    var e := RunEnd(s, j, NotNewline);
    assert h.group == s[j..e];
    forall q: nat | q < p
      ensures !MatchesAt(s, "name:", q) && !MatchesAt(s, "names:", q)
    {
      assert "name" + ":" == "name:" && "name" + "s:" == "names:";
      assert At(NameLine, s, q).None?;
    }
    assert NameParts(s, p, k, j, e);
    assert NameField(s) == Strip(s[j..e]);
    assert '\n' !in s[j..e];
    StripWithin(s[j..e]);
    assert forall c :: c in s[j..e] ==> c in s;
  }

  lemma {:induction false} NameFieldUnknown(s: string)
    requires NoUpper(s)
    ensures NameField(s) == Unknown <==> !Contains(s, "name:") && !Contains(s, "names:")
  {
    if Contains(s, "name:") || Contains(s, "names:") {
      NameFieldFound(s);
      assert 'U' !in s;
      assert Unknown[0] == 'U';
    } else {
      NameFieldAbsent(s);
    }
  }

  lemma NameFieldAbsent(s: string)
    requires !Contains(s, "name:") && !Contains(s, "names:")
    ensures Find(NameLine, s).None?
  {
    forall i: nat | i <= |s|
      ensures At(NameLine, s, i).None?
    {
      assert "name" + ":" == "name:" && "name" + "s:" == "names:";
      assert !MatchesAt(s, "name:", i) && !MatchesAt(s, "names:", i);
    }
  }

  /**
    `key[s]?:` starts at `q` and, after optional whitespace, one of `[0-9.,]`
    follows: the places where the price or value pattern can match.
   */
  predicate NumberStartsAt(s: string, key: string, q: nat) {
    match KeyEnd(s, key, q)
    case None => false
    case Some(k) =>
      var j := RunEnd(s, k, IsSpace);
      j < |s| && IsPriceChar(s[j])
  }

  /**
    The price or value match starts at `p`, the leftmost place where the
    pattern can match; whitespace runs from `k` to `j`, and the digits, dots
    and commas run from `j` to `e`, as far as they go.
   */
  ghost predicate NumberParts(s: string, key: string, p: nat, k: nat, j: nat, e: nat) {
    && p <= k <= j < e <= |s|
    && KeyEnd(s, key, p) == Some(k)
    && NumberStartsAt(s, key, p)
    && (forall q: nat :: q < p ==> !NumberStartsAt(s, key, q))
    && (forall m :: k <= m < j ==> IsSpace(s[m]))
    && (forall m :: j <= m < e ==> IsPriceChar(s[m]))
    && (e == |s| || !IsPriceChar(s[e]))
  }

  lemma {:induction false} NumberAtStarts(s: string, key: string, q: nat)
    ensures At(Number(key), s, q).Some? <==> NumberStartsAt(s, key, q)
  {
  }

  lemma {:induction false} NumberFieldUnknown(s: string, key: string)
    ensures NumberField(s, key) == Unknown <==> forall q: nat :: q <= |s| ==> !NumberStartsAt(s, key, q)
  {
    forall q: nat | q <= |s|
      ensures At(Number(key), s, q).Some? <==> NumberStartsAt(s, key, q)
    {
      NumberAtStarts(s, key, q);
    }
    var h := Find(Number(key), s);
    if h.Some? {
      var k := KeyEnd(s, key, h.value.pos).value;
      var j := RunEnd(s, k, IsSpace);
      var e := RunEnd(s, j, IsPriceChar);
      assert NumberField(s, key) == s[j..e];
      assert s[j..e][0] == s[j] && IsPriceChar(s[j]);
    }
  }

  lemma {:induction false} NumberFieldFound(s: string, key: string)
    requires NumberField(s, key) != Unknown
    ensures |NumberField(s, key)| > 0
    ensures forall m :: 0 <= m < |NumberField(s, key)| ==> IsPriceChar(NumberField(s, key)[m])
    ensures exists p: nat, k: nat, j: nat, e: nat ::
      NumberParts(s, key, p, k, j, e) && NumberField(s, key) == s[j..e]
  {
    var h := Find(Number(key), s).value;
    var p := h.pos;
    var k := KeyEnd(s, key, p).value;
    var j := RunEnd(s, k, IsSpace);
    var e := RunEnd(s, j, IsPriceChar);
    assert NumberField(s, key) == s[j..e];
    forall q: nat | q < p
      ensures !NumberStartsAt(s, key, q)
    {
      NumberAtStarts(s, key, q);
    }
    NumberAtStarts(s, key, p);
    assert NumberParts(s, key, p, k, j, e);
  }

  /**
    What a parsed notice holds, in terms of the lower-cased page text: the
    name is "Unknown" exactly when no "name:" or "names:" occurs and is
    otherwise one stripped line, and the price and value are "Unknown" or a
    run of digits, dots and commas.
   */
  lemma ParsedFields(pageText: string, url: string)
    requires ParseSens(pageText, url).Some?
    ensures var text := Lower(pageText);
      var n := ParseSens(pageText, url).value;
      && (n.name == Unknown <==> !Contains(text, "name:") && !Contains(text, "names:"))
      && (n.name != Unknown ==> '\n' !in n.name && Stripped(n.name))
      && (n.price == Unknown || (|n.price| > 0 && forall m :: 0 <= m < |n.price| ==> IsPriceChar(n.price[m])))
      && (n.value == Unknown || (|n.value| > 0 && forall m :: 0 <= m < |n.value| ==> IsPriceChar(n.value[m])))
    ensures var text := Lower(pageText);
      var n := ParseSens(pageText, url).value;
      n.name != Unknown ==>
        exists p: nat, k: nat, j: nat, e: nat :: NameParts(text, p, k, j, e) && n.name == Strip(text[j..e])
    ensures var text := Lower(pageText);
      var n := ParseSens(pageText, url).value;
      n.price != Unknown ==>
        exists p: nat, k: nat, j: nat, e: nat :: NumberParts(text, "price", p, k, j, e) && n.price == text[j..e]
    ensures var text := Lower(pageText);
      var n := ParseSens(pageText, url).value;
      n.value != Unknown ==>
        exists p: nat, k: nat, j: nat, e: nat :: NumberParts(text, "value", p, k, j, e) && n.value == text[j..e]
  {
    var text := Lower(pageText);
    var n := ParseSens(pageText, url).value;
    assert n == Extract(text, url).value;
    assert n.name == NameField(text) && n.price == NumberField(text, "price") && n.value == NumberField(text, "value");
    NameFieldUnknown(text);
    if Contains(text, "name:") || Contains(text, "names:") {
      NameFieldFound(text);
    }
    if n.price != Unknown {
      NumberFieldFound(text, "price");
    }
    if n.value != Unknown {
      NumberFieldFound(text, "value");
    }
  }
}
