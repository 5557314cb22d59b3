/** Parsing the subscriber's comma-separated pair list
    (`[p.strip().upper() for p in text.split(",") if p.strip()]`). */
module PairParsing {
  import opened Types

  /** Python's `str.isspace`: the characters `str.strip()` removes. */
  predicate IsSpace(ch: char) {
    || '\t' <= ch <= '\r'
    || '\U{1C}' <= ch <= ' '
    || ch == '\U{85}' || ch == '\U{A0}' || ch == '\U{1680}'
    || '\U{2000}' <= ch <= '\U{200A}'
    || ch == '\U{2028}' || ch == '\U{2029}' || ch == '\U{202F}'
    || ch == '\U{205F}' || ch == '\U{3000}'
  }

  predicate IsAsciiLower(ch: char) {
    'a' <= ch <= 'z'
  }

  /** The ASCII part of `str.upper()` on one character. */
  function UpperChar(ch: char): (u: char)
    ensures !IsAsciiLower(u)
    ensures IsSpace(u) <==> IsSpace(ch)
    ensures ch == u <==> !IsAsciiLower(ch)
    ensures IsAsciiLower(ch) ==> 'A' <= u <= 'Z' && u as int - 'A' as int == ch as int - 'a' as int
  {
    if IsAsciiLower(ch) then (ch as int - 'a' as int + 'A' as int) as char else ch
  }

  /** `str.upper()`, ASCII letters only. */
  function ToUpper(s: string): (r: string)
    ensures |r| == |s|
    ensures forall i :: 0 <= i < |s| ==> r[i] == UpperChar(s[i])
    decreases |s|
  {
    if |s| == 0 then [] else [UpperChar(s[0])] + ToUpper(s[1..])
  }

  /** Length of the leading whitespace run (what `lstrip()` removes). */
  function LeadingSpace(s: string): (k: nat)
    ensures k <= |s|
    ensures forall i :: 0 <= i < k ==> IsSpace(s[i])
    ensures k < |s| ==> !IsSpace(s[k])
    decreases |s|
  {
    if |s| == 0 || !IsSpace(s[0]) then 0 else 1 + LeadingSpace(s[1..])
  }

  /** Where the trailing whitespace run starts (what `rstrip()` keeps). */
  function TrailingStart(s: string): (k: nat)
    ensures k <= |s|
    ensures forall i :: k <= i < |s| ==> IsSpace(s[i])
    ensures k > 0 ==> !IsSpace(s[k - 1])
    decreases |s|
  {
    if |s| == 0 || !IsSpace(s[|s| - 1]) then |s| else TrailingStart(s[..|s| - 1])
  }

  /** `strip()`: the run of `s` between its leading and trailing whitespace;
      empty exactly when `s` is all whitespace. */
  function Strip(s: string): (r: string)
    ensures r == [] <==> forall i :: 0 <= i < |s| ==> IsSpace(s[i])
    ensures r != [] ==> !IsSpace(r[0]) && !IsSpace(r[|r| - 1])
    ensures exists lo, hi :: 0 <= lo <= hi <= |s| && r == s[lo..hi]
              && (forall i :: 0 <= i < lo ==> IsSpace(s[i]))
              && (forall i :: hi <= i < |s| ==> IsSpace(s[i]))
  {
    var lo, hi := LeadingSpace(s), TrailingStart(s);
    if lo < hi then s[lo..hi]
    else
      assert lo == |s| && s[|s|..|s|] == [];
      []
  }

  /** Stripping never introduces a character. */
  lemma StripKeepsOut(s: string, c: char)
    requires c !in s
    ensures c !in Strip(s)
  {
    var lo, hi := LeadingSpace(s), TrailingStart(s);
    if lo < hi {
      var r := Strip(s);
      forall i | 0 <= i < |r|
        ensures r[i] != c
      {
        assert r[i] == s[lo + i];
      }
    }
  }

  /** `str.split(sep)`: the pieces between separators, empty pieces included. */
  function Split(s: string, sep: char): (parts: seq<string>)
    ensures |parts| >= 1
    ensures forall i :: 0 <= i < |parts| ==> sep !in parts[i]
    decreases |s|
  {
    if |s| == 0 then [""]
    else
      var rest := Split(s[1..], sep);
      if s[0] == sep then [""] + rest
      else [[s[0]] + rest[0]] + rest[1..]
  }

  /** `sep.join(parts)`, the inverse of `Split`. */
  function Join(parts: seq<string>, sep: char): string
    requires |parts| >= 1
    decreases |parts|
  {
    if |parts| == 1 then parts[0] else parts[0] + [sep] + Join(parts[1..], sep)
  }

  lemma {:induction false} JoinSplit(s: string, sep: char)
    ensures Join(Split(s, sep), sep) == s
    decreases |s|
  {
    if |s| > 0 {
      var rest := Split(s[1..], sep);
      JoinSplit(s[1..], sep);
      if s[0] == sep {
        assert ([""] + rest)[1..] == rest;
      } else {
        var parts := [[s[0]] + rest[0]] + rest[1..];
        if |rest| > 1 {
          assert parts[1..] == rest[1..];
        }
        assert s == [s[0]] + s[1..];
      }
    }
  }

  /** Splitting at a separator splits the pieces on either side of it. */
  lemma {:induction false} SplitAppend(a: string, b: string, sep: char)
    ensures Split(a + [sep] + b, sep) == Split(a, sep) + Split(b, sep)
    decreases |a|
  {
    var s := a + [sep] + b;
    if |a| == 0 {
      assert s[1..] == b;
    } else {
      assert s[1..] == a[1..] + [sep] + b;
      SplitAppend(a[1..], b, sep);
    }
  }

  /** Text without a separator is a single piece. */
  lemma {:induction false} SplitWithoutSep(s: string, sep: char)
    requires sep !in s
    ensures Split(s, sep) == [s]
    decreases |s|
  {
    if |s| > 0 {
      assert sep !in s[1..];
      SplitWithoutSep(s[1..], sep);
      assert s == [s[0]] + s[1..];
    }
  }

  /** `Split` recovers any list of separator-free pieces from their join. */
  lemma {:induction false} SplitJoin(parts: seq<string>, sep: char)
    requires |parts| >= 1
    requires forall i :: 0 <= i < |parts| ==> sep !in parts[i]
    ensures Split(Join(parts, sep), sep) == parts
    decreases |parts|
  {
    SplitWithoutSep(parts[0], sep);
    if |parts| > 1 {
      SplitJoin(parts[1..], sep);
      SplitAppend(parts[0], Join(parts[1..], sep), sep);
      assert parts == [parts[0]] + parts[1..];
    }
  }

  /** A stored pair code: non-empty, no surrounding whitespace, no ASCII
      lower-case letter. */
  predicate WellFormedSymbol(s: Symbol) {
    && |s| > 0
    && !IsSpace(s[0]) && !IsSpace(s[|s| - 1])
    && forall i :: 0 <= i < |s| ==> !IsAsciiLower(s[i])
  }

  /** A piece the comprehension drops. */
  predicate Blank(p: string) {
    Strip(p) == []
  }

  /** Upper-casing keeps the edges non-space and removes every lower-case
      letter. */
  lemma UpperWellFormed(t: string)
    requires |t| > 0 && !IsSpace(t[0]) && !IsSpace(t[|t| - 1])
    ensures WellFormedSymbol(ToUpper(t))
  {
    var r := ToUpper(t);
    assert r[0] == UpperChar(t[0]);
    assert r[|r| - 1] == UpperChar(t[|t| - 1]);
  }

  /** Upper-casing maps a comma to itself and nothing else to a comma. */
  lemma UpperKeepsComma(t: string)
    ensures ',' in ToUpper(t) <==> ',' in t
  {
    var r := ToUpper(t);
    if ',' in r {
      var i :| 0 <= i < |r| && r[i] == ',';
      assert t[i] == ',';
    }
    if ',' in t {
      var i :| 0 <= i < |t| && t[i] == ',';
      assert r[i] == ',';
    }
  }

  /** `p.strip().upper()` for a piece the comprehension keeps. */
  function Normalize(p: string): (r: Symbol)
    requires !Blank(p)
    ensures WellFormedSymbol(r)
  {
    var t := Strip(p);
    assert WellFormedSymbol(ToUpper(t)) by { UpperWellFormed(t); }
    ToUpper(t)
  }

  /** A worked case: surrounding blanks go and the letters are capitalised. */
  lemma NormalizeExample()
    ensures !Blank(" usdJpy\t") && Normalize(" usdJpy\t") == "USDJPY"
  {
    StripExample();
    UpperExample();
  }

  lemma StripExample()
    ensures Strip(" usdJpy\t") == "usdJpy"
  {
    var p := " usdJpy\t";
    assert LeadingSpace(p[6..]) == 0;
    assert LeadingSpace(p) == 1;
    assert TrailingStart(p[..7]) == 7;
    assert TrailingStart(p) == 7;
    assert p[1..7] == "usdJpy";
  }

  lemma UpperExample()
    ensures ToUpper("usdJpy") == "USDJPY"
  {
  }

  /** Normalising never introduces a comma. */
  lemma NormalizeCommaFree(p: string)
    requires !Blank(p) && ',' !in p
    ensures ',' !in Normalize(p)
  {
    StripKeepsOut(p, ',');
    UpperKeepsComma(Strip(p));
  }

  /** The comprehension's filter and element expression for one piece. */
  function Pick(p: string): (o: Option<Symbol>)
    ensures o.None? <==> Blank(p)
    ensures o.Some? ==> WellFormedSymbol(o.value) && o.value == Normalize(p)
    ensures o.Some? && ',' !in p ==> ',' !in o.value
  {
    if Blank(p) then None
    else
      assert ',' !in p ==> ',' !in Normalize(p) by {
        if ',' !in p { NormalizeCommaFree(p); }
      }
      Some(Normalize(p))
  }

  /** A list comprehension with a filter: `f` picks and transforms each
      element, in order. */
  function FilterMap<A, B>(f: A -> Option<B>, xs: seq<A>): (r: seq<B>)
    ensures |r| <= |xs|
    decreases |xs|
  {
    if |xs| == 0 then []
    else (if f(xs[0]).Some? then [f(xs[0]).value] else []) + FilterMap(f, xs[1..])
  }

  /** Filtering distributes over concatenation: order is preserved and
      duplicates are kept. */
  lemma {:induction false} FilterMapAppend<A, B>(f: A -> Option<B>, a: seq<A>, b: seq<A>)
    ensures FilterMap(f, a + b) == FilterMap(f, a) + FilterMap(f, b)
    decreases |a|
  {
    if |a| == 0 {
      assert a + b == b;
    } else {
      var head := if f(a[0]).Some? then [f(a[0]).value] else [];
      assert (a + b)[0] == a[0];
      assert (a + b)[1..] == a[1..] + b;
      calc {
        FilterMap(f, a + b);
        head + FilterMap(f, a[1..] + b);
        { FilterMapAppend(f, a[1..], b); }
        head + (FilterMap(f, a[1..]) + FilterMap(f, b));
        (head + FilterMap(f, a[1..])) + FilterMap(f, b);
      }
    }
  }

  /** Every element of the result is the picked value of some input. */
  lemma {:induction false} FilterMapFrom<A, B>(f: A -> Option<B>, xs: seq<A>, j: nat)
    requires j < |FilterMap(f, xs)|
    ensures exists i :: 0 <= i < |xs| && f(xs[i]) == Some(FilterMap(f, xs)[j])
    decreases |xs|
  {
    var head := if f(xs[0]).Some? then [f(xs[0]).value] else [];
    var r := FilterMap(f, xs);
    if j < |head| {
      assert f(xs[0]) == Some(r[j]);
    } else {
      FilterMapFrom(f, xs[1..], j - |head|);
      var i :| 0 <= i < |xs[1..]| && f(xs[1..][i]) == Some(FilterMap(f, xs[1..])[j - |head|]);
      assert f(xs[i + 1]) == Some(r[j]);
    }
  }

  /** The parsed pair list of a message. */
  function ParsePairs(text: string): (pairs: seq<Symbol>)
    ensures forall j :: 0 <= j < |pairs| ==> WellFormedSymbol(pairs[j]) && ',' !in pairs[j]
  {
    var parts := Split(text, ',');
    var pairs := FilterMap(Pick, parts);
    assert forall j :: 0 <= j < |pairs| ==> WellFormedSymbol(pairs[j]) && ',' !in pairs[j] by {
      forall j | 0 <= j < |pairs|
        ensures WellFormedSymbol(pairs[j]) && ',' !in pairs[j]
      {
        FilterMapFrom(Pick, parts, j);
      }
    }
    pairs
  }

  /** A message without commas yields its normalised self, or nothing if it
      is blank. */
  lemma ParseSingle(text: string)
    requires ',' !in text
    ensures ParsePairs(text) == if Blank(text) then [] else [Normalize(text)]
  {
    SplitWithoutSep(text, ',');
    assert [text][1..] == [];
  }

  /** Parsing distributes over a comma: the pairs of `a,b` are the pairs of
      `a` followed by the pairs of `b`, in order and with repetitions. */
  lemma ParseOverComma(a: string, b: string)
    ensures ParsePairs(a + "," + b) == ParsePairs(a) + ParsePairs(b)
  {
    SplitAppend(a, b, ',');
    assert a + "," + b == a + [','] + b;
    FilterMapAppend(Pick, Split(a, ','), Split(b, ','));
  }
}
