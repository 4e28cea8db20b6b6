/** The document-skeleton stripping of the editor preview: the markup buffer
    is passed through a global, case-insensitive regular-expression replace
    whose pattern has four alternatives, tried in this order at each position,

      <html[^>]*>   |   </html>   |   <head[^>]*>[\s\S]*?</head>   |   <!DOCTYPE[^>]*>

    and every match is replaced by the empty string. The replace scans the
    markup from left to right: where an alternative matches in full, the
    matched text is dropped and the scan resumes after it; otherwise one
    character is copied and the scan moves on by one.

    Facts about matches (`MatchAt`) are proved apart from facts about the
    scan (`Strip`), and small regroupings of the strings involved are kept
    in lemmas of their own (`ElementLayout`, `InnerTagLayout`, …), so that
    each proof stays small. */
module Skeleton {
  import opened Outcomes
  import opened Sequences

  /** ASCII lower-casing. With the `i` flag and no `u` flag, JavaScript
      compares characters by their simple upper-case mapping and never lets a
      non-ASCII character stand for an ASCII one, so for the all-ASCII patterns
      here the comparison is exactly ASCII case folding. */
  function Lower(c: char): char {
    if 'A' <= c <= 'Z' then (c as int + 32) as char else c
  }

  /** `lit` (given in lower case) occurs in `s` at index `k`, ignoring ASCII
      case. */
  predicate OccursAt(s: string, k: nat, lit: string) {
    k + |lit| <= |s| && forall i :: k <= i < k + |lit| ==> Lower(s[i]) == lit[i - k]
  }

  /** `s` begins with `lit`, ignoring ASCII case. */
  predicate StartsWithCI(s: string, lit: string) {
    |lit| <= |s| && forall k :: 0 <= k < |lit| ==> Lower(s[k]) == lit[k]
  }

  /** The first index at or after `from` that holds `c` (what `[^>]*>` stops at). */
  function FindChar(s: string, c: char, from: nat): (r: Option<nat>)
    decreases |s| - from
    ensures r.Some? ==> from <= r.value < |s| && s[r.value] == c
  {
    if from >= |s| then None
    else if s[from] == c then Some(from)
    else FindChar(s, c, from + 1)
  }

  /** No `c` lies between `from` and the index `FindChar` returns (or the
      end, when it returns none). */
  lemma {:induction false} FindCharFirst(s: string, c: char, from: nat)
    decreases |s| - from
    ensures var r := FindChar(s, c, from);
      forall k :: from <= k < |s| && (r.None? || k < r.value) ==> s[k] != c
  {
    if from < |s| && s[from] != c {
      FindCharFirst(s, c, from + 1);
    }
  }

  /** The first index at or after `from` where `lit` occurs, ignoring ASCII
      case (what the lazy `[\s\S]*?</head>` stops at). */
  function FindCI(s: string, lit: string, from: nat): (r: Option<nat>)
    decreases |s| - from
    ensures r.Some? ==> from <= r.value && r.value + |lit| <= |s|
  {
    if from + |lit| > |s| then None
    else if OccursAt(s, from, lit) then Some(from)
    else FindCI(s, lit, from + 1)
  }

  /** `FindCI` returns an occurrence, and none starts between `from` and it
      (or anywhere from `from` on, when it returns none). */
  lemma {:induction false} FindCIFirst(s: string, lit: string, from: nat)
    decreases |s| - from
    ensures var r := FindCI(s, lit, from);
      && (r.Some? ==> OccursAt(s, r.value, lit))
      && (forall k :: from <= k && (r.None? || k < r.value) ==> !OccursAt(s, k, lit))
  {
    if from + |lit| <= |s| && !OccursAt(s, from, lit) {
      FindCIFirst(s, lit, from + 1);
    }
  }

  /** `lit` occurs somewhere in `s`, ignoring ASCII case. */
  predicate ContainsCI(s: string, lit: string) {
    FindCI(s, lit, 0).Some?
  }

  /** Alternative 1, `<html[^>]*>`: the length of its match at the start of `s`. */
  function MatchHtmlOpen(s: string): Option<nat> {
    if !StartsWithCI(s, "<html") then None
    else match FindChar(s, '>', 5)
      case Some(j) => Some(j + 1)
      case None => None
  }

  /** Alternative 2, `</html>`. */
  function MatchHtmlClose(s: string): Option<nat> {
    if StartsWithCI(s, "</html>") then Some(7) else None
  }

  /** Alternative 3, `<head[^>]*>[\s\S]*?</head>`: the opening tag up to its
      first `>`, then everything up to the nearest following `</head>`. */
  function MatchHead(s: string): Option<nat> {
    if !StartsWithCI(s, "<head") then None
    else match FindChar(s, '>', 5)
      case None => None
      case Some(j) =>
        match FindCI(s, "</head>", j + 1)
        case None => None
        case Some(k) => Some(k + 7)
  }

  /** Alternative 4, `<!DOCTYPE[^>]*>`. */
  function MatchDoctype(s: string): Option<nat> {
    if !StartsWithCI(s, "<!doctype") then None
    else match FindChar(s, '>', 9)
      case Some(j) => Some(j + 1)
      case None => None
  }

  /** The length of the match of the whole pattern at the start of `s`, the
      alternatives tried in the order they are written. A match is never
      empty. */
  function MatchAt(s: string): (r: Option<nat>)
    ensures r.Some? ==> 0 < r.value <= |s|
  {
    if MatchHtmlOpen(s).Some? then MatchHtmlOpen(s)
    else if MatchHtmlClose(s).Some? then MatchHtmlClose(s)
    else if MatchHead(s).Some? then MatchHead(s)
    else MatchDoctype(s)
  }

  /** Every match opens with `<` and closes with `>`. */
  lemma MatchShape(s: string)
    ensures MatchAt(s).Some? ==> s[0] == '<' && s[MatchAt(s).value - 1] == '>'
  {
    if MatchAt(s).Some? {
      assert Lower(s[0]) == '<';
      if MatchHtmlOpen(s).None? && MatchHtmlClose(s).None? && MatchHead(s).Some? {
        var k := FindCI(s, "</head>", FindChar(s, '>', 5).value + 1).value;
        FindCIFirst(s, "</head>", FindChar(s, '>', 5).value + 1);
        assert Lower(s[k + 6]) == "</head>"[6];
      } else if MatchHtmlOpen(s).None? && MatchHtmlClose(s).Some? {
        assert Lower(s[6]) == '>';
      }
    }
  }

  /** The markup with every match of the pattern removed. */
  function Strip(s: string): string
    decreases |s|
  {
    if s == [] then []
    else match MatchAt(s)
      case Some(m) => Strip(s[m..])
      case None => [s[0]] + Strip(s[1..])
  }

  /** Stripping only deletes characters: the result is a subsequence of the
      markup, hence never longer. */
  lemma {:induction false} StripIsSubsequence(s: string)
    ensures IsSubsequence(Strip(s), s)
    ensures |Strip(s)| <= |s|
  {
    if s != [] {
      match MatchAt(s)
      case Some(m) =>
        StripIsSubsequence(s[m..]);
        SubsequenceOfSuffix(Strip(s), s, m);
      case None =>
        StripIsSubsequence(s[1..]);
        assert ([s[0]] + Strip(s[1..]))[1..] == Strip(s[1..]);
    }
    SubsequenceNotLonger(Strip(s), s);
  }

  /** A match needs both a `<` and a `>` in the markup. */
  lemma MatchNeedsBrackets(s: string)
    ensures MatchAt(s).Some? ==> '<' in s && '>' in s
  {
    MatchShape(s);
    if MatchAt(s).Some? {
      var m := MatchAt(s).value;
      assert s[0] in s && s[m - 1] in s;
    }
  }

  /** Every alternative starts with `<` and ends with `>`: markup lacking
      either character is returned unchanged. */
  lemma {:induction false} StripWithoutBrackets(s: string)
    requires '<' !in s || '>' !in s
    ensures Strip(s) == s
  {
    if s != [] {
      MatchNeedsBrackets(s);
      assert '<' !in s[1..] || '>' !in s[1..] by {
        assert forall c :: c in s[1..] ==> c in s;
      }
      StripWithoutBrackets(s[1..]);
      assert s == [s[0]] + s[1..];
    }
  }

  /** A position that does not hold `<` opens no alternative. */
  lemma NoMatchWithoutLt(s: string)
    requires s != [] && s[0] != '<'
    ensures MatchAt(s).None?
  {
    MatchShape(s);
  }

  /** A position that opens none of the four alternatives matches nothing. */
  lemma NoMatchAt(s: string)
    requires s != []
    requires !StartsWithCI(s, "<html") && !StartsWithCI(s, "</html>")
    requires !StartsWithCI(s, "<head") && !StartsWithCI(s, "<!doctype")
    ensures MatchAt(s).None?
  {
  }

  /** Where no alternative matches, one character is copied. */
  lemma StripCopiesFirst(s: string)
    requires s != [] && MatchAt(s).None?
    ensures Strip(s) == [s[0]] + Strip(s[1..])
  {
  }

  /** Where an alternative matches, the matched text is dropped. */
  lemma StripSkipsMatch(s: string, m: nat)
    requires s != [] && MatchAt(s) == Some(m)
    ensures Strip(s) == Strip(s[m..])
  {
  }

  /** `StripCopiesFirst` for a markup written as its first character and
      the rest. */
  lemma StripCopiesChar(c: char, y: string)
    requires MatchAt([c] + y).None?
    ensures Strip([c] + y) == [c] + Strip(y)
  {
    StripCopiesFirst([c] + y);
    assert ([c] + y)[1..] == y;
  }

  /** `StripSkipsMatch` for a markup written as the match and the rest. */
  lemma StripSkipsPrefix(a: string, b: string)
    requires MatchAt(a + b) == Some(|a|)
    ensures Strip(a + b) == Strip(b)
  {
    StripSkipsMatch(a + b, |a|);
    assert (a + b)[|a|..] == b;
  }

  /** Text without `<` in front of the markup is copied through as it is. */
  lemma {:induction false} StripCopiesText(a: string, b: string)
    requires '<' !in a
    ensures Strip(a + b) == a + Strip(b)
  {
    if a != [] {
      var y := a[1..] + b;
      ConsAppend(a, b);
      NoMatchWithoutLt([a[0]] + y);
      StripCopiesChar(a[0], y);
      NotInTail('<', a);
      StripCopiesText(a[1..], b);
      ConsAppend(a, Strip(b));
    } else {
      assert a + b == b;
    }
  }

  /** A `<` that opens none of the four alternatives is copied. */
  lemma StripKeepsUnmatched(s: string)
    requires s != []
    requires !StartsWithCI(s, "<html") && !StartsWithCI(s, "</html>")
    requires !StartsWithCI(s, "<head") && !StartsWithCI(s, "<!doctype")
    ensures Strip(s) == [s[0]] + Strip(s[1..])
  {
    NoMatchAt(s);
    StripCopiesFirst(s);
  }

  /** An `<html` with no `>` anywhere after it is left intact: no
      alternative matches there, so its `<` is copied, and in fact nothing
      of the markup is removed. (With a later `>`, even one behind another
      `<`, `[^>]*` runs up to it and the tag is removed.) */
  lemma StripKeepsUnclosedHtml(s: string)
    requires StartsWithCI(s, "<html") && '>' !in s
    ensures Strip(s) == [s[0]] + Strip(s[1..])
    ensures Strip(s) == s
  {
    MatchNeedsBrackets(s);
    StripCopiesFirst(s);
    StripWithoutBrackets(s);
  }

  /** The match length of an opening `<html…>` tag. */
  lemma HtmlOpenMatch(t: string, attrs: string, rest: string)
    requires |t| == 5 && StartsWithCI(t, "<html") && '>' !in attrs
    ensures MatchAt(t + attrs + ">" + rest) == Some(|t| + |attrs| + 1)
  {
    var s := t + attrs + ">" + rest;
    StartsWithCIOfPrefix(s, t, "<html");
    TagEnd(t, attrs, rest);
  }

  /** An opening `<html…>` tag, in any case and with any attributes, is
      removed through its first `>`. */
  lemma StripRemovesHtmlOpen(t: string, attrs: string, rest: string)
    requires |t| == 5 && StartsWithCI(t, "<html") && '>' !in attrs
    ensures Strip(t + attrs + ">" + rest) == Strip(rest)
  {
    HtmlOpenMatch(t, attrs, rest);
    StripSkipsPrefix(t + attrs + ">", rest);
  }

  /** The match length of a closing `</html>` tag. */
  lemma HtmlCloseMatch(t: string, rest: string)
    requires |t| == 7 && StartsWithCI(t, "</html>")
    ensures MatchAt(t + rest) == Some(7)
  {
    var s := t + rest;
    StartsWithCIOfPrefix(s, t, "</html>");
    assert Lower(s[1]) == '/';
    DiffersAt(s, "<html", 1);
  }

  /** A closing `</html>` tag, in any case, is removed. */
  lemma StripRemovesHtmlClose(t: string, rest: string)
    requires |t| == 7 && StartsWithCI(t, "</html>")
    ensures Strip(t + rest) == Strip(rest)
  {
    HtmlCloseMatch(t, rest);
    StripSkipsPrefix(t, rest);
  }

  /** The match length of a document type declaration. */
  lemma DoctypeMatch(t: string, decl: string, rest: string)
    requires |t| == 9 && StartsWithCI(t, "<!doctype") && '>' !in decl
    ensures MatchAt(t + decl + ">" + rest) == Some(|t| + |decl| + 1)
  {
    var s := t + decl + ">" + rest;
    StartsWithCIOfPrefix(s, t, "<!doctype");
    assert Lower(s[1]) == '!';
    DiffersAt(s, "<html", 1);
    DiffersAt(s, "</html>", 1);
    DiffersAt(s, "<head", 1);
    TagEnd(t, decl, rest);
  }

  /** A document type declaration, in any case, is removed through its
      first `>`. */
  lemma StripRemovesDoctype(t: string, decl: string, rest: string)
    requires |t| == 9 && StartsWithCI(t, "<!doctype") && '>' !in decl
    ensures Strip(t + decl + ">" + rest) == Strip(rest)
  {
    DoctypeMatch(t, decl, rest);
    StripSkipsPrefix(t + decl + ">", rest);
  }

  /** A text `lit` whose only `<` is its first character does not occur
      starting just before a `<` of `s`. */
  lemma NoOccurrenceBefore(s: string, lit: string, k: nat, p: nat)
    requires forall i :: 0 < i < |lit| ==> lit[i] != '<'
    requires k < p < k + |lit| && p < |s| && Lower(s[p]) == '<'
    ensures !OccursAt(s, k, lit)
  {
    assert Lower(s[p]) == '<';
  }

  /** `s` does not begin with `lit` when the characters at index `k` differ. */
  lemma DiffersAt(s: string, lit: string, k: nat)
    requires k < |lit| && k < |s| && Lower(s[k]) != lit[k]
    ensures !StartsWithCI(s, lit)
  {
  }

  /** `FindChar` stops at the first `c`. */
  lemma FindCharAt(s: string, c: char, from: nat, j: nat)
    requires from <= j < |s| && s[j] == c
    requires forall k :: from <= k < j ==> s[k] != c
    ensures FindChar(s, c, from) == Some(j)
  {
    FindCharFirst(s, c, from);
  }

  /** `FindCI` stops at the first occurrence. */
  lemma FindCIAt(s: string, lit: string, from: nat, e: nat)
    requires from <= e && OccursAt(s, e, lit)
    requires forall k :: from <= k < e ==> !OccursAt(s, k, lit)
    ensures FindCI(s, lit, from) == Some(e)
  {
    FindCIFirst(s, lit, from);
  }

  /** Two strings that agree on the `|lit|` characters from `k` agree on
      whether `lit` occurs there. */
  lemma OccursAtOfSame(x: string, y: string, k: nat, lit: string)
    requires k + |lit| <= |x| && k + |lit| <= |y|
    requires forall i :: k <= i < k + |lit| ==> x[i] == y[i]
    ensures OccursAt(x, k, lit) == OccursAt(y, k, lit)
  {
  }

  /** An occurrence in `x` is one in `p + x`, shifted by `|p|`. */
  lemma OccursAtShift(p: string, x: string, k: nat, lit: string)
    ensures OccursAt(p + x, |p| + k, lit) == OccursAt(x, k, lit)
  {
    var y := p + x;
    if OccursAt(x, k, lit) {
      forall i | |p| + k <= i < |p| + k + |lit| ensures Lower(y[i]) == lit[i - (|p| + k)] {
        assert y[i] == x[i - |p|];
        assert Lower(x[i - |p|]) == lit[i - |p| - k];
      }
    }
    if OccursAt(y, |p| + k, lit) {
      forall i | k <= i < k + |lit| ensures Lower(x[i]) == lit[i - k] {
        assert y[|p| + i] == x[i];
        assert Lower(y[|p| + i]) == lit[|p| + i - (|p| + k)];
      }
    }
  }

  /** Two strings that agree on the first `|lit|` characters agree on
      whether they start with `lit`. */
  lemma StartsWithCIOfPrefix(x: string, y: string, lit: string)
    requires |lit| <= |x| && |lit| <= |y|
    requires forall q :: 0 <= q < |lit| ==> x[q] == y[q]
    ensures StartsWithCI(x, lit) == StartsWithCI(y, lit)
  {
  }

  /** Within `inner + u + rest`, with `u` an occurrence of `lit`, the first
      occurrence of `lit` is `u` when `inner` holds none and `lit` holds no
      `<` after its first character. */
  lemma FirstOccurrence(inner: string, u: string, rest: string, lit: string)
    requires 0 < |lit| && lit[0] == '<' && forall i :: 0 < i < |lit| ==> lit[i] != '<'
    requires !ContainsCI(inner, lit)
    requires |u| == |lit| && StartsWithCI(u, lit)
    ensures OccursAt(inner + u + rest, |inner|, lit)
    ensures forall k :: 0 <= k < |inner| ==> !OccursAt(inner + u + rest, k, lit)
  {
    var x := inner + u + rest;
    var e := |inner|;
    FindCIFirst(inner, lit, 0);
    forall i | e <= i < e + |lit| ensures Lower(x[i]) == lit[i - e] {
      assert x[i] == u[i - e];
    }
    assert Lower(x[e]) == '<' by {
      assert x[e] == u[0];
    }
    forall k | 0 <= k < e ensures !OccursAt(x, k, lit) {
      if k + |lit| <= e {
        assert !OccursAt(inner, k, lit);
        OccursAtOfSame(x, inner, k, lit);
      } else {
        NoOccurrenceBefore(x, lit, k, e);
      }
    }
  }

  /** The tag text `t + attrs + ">"` ends at its first `>`. */
  lemma TagEnd(t: string, attrs: string, rest: string)
    requires '>' !in attrs
    ensures FindChar(t + attrs + ">" + rest, '>', |t|) == Some(|t| + |attrs|)
  {
    var s := t + attrs + ">" + rest;
    forall k | |t| <= k < |t| + |attrs| ensures s[k] != '>' {
      assert s[k] == attrs[k - |t|];
    }
    FindCharAt(s, '>', |t|, |t| + |attrs|);
  }

  /** The first occurrence in `x` at `e`, seen after a prefix `p`. */
  lemma ShiftedFirst(p: string, x: string, e: nat, lit: string)
    requires OccursAt(x, e, lit)
    requires forall j :: 0 <= j < e ==> !OccursAt(x, j, lit)
    ensures FindCI(p + x, lit, |p|) == Some(|p| + e)
  {
    OccursAtShift(p, x, e, lit);
    forall k | |p| <= k < |p| + e ensures !OccursAt(p + x, k, lit) {
      OccursAtShift(p, x, k - |p|, lit);
    }
    FindCIAt(p + x, lit, |p|, |p| + e);
  }

  /** `</head>` opens with its only `<`, the shape `FirstOccurrence`
      needs. */
  lemma CloseHeadShape()
    ensures 0 < |"</head>"| && "</head>"[0] == '<'
    ensures forall i :: 0 < i < |"</head>"| ==> "</head>"[i] != '<'
  {
  }

  /** At a `<head` only the head alternative can match. */
  lemma MatchAtIsHead(s: string)
    requires StartsWithCI(s, "<head")
    ensures MatchAt(s) == MatchHead(s)
  {
    assert Lower(s[2]) == 'e';
    DiffersAt(s, "<html", 2);
    assert Lower(s[1]) == 'h';
    DiffersAt(s, "</html>", 1);
  }

  /** Regrouping a tag, its content, its end tag and the rest. */
  lemma ElementLayout(p: string, inner: string, u: string, rest: string)
    ensures p + (inner + u + rest) == p + inner + u + rest
  {
  }

  /** The match length of a complete `<head…>…</head>` element. */
  lemma HeadMatch(t: string, attrs: string, inner: string, u: string, rest: string)
    requires |t| == 5 && StartsWithCI(t, "<head") && '>' !in attrs
    requires !ContainsCI(inner, "</head>")
    requires |u| == 7 && StartsWithCI(u, "</head>")
    ensures MatchAt(t + attrs + ">" + inner + u + rest) == Some(|t + attrs + ">" + inner + u|)
  {
    var p := t + attrs + ">";
    var x := inner + u + rest;
    var s := p + x;
    StartsWithCIOfPrefix(s, t, "<head");
    MatchAtIsHead(s);
    TagEnd(t, attrs, x);
    assert OccursAt(x, |inner|, "</head>") && forall j :: 0 <= j < |inner| ==> !OccursAt(x, j, "</head>") by {
      CloseHeadShape();
      FirstOccurrence(inner, u, rest, "</head>");
    }
    ShiftedFirst(p, x, |inner|, "</head>");
    ElementLayout(p, inner, u, rest);
  }

  /** A `<head…>` element, in any case and with any attributes, is removed
      together with everything up to the nearest following `</head>`. */
  lemma StripRemovesHead(t: string, attrs: string, inner: string, u: string, rest: string)
    requires |t| == 5 && StartsWithCI(t, "<head") && '>' !in attrs
    requires !ContainsCI(inner, "</head>")
    requires |u| == 7 && StartsWithCI(u, "</head>")
    ensures Strip(t + attrs + ">" + inner + u + rest) == Strip(rest)
  {
    HeadMatch(t, attrs, inner, u, rest);
    StripSkipsPrefix(t + attrs + ">" + inner + u, rest);
  }

  /** Without a `</head>` after the tag's first `>` (every `</head>` of
      `s`, if any, lies inside the tag itself), the head alternative
      matches nothing. */
  lemma UnclosedHeadNoMatch(s: string)
    requires StartsWithCI(s, "<head")
    requires forall k :: 5 <= k && OccursAt(s, k, "</head>") ==> '>' !in s[5..k]
    ensures MatchAt(s).None?
  {
    MatchAtIsHead(s);
    match FindChar(s, '>', 5)
    case None =>
    case Some(j) =>
      FindCIFirst(s, "</head>", j + 1);
      forall k | j + 1 <= k <= |s| ensures !OccursAt(s, k, "</head>") {
        assert s[5..k][j - 5] == '>';
      }
  }

  /** A `<head…>` with no `</head>` after its first `>` is not an element the
      pattern matches: its `<` is kept. */
  lemma StripKeepsUnclosedHead(s: string)
    requires StartsWithCI(s, "<head")
    requires forall k :: 5 <= k && OccursAt(s, k, "</head>") ==> '>' !in s[5..k]
    ensures Strip(s) == [s[0]] + Strip(s[1..])
  {
    UnclosedHeadNoMatch(s);
    StripCopiesFirst(s);
  }

  /** A `<` followed by `b` or by `/b`, in any case, opens no alternative. */
  lemma BodyTagNoMatch(s: string)
    requires |s| >= 3 && s[0] == '<'
    requires Lower(s[1]) == 'b' || (Lower(s[1]) == '/' && Lower(s[2]) == 'b')
    ensures MatchAt(s).None?
  {
    DiffersAt(s, "<html", 1);
    DiffersAt(s, "<head", 1);
    DiffersAt(s, "<!doctype", 1);
    if Lower(s[1]) == 'b' {
      DiffersAt(s, "</html>", 1);
    } else {
      DiffersAt(s, "</html>", 2);
    }
    NoMatchAt(s);
  }

  /** A start `a` that matches nothing and holds no further `<` is copied
      as it is. */
  lemma StripCopiesTagStart(a: string, rest: string)
    requires a != [] && MatchAt(a + rest).None? && '<' !in a[1..]
    ensures Strip(a + rest) == a + Strip(rest)
  {
    ConsAppend(a, rest);
    StripCopiesChar(a[0], a[1..] + rest);
    StripCopiesText(a[1..], rest);
    ConsAppend(a, Strip(rest));
  }

  /** A `<body…` or `</body…` that the scan reaches is copied: no
      alternative starts there. One that lies inside an earlier match (in
      the attributes of an `<html…>` tag, or within a head element) goes
      with that match, as `BodyTagInsideHtmlTag` and `BodyTagInsideHead` show. */
  lemma StripKeepsBodyTags(rest: string)
    ensures Strip("<body" + rest) == "<body" + Strip(rest)
    ensures Strip("</body" + rest) == "</body" + Strip(rest)
  {
    var s := "<body" + rest;
    assert s[0] == '<' && Lower(s[1]) == 'b';
    BodyTagNoMatch(s);
    assert "<body"[1..] == "body";
    StripCopiesTagStart("<body", rest);
    var c := "</body" + rest;
    assert c[0] == '<' && Lower(c[1]) == '/' && Lower(c[2]) == 'b';
    BodyTagNoMatch(c);
    assert "</body"[1..] == "/body";
    StripCopiesTagStart("</body", rest);
  }

  /** A body tag in the attributes of an `<html…>` tag goes with that tag. */
  lemma BodyTagInsideHtmlTag()
    ensures Strip("<html<body>x") == Strip("x")
  {
    SkeletonSpellings();
    StripRemovesHtmlOpen("<html", "<body", "x");
    assert "<html" + "<body" + ">" + "x" == "<html<body>x";
  }

  /** A body tag within a head element goes with that element. */
  lemma BodyTagInsideHead()
    ensures Strip("<head><body></head>x") == Strip("x")
  {
    HeaderSpelling("");
    assert !ContainsCI("<body>", "</head>");
    HeadAroundBody();
    StripRemovesHead("<head", "", "<body>", "</head>", "x");
  }

  /** The head element of `BodyTagInsideHead`, as its parts. */
  lemma HeadAroundBody()
    ensures "<head" + "" + ">" + "<body>" + "</head>" + "x" == "<head><body></head>x"
  {
    assert "<head" + "" == "<head";
  }

  /** `<header` is `<head` followed by `er`. */
  lemma HeaderSpelling(attrs: string)
    ensures "<head" + ("er" + attrs) == "<header" + attrs
    ensures StartsWithCI("<head", "<head") && StartsWithCI("</head>", "</head>")
  {
  }

  /** `<head[^>]*>` also matches the opening of a `<header…>` element, which is
      swallowed together with everything up to the nearest `</head>`. */
  lemma StripSwallowsHeader(attrs: string, inner: string, rest: string)
    requires '>' !in attrs && !ContainsCI(inner, "</head>")
    ensures Strip("<header" + attrs + ">" + inner + "</head>" + rest) == Strip(rest)
  {
    HeaderSpelling(attrs);
    StripRemovesHead("<head", "er" + attrs, inner, "</head>", rest);
  }

  /** How the pieces of `<ht<html>ml>` fit together, for `t` a spelling
      of `<html`. */
  lemma InnerTagLayout(t: string)
    requires |t| == 5 && StartsWithCI(t, "<html")
    ensures t[..3] + t + ">" + t[3..] + ">" == t[..3] + (t + ">" + (t[3..] + ">"))
    ensures t[..3] == [t[0]] + t[1..3]
    ensures [t[0]] + (t[1..3] + (t[3..] + ">")) == t + ">"
    ensures t + "" + ">" + "" == t + ">"
    ensures '<' !in t[1..3] && '<' !in t[3..] + ">"
  {
    assert t == [t[0]] + t[1..3] + t[3..];
    assert Lower(t[1]) == 'h' && Lower(t[2]) == 't';
    assert t[1..3] == [t[1], t[2]];
    assert Lower(t[3]) == 'm' && Lower(t[4]) == 'l';
    assert t[3..] + ">" == [t[3], t[4], '>'];
  }

  /** An `<html` spelling with no attributes before its `>`. */
  lemma NoAttributes(t: string, rest: string)
    ensures t + "" + ">" + rest == t + ">" + rest
  {
  }

  /** A `<ht` followed by `<`, in any case, opens no alternative. */
  lemma BrokenTagNoMatch(t: string, rest: string)
    requires |t| == 5 && StartsWithCI(t, "<html")
    requires rest != [] && rest[0] == '<'
    ensures t[..3] + rest == [t[0]] + (t[1..3] + rest)
    ensures MatchAt([t[0]] + (t[1..3] + rest)).None?
  {
    InnerTagLayout(t);
    var s := [t[0]] + (t[1..3] + rest);
    assert s[1] == t[1] && s[2] == t[2] && s[3] == rest[0];
    assert Lower(s[1]) == 'h' && Lower(s[2]) == 't' && Lower(s[3]) == '<';
    DiffersAt(s, "<html", 3);
    DiffersAt(s, "</html>", 1);
    DiffersAt(s, "<head", 2);
    DiffersAt(s, "<!doctype", 1);
    NoMatchAt(s);
  }

  /** A `<ht` followed by `<` (the first `<` of `<ht<html>ml>`), in any
      case, opens no alternative: its `<` is copied. */
  lemma KeepsBrokenTagStart(t: string, rest: string)
    requires |t| == 5 && StartsWithCI(t, "<html")
    requires rest != [] && rest[0] == '<'
    ensures Strip(t[..3] + rest) == [t[0]] + Strip(t[1..3] + rest)
  {
    BrokenTagNoMatch(t, rest);
    StripCopiesChar(t[0], t[1..3] + rest);
  }

  /** Inside `<ht<html>ml>`, the text `ht<html>ml>` strips to `html>`. */
  lemma StripsInnerTag(t: string)
    requires |t| == 5 && StartsWithCI(t, "<html")
    ensures Strip(t[1..3] + (t + ">" + (t[3..] + ">"))) == t[1..3] + (t[3..] + ">")
  {
    var tail := t[3..] + ">";
    InnerTagLayout(t);
    StripCopiesText(t[1..3], t + ">" + tail);
    StripRemovesHtmlOpen(t, "", tail);
    NoAttributes(t, tail);
    StripWithoutBrackets(tail);
  }

  /** Stripping is not idempotent: removing an `<html>` tag can assemble a
      new one. With `t` any spelling of `<html`, the markup `<ht<html>ml>`
      strips to `<html>`, which strips to nothing. */
  lemma StripNotIdempotent(t: string)
    requires |t| == 5 && StartsWithCI(t, "<html")
    ensures Strip(t[..3] + t + ">" + t[3..] + ">") == t + ">"
    ensures Strip(t + ">") == []
  {
    var inner := t + ">" + (t[3..] + ">");
    InnerTagLayout(t);
    KeepsBrokenTagStart(t, inner);
    StripsInnerTag(t);
    StripRemovesHtmlOpen(t, "", "");
  }

  /** A full page skeleton in front of the body content, its tags in any
      case, leaves only the text between its tags: `<!DOCTYPE…>`, `<html…>`
      and the whole head go. */
  lemma StripRemovesPageOpening(doctype: string, decl: string, sep1: string,
                                html: string, attrs: string, sep2: string,
                                head: string, headAttrs: string, headInner: string,
                                headEnd: string, rest: string)
    requires |doctype| == 9 && StartsWithCI(doctype, "<!doctype") && '>' !in decl
    requires |html| == 5 && StartsWithCI(html, "<html") && '>' !in attrs
    requires |head| == 5 && StartsWithCI(head, "<head") && '>' !in headAttrs
    requires |headEnd| == 7 && StartsWithCI(headEnd, "</head>")
    requires !ContainsCI(headInner, "</head>")
    requires '<' !in sep1 && '<' !in sep2
    ensures Strip(doctype + decl + ">" + (sep1 + (html + attrs + ">" + (sep2 +
                  (head + headAttrs + ">" + headInner + headEnd + rest)))))
         == sep1 + (sep2 + Strip(rest))
  {
    var h := head + headAttrs + ">" + headInner + headEnd + rest;
    StripRemovesHead(head, headAttrs, headInner, headEnd, rest);
    StripCopiesText(sep2, h);
    var x := html + attrs + ">" + (sep2 + h);
    StripRemovesHtmlOpen(html, attrs, sep2 + h);
    StripCopiesText(sep1, x);
    StripRemovesDoctype(doctype, decl, sep1 + x);
  }

  /** The spellings a page skeleton is usually written in match the
      lower-case patterns. */
  lemma SkeletonSpellings()
    ensures StartsWithCI("<!DOCTYPE", "<!doctype")
    ensures StartsWithCI("<html", "<html") && StartsWithCI("<head", "<head")
    ensures StartsWithCI("</head>", "</head>")
  {
    assert Lower('D') == 'd' && Lower('O') == 'o' && Lower('C') == 'c';
    assert Lower('T') == 't' && Lower('Y') == 'y' && Lower('P') == 'p';
    assert Lower('E') == 'e';
  }

  /** A full page (document type, `<html…>`, the whole head, then the body
      content) strips to what its body content with the text between those
      tags in front strips to. */
  lemma StripRemovesSkeleton(decl: string, sep1: string, attrs: string, sep2: string,
                             headAttrs: string, headInner: string, content: string)
    requires '>' !in decl && '>' !in attrs && '>' !in headAttrs
    requires '<' !in sep1 && '<' !in sep2
    requires !ContainsCI(headInner, "</head>")
    ensures Strip("<!DOCTYPE" + decl + ">" + (sep1 + ("<html" + attrs + ">" + (sep2 +
                  ("<head" + headAttrs + ">" + headInner + "</head>" + content)))))
         == Strip(sep1 + (sep2 + content))
  {
    SkeletonSpellings();
    StripRemovesPageOpening("<!DOCTYPE", decl, sep1, "<html", attrs, sep2,
                            "<head", headAttrs, headInner, "</head>", content);
    StripCopiesText(sep2, content);
    StripCopiesText(sep1, sep2 + content);
  }
}
