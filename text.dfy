/** The JavaScript string operations the routes rely on (`trim`, `indexOf`,
    `lastIndexOf`, `startsWith`, `includes`, `toLowerCase`, `Array.join`,
    number-to-string), on strings modelled as sequences of characters. */
module Text {

  /** JavaScript's WhiteSpace and LineTerminator characters: exactly what
      `String.prototype.trim` strips and what `\s` matches in a regular
      expression. */
  predicate IsSpace(c: char) {
    || c == '\t' || c == '\n' || c == '\U{000B}' || c == '\U{000C}' || c == '\r'
    || c == ' ' || c == '\U{00A0}' || c == '\U{1680}' || ('\U{2000}' <= c <= '\U{200A}')
    || c == '\U{2028}' || c == '\U{2029}' || c == '\U{202F}' || c == '\U{205F}'
    || c == '\U{3000}' || c == '\U{FEFF}'
  }

  predicate AllSpace(s: string) {
    forall i :: 0 <= i < |s| ==> IsSpace(s[i])
  }

  /** Neither starts nor ends with a space: the shape of every `trim` result. */
  predicate IsTrimmed(s: string) {
    s == [] || (!IsSpace(s[0]) && !IsSpace(s[|s| - 1]))
  }

  /** `r` occurs in `s` as one contiguous block. */
  predicate IsInfix(r: string, s: string) {
    exists i, j :: 0 <= i <= j <= |s| && r == s[i..j]
  }

  predicate StartsWith(s: string, prefix: string) {
    |prefix| <= |s| && s[..|prefix|] == prefix
  }

  predicate EndsWith(s: string, suffix: string) {
    |suffix| <= |s| && s[|s| - |suffix|..] == suffix
  }

  /** `s.includes(p)`: a pattern longer than the text is never found, and
      the empty pattern always is. */
  predicate Contains(s: string, p: string): (r: bool)
    ensures r ==> |p| <= |s|
    ensures p == [] ==> r
    decreases |s|
  {
    StartsWith(s, p) || (s != [] && Contains(s[1..], p))
  }

  /** `p` occurs in `s` at position `i`. */
  predicate OccursAt(s: string, p: string, i: int) {
    0 <= i && i + |p| <= |s| && s[i..i + |p|] == p
  }

  /** `includes` finds the pattern exactly when it occurs at some position. */
  lemma {:induction false} ContainsIffOccurs(s: string, p: string)
    ensures Contains(s, p) <==> exists i :: OccursAt(s, p, i)
    decreases |s|
  {
    if StartsWith(s, p) {
      assert OccursAt(s, p, 0);
    } else if s != [] {
      ContainsIffOccurs(s[1..], p);
      forall i | OccursAt(s, p, i) && i >= 1 ensures OccursAt(s[1..], p, i - 1) {
        assert s[1..][i - 1..i - 1 + |p|] == s[i..i + |p|];
      }
      if Contains(s, p) {
        var i :| OccursAt(s[1..], p, i);
        assert i + 1 + |p| <= |s| && s[1..][i..i + |p|] == s[i + 1..i + 1 + |p|];
        assert OccursAt(s, p, i + 1);
      }
    }
  }

  /** Length of the run of spaces that `s` starts with: what `\s*` matches
      at the start of `s`, and what `trimStart` takes away. */
  function SpaceRun(s: string): (n: nat)
    ensures n <= |s| && AllSpace(s[..n])
    ensures n == |s| || !IsSpace(s[n])
  {
    if s != [] && IsSpace(s[0]) then
      var k := SpaceRun(s[1..]);
      assert s[..k + 1] == [s[0]] + s[1..][..k];
      k + 1
    else 0
  }

  function TrimStart(s: string): (r: string)
    ensures |r| <= |s| && r == s[|s| - |r|..]
    ensures AllSpace(s[..|s| - |r|])
    ensures r == [] || !IsSpace(r[0])
  {
    s[SpaceRun(s)..]
  }

  function TrimEnd(s: string): (r: string)
    ensures |r| <= |s| && r == s[..|r|]
    ensures AllSpace(s[|r|..])
    ensures r == [] || !IsSpace(r[|r| - 1])
  {
    if s != [] && IsSpace(s[|s| - 1]) then TrimEnd(s[..|s| - 1]) else s
  }

  /** `r` is the block of `s` at offset `i`, with nothing but spaces before
      and after it. */
  predicate Framed(s: string, i: int, r: string) {
    && 0 <= i && i + |r| <= |s| && r == s[i..i + |r|]
    && AllSpace(s[..i]) && AllSpace(s[i + |r|..])
  }

  /** `s.trim()`: the block left once the leading and trailing spaces are
      removed. */
  function Trim(s: string): (r: string)
    ensures IsTrimmed(r)
  {
    var t := TrimStart(s);
    var r := TrimEnd(t);
    TrimIsInner(s, t, r);
    r
  }

  /** What `trim` removes is spaces only, from both ends. */
  lemma TrimFramed(s: string)
    ensures Framed(s, |s| - |TrimStart(s)|, Trim(s))
  {
    var t := TrimStart(s);
    var r := TrimEnd(t);
    assert Trim(s) == r;
    TrimIsInner(s, t, r);
  }

  /** The trimmed text is one contiguous block of the original. */
  lemma TrimIsInfix(s: string)
    ensures IsInfix(Trim(s), s)
  {
    TrimFramed(s);
    var i := |s| - |TrimStart(s)|;
    assert Trim(s) == s[i..i + |Trim(s)|];
  }

  /** A prefix `r` of a suffix `t` of `s`, with spaces only around it and
      none at its ends, is the trimmed block of `s`. */
  lemma TrimIsInner(s: string, t: string, r: string)
    requires |t| <= |s| && t == s[|s| - |t|..] && AllSpace(s[..|s| - |t|]) && (t == [] || !IsSpace(t[0]))
    requires |r| <= |t| && r == t[..|r|] && AllSpace(t[|r|..]) && (r == [] || !IsSpace(r[|r| - 1]))
    ensures IsTrimmed(r)
    ensures Framed(s, |s| - |t|, r)
  {
    assert s[|s| - |t| + |r|..] == t[|r|..];
    assert r != [] ==> r[0] == t[0];
  }

  lemma TrimOfBlank(s: string, t: string, r: string)
    requires t == TrimStart(s) && r == TrimEnd(t)
    ensures r == [] <==> AllSpace(s)
  {
    var i := |s| - |t|;
    if r == [] {
      assert t[|r|..] == t;
      assert s[..i] == s;
    } else {
      assert r[0] == t[0] && t[0] == s[i];
    }
  }

  /** `s.trim()` is empty exactly when `s` is blank. */
  lemma TrimIsBlank(s: string)
    ensures Trim(s) == [] <==> AllSpace(s)
  {
    TrimOfBlank(s, TrimStart(s), TrimEnd(TrimStart(s)));
  }

  /** The run of spaces before a text that does not open with one is all of
      them. */
  lemma {:induction false} SpaceRunOfSpaces(a: string, x: string)
    requires AllSpace(a)
    requires x == [] || !IsSpace(x[0])
    ensures SpaceRun(a + x) == |a|
    decreases |a|
  {
    if a != [] {
      assert (a + x)[0] == a[0];
      assert (a + x)[1..] == a[1..] + x;
      assert AllSpace(a[1..]) by {
        forall i | 0 <= i < |a| - 1 ensures IsSpace(a[1..][i]) {
          assert a[1..][i] == a[i + 1];
        }
      }
      SpaceRunOfSpaces(a[1..], x);
    } else {
      assert a + x == x;
    }
  }

  lemma TrimStartOfSpaces(a: string, x: string)
    requires AllSpace(a)
    requires x == [] || !IsSpace(x[0])
    ensures TrimStart(a + x) == x
  {
    SpaceRunOfSpaces(a, x);
    assert (a + x)[|a|..] == x;
  }

  lemma {:induction false} TrimEndOfSpaces(x: string, b: string)
    requires AllSpace(b)
    requires x == [] || !IsSpace(x[|x| - 1])
    ensures TrimEnd(x + b) == x
    decreases |b|
  {
    if b != [] {
      assert (x + b)[..|x + b| - 1] == x + b[..|b| - 1];
      TrimEndOfSpaces(x, b[..|b| - 1]);
    } else {
      assert x + b == x;
    }
  }

  /** Trimming a trimmed text padded with spaces gives that text back. */
  lemma {:induction false} TrimOfPadded(a: string, x: string, b: string)
    requires AllSpace(a) && AllSpace(b) && IsTrimmed(x)
    ensures Trim(a + x + b) == x
  {
    if x == [] {
      assert a + x + b == a + b;
      assert AllSpace(a + b);
    } else {
      assert a + x + b == a + (x + b);
      TrimStartOfSpaces(a, x + b);
      TrimEndOfSpaces(x, b);
    }
  }

  /** Trimming a text that opens with a non-space heading `h`, between
      blank paddings, keeps `h` and the trimmed end of `v`. */
  lemma {:induction false} TrimAfterHeading(a: string, h: string, v: string, b: string)
    requires AllSpace(a) && AllSpace(b)
    requires h != [] && !IsSpace(h[0]) && !AllSpace(v)
    ensures Trim(a + h + v + b) == h + TrimEnd(v)
  {
    var t := TrimEnd(v);
    var pad := v[|t|..];
    assert v == t + pad;
    assert AllSpace(pad + b);
    forall i | |t| <= i < |v| ensures IsSpace(v[i]) {
      assert v[|t|..][i - |t|] == v[i];
    }
    assert a + h + v + b == a + (h + t) + (pad + b);
    TrimOfPadded(a, h + t, pad + b);
  }

  /** The same for a text `a` known to be a heading followed by `body`,
      between two line breaks. */
  lemma TrimAfterHeadingLine(a: string, h: string, body: string)
    requires a == h + body
    requires h != [] && !IsSpace(h[0]) && !AllSpace(body)
    ensures Trim("\n" + a + "\n") == h + TrimEnd(body)
  {
    assert "\n" + a + "\n" == "\n" + h + body + "\n";
    TrimAfterHeading("\n", h, body, "\n");
  }

  /** The same between a line break and any blank padding `b`. */
  lemma TrimAfterHeadingPadded(a: string, h: string, body: string, b: string)
    requires a == h + body && AllSpace(b)
    requires h != [] && !IsSpace(h[0]) && !AllSpace(body)
    ensures Trim("\n" + a + b) == h + TrimEnd(body)
  {
    assert "\n" + a + b == "\n" + h + body + b;
    TrimAfterHeading("\n", h, body, b);
  }

  /** A text that opens with a non-space keeps that opening character when
      trimmed between line breaks. */
  lemma TrimOpens(a: string)
    requires a != [] && !IsSpace(a[0])
    ensures Trim("\n" + a + "\n") != [] && Trim("\n" + a + "\n")[0] == a[0]
  {
    var tail := a[1..] + "\n";
    assert "\n" + a + "\n" == "\n" + ([a[0]] + tail);
    TrimStartOfSpaces("\n", [a[0]] + tail);
    TrimEndKeepsPrefix([a[0]], tail);
  }

  /** Trimming the end never reaches into a prefix that ends in a non-space. */
  lemma {:induction false} TrimEndKeepsPrefix(p: string, x: string)
    requires p != [] && !IsSpace(p[|p| - 1])
    ensures StartsWith(TrimEnd(p + x), p)
  {
    var r := TrimEnd(p + x);
    forall i | |r| <= i < |p + x| ensures IsSpace((p + x)[i]) {
      assert (p + x)[|r|..][i - |r|] == (p + x)[i];
    }
    assert (p + x)[..|p|] == p;
  }

  /** A labelled line `p + " " + x`, trimmed between line breaks, keeps its
      label `p`. */
  lemma TrimKeepsLabel(p: string, x: string)
    requires p != [] && !IsSpace(p[0]) && !IsSpace(p[|p| - 1])
    ensures StartsWith(Trim("\n" + p + " " + x + "\n"), p)
  {
    var tail := " " + x + "\n";
    assert "\n" + p + " " + x + "\n" == "\n" + (p + tail);
    TrimStartOfSpaces("\n", p + tail);
    TrimEndKeepsPrefix(p, tail);
  }

  /** ... and when `x` is not blank, loses only the trailing spaces of `x`. */
  lemma TrimLabelled(p: string, x: string)
    requires p != [] && !IsSpace(p[0])
    requires !AllSpace(x)
    ensures Trim("\n" + p + " " + x + "\n") == p + " " + TrimEnd(x)
  {
    assert "\n" + p + " " + x + "\n" == "\n" + (p + " ") + x + "\n";
    TrimAfterHeading("\n", p + " ", x, "\n");
  }

  /** `s || fallback` for a string `s`. */
  function Or(s: string, fallback: string): (r: string)
    ensures s != "" ==> r == s
    ensures s == "" ==> r == fallback
  {
    if s != "" then s else fallback
  }

  /** The first position from `i` on that holds `c`, or -1 when there is none. */
  function IndexFrom(s: string, c: char, i: nat): (r: int)
    requires i <= |s|
    ensures r == -1 || i <= r < |s|
    ensures r == -1 <==> forall k :: i <= k < |s| ==> s[k] != c
    ensures r >= 0 ==> s[r] == c && forall k :: i <= k < r ==> s[k] != c
    decreases |s| - i
  {
    if i == |s| then -1
    else if s[i] == c then i
    else IndexFrom(s, c, i + 1)
  }

  /** `s.indexOf(c)`: the first position of `c`, or -1 when there is none. */
  function IndexOf(s: string, c: char): (r: int)
    ensures -1 <= r < |s|
    ensures r == -1 <==> c !in s
    ensures r >= 0 ==> s[r] == c && forall k :: 0 <= k < r ==> s[k] != c
  {
    IndexFrom(s, c, 0)
  }

  /** The last position before `n` that holds `c`, or -1 when there is none. */
  function LastBefore(s: string, c: char, n: nat): (r: int)
    requires n <= |s|
    ensures -1 <= r < n
    ensures r == -1 <==> forall k :: 0 <= k < n ==> s[k] != c
    ensures r >= 0 ==> s[r] == c && forall k :: r < k < n ==> s[k] != c
  {
    if n == 0 then -1
    else if s[n - 1] == c then n - 1
    else LastBefore(s, c, n - 1)
  }

  /** `s.lastIndexOf(c)`: the last position of `c`, or -1 when there is none. */
  function LastIndexOf(s: string, c: char): (r: int)
    ensures -1 <= r < |s|
    ensures r == -1 <==> c !in s
    ensures r >= 0 ==> s[r] == c && forall k :: r < k < |s| ==> s[k] != c
  {
    LastBefore(s, c, |s|)
  }

  function LowerChar(c: char): char {
    if 'A' <= c <= 'Z' then (c as int + 32) as char else c
  }

  /** `s.toLowerCase()`, for the ASCII letters. */
  function ToLower(s: string): (r: string)
    ensures |r| == |s|
    ensures forall i :: 0 <= i < |s| ==> r[i] == LowerChar(s[i])
  {
    seq(|s|, i requires 0 <= i < |s| => LowerChar(s[i]))
  }

  /** `parts.join(sep)`: empty for no parts and the part itself for one;
      otherwise it opens with the first part (`JoinSnoc` places the last). */
  function Join(parts: seq<string>, sep: string): (r: string)
    ensures parts == [] ==> r == ""
    ensures parts != [] ==> StartsWith(r, parts[0])
    ensures |parts| == 1 ==> r == parts[0]
    decreases |parts|
  {
    if parts == [] then ""
    else if |parts| == 1 then parts[0]
    else
      var rest := Join(parts[1..], sep);
      var r := parts[0] + sep + rest;
      assert r[..|parts[0]|] == parts[0];
      r
  }

  /** With a non-empty separator, a join is empty only for no parts or a
      single empty part: that is when the routes' `join(...) || fallback`
      takes the fallback. */
  lemma JoinIsEmpty(parts: seq<string>, sep: string)
    requires sep != ""
    ensures Join(parts, sep) == "" <==> parts == [] || parts == [""]
  {
    if |parts| >= 2 {
      assert |Join(parts, sep)| >= |sep|;
    }
  }

  /** Appending a part adds the separator and that part. */
  lemma {:induction false} JoinSnoc(parts: seq<string>, p: string, sep: string)
    requires parts != []
    ensures Join(parts + [p], sep) == Join(parts, sep) + sep + p
    decreases |parts|
  {
    if |parts| == 1 {
      assert parts + [p] == [parts[0], p];
    } else {
      assert (parts + [p])[1..] == parts[1..] + [p];
      JoinSnoc(parts[1..], p, sep);
    }
  }

  function Digit(d: nat): char
    requires d < 10
  {
    "0123456789"[d]
  }

  /** `String(n)` for a non-negative integer: its decimal digits. */
  function Decimal(n: nat): (r: string)
    ensures r != [] && forall i :: 0 <= i < |r| ==> '0' <= r[i] <= '9'
    ensures n >= 10 ==> r[0] != '0'
    decreases n
  {
    if n < 10 then [Digit(n)] else Decimal(n / 10) + [Digit(n % 10)]
  }

  /** The value of a string of decimal digits. */
  function DigitsValue(s: string): nat
    requires forall i :: 0 <= i < |s| ==> '0' <= s[i] <= '9'
  {
    if s == [] then 0 else 10 * DigitsValue(s[..|s| - 1]) + (s[|s| - 1] as int - '0' as int)
  }

  /** Rendering a number as text loses nothing: its digits read back as the number. */
  lemma {:induction false} DecimalRoundTrip(n: nat)
    ensures DigitsValue(Decimal(n)) == n
    decreases n
  {
    if n >= 10 {
      DecimalRoundTrip(n / 10);
      var p := Decimal(n / 10);
      var r := Decimal(n);
      assert r == p + [Digit(n % 10)];
      assert r[..|r| - 1] == p;
      DigitValue(n % 10);
    } else {
      DigitValue(n);
    }
  }

  /** A digit reads back as its value. */
  lemma DigitValue(d: nat)
    requires d < 10
    ensures Digit(d) as int - '0' as int == d
  {
  }
}
