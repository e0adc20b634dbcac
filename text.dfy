/** Stock optional value, used for JavaScript's `null` and for regular-expression
    matches that fail. */
module Optional {
  datatype Option<+T> = None | Some(value: T)
}

/** Characters, case mapping, trimming, splitting, joining and decimal rendering with
    the JavaScript semantics that the VoiceRoute browser and server code relies on.
    Case mapping covers ASCII letters only. */
module Text {

  /** `\s` in an ECMAScript regular expression, and what `String.prototype.trim` removes:
      the WhiteSpace and LineTerminator code points. */
  predicate IsSpace(c: char) {
    c == ' ' || c == '\t' || c == '\n' || c == '\r' || c == '\U{000B}' || c == '\U{000C}'
    || c == '\U{00A0}' || c == '\U{1680}' || ('\U{2000}' <= c <= '\U{200A}')
    || c == '\U{2028}' || c == '\U{2029}' || c == '\U{202F}' || c == '\U{205F}'
    || c == '\U{3000}' || c == '\U{FEFF}'
  }

  /** The code points that `.` in a regular expression does not match. */
  predicate IsLineTerminator(c: char) {
    c == '\n' || c == '\r' || c == '\U{2028}' || c == '\U{2029}'
  }

  predicate IsAsciiLetter(c: char) { 'a' <= c <= 'z' || 'A' <= c <= 'Z' }

  predicate IsDigit(c: char) { '0' <= c <= '9' }

  /** `\w`, the characters on whose edge `\b` sits. */
  predicate IsWordChar(c: char) { IsAsciiLetter(c) || IsDigit(c) || c == '_' }

  function LowerChar(c: char): char {
    if 'A' <= c <= 'Z' then (c as int + 32) as char else c
  }

  function UpperChar(c: char): char {
    if 'a' <= c <= 'z' then (c as int - 32) as char else c
  }

  /** `String.prototype.toLowerCase`, on ASCII letters. */
  function Lower(s: string): string {
    seq(|s|, i requires 0 <= i < |s| => LowerChar(s[i]))
  }

  /** `String.prototype.toUpperCase`, on ASCII letters. */
  function Upper(s: string): string {
    seq(|s|, i requires 0 <= i < |s| => UpperChar(s[i]))
  }

  lemma UpperCharIdempotent(c: char)
    ensures UpperChar(UpperChar(c)) == UpperChar(c)
    ensures UpperChar(c) == ' ' <==> c == ' '
  {
  }

  /** `w` occurs in `s` at index `i`. */
  predicate StartsAt(s: string, i: nat, w: string) {
    i + |w| <= |s| && s[i..i + |w|] == w
  }

  /** `String.prototype.includes`. */
  predicate Includes(s: string, w: string) {
    exists i: nat | i + |w| <= |s| :: StartsAt(s, i, w)
  }

  predicate IncludesAny(s: string, ws: seq<string>) {
    exists k | 0 <= k < |ws| :: Includes(s, ws[k])
  }

  /** Some word of `a + b` occurs exactly when some word of `a` or of `b` does. */
  lemma IncludesAnyAppend(s: string, a: seq<string>, b: seq<string>)
    ensures IncludesAny(s, a + b) <==> IncludesAny(s, a) || IncludesAny(s, b)
  {
    if IncludesAny(s, a + b) {
      var k :| 0 <= k < |a + b| && Includes(s, (a + b)[k]);
      if k < |a| { assert (a + b)[k] == a[k]; } else { assert (a + b)[k] == b[k - |a|]; }
    }
    if IncludesAny(s, a) {
      var k :| 0 <= k < |a| && Includes(s, a[k]);
      assert (a + b)[k] == a[k];
    }
    if IncludesAny(s, b) {
      var k :| 0 <= k < |b| && Includes(s, b[k]);
      assert (a + b)[k + |a|] == b[k];
    }
  }

  predicate StartsWithAny(s: string, ws: seq<string>) {
    exists k | 0 <= k < |ws| :: StartsAt(s, 0, ws[k])
  }

  /** No element of `s` is `c`. */
  predicate Lacks(s: string, c: char) {
    forall i | 0 <= i < |s| :: s[i] != c
  }

  function CountChar(s: string, c: char): nat {
    if s == [] then 0 else (if s[0] == c then 1 else 0) + CountChar(s[1..], c)
  }

  lemma {:induction false} CountCharAppend(a: string, b: string, c: char)
    ensures CountChar(a + b, c) == CountChar(a, c) + CountChar(b, c)
  {
    if a == [] {
      assert a + b == b;
    } else {
      assert (a + b)[1..] == a[1..] + b;
      CountCharAppend(a[1..], b, c);
    }
  }

  /** Around its first occurrence, `c` counts once plus its count in the rest. */
  lemma CountCharAround(w: string, c: char, d: string)
    requires c !in w
    ensures CountChar(w + [c] + d, c) == 1 + CountChar(d, c)
  {
    CountCharAppend(w, [c] + d, c);
    assert w + [c] + d == w + ([c] + d);
    assert ([c] + d)[1..] == d;
    CountCharLacking(w, c);
  }

  /** Cutting at the first occurrence of `c`: it counts once, then come those after it. */
  lemma CountCharFirst(s: string, c: char, k: nat)
    requires k < |s| && s[k] == c && c !in s[..k]
    ensures CountChar(s, c) == 1 + CountChar(s[k + 1..], c)
  {
    assert s == s[..k] + [c] + s[k + 1..];
    CountCharAround(s[..k], c, s[k + 1..]);
  }

  lemma {:induction false} CountCharLacking(s: string, c: char)
    requires c !in s
    ensures CountChar(s, c) == 0
  {
    if s != [] {
      assert c !in s[1..];
      CountCharLacking(s[1..], c);
    }
  }

  lemma {:induction false} CountCharZero(s: string, c: char)
    requires CountChar(s, c) == 0
    ensures c !in s
  {
    if s != [] {
      CountCharZero(s[1..], c);
      assert s == [s[0]] + s[1..];
    }
  }

  // ---------------------------------------------------------------- trimming

  /** The first index at or after `i` that does not hold a space. */
  function SkipSpaces(s: string, i: nat): (k: nat)
    requires i <= |s|
    ensures i <= k <= |s|
    ensures forall j | i <= j < k :: IsSpace(s[j])
    ensures k < |s| ==> !IsSpace(s[k])
    decreases |s| - i
  {
    if i < |s| && IsSpace(s[i]) then SkipSpaces(s, i + 1) else i
  }

  /** The least index `k` down from `j`, not below `lo`, with only spaces in `s[k..j]`. */
  function BackOverSpaces(s: string, lo: nat, j: nat): (k: nat)
    requires lo <= j <= |s|
    ensures lo <= k <= j
    ensures forall m | k <= m < j :: IsSpace(s[m])
    ensures k > lo ==> !IsSpace(s[k - 1])
    decreases j
  {
    if j > lo && IsSpace(s[j - 1]) then BackOverSpaces(s, lo, j - 1) else j
  }

  function TrimStartIndex(s: string): nat { SkipSpaces(s, 0) }

  function TrimEndIndex(s: string): (b: nat)
    ensures TrimStartIndex(s) <= b <= |s|
  {
    BackOverSpaces(s, TrimStartIndex(s), |s|)
  }

  /** `String.prototype.trim`: `s` without its leading and trailing spaces. */
  function Trim(s: string): (r: string)
    ensures r == s[TrimStartIndex(s)..TrimEndIndex(s)]
    ensures forall j | 0 <= j < TrimStartIndex(s) :: IsSpace(s[j])
    ensures forall j | TrimEndIndex(s) <= j < |s| :: IsSpace(s[j])
    ensures r != [] ==> !IsSpace(r[0]) && !IsSpace(r[|r| - 1])
  {
    s[TrimStartIndex(s)..TrimEndIndex(s)]
  }

  lemma TrimAllSpaces(s: string)
    requires forall j | 0 <= j < |s| :: IsSpace(s[j])
    ensures Trim(s) == []
  {
  }

  lemma TrimNoSpaces(s: string)
    requires forall j | 0 <= j < |s| :: !IsSpace(s[j])
    ensures Trim(s) == s
  {
  }

  // ------------------------------------------------------ splitting, joining

  /** The first index of `c` at `i` or later, or `|s|` when there is none. */
  function IndexFrom(s: string, c: char, i: nat): (k: nat)
    requires i <= |s|
    ensures i <= k <= |s|
    ensures forall j | i <= j < k :: s[j] != c
    ensures k < |s| ==> s[k] == c
    decreases |s| - i
  {
    if i == |s| || s[i] == c then i else IndexFrom(s, c, i + 1)
  }

  /** The first index of `c` in `s`, or `|s|` when there is none. */
  function IndexOfChar(s: string, c: char): (k: nat)
    ensures k <= |s|
    ensures c !in s[..k]
    ensures k < |s| ==> s[k] == c
  {
    var k := IndexFrom(s, c, 0);
    assert forall j | 0 <= j < k :: s[..k][j] == s[j];
    k
  }

  /** The first index of `c` is the one before which `c` does not occur and at
      which it does (or the end). */
  lemma IndexOfCharAt(s: string, c: char, j: nat)
    requires j <= |s| && c !in s[..j] && (j < |s| ==> s[j] == c)
    ensures IndexOfChar(s, c) == j
  {
  }

  /** `String.prototype.split` with a one-character separator. */
  function Split(s: string, sep: char): (ws: seq<string>)
    ensures |ws| >= 1
    ensures forall k | 0 <= k < |ws| :: sep !in ws[k]
    decreases |s|
  {
    var k := IndexOfChar(s, sep);
    if k == |s| then [s] else [s[..k]] + Split(s[k + 1..], sep)
  }

  /** `Array.prototype.join` with a one-character separator. */
  function Join(ws: seq<string>, sep: char): string {
    if |ws| == 0 then ""
    else if |ws| == 1 then ws[0]
    else ws[0] + [sep] + Join(ws[1..], sep)
  }

  lemma {:induction false} JoinSplit(s: string, sep: char)
    ensures Join(Split(s, sep), sep) == s
    decreases |s|
  {
    var k := IndexOfChar(s, sep);
    if k < |s| {
      var w, rest := s[..k], s[k + 1..];
      assert Split(s, sep) == [w] + Split(rest, sep);
      JoinSplit(rest, sep);
      JoinCons(w, Split(rest, sep), sep);
      assert s == w + [sep] + rest;
    }
  }

  lemma {:induction false} SplitJoin(ws: seq<string>, sep: char)
    requires |ws| >= 1
    requires forall k | 0 <= k < |ws| :: sep !in ws[k]
    ensures Split(Join(ws, sep), sep) == ws
  {
    if |ws| == 1 {
      SplitNone(ws[0], sep);
    } else {
      var w, rest := ws[0], Join(ws[1..], sep);
      var s := w + [sep] + rest;
      assert ws == [w] + ws[1..];
      JoinCons(w, ws[1..], sep);
      IndexAfterFree(w, sep, rest);
      assert s[..|w|] == w && s[|w| + 1..] == rest;
      SplitJoin(ws[1..], sep);
    }
  }

  lemma SplitNone(w: string, sep: char)
    requires sep !in w
    ensures Split(w, sep) == [w]
  {
  }

  lemma IndexAfterFree(w: string, sep: char, rest: string)
    requires sep !in w
    ensures IndexOfChar(w + [sep] + rest, sep) == |w|
  {
    var s := w + [sep] + rest;
    assert s[..|w|] == w;
    IndexOfCharAt(s, sep, |w|);
  }

  /** The texts of `ws` one after another. */
  function Concat(ws: seq<string>): string {
    if ws == [] then "" else Concat(ws[..|ws| - 1]) + ws[|ws| - 1]
  }

  lemma ConcatStep(ws: seq<string>, i: nat)
    requires i < |ws|
    ensures Concat(ws[..i + 1]) == Concat(ws[..i]) + ws[i]
  {
    assert ws[..i + 1][..i] == ws[..i];
  }

  /** `w` occurs inside `a + x + b` wherever it occurs inside `x`. */
  lemma IncludesWithin(a: string, x: string, b: string, w: string)
    requires Includes(x, w)
    ensures Includes(a + x + b, w)
  {
    var i: nat :| i + |w| <= |x| && StartsAt(x, i, w);
    assert (a + x + b)[|a| + i..|a| + i + |w|] == x[i..i + |w|];
    assert StartsAt(a + x + b, |a| + i, w);
  }

  /** Each text of `ws` occurs in their concatenation. */
  lemma {:induction false} ConcatIncludes(ws: seq<string>, k: nat)
    requires k < |ws|
    ensures Includes(Concat(ws), ws[k])
  {
    var init := Concat(ws[..|ws| - 1]);
    var last := ws[|ws| - 1];
    if k == |ws| - 1 {
      assert StartsAt(init + last, |init|, last);
    } else {
      assert ws[..|ws| - 1][k] == ws[k];
      ConcatIncludes(ws[..|ws| - 1], k);
      IncludesWithin("", init, last, ws[k]);
      assert "" + init + last == init + last;
    }
  }

  lemma AppendAssociates(a: string, b: string, c: string)
    ensures a + b + c == a + (b + c)
  {
  }

  lemma PrefixStarts(w: string, rest: string)
    ensures StartsAt(w + rest, 0, w)
  {
    assert (w + rest)[..|w|] == w;
  }

  // ------------------------------------------------------------ title case

  /** `word.charAt(0).toUpperCase() + word.slice(1)`. */
  function Capitalize(w: string): string {
    if w == [] then [] else [UpperChar(w[0])] + w[1..]
  }

  /** The `formatLocation` helper that both browser scripts define: split on single
      spaces, capitalise each piece, join with single spaces. */
  function FormatLocation(loc: string): string {
    Join(CapitalizeEach(Split(loc, ' ')), ' ')
  }

  /** `words.map(capitalize)`. */
  function CapitalizeEach(ws: seq<string>): (r: seq<string>)
    ensures |r| == |ws|
    ensures forall i | 0 <= i < |ws| :: r[i] == Capitalize(ws[i])
  {
    if ws == [] then [] else [Capitalize(ws[0])] + CapitalizeEach(ws[1..])
  }

  /** Reference definition of title case, one character at a time: a character that
      begins the text or follows a space is upper-cased, every other one is kept. */
  function TitleCaseRef(s: string): string {
    seq(|s|, i requires 0 <= i < |s| => if i == 0 || s[i - 1] == ' ' then UpperChar(s[i]) else s[i])
  }

  /** A word without spaces is title-cased by capitalising its first character. */
  lemma TitleCaseWord(w: string)
    requires ' ' !in w
    ensures TitleCaseRef(w) == Capitalize(w)
  {
    forall j | 0 <= j < |w| - 1 ensures w[j] != ' ' {
      assert w[j] in w;
    }
  }

  /** Title case distributes over a space: the reference definition restarts after it. */
  lemma TitleCaseAppend(w: string, rest: string)
    requires ' ' !in w
    ensures TitleCaseRef(w + " " + rest) == TitleCaseRef(w) + " " + TitleCaseRef(rest)
  {
    var s := w + " " + rest;
    var k := |w|;
    var lhs, rhs := TitleCaseRef(s), TitleCaseRef(w) + " " + TitleCaseRef(rest);
    assert |lhs| == |rhs|;
    forall i | 0 <= i < |s| ensures lhs[i] == rhs[i] {
      if i > k + 1 {
        assert s[i - 1] == rest[i - k - 2];
      }
    }
  }

  /** `FormatLocation` with the first space found: capitalise the first piece, recurse on the rest. */
  lemma FormatLocationStep(w: string, rest: string)
    requires ' ' !in w
    ensures FormatLocation(w + " " + rest) == Capitalize(w) + " " + FormatLocation(rest)
  {
    var s := w + " " + rest;
    IndexAfterFree(w, ' ', rest);
    assert s[..|w|] == w && s[|w| + 1..] == rest;
    assert Split(s, ' ') == [w] + Split(rest, ' ');
    CapitalizeEachCons(w, Split(rest, ' '));
    JoinCons(Capitalize(w), CapitalizeEach(Split(rest, ' ')), ' ');
  }

  lemma CapitalizeEachCons(w: string, ws: seq<string>)
    ensures CapitalizeEach([w] + ws) == [Capitalize(w)] + CapitalizeEach(ws)
  {
    assert ([w] + ws)[1..] == ws;
  }

  /** Joining a list of two or more pieces puts the first piece, then the separator, then the rest joined. */
  lemma JoinCons(x: string, ws: seq<string>, sep: char)
    requires ws != []
    ensures Join([x] + ws, sep) == x + [sep] + Join(ws, sep)
  {
    assert ([x] + ws)[1..] == ws;
  }

  /** `FormatLocation` agrees everywhere with the one-character-at-a-time reference. */
  lemma {:induction false} FormatLocationIsTitleCase(s: string)
    ensures FormatLocation(s) == TitleCaseRef(s)
    decreases |s|
  {
    var k := IndexOfChar(s, ' ');
    if k == |s| {
      assert s[..k] == s;
      SplitNone(s, ' ');
      TitleCaseWord(s);
    } else {
      var w, rest := s[..k], s[k + 1..];
      assert s == w + " " + rest;
      FormatLocationStep(w, rest);
      FormatLocationIsTitleCase(rest);
      TitleCaseWord(w);
      TitleCaseAppend(w, rest);
    }
  }

  /** Title-casing keeps the length and the positions of the spaces. */
  lemma FormatLocationSpaces(s: string)
    ensures |FormatLocation(s)| == |s|
    ensures forall i | 0 <= i < |s| :: (FormatLocation(s)[i] == ' ') == (s[i] == ' ')
  {
    FormatLocationIsTitleCase(s);
    forall c: char { UpperCharIdempotent(c); }
  }

  /** Title-casing keeps the number of space-separated words. */
  lemma FormatLocationWordCount(s: string)
    ensures |Split(FormatLocation(s), ' ')| == |Split(s, ' ')|
  {
    var ws := Split(s, ' ');
    var caps := CapitalizeEach(ws);
    forall i | 0 <= i < |caps| ensures ' ' !in caps[i] {
      if ws[i] != [] {
        UpperCharIdempotent(ws[i][0]);
        assert ' ' !in ws[i][1..];
      }
    }
    SplitJoin(caps, ' ');
  }

  /** Title-casing a second time changes nothing. */
  lemma FormatLocationIdempotent(s: string)
    ensures FormatLocation(FormatLocation(s)) == FormatLocation(s)
  {
    var t := FormatLocation(s);
    FormatLocationIsTitleCase(s);
    FormatLocationIsTitleCase(t);
    FormatLocationSpaces(s);
    forall i | 0 <= i < |t| ensures TitleCaseRef(t)[i] == t[i] {
      UpperCharIdempotent(s[i]);
    }
  }

  // ------------------------------------------------------------- decimals

  function DigitChar(d: nat): char
    requires d < 10
  {
    ('0' as int + d) as char
  }

  /** The decimal rendering JavaScript gives a non-negative integer in a template. */
  function NatToString(n: nat): string
    decreases n
  {
    if n < 10 then [DigitChar(n)] else NatToString(n / 10) + [DigitChar(n % 10)]
  }

  predicate AllDigits(s: string) {
    forall i | 0 <= i < |s| :: IsDigit(s[i])
  }

  /** The value of a run of decimal digits. */
  function DigitsValue(s: string): nat
    requires AllDigits(s)
    decreases |s|
  {
    if s == [] then 0 else 10 * DigitsValue(s[..|s| - 1]) + (s[|s| - 1] as int - '0' as int)
  }

  /** Rendering is a non-empty run of digits that reads back as the number. */
  lemma {:induction false} NatToStringDigits(n: nat)
    ensures NatToString(n) != [] && AllDigits(NatToString(n))
    ensures DigitsValue(NatToString(n)) == n
    decreases n
  {
    if n >= 10 {
      NatToStringDigits(n / 10);
      var s := NatToString(n);
      assert s[..|s| - 1] == NatToString(n / 10);
    }
  }
}
