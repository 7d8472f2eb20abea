/** String and sequence helpers with the meaning Python gives them in
    gen-wiki.py: joining, line splitting, ASCII capitalisation, path base
    names and extensions, whitespace stripping and the decimal text of an
    integer. */
module Text {

  /** Index of the first `x` in `s`, or `|s|` when `x` does not occur. */
  function FirstIndex<T(==)>(s: seq<T>, x: T): (k: nat)
    ensures k <= |s|
    ensures k < |s| ==> s[k] == x
    ensures forall i :: 0 <= i < k ==> s[i] != x
    ensures k == |s| <==> x !in s
  {
    if s == [] then 0
    else if s[0] == x then 0
    else 1 + FirstIndex(s[1..], x)
  }

  /** The first `x` of `a + [x] + b` is the one right after `a`. */
  lemma FirstIndexAfter<T>(a: seq<T>, x: T, b: seq<T>)
    requires x !in a
    ensures FirstIndex(a + [x] + b, x) == |a|
  {
    var s := a + [x] + b;
    assert s[|a|] == x;
  }

  /** Index of the last `x` in `s`, or -1 when `x` does not occur. */
  function LastIndex<T(==)>(s: seq<T>, x: T): (k: int)
    ensures -1 <= k < |s|
    ensures k >= 0 ==> s[k] == x
    ensures forall i :: k < i < |s| ==> s[i] != x
  {
    if s == [] then -1
    else if s[|s| - 1] == x then |s| - 1
    else LastIndex(s[..|s| - 1], x)
  }

  predicate StartsWith(s: string, prefix: string) {
    |prefix| <= |s| && s[..|prefix|] == prefix
  }

  /** Python's `s.endswith(suffix)`. */
  predicate EndsWith(s: string, suffix: string) {
    |suffix| <= |s| && s[|s| - |suffix|..] == suffix
  }

  lemma StartsWithAppend(a: string, b: string)
    ensures StartsWith(a + b, a) && (a + b)[|a|..] == b
  {
    assert (a + b)[..|a|] == a;
  }

  lemma EndsWithAppend(a: string, b: string)
    ensures EndsWith(a + b, b)
  {
    assert (a + b)[|a + b| - |b|..] == b;
  }

  /** Python's `sub in s` for strings. */
  predicate Contains(s: string, sub: string) {
    exists i :: 0 <= i <= |s| - |sub| && OccursAt(s, sub, i)
  }

  predicate OccursAt(s: string, sub: string, i: int)
    requires 0 <= i <= |s| - |sub|
  {
    s[i..i + |sub|] == sub
  }

  /** Python's `sep.join(parts)`. */
  function Join(parts: seq<string>, sep: string): string {
    if |parts| == 0 then ""
    else if |parts| == 1 then parts[0]
    else parts[0] + sep + Join(parts[1..], sep)
  }

  /** Python's `"".join(parts)`. */
  function Concat(parts: seq<string>): string {
    if parts == [] then "" else parts[0] + Concat(parts[1..])
  }

  lemma {:induction false} ConcatAppend(a: seq<string>, b: seq<string>)
    ensures Concat(a + b) == Concat(a) + Concat(b)
  {
    if a == [] {
      assert a + b == b;
    } else {
      assert (a + b)[1..] == a[1..] + b;
      ConcatAppend(a[1..], b);
    }
  }

  /** The concatenation is empty exactly when every part is. */
  lemma {:induction false} ConcatEmpty(parts: seq<string>)
    ensures Concat(parts) == "" <==> forall i :: 0 <= i < |parts| ==> parts[i] == ""
  {
    if parts != [] {
      ConcatEmpty(parts[1..]);
      assert forall i :: 1 <= i < |parts| ==> parts[i] == parts[1..][i - 1];
    }
  }

  /** A string that fits on one line. */
  predicate OneLine(s: string) {
    '\n' !in s
  }

  /** Each line followed by a newline, as the tool writes its Markdown. */
  function UnLines(lines: seq<string>): string {
    if lines == [] then "" else lines[0] + "\n" + UnLines(lines[1..])
  }

  lemma {:induction false} UnLinesAppend(a: seq<string>, b: seq<string>)
    ensures UnLines(a + b) == UnLines(a) + UnLines(b)
  {
    if a == [] {
      assert a + b == b;
    } else {
      assert (a + b)[1..] == a[1..] + b;
      UnLinesAppend(a[1..], b);
    }
  }

  /** The lines of `s`: the pieces between newlines, where a final newline
      ends the last line rather than starting an empty one. */
  function Lines(s: string): seq<string>
    decreases |s|
  {
    if s == [] then []
    else
      var k := FirstIndex(s, '\n');
      if k == |s| then [s] else [s[..k]] + Lines(s[k + 1..])
  }

  /** Splitting into lines undoes `UnLines` when no line holds a newline. */
  lemma {:induction false} LinesOfUnLines(lines: seq<string>)
    requires forall i :: 0 <= i < |lines| ==> OneLine(lines[i])
    ensures Lines(UnLines(lines)) == lines
  {
    if lines != [] {
      var rest := UnLines(lines[1..]);
      var s := UnLines(lines);
      assert s == lines[0] + ['\n'] + rest;
      FirstIndexAfter(lines[0], '\n', rest);
      assert s[..|lines[0]|] == lines[0];
      assert s[|lines[0]| + 1..] == rest;
      LinesOfUnLines(lines[1..]);
    }
  }

  lemma LinesOfUnLinesAppend(a: seq<string>, b: seq<string>)
    requires forall i :: 0 <= i < |a| ==> OneLine(a[i])
    requires forall i :: 0 <= i < |b| ==> OneLine(b[i])
    ensures Lines(UnLines(a) + UnLines(b)) == a + b
  {
    UnLinesAppend(a, b);
    forall i | 0 <= i < |a + b|
      ensures OneLine((a + b)[i])
    {
      if i < |a| {
        assert (a + b)[i] == a[i];
      } else {
        assert (a + b)[i] == b[i - |a|];
      }
    }
    LinesOfUnLines(a + b);
  }

  predicate IsLowerAscii(c: char) {
    'a' <= c <= 'z'
  }

  predicate IsUpperAscii(c: char) {
    'A' <= c <= 'Z'
  }

  function ToUpper(c: char): char {
    if IsLowerAscii(c) then (c as int - 32) as char else c
  }

  function ToLower(c: char): char {
    if IsUpperAscii(c) then (c as int + 32) as char else c
  }

  /** Python's `s.lower()` on ASCII letters. */
  function Lowered(s: string): (r: string)
    ensures |r| == |s|
  {
    seq(|s|, i requires 0 <= i < |s| => ToLower(s[i]))
  }

  /** Python's `s.capitalize()` on ASCII letters: the same letters ignoring
      case, the first one upper-case and all others lower-case. */
  function Capitalize(s: string): (r: string)
    ensures |r| == |s|
    ensures Lowered(r) == Lowered(s)
    ensures |r| > 0 ==> !IsLowerAscii(r[0])
    ensures forall i :: 1 <= i < |r| ==> !IsUpperAscii(r[i])
  {
    if s == [] then [] else [ToUpper(s[0])] + Lowered(s[1..])
  }

  /** The four properties of `Capitalize` single out its result. */
  lemma CapitalizeUnique(s: string, r: string)
    requires |r| == |s|
    requires Lowered(r) == Lowered(s)
    requires |r| > 0 ==> !IsLowerAscii(r[0])
    requires forall i :: 1 <= i < |r| ==> !IsUpperAscii(r[i])
    ensures r == Capitalize(s)
  {
    var c := Capitalize(s);
    forall i | 0 <= i < |r|
      ensures r[i] == c[i]
    {
      assert ToLower(r[i]) == Lowered(r)[i] == Lowered(s)[i] == Lowered(c)[i] == ToLower(c[i]);
    }
  }

  /** Python's `os.path.basename(p)`: the longest suffix of `p` without a
      slash. */
  function Basename(p: string): (r: string)
    ensures '/' !in r
    ensures |r| <= |p| && r == p[|p| - |r|..]
    ensures |r| < |p| ==> p[|p| - |r| - 1] == '/'
  {
    p[LastIndex(p, '/') + 1..]
  }

  /** Python's `os.path.join(a, b)` for two components: an absolute `b`
      replaces `a`; otherwise `b` follows `a`, with one `/` between them
      unless `a` is empty or already ends in one. */
  function PathJoin(a: string, b: string): (r: string)
    ensures EndsWith(r, b)
    ensures '/' !in b ==> Basename(r) == b
  {
    if StartsWith(b, "/") then b
    else
      var dir := if a == "" || EndsWith(a, "/") then a else a + "/";
      JoinUnder(a, dir, b);
      dir + b
  }

  /** The root part of a joined path: an absolute `b` is the whole result;
      otherwise the result starts with `a`, and a `/` is put between them
      exactly when `a` is non-empty and does not already end in one. */
  lemma PathJoinRoot(a: string, b: string)
    ensures StartsWith(b, "/") ==> PathJoin(a, b) == b
    ensures !StartsWith(b, "/") ==> StartsWith(PathJoin(a, b), a)
    ensures !StartsWith(b, "/") ==> (PathJoin(a, b) == a + b <==> a == "" || EndsWith(a, "/"))
    ensures !StartsWith(b, "/") ==> (PathJoin(a, b) == a + "/" + b <==> a != "" && !EndsWith(a, "/"))
  {
    if !StartsWith(b, "/") {
      JoinUnder(a, if a == "" || EndsWith(a, "/") then a else a + "/", b);
    }
  }

  /** `b` placed under `dir`, which is `a` or `a` followed by a slash. */
  lemma JoinUnder(a: string, dir: string, b: string)
    requires dir == if a == "" || EndsWith(a, "/") then a else a + "/"
    ensures EndsWith(dir + b, b) && StartsWith(dir + b, a)
    ensures '/' !in b ==> Basename(dir + b) == b
    ensures dir + b == a + b <==> a == "" || EndsWith(a, "/")
    ensures dir + b == a + "/" + b <==> a != "" && !EndsWith(a, "/")
  {
    EndsWithAppend(dir, b);
    StartsWithAppend(a, b);
    if dir != a {
      assert dir + b == a + ("/" + b);
      StartsWithAppend(a, "/" + b);
      assert |dir + b| != |a + b|;
    } else {
      assert |dir + b| != |a + "/" + b|;
    }
    if dir != "" {
      assert (dir + b)[|dir| - 1] == dir[|dir| - 1] == '/';
    }
  }

  predicate HasNonDot(s: string) {
    exists i :: 0 <= i < |s| && s[i] != '.'
  }

  /** The root Python's `os.path.splitext` returns for a file name without a
      directory part: everything before the last dot, unless no character
      before that dot is anything but a dot (as in `.bashrc`), in which case
      the name has no extension. */
  function Stem(name: string): (r: string)
    ensures |r| <= |name| && r == name[..|r|]
  {
    var d := LastIndex(name, '.');
    if d >= 0 && HasNonDot(name[..d]) then name[..d] else name
  }

  /** `n.ext` splits into root `n` when `n` is not all dots; when it is
      (`.md`, `..md`), the whole name is the root. */
  lemma StemOfExtension(n: string, ext: string)
    requires '.' !in ext
    ensures HasNonDot(n) ==> Stem(n + "." + ext) == n
    ensures !HasNonDot(n) ==> Stem(n + "." + ext) == n + "." + ext
  {
    var name := n + "." + ext;
    assert name[|n|] == '.';
    var d := LastIndex(name, '.');
    assert d == |n|;
    assert name[..d] == n;
  }

  lemma StemWithoutDot(name: string)
    requires '.' !in name
    ensures Stem(name) == name
  {
  }

  /** Python's `str.isspace` on ASCII: space, tab, newline, vertical tab,
      form feed, carriage return and the four separator controls. */
  predicate IsSpace(c: char) {
    c == ' ' || (9 <= c as int <= 13) || (28 <= c as int <= 31)
  }

  function TrimStart(s: string): (r: string)
    ensures |r| <= |s| && r == s[|s| - |r|..]
    ensures forall i :: 0 <= i < |s| - |r| ==> IsSpace(s[i])
    ensures r == [] || !IsSpace(r[0])
  {
    if s != [] && IsSpace(s[0]) then TrimStart(s[1..]) else s
  }

  function TrimEnd(s: string): (r: string)
    ensures |r| <= |s| && r == s[..|r|]
    ensures forall i :: |r| <= i < |s| ==> IsSpace(s[i])
    ensures r == [] || !IsSpace(r[|r| - 1])
  {
    if s != [] && IsSpace(s[|s| - 1]) then TrimEnd(s[..|s| - 1]) else s
  }

  /** `r` is `s` without its first `a` characters and the characters after
      `a + |r|`, all of them white space. */
  predicate TrimmedAt(s: string, r: string, a: nat) {
    a + |r| <= |s| && r == s[a..a + |r|]
    && (forall i :: 0 <= i < a ==> IsSpace(s[i]))
    && (forall i :: a + |r| <= i < |s| ==> IsSpace(s[i]))
  }

  /** Python's `s.strip()`: the text between leading and trailing white
      space, which itself neither starts nor ends with white space. */
  function Strip(s: string): (r: string)
    ensures |r| <= |s|
    ensures r == [] || (!IsSpace(r[0]) && !IsSpace(r[|r| - 1]))
    ensures exists a: nat :: TrimmedAt(s, r, a)
  {
    var t := TrimStart(s);
    var r := TrimEnd(t);
    assert r != [] ==> r[0] == t[0];
    TrimmedBoth(s, t, r, |s| - |t|);
    r
  }

  /** A prefix of `s[a..]` is the slice of `s` that starts at `a`. */
  lemma PrefixOfSuffix<T>(s: seq<T>, a: nat, r: seq<T>)
    requires a <= |s| && |r| <= |s| - a && r == s[a..][..|r|]
    ensures r == s[a..a + |r|]
  {
  }

  /** Cutting `a` leading white-space characters and then a white-space
      tail leaves `s` trimmed at `a`. */
  lemma TrimmedBoth(s: string, t: string, r: string, a: nat)
    requires a + |t| == |s| && t == s[a..]
    requires forall i :: 0 <= i < a ==> IsSpace(s[i])
    requires |r| <= |t| && r == t[..|r|]
    requires forall i :: |r| <= i < |t| ==> IsSpace(t[i])
    ensures TrimmedAt(s, r, a)
  {
    PrefixOfSuffix(s, a, r);
    forall i | a + |r| <= i < |s|
      ensures IsSpace(s[i])
    {
      assert s[i] == t[i - a];
    }
  }

  predicate IsDigit(c: char) {
    '0' <= c <= '9'
  }

  predicate AllDigits(s: string) {
    forall i :: 0 <= i < |s| ==> IsDigit(s[i])
  }

  function DigitChar(d: nat): (c: char)
    requires d < 10
    ensures IsDigit(c) && c as int - '0' as int == d
  {
    ('0' as int + d) as char
  }

  /** The decimal digits of `n`, most significant first, without leading
      zeros. */
  function NatText(n: nat): (r: string)
    ensures |r| > 0 && AllDigits(r)
    ensures r[0] == '0' ==> n == 0 && |r| == 1
  {
    if n < 10 then [DigitChar(n)] else NatText(n / 10) + [DigitChar(n % 10)]
  }

  /** The number a string of decimal digits denotes. */
  function DigitsValue(s: string): nat
    requires AllDigits(s)
  {
    if s == [] then 0
    else DigitsValue(s[..|s| - 1]) * 10 + (s[|s| - 1] as int - '0' as int)
  }

  lemma {:induction false} NatTextRoundTrip(n: nat)
    ensures DigitsValue(NatText(n)) == n
  {
    if n >= 10 {
      var r := NatText(n);
      assert r[..|r| - 1] == NatText(n / 10);
      NatTextRoundTrip(n / 10);
    }
  }

  /** Python's `str(i)` for an integer: a minus sign exactly for a negative
      number, and no leading zero except in `0` itself. */
  function IntText(i: int): (r: string)
    ensures |r| > 0
    ensures (r[0] == '-') == (i < 0)
    ensures r[0] == '-' ==> |r| > 1 && r[1] != '0'
    ensures r[0] == '0' ==> |r| == 1
  {
    if i < 0 then "-" + NatText(-i) else NatText(i)
  }

  /** A digit string without a leading zero (other than `0` itself) is the
      decimal text of the number it denotes: the text is unique. */
  lemma {:induction false} NatTextUnique(s: string)
    requires s != [] && AllDigits(s) && (s[0] == '0' ==> |s| == 1)
    ensures s == NatText(DigitsValue(s))
  {
    if |s| > 1 {
      var p := s[..|s| - 1];
      var d := s[|s| - 1] as int - '0' as int;
      assert p[0] == s[0];
      LeadingDigitPositive(p);
      NatTextUnique(p);
      var n := DigitsValue(s);
      assert n == DigitsValue(p) * 10 + d && n >= 10;
      assert n / 10 == DigitsValue(p) && n % 10 == d;
      assert DigitChar(d) == s[|s| - 1];
      assert s == p + [s[|s| - 1]];
    }
  }

  /** A digit string that starts with a non-zero digit denotes a positive
      number. */
  lemma {:induction false} LeadingDigitPositive(s: string)
    requires s != [] && AllDigits(s) && s[0] != '0'
    ensures DigitsValue(s) >= 1
  {
    if |s| > 1 {
      assert s[..|s| - 1][0] == s[0];
      LeadingDigitPositive(s[..|s| - 1]);
    }
  }

  /** The text `str()` gives an integer is the only one with a minus sign
      exactly for a negative number, no leading zero, and the integer's
      value. */
  lemma IntTextUnique(s: string, i: int)
    requires s != [] && AllDigits(if s[0] == '-' then s[1..] else s)
    requires (s[0] == '-') == (i < 0)
    requires s[0] == '-' ==> |s| > 1 && s[1] != '0'
    requires s[0] == '0' ==> |s| == 1
    requires IntValue(s) == i
    ensures s == IntText(i)
  {
    if s[0] == '-' {
      NatTextUnique(s[1..]);
      assert s == "-" + s[1..];
    } else {
      NatTextUnique(s);
    }
  }

  /** The integer an optional minus sign and a digit string denote. */
  function IntValue(s: string): int
    requires s != [] && AllDigits(if s[0] == '-' then s[1..] else s)
  {
    if s[0] == '-' then -(DigitsValue(s[1..]) as int) else DigitsValue(s)
  }

  lemma IntTextRoundTrip(i: int)
    ensures var r := IntText(i); AllDigits(if r[0] == '-' then r[1..] else r) && IntValue(r) == i
  {
    var r := IntText(i);
    if i < 0 {
      assert r[1..] == NatText(-i);
      NatTextRoundTrip(-i);
    } else {
      NatTextRoundTrip(i);
    }
  }
}
