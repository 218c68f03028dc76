/** The Python string operations the generator relies on, over `string`
    (`seq<char>`): `split`, `join`, `replace`, substring search, `re.sub`
    of newline runs, `str(int)` / `int(str)`, `capitalize` and
    left-aligned padding. */
module Text {

  /** The text before the first `c` in `s`; all of `s` when `c` does not occur. */
  function Before(s: string, c: char): (r: string)
    ensures r <= s
    ensures c !in r
    ensures |r| < |s| ==> s[|r|] == c
  {
    if s == [] || s[0] == c then [] else [s[0]] + Before(s[1..], c)
  }

  /** Python's `s.split(c)` for a one-character separator `c`. */
  function Split(s: string, c: char): (parts: seq<string>)
    ensures |parts| > 0 && parts[0] == Before(s, c)
    ensures forall i :: 0 <= i < |parts| ==> c !in parts[i]
    decreases |s|
  {
    var p := Before(s, c);
    if |p| == |s| then [p] else [p] + Split(s[|p| + 1..], c)
  }

  /** Python's `"".join(ss)`. */
  function Concat(ss: seq<string>): string
  {
    if ss == [] then [] else ss[0] + Concat(ss[1..])
  }

  /** Each part followed by the character `c`: `[p + c for p in parts]`. */
  function Terminated(parts: seq<string>, c: char): seq<string>
  {
    seq(|parts|, i requires 0 <= i < |parts| => parts[i] + [c])
  }

  lemma {:induction false} ConcatAppend(a: seq<string>, b: seq<string>)
    ensures Concat(a + b) == Concat(a) + Concat(b)
  {
    if a == [] {
      assert a + b == b;
    } else {
      assert (a + b)[1..] == a[1..] + b;
      ConcatAppend(a[1..], b);
    }
  }

  lemma ConcatSingle(x: string)
    ensures Concat([x]) == x
  {
    assert [x][1..] == [];
  }

  /** Terminating every piece of `s.split(c)` with `c` and joining the
      pieces gives back `s` followed by one `c`. */
  lemma {:induction false} ConcatSplit(s: string, c: char)
    ensures Concat(Terminated(Split(s, c), c)) == s + [c]
    decreases |s|
  {
    var p := Before(s, c);
    if |p| == |s| {
      assert p == s;
      assert Terminated([p], c) == [p + [c]];
      ConcatSingle(p + [c]);
    } else {
      var rest := s[|p| + 1..];
      ConcatSplit(rest, c);
      var tail := Terminated(Split(rest, c), c);
      assert Terminated([p] + Split(rest, c), c) == [p + [c]] + tail;
      assert ([p + [c]] + tail)[1..] == tail;
      assert s == p + [c] + rest;
    }
  }

  lemma {:induction false} BeforeSeparator(p: string, c: char, t: string)
    requires c !in p
    ensures Before(p + [c] + t, c) == p
  {
    if p != [] {
      assert (p + [c] + t)[1..] == p[1..] + [c] + t;
      BeforeSeparator(p[1..], c, t);
    }
  }

  /** Splitting `c`-terminated lines that contain no `c` at `c` gives back
      the lines, followed by the empty piece after the last `c`. */
  lemma {:induction false} SplitConcat(lines: seq<string>, c: char)
    requires forall i :: 0 <= i < |lines| ==> c !in lines[i]
    ensures Split(Concat(Terminated(lines, c)), c) == lines + [[]]
  {
    if lines == [] {
      assert Terminated(lines, c) == [];
    } else {
      var p, more := lines[0], lines[1..];
      var t := Concat(Terminated(more, c));
      ConcatTerminatedCons(p, more, c);
      SplitCons(p, c, t);
      SplitConcat(more, c);
      assert lines == [p] + more;
    }
  }

  lemma ConcatTerminatedCons(p: string, more: seq<string>, c: char)
    ensures Concat(Terminated([p] + more, c)) == p + [c] + Concat(Terminated(more, c))
  {
    var rest := Terminated(more, c);
    assert Terminated([p] + more, c) == [p + [c]] + rest;
    assert ([p + [c]] + rest)[1..] == rest;
  }

  /** A piece without `c`, then `c`: the piece is the first part of the split. */
  lemma SplitCons(p: string, c: char, t: string)
    requires c !in p
    ensures Split(p + [c] + t, c) == [p] + Split(t, c)
  {
    var s := p + [c] + t;
    BeforeSeparator(p, c, t);
    assert |Before(s, c)| < |s|;
    assert s[|p| + 1..] == t;
  }

  /** `pat` occurs in `s` starting at position `i`. */
  predicate OccursAt(s: string, pat: string, i: int)
  {
    0 <= i && i + |pat| <= |s| && s[i..i + |pat|] == pat
  }

  lemma OccursShift(s: string, pat: string, i: int)
    requires s != [] && 0 <= i
    ensures OccursAt(s[1..], pat, i) <==> OccursAt(s, pat, i + 1)
  {
    if 0 <= i && i + 1 + |pat| <= |s| {
      assert s[1..][i..i + |pat|] == s[i + 1..i + 1 + |pat|];
    }
  }

  /** Python's `pat in s`. */
  function Contains(s: string, pat: string): bool
    decreases |s|
  {
    if |s| < |pat| then false
    else if s[..|pat|] == pat then true
    else Contains(s[1..], pat)
  }

  /** `Contains` holds exactly when the pattern occurs at some position. */
  lemma {:induction false} ContainsOccurs(s: string, pat: string)
    ensures Contains(s, pat) <==> exists i :: OccursAt(s, pat, i)
    decreases |s|
  {
    if |s| < |pat| {
      assert forall i :: !OccursAt(s, pat, i);
    } else if s[..|pat|] == pat {
      assert OccursAt(s, pat, 0);
    } else {
      ContainsOccurs(s[1..], pat);
      if Contains(s, pat) {
        var i :| OccursAt(s[1..], pat, i);
        OccursShift(s, pat, i);
      }
      if exists i :: OccursAt(s, pat, i) {
        var i :| OccursAt(s, pat, i);
        assert i != 0;
        OccursShift(s, pat, i - 1);
      }
    }
  }

  /** Python's `s.replace(pat, rep)`: scanning from the left, every
      non-overlapping occurrence of `pat` becomes `rep`. */
  function Replace(s: string, pat: string, rep: string): string
    requires pat != []
    decreases |s|
  {
    if |s| < |pat| then s
    else if s[..|pat|] == pat then rep + Replace(s[|pat|..], pat, rep)
    else [s[0]] + Replace(s[1..], pat, rep)
  }

  /** A text without the pattern is left as it is. */
  lemma {:induction false} ReplaceAbsent(s: string, pat: string, rep: string)
    requires pat != [] && !Contains(s, pat)
    ensures Replace(s, pat, rep) == s
    decreases |s|
  {
    if |s| >= |pat| {
      assert s[..|pat|] != pat;
      ReplaceAbsent(s[1..], pat, rep);
      assert s == [s[0]] + s[1..];
    }
  }

  /** The first occurrence of the pattern is replaced and the scan resumes
      right after it: no occurrence of `pat` starts inside `a` exactly when
      `a + pat[..|pat| - 1]` does not contain `pat`. */
  lemma {:induction false} ReplaceFirst(a: string, pat: string, b: string, rep: string)
    requires pat != [] && !Contains(a + pat[..|pat| - 1], pat)
    ensures Replace(a + pat + b, pat, rep) == a + rep + Replace(b, pat, rep)
    decreases |a|
  {
    if a == [] {
      ReplaceAtStart(pat, b, rep);
      assert a + pat + b == pat + b;
    } else {
      ReplaceBeforeFirst(a, pat, b, rep);
      ReplaceFirst(a[1..], pat, b, rep);
      ConsAppend(a, rep, Replace(b, pat, rep));
    }
  }

  lemma ConsAppend(a: string, x: string, y: string)
    requires a != []
    ensures [a[0]] + (a[1..] + x + y) == a + x + y
  {
    assert a == [a[0]] + a[1..];
  }

  lemma ReplaceAtStart(pat: string, b: string, rep: string)
    requires pat != []
    ensures Replace(pat + b, pat, rep) == rep + Replace(b, pat, rep)
  {
    var s := pat + b;
    assert s[..|pat|] == pat;
    assert s[|pat|..] == b;
  }

  /** Before the first occurrence the scan copies one character and goes on. */
  lemma ReplaceBeforeFirst(a: string, pat: string, b: string, rep: string)
    requires pat != [] && a != [] && !Contains(a + pat[..|pat| - 1], pat)
    ensures Replace(a + pat + b, pat, rep) == [a[0]] + Replace(a[1..] + pat + b, pat, rep)
    ensures !Contains(a[1..] + pat[..|pat| - 1], pat)
  {
    var s := a + pat + b;
    var x := a + pat[..|pat| - 1];
    BeforeFirstShape(a, pat, b);
    NotContainsStep(x, pat);
    ReplaceStep(s, pat, rep);
  }

  /** The sequence facts `ReplaceBeforeFirst` needs, kept apart from
      `Replace` and `Contains`. */
  lemma BeforeFirstShape(a: string, pat: string, b: string)
    requires pat != [] && a != []
    ensures var s, x := a + pat + b, a + pat[..|pat| - 1];
      && |x| >= |pat| && |s| >= |pat|
      && s[..|pat|] == x[..|pat|] && s[0] == a[0]
      && x[1..] == a[1..] + pat[..|pat| - 1]
      && s[1..] == a[1..] + pat + b
  {
    var s, x := a + pat + b, a + pat[..|pat| - 1];
    assert s == x + [pat[|pat| - 1]] + b;
  }

  lemma NotContainsStep(x: string, pat: string)
    requires !Contains(x, pat) && |x| >= |pat|
    ensures x[..|pat|] != pat && !Contains(x[1..], pat)
  {
  }

  lemma ReplaceStep(s: string, pat: string, rep: string)
    requires pat != [] && |s| >= |pat| && s[..|pat|] != pat
    ensures Replace(s, pat, rep) == [s[0]] + Replace(s[1..], pat, rep)
  {
  }

  /** Reference definition of replacing one character by another: each
      `from` becomes `to`, every other character stays where it is. */
  function MapChar(s: string, from: char, to: char): string
  {
    seq(|s|, i requires 0 <= i < |s| => if s[i] == from then to else s[i])
  }

  /** `s.replace(from, to)` for one-character strings agrees with `MapChar`. */
  lemma {:induction false} ReplaceChar(s: string, from: char, to: char)
    ensures Replace(s, [from], [to]) == MapChar(s, from, to)
    decreases |s|
  {
    if s != [] {
      ReplaceChar(s[1..], from, to);
      assert s[..1] == [s[0]];
      assert s[1..] == s[|[from]|..];
      assert MapChar(s, from, to) == [MapChar(s, from, to)[0]] + MapChar(s[1..], from, to);
    }
  }

  /** `k` copies of `c`. */
  function Repeat(c: char, k: nat): string
  {
    seq(k, _ => c)
  }

  /** `s` without its leading run of `c`. */
  function DropRun(s: string, c: char): (r: string)
    ensures |r| <= |s| && r == s[|s| - |r|..]
    ensures r == [] || r[0] != c
    ensures s != [] && s[0] == c ==> |r| < |s|
  {
    if s != [] && s[0] == c then DropRun(s[1..], c) else s
  }

  lemma {:induction false} DropRunRepeat(c: char, k: nat, b: string)
    requires b == [] || b[0] != c
    ensures DropRun(Repeat(c, k) + b, c) == b
  {
    if k > 0 {
      assert (Repeat(c, k) + b)[1..] == Repeat(c, k - 1) + b;
      DropRunRepeat(c, k - 1, b);
    } else {
      assert Repeat(c, k) + b == b;
    }
  }

  /** Python's `re.sub(r"\n+", " ", s)`: every maximal run of newlines
      becomes one space. */
  function CollapseNewlines(s: string): (r: string)
    ensures '\n' !in r
    decreases |s|
  {
    if s == [] then []
    else if s[0] == '\n' then " " + CollapseNewlines(DropRun(s, '\n'))
    else [s[0]] + CollapseNewlines(s[1..])
  }

  /** Text without newlines is left as it is. */
  lemma {:induction false} CollapseNewlineFree(s: string)
    requires '\n' !in s
    ensures CollapseNewlines(s) == s
  {
    if s != [] {
      CollapseNewlineFree(s[1..]);
      assert s == [s[0]] + s[1..];
    }
  }

  /** A maximal run of `k > 0` newlines after newline-free text `a` becomes
      exactly one space, and the rest is collapsed on its own. */
  lemma {:induction false} CollapseRun(a: string, k: nat, b: string)
    requires '\n' !in a && k > 0 && (b == [] || b[0] != '\n')
    ensures CollapseNewlines(a + Repeat('\n', k) + b) == a + " " + CollapseNewlines(b)
  {
    var s := a + Repeat('\n', k) + b;
    if a == [] {
      assert s == Repeat('\n', k) + b;
      DropRunRepeat('\n', k, b);
    } else {
      RunShape(a, Repeat('\n', k), b);
      CollapseStep(s);
      CollapseRun(a[1..], k, b);
      ConsAppend(a, " ", CollapseNewlines(b));
    }
  }

  /** The sequence facts `CollapseRun` needs, kept apart from `CollapseNewlines`. */
  lemma RunShape(a: string, run: string, b: string)
    requires a != [] && '\n' !in a
    ensures var s := a + run + b;
      && s != [] && s[0] == a[0] && s[0] != '\n'
      && s[1..] == a[1..] + run + b
      && '\n' !in a[1..]
  {
    var s := a + run + b;
    assert s == [a[0]] + (a[1..] + run + b);
    assert a[0] in a;
  }

  /** A character other than a newline is copied and the scan goes on. */
  lemma CollapseStep(s: string)
    requires s != [] && s[0] != '\n'
    ensures CollapseNewlines(s) == [s[0]] + CollapseNewlines(s[1..])
  {
  }

  /** Collapsing twice is the same as collapsing once. */
  lemma CollapseIdempotent(s: string)
    ensures CollapseNewlines(CollapseNewlines(s)) == CollapseNewlines(s)
  {
    CollapseNewlineFree(CollapseNewlines(s));
  }

  /** The decimal digit for `d`. */
  function DigitChar(d: nat): (c: char)
    requires d < 10
    ensures '0' <= c <= '9'
  {
    ('0' as int + d) as char
  }

  /** The value of a decimal digit character (0 for any other character). */
  function DigitValue(c: char): nat
  {
    if '0' <= c <= '9' then c as int - '0' as int else 0
  }

  /** A non-empty run of ASCII decimal digits. */
  predicate IsDigits(s: string)
  {
    |s| > 0 && forall i :: 0 <= i < |s| ==> '0' <= s[i] <= '9'
  }

  /** Python's `str(n)` for a non-negative integer. */
  function NatToString(n: nat): (r: string)
    ensures IsDigits(r)
    ensures r[0] == '0' ==> n == 0
    decreases n
  {
    if n < 10 then [DigitChar(n)] else NatToString(n / 10) + [DigitChar(n % 10)]
  }

  /** Python's `int(s)` on a string of ASCII decimal digits. */
  function ParseDecimal(s: string): nat
  {
    if s == [] then 0 else 10 * ParseDecimal(s[..|s| - 1]) + DigitValue(s[|s| - 1])
  }

  /** Printing a count and reading it back gives the count. */
  lemma {:induction false} DecimalRoundTrip(n: nat)
    ensures ParseDecimal(NatToString(n)) == n
    decreases n
  {
    var s := NatToString(n);
    if n >= 10 {
      DecimalRoundTrip(n / 10);
      assert s[..|s| - 1] == NatToString(n / 10);
    }
  }

  predicate IsLower(c: char) { 'a' <= c <= 'z' }
  predicate IsUpper(c: char) { 'A' <= c <= 'Z' }

  function ToUpper(c: char): (u: char)
    ensures !IsLower(u) && ToLower(u) == ToLower(c)
    ensures !IsLower(c) ==> u == c
  {
    if IsLower(c) then (c as int - 32) as char else c
  }

  function ToLower(c: char): (l: char)
    ensures !IsUpper(l)
    ensures !IsUpper(c) ==> l == c
  {
    if IsUpper(c) then (c as int + 32) as char else c
  }

  /** Character `i` of the capitalised text. */
  function CapitalizedAt(s: string, i: nat): (c: char)
    requires i < |s|
    ensures ToLower(c) == ToLower(s[i])
    ensures !IsLower(s[i]) && !IsUpper(s[i]) ==> c == s[i]
    ensures i == 0 ==> !IsLower(c)
    ensures i > 0 ==> !IsUpper(c)
  {
    if i == 0 then ToUpper(s[0])
    else
      assert ToLower(ToLower(s[i])) == ToLower(s[i]);
      ToLower(s[i])
  }

  /** ASCII model of Python's `str.capitalize`: the first character in upper
      case and the rest in lower case. */
  function Capitalize(s: string): (r: string)
    ensures |r| == |s|
    ensures forall i :: 0 <= i < |s| ==> ToLower(r[i]) == ToLower(s[i])
    ensures forall i :: 0 <= i < |s| && !IsLower(s[i]) && !IsUpper(s[i]) ==> r[i] == s[i]
    ensures |s| > 0 ==> !IsLower(r[0])
    ensures forall i :: 0 < i < |s| ==> !IsUpper(r[i])
  {
    seq(|s|, i requires 0 <= i < |s| => CapitalizedAt(s, i))
  }

  /** Python's `f"{s:<w}"`: `s` left-aligned, padded with spaces to at least
      `w` characters. */
  function PadRight(s: string, w: nat): (r: string)
    ensures |r| == if |s| < w then w else |s|
    ensures r[..|s|] == s
    ensures forall i :: |s| <= i < |r| ==> r[i] == ' '
  {
    if |s| < w then s + Repeat(' ', w - |s|) else s
  }

  /** Python's `sep.join(parts)`. */
  function JoinWith(parts: seq<string>, sep: string): string
  {
    if parts == [] then []
    else if |parts| == 1 then parts[0]
    else parts[0] + sep + JoinWith(parts[1..], sep)
  }

  /** Joining with the empty separator is `Concat`: `"".join` is the one
      join, written twice only for the two ways the script calls it. */
  lemma {:induction false} JoinWithEmpty(parts: seq<string>)
    ensures JoinWith(parts, "") == Concat(parts)
  {
    if |parts| == 1 {
      assert Concat(parts[1..]) == [];
    } else if |parts| > 1 {
      JoinWithEmpty(parts[1..]);
    }
  }

  /** Joining one more part appends the separator and that part. */
  lemma {:induction false} JoinWithSnoc(parts: seq<string>, x: string, sep: string)
    ensures JoinWith(parts + [x], sep) == if parts == [] then x else JoinWith(parts, sep) + sep + x
  {
    if |parts| == 1 {
      assert (parts + [x])[1..] == [x];
    } else if |parts| > 1 {
      assert (parts + [x])[1..] == parts[1..] + [x];
      JoinWithSnoc(parts[1..], x, sep);
    }
  }
}
