/**
 String helpers with the semantics of the Python built-ins the services use:
 `in`, `startswith`, `split(sep)`, `sep.join`, `rstrip(c)`, `strip()`, slicing,
 `lower()` and `os.getenv`.
 */
module Strings {

  /** `s.startswith(prefix)`. */
  predicate StartsWith(s: string, prefix: string) {
    |prefix| <= |s| && s[..|prefix|] == prefix
  }

  /** `s.endswith(suffix)`. */
  predicate EndsWith(s: string, suffix: string) {
    |suffix| <= |s| && s[|s| - |suffix|..] == suffix
  }

  /** `sub` occurs in `s` starting at index `i`. */
  predicate OccursAt(s: string, sub: string, i: int) {
    0 <= i && i + |sub| <= |s| && s[i..i + |sub|] == sub
  }

  /** Python's `sub in s`: true iff `sub` occurs somewhere in `s`. */
  function Contains(s: string, sub: string): (r: bool)
    ensures r <==> exists i :: OccursAt(s, sub, i)
    decreases |s|
  {
    if |sub| > |s| then false
    else if s[..|sub|] == sub then (assert OccursAt(s, sub, 0); true)
    else
      var r := Contains(s[1..], sub);
      ShiftOccurrence(s, sub);
      r
  }

  lemma ShiftOccurrence(s: string, sub: string)
    requires |s| > 0
    requires !OccursAt(s, sub, 0)
    ensures (exists i :: OccursAt(s[1..], sub, i)) <==> (exists i :: OccursAt(s, sub, i))
  {
    if i :| OccursAt(s[1..], sub, i) {
      assert s[i + 1..i + 1 + |sub|] == s[1..][i..i + |sub|];
      assert OccursAt(s, sub, i + 1);
    }
    if i :| OccursAt(s, sub, i) {
      assert i >= 1;
      assert s[1..][i - 1..i - 1 + |sub|] == s[i..i + |sub|];
      assert OccursAt(s[1..], sub, i - 1);
    }
  }

  /** Python slicing `s[:n]` for a non-negative `n`. */
  function Take<T>(s: seq<T>, n: nat): (r: seq<T>)
    ensures |r| <= n && |r| <= |s|
    ensures r == s[..|r|]
    ensures |s| <= n ==> r == s
    ensures n <= |s| ==> |r| == n
  {
    if n <= |s| then s[..n] else s
  }

  /** Index of the first occurrence of `c` in `s`, or -1 (Python's `find`). */
  function Find(s: string, c: char): (i: int)
    ensures -1 <= i < |s|
    ensures i >= 0 ==> s[i] == c && c !in s[..i]
    ensures i < 0 <==> c !in s
  {
    if |s| == 0 then -1
    else if s[0] == c then 0
    else
      var r := Find(s[1..], c);
      if r < 0 then -1 else r + 1
  }

  /** `sep.join(parts)`. */
  function Join(parts: seq<string>, sep: char): string
  {
    if |parts| == 0 then ""
    else if |parts| == 1 then parts[0]
    else parts[0] + [sep] + Join(parts[1..], sep)
  }

  /** A join of several pieces is the first piece, the separator, then the join of the rest. */
  lemma JoinHead(parts: seq<string>, sep: char)
    requires |parts| >= 2
    ensures Join(parts, sep) == parts[0] + [sep] + Join(parts[1..], sep)
    ensures StartsWith(Join(parts, sep), parts[0] + [sep])
  {
    var j := Join(parts, sep);
    assert j[..|parts[0]| + 1] == parts[0] + [sep];
  }

  /** A join ends with its last piece. */
  lemma {:induction false} JoinEndsWithLast(parts: seq<string>, sep: char)
    requires |parts| >= 1
    ensures EndsWith(Join(parts, sep), parts[|parts| - 1])
    decreases |parts|
  {
    if |parts| > 1 {
      JoinEndsWithLast(parts[1..], sep);
      var rest := Join(parts[1..], sep);
      var j := Join(parts, sep);
      assert j == parts[0] + [sep] + rest;
      assert j[|j| - |rest|..] == rest;
      EndsWithTransitive(j, rest, parts[|parts| - 1]);
    }
  }

  /** A join of two or more pieces ends with the separator followed by the last piece. */
  lemma {:induction false} JoinEndsWithSepLast(parts: seq<string>, sep: char)
    requires |parts| >= 2
    ensures EndsWith(Join(parts, sep), [sep] + parts[|parts| - 1])
    decreases |parts|
  {
    var j := Join(parts, sep);
    var rest := Join(parts[1..], sep);
    assert j == parts[0] + [sep] + rest;
    if |parts| == 2 {
      assert rest == parts[1];
      assert j[|j| - |parts[1]| - 1..] == [sep] + parts[1];
    } else {
      JoinEndsWithSepLast(parts[1..], sep);
      assert j[|j| - |rest|..] == rest;
      EndsWithTransitive(j, rest, [sep] + parts[|parts| - 1]);
    }
  }

  /** A suffix of a suffix is a suffix. */
  lemma EndsWithTransitive(s: string, t: string, u: string)
    requires EndsWith(s, t) && EndsWith(t, u)
    ensures EndsWith(s, u)
  {
    assert s[|s| - |u|..] == t[|t| - |u|..];
  }

  /** `s.split(sep)` for a one-character separator; never empty. */
  function Split(s: string, sep: char): (parts: seq<string>)
    ensures |parts| >= 1
    decreases |s|
  {
    var i := Find(s, sep);
    if i < 0 then [s]
    else [s[..i]] + Split(s[i + 1..], sep)
  }

  /** Splitting at the first separator: the text before it, then the split of the rest. */
  lemma SplitStep(s: string, sep: char)
    requires Find(s, sep) >= 0
    ensures var i := Find(s, sep);
            && Split(s, sep) == [s[..i]] + Split(s[i + 1..], sep)
            && Split(s, sep)[0] == s[..i] && Split(s, sep)[1..] == Split(s[i + 1..], sep)
            && s == s[..i] + [sep] + s[i + 1..]
  {
    var i := Find(s, sep);
    var rest := Split(s[i + 1..], sep);
    assert Split(s, sep) == [s[..i]] + rest;
    assert ([s[..i]] + rest)[1..] == rest;
    assert s[i] == sep;
    assert s == s[..i] + [sep] + s[i + 1..];
  }

  /** No piece of a split holds the separator. */
  lemma {:induction false} SplitPiecesSeparatorFree(s: string, sep: char)
    ensures forall k :: 0 <= k < |Split(s, sep)| ==> sep !in Split(s, sep)[k]
    decreases |s|
  {
    var i := Find(s, sep);
    if i >= 0 {
      SplitStep(s, sep);
      SplitPiecesSeparatorFree(s[i + 1..], sep);
    }
  }

  /** Joining the pieces of a split restores the text. */
  lemma {:induction false} JoinSplit(s: string, sep: char)
    ensures Join(Split(s, sep), sep) == s
    decreases |s|
  {
    var i := Find(s, sep);
    if i >= 0 {
      SplitStep(s, sep);
      JoinSplit(s[i + 1..], sep);
    }
  }

  /** Splitting a joined sequence of separator-free pieces gives the pieces back. */
  lemma {:induction false} SplitJoin(parts: seq<string>, sep: char)
    requires |parts| >= 1
    requires forall k :: 0 <= k < |parts| ==> sep !in parts[k]
    ensures Split(Join(parts, sep), sep) == parts
    decreases |parts|
  {
    if |parts| > 1 {
      var rest := Join(parts[1..], sep);
      assert Join(parts, sep) == parts[0] + [sep] + rest;
      SplitCons(parts[0], sep, rest);
      SplitJoin(parts[1..], sep);
      assert [parts[0]] + parts[1..] == parts;
    }
  }

  /** Splitting at a first separator peels off the text before it. */
  lemma SplitCons(a: string, sep: char, b: string)
    requires sep !in a
    ensures Split(a + [sep] + b, sep) == [a] + Split(b, sep)
  {
    var s := a + [sep] + b;
    assert s[|a|] == sep;
    var i := Find(s, sep);
    assert forall j :: 0 <= j < |a| ==> s[j] == a[j];
    assert i == |a|;
    assert s[..i] == a;
    assert s[i + 1..] == b;
  }

  /** Splitting text joined at a separator splits each side: `(a + sep + b).split(sep)`. */
  lemma {:induction false} SplitAppend(a: string, sep: char, b: string)
    ensures Split(a + [sep] + b, sep) == Split(a, sep) + Split(b, sep)
    decreases |a|
  {
    var i := Find(a, sep);
    if i < 0 {
      SplitCons(a, sep, b);
    } else {
      SplitAppend(a[i + 1..], sep, b);
      SplitAppendStep(a, sep, b);
    }
  }

  lemma SplitAppendStep(a: string, sep: char, b: string)
    requires Find(a, sep) >= 0
    requires Split(a[Find(a, sep) + 1..] + [sep] + b, sep) == Split(a[Find(a, sep) + 1..], sep) + Split(b, sep)
    ensures Split(a + [sep] + b, sep) == Split(a, sep) + Split(b, sep)
  {
    var i := Find(a, sep);
    var head := a[..i];
    var tail := a[i + 1..];
    SplitStep(a, sep);
    Regroup(a, i, sep, b);
    SplitConsAppend(head, sep, tail + [sep] + b, Split(tail, sep), Split(b, sep));
  }

  lemma Regroup<T>(a: seq<T>, i: nat, x: T, b: seq<T>)
    requires i < |a| && a[i] == x
    ensures a + [x] + b == a[..i] + [x] + (a[i + 1..] + [x] + b)
  {
    assert a == a[..i] + [x] + a[i + 1..];
  }

  lemma SplitConsAppend(head: string, sep: char, rest: string, x: seq<string>, y: seq<string>)
    requires sep !in head
    requires Split(rest, sep) == x + y
    ensures Split(head + [sep] + rest, sep) == ([head] + x) + y
  {
    SplitCons(head, sep, rest);
    assert [head] + (x + y) == ([head] + x) + y;
  }

  /** Index of the last occurrence of `c` in `s`, or -1 (Python's `rfind`). */
  function LastIndexOf(s: string, c: char): (r: int)
    ensures -1 <= r < |s|
    ensures r >= 0 ==> s[r] == c
    ensures forall k :: r < k < |s| ==> s[k] != c
  {
    if |s| == 0 then -1
    else if s[|s| - 1] == c then |s| - 1
    else LastIndexOf(s[..|s| - 1], c)
  }

  /** `s.rstrip(c)`: the longest prefix of `s` that does not end in `c`. */
  function RStrip(s: string, c: char): (r: string)
    ensures StartsWith(s, r)
    ensures |r| == 0 || r[|r| - 1] != c
    ensures forall k :: |r| <= k < |s| ==> s[k] == c
  {
    if |s| == 0 || s[|s| - 1] != c then s
    else RStrip(s[..|s| - 1], c)
  }

  /** Stripping twice strips nothing more. */
  lemma RStripIdempotent(s: string, c: char)
    ensures RStrip(RStrip(s, c), c) == RStrip(s, c)
  {
  }

  /** The characters Python's `str.isspace()` accepts. */
  predicate IsSpace(ch: char) {
    || ch == ' ' || ch == '\t' || ch == '\n' || ch == '\r'
    || ch == '\U{000B}' || ch == '\U{000C}'
    || ('\U{001C}' <= ch <= '\U{001F}')
    || ch == '\U{0085}' || ch == '\U{00A0}' || ch == '\U{1680}'
    || ('\U{2000}' <= ch <= '\U{200A}')
    || ch == '\U{2028}' || ch == '\U{2029}' || ch == '\U{202F}'
    || ch == '\U{205F}' || ch == '\U{3000}'
  }

  /** `s.rstrip()`. */
  function TrimEnd(s: string): (r: string)
    ensures StartsWith(s, r)
    ensures |r| == 0 || !IsSpace(r[|r| - 1])
    ensures forall k :: |r| <= k < |s| ==> IsSpace(s[k])
  {
    if |s| == 0 || !IsSpace(s[|s| - 1]) then s
    else TrimEnd(s[..|s| - 1])
  }

  /** `s.lstrip()`. */
  function TrimStart(s: string): (r: string)
    ensures |r| <= |s| && r == s[|s| - |r|..]
    ensures |r| == 0 || !IsSpace(r[0])
    ensures forall k :: 0 <= k < |s| - |r| ==> IsSpace(s[k])
  {
    if |s| == 0 || !IsSpace(s[0]) then s
    else TrimStart(s[1..])
  }

  /** `s.strip()`: drops leading and trailing whitespace, keeps the middle intact. */
  function Strip(s: string): (r: string)
    ensures |r| <= |s|
  {
    TrimStart(TrimEnd(s))
  }

  /**
   What stripping keeps: a piece of the original with no whitespace at either end, empty
   exactly when the original is all whitespace.
   */
  lemma StripSpec(s: string)
    ensures var r := Strip(s);
            && (|r| == 0 || (!IsSpace(r[0]) && !IsSpace(r[|r| - 1])))
            && (exists a :: OccursAt(s, r, a))
            && ((forall k :: 0 <= k < |s| ==> IsSpace(s[k])) <==> r == "")
  {
    var e := TrimEnd(s);
    var r := TrimStart(e);
    assert OccursAt(s, r, |e| - |r|);
    StripEmptyAllSpace(s);
  }

  /** Only an all-whitespace string strips to nothing. */
  lemma StripEmptyAllSpace(s: string)
    ensures TrimStart(TrimEnd(s)) == "" ==> forall k :: 0 <= k < |s| ==> IsSpace(s[k])
  {
    if TrimStart(TrimEnd(s)) == "" {
      assert TrimEnd(s) == "";
    }
  }

  /** Stripping is idempotent: a stripped string has nothing left to strip. */
  lemma StripIdempotent(s: string)
    ensures Strip(Strip(s)) == Strip(s)
  {
    var r := Strip(s);
    StripSpec(s);
    assert TrimEnd(r) == r;
    assert TrimStart(r) == r;
  }

  /** ASCII upper-case letters. */
  predicate IsUpper(ch: char) {
    'A' <= ch <= 'Z'
  }

  /** `ch.lower()` for ASCII letters. */
  function LowerChar(ch: char): (r: char)
    ensures !IsUpper(r)
    ensures !IsUpper(ch) ==> r == ch
  {
    if IsUpper(ch) then (ch as int + 32) as char else ch
  }

  /** `os.getenv(key, default)`: the default applies only when the variable is unset. */
  function Getenv(env: map<string, string>, key: string, default: string): (r: string)
    ensures key in env ==> r == env[key]
    ensures key !in env ==> r == default
  {
    if key in env then env[key] else default
  }
}
