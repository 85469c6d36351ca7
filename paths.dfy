/**
 * The few pieces of Python's `str(int)` and `os.path` that the drivers use to name their
 * output directories, each with the inverse or the characterising property that makes the
 * names decodable.
 */
module PathStrings {
  import opened Wrappers

  predicate IsDigit(c: char) {
    '0' <= c <= '9'
  }

  function Digit(d: nat): (c: char)
    requires d < 10
    ensures IsDigit(c)
  {
    ('0' as int + d) as char
  }

  function DigitValue(c: char): (d: nat)
    requires IsDigit(c)
    ensures d < 10
  {
    c as int - '0' as int
  }

  predicate AllDigits(s: string) {
    forall i :: 0 <= i < |s| ==> IsDigit(s[i])
  }

  /** Decimal digits of `n`, most significant first, without leading zeros. */
  function NatToString(n: nat): (s: string)
    ensures |s| > 0 && AllDigits(s)
    decreases n
  {
    if n < 10 then [Digit(n)] else NatToString(n / 10) + [Digit(n % 10)]
  }

  function ParseNat(s: string): nat
    requires AllDigits(s)
    decreases |s|
  {
    if |s| == 0 then 0 else ParseNat(s[..|s| - 1]) * 10 + DigitValue(s[|s| - 1])
  }

  /** Python's `str` on an int: an optional minus sign, then the decimal digits. */
  function IntToString(n: int): (s: string)
    ensures |s| > 0 && IsDigit(s[|s| - 1])
    ensures forall i :: 0 <= i < |s| ==> s[i] != '_' && s[i] != '/'
  {
    if n < 0 then "-" + NatToString(-n) else NatToString(n)
  }

  /** Python's `int` on a decimal string (no sign other than `-`, no spaces). */
  function ParseInt(s: string): Option<int> {
    if |s| == 0 then None
    else if s[0] == '-' then (if |s| > 1 && AllDigits(s[1..]) then Some(-(ParseNat(s[1..]) as int)) else None)
    else if AllDigits(s) then Some(ParseNat(s) as int)
    else None
  }

  lemma {:induction false} NatRoundTrip(n: nat)
    ensures ParseNat(NatToString(n)) == n
    decreases n
  {
    if n >= 10 {
      NatRoundTrip(n / 10);
      var s := NatToString(n);
      assert s[..|s| - 1] == NatToString(n / 10);
    }
  }

  /** `str` is injective on ints: the decimal text parses back to the same number. */
  lemma IntRoundTrip(n: int)
    ensures ParseInt(IntToString(n)) == Some(n)
  {
    if n < 0 {
      NatRoundTrip(-n);
      assert IntToString(n)[1..] == NatToString(-n);
    } else {
      NatRoundTrip(n);
    }
  }

  predicate EndsWith(s: string, suffix: string) {
    |suffix| <= |s| && s[|s| - |suffix|..] == suffix
  }

  predicate IsAbsolute(p: string) {
    |p| > 0 && p[0] == '/'
  }

  /** `os.path.join(a, b)` on POSIX: an absolute `b` replaces `a`; otherwise one separator
      is inserted unless `a` is empty or already ends with one. */
  function Join(a: string, b: string): string {
    if IsAbsolute(b) then b
    else if |a| == 0 || a[|a| - 1] == '/' then a + b
    else a + "/" + b
  }

  /** The path without its trailing separators, keeping a lone leading one: what `normpath`
      does to the end of a path. */
  function StripTrailing(s: string): (r: string)
    ensures |r| <= |s| && r == s[..|r|]
    ensures |r| <= 1 || r[|r| - 1] != '/'
    ensures |s| > 0 ==> |r| > 0
    decreases |s|
  {
    if |s| > 1 && s[|s| - 1] == '/' then StripTrailing(s[..|s| - 1]) else s
  }

  /** What is stripped is separators only. */
  lemma {:induction false} StripTrailingRemovesSeparators(s: string)
    ensures forall i :: |StripTrailing(s)| <= i < |s| ==> s[i] == '/'
    decreases |s|
  {
    if |s| > 1 && s[|s| - 1] == '/' {
      StripTrailingRemovesSeparators(s[..|s| - 1]);
    }
  }

  /** `os.path.abspath(p)` relative to the working directory `cwd`: joined under `cwd` when
      relative, and without trailing separators (the rest of `normpath` is not modelled). */
  function AbsPath(cwd: string, p: string): (r: string)
    requires IsAbsolute(cwd)
    ensures IsAbsolute(r)
    ensures r == "/" || r[|r| - 1] != '/'
    ensures IsAbsolute(p) && (p == "/" || p[|p| - 1] != '/') ==> r == p
  {
    StripTrailing(if IsAbsolute(p) then p else Join(cwd, p))
  }

  /** A trailing separator on the argument changes nothing: `data/piano/` and `data/piano`
      name the same directory. */
  lemma AbsPathIgnoresTrailingSeparator(cwd: string, p: string)
    requires IsAbsolute(cwd) && |p| > 0
    ensures AbsPath(cwd, p + "/") == AbsPath(cwd, p)
  {
    if IsAbsolute(p) {
      assert (p + "/")[..|p|] == p;
    } else {
      assert (p + "/")[0] == p[0];
      var j := Join(cwd, p);
      assert Join(cwd, p + "/") == j + "/";
      assert (j + "/")[..|j|] == j;
    }
  }

  /** `os.path.split(p)[-1]`: everything after the last separator. */
  function Basename(p: string): string
    decreases |p|
  {
    if |p| == 0 || p[|p| - 1] == '/' then "" else Basename(p[..|p| - 1]) + [p[|p| - 1]]
  }

  /** The base name holds no separator and is what the path ends with. */
  lemma {:induction false} BasenameIsLastComponent(p: string)
    ensures '/' !in Basename(p) && EndsWith(p, Basename(p))
    ensures |Basename(p)| < |p| ==> p[|p| - |Basename(p)| - 1] == '/'
    decreases |p|
  {
    if |p| > 0 && p[|p| - 1] != '/' {
      BasenameIsLastComponent(p[..|p| - 1]);
    }
  }

  lemma {:induction false} BasenameAfterSeparator(x: string, b: string)
    requires (|x| == 0 || x[|x| - 1] == '/') && '/' !in b
    ensures Basename(x + b) == b
    decreases |b|
  {
    if |b| == 0 {
      assert x + b == x;
    } else {
      assert b[|b| - 1] in b;
      var n := |b|;
      assert (x + b)[..|x + b| - 1] == x + b[..n - 1];
      BasenameAfterSeparator(x, b[..n - 1]);
      assert b[..n - 1] + [b[n - 1]] == b;
    }
  }

  /** A separator-free name joined under a relative directory stays the base name once the
      path is made absolute. */
  lemma BasenameOfAbsJoin(cwd: string, dir: string, b: string)
    requires IsAbsolute(cwd) && !IsAbsolute(dir) && |b| > 0 && '/' !in b
    ensures Basename(AbsPath(cwd, Join(dir, b))) == b
  {
    var x := if |dir| == 0 || dir[|dir| - 1] == '/' then dir else dir + "/";
    var z := if cwd[|cwd| - 1] == '/' then cwd else cwd + "/";
    AbsJoinRelative(cwd, dir, b, x, z);
    BasenameAfterSeparator(z + x, b);
  }

  /** The absolute form of a name under a relative directory, written out. */
  lemma AbsJoinRelative(cwd: string, dir: string, b: string, x: string, z: string)
    requires IsAbsolute(cwd) && !IsAbsolute(dir) && |b| > 0 && '/' !in b
    requires x == if |dir| == 0 || dir[|dir| - 1] == '/' then dir else dir + "/"
    requires z == if cwd[|cwd| - 1] == '/' then cwd else cwd + "/"
    ensures AbsPath(cwd, Join(dir, b)) == (z + x) + b
  {
    assert b[0] in b;
    assert b[|b| - 1] in b;
    assert Join(dir, b) == x + b;
    assert (x + b)[0] != '/' by {
      if |x| == 0 {
        assert (x + b)[0] == b[0];
      } else {
        assert (x + b)[0] == dir[0];
      }
    }
    assert Join(cwd, x + b) == (z + x) + b;
    StripTrailingKeeps((z + x) + b);
  }

  /** A path that does not end in a separator has nothing to strip. */
  lemma StripTrailingKeeps(s: string)
    requires |s| > 0 && s[|s| - 1] != '/'
    ensures StripTrailing(s) == s
  {
  }

  /** Joining a separator-free name under a directory makes it the base name. */
  lemma BasenameOfJoin(a: string, b: string)
    requires '/' !in b
    ensures Basename(Join(a, b)) == b
  {
    if |b| > 0 {
      assert b[0] in b;
    }
    if |a| == 0 || a[|a| - 1] == '/' {
      BasenameAfterSeparator(a, b);
    } else {
      assert Join(a, b) == (a + "/") + b;
      BasenameAfterSeparator(a + "/", b);
    }
  }

  /** Splits at the last `_`: the part before and the part after it. */
  function SplitLastField(s: string): Option<(string, string)>
    decreases |s|
  {
    if |s| == 0 then None
    else if s[|s| - 1] == '_' then Some((s[..|s| - 1], ""))
    else match SplitLastField(s[..|s| - 1])
      case None => None
      case Some(parts) => Some((parts.0, parts.1 + [s[|s| - 1]]))
  }

  lemma {:induction false} SplitLastFieldOfJoin(h: string, t: string)
    requires '_' !in t
    ensures SplitLastField(h + "_" + t) == Some((h, t))
    decreases |t|
  {
    var s := h + "_" + t;
    if |t| == 0 {
      assert s[..|s| - 1] == h;
    } else {
      var n := |t|;
      assert t[n - 1] in t;
      assert s[..|s| - 1] == h + "_" + t[..n - 1];
      SplitLastFieldOfJoin(h, t[..n - 1]);
      assert t[..n - 1] + [t[n - 1]] == t;
    }
  }

  /** Splits at the first `_`: the part before and the part after it. */
  function SplitFirstField(s: string): Option<(string, string)>
    decreases |s|
  {
    if |s| == 0 then None
    else if s[0] == '_' then Some(("", s[1..]))
    else match SplitFirstField(s[1..])
      case None => None
      case Some(parts) => Some(([s[0]] + parts.0, parts.1))
  }

  /** A word without `_`, joined to anything by `_`, is split off again. */
  lemma {:induction false} SplitFirstFieldOfJoin(h: string, t: string)
    requires '_' !in h
    ensures SplitFirstField(h + "_" + t) == Some((h, t))
    decreases |h|
  {
    var s := h + "_" + t;
    if |h| == 0 {
      assert s[1..] == t;
    } else {
      assert h[0] in h;
      assert s[1..] == h[1..] + "_" + t;
      SplitFirstFieldOfJoin(h[1..], t);
      assert [h[0]] + h[1..] == h;
    }
  }

  /** Conversely, a split puts back the string it came from, and the first part has no `_`. */
  lemma {:induction false} SplitFirstFieldJoins(s: string)
    ensures SplitFirstField(s).Some? ==>
      var (h, t) := SplitFirstField(s).value;
      s == h + "_" + t && '_' !in h
    decreases |s|
  {
    if |s| > 0 && s[0] != '_' {
      SplitFirstFieldJoins(s[1..]);
      if SplitFirstField(s[1..]).Some? {
        var (h, t) := SplitFirstField(s[1..]).value;
        assert s == [s[0]] + s[1..];
        assert [s[0]] + h + "_" + t == [s[0]] + (h + "_" + t);
      }
    } else if |s| > 0 {
      assert s == [s[0]] + s[1..];
    }
  }
}
