/** The Python `str` operations the gateway relies on: `strip`, `startswith`,
    `split` and membership of a character. */
module Text {

  /** Python's `str.isspace`: the characters that `str.strip()` removes. */
  predicate IsSpace(c: char)
  {
    ('\t' <= c <= '\r') || ('\U{1C}' <= c <= ' ')
    || c == '\U{85}' || c == '\U{A0}' || c == '\U{1680}'
    || ('\U{2000}' <= c <= '\U{200A}') || c == '\U{2028}' || c == '\U{2029}'
    || c == '\U{202F}' || c == '\U{205F}' || c == '\U{3000}'
  }

  predicate StartsWith(s: string, prefix: string)
  {
    |prefix| <= |s| && s[..|prefix|] == prefix
  }

  /** `s.lstrip()`. */
  function TrimStart(s: string): string
  {
    if s != [] && IsSpace(s[0]) then TrimStart(s[1..]) else s
  }

  /** `lstrip()` drops the leading whitespace and nothing else. */
  lemma {:induction false} TrimStartSpec(s: string)
    ensures var r := TrimStart(s);
            |r| <= |s| && r == s[|s| - |r|..]
            && (forall i :: 0 <= i < |s| - |r| ==> IsSpace(s[i]))
            && (r == [] || !IsSpace(r[0]))
  {
    if s != [] && IsSpace(s[0]) {
      TrimStartSpec(s[1..]);
      assert forall i :: 1 <= i < |s| ==> s[i] == s[1..][i - 1];
    }
  }

  /** `s.rstrip()`. */
  function TrimEnd(s: string): string
  {
    if s != [] && IsSpace(s[|s| - 1]) then TrimEnd(s[..|s| - 1]) else s
  }

  /** `rstrip()` drops the trailing whitespace and nothing else. */
  lemma {:induction false} TrimEndSpec(s: string)
    ensures var r := TrimEnd(s);
            |r| <= |s| && r == s[..|r|]
            && (forall i :: |r| <= i < |s| ==> IsSpace(s[i]))
            && (r == [] || !IsSpace(r[|r| - 1]))
  {
    if s != [] && IsSpace(s[|s| - 1]) {
      TrimEndSpec(s[..|s| - 1]);
    }
  }

  /** `s.strip()`. */
  function Strip(s: string): string
  {
    TrimEnd(TrimStart(s))
  }

  /** `strip()` keeps a middle slice of `s` and removes only whitespace at
      both ends; the slice neither starts nor ends with whitespace. */
  lemma StripSpec(s: string)
    ensures var r := Strip(s);
            exists lead :: 0 <= lead <= |s| - |r| && r == s[lead..][..|r|]
                           && (forall i :: 0 <= i < lead ==> IsSpace(s[i]))
                           && (forall i :: lead + |r| <= i < |s| ==> IsSpace(s[i]))
    ensures var r := Strip(s);
            r == [] || (!IsSpace(r[0]) && !IsSpace(r[|r| - 1]))
  {
    var t := TrimStart(s);
    var r := TrimEnd(t);
    TrimStartSpec(s);
    TrimEndSpec(t);
    var lead := |s| - |t|;
    forall i | lead + |r| <= i < |s| ensures IsSpace(s[i]) {
      assert s[i] == t[i - lead];
    }
    assert 0 <= lead <= |s| - |r| && r == s[lead..][..|r|];
  }

  /** `strip()` returns the empty string exactly when `s` is all whitespace. */
  lemma StripBlank(s: string)
    ensures Strip(s) == [] <==> forall i :: 0 <= i < |s| ==> IsSpace(s[i])
  {
    var t := TrimStart(s);
    TrimStartSpec(s);
    TrimEndSpec(t);
    if TrimEnd(t) == [] {
      assert t == [];
    }
  }

  /** Number of occurrences of `c` in `s`. */
  function Count(s: string, c: char): nat
  {
    if s == [] then 0 else (if s[0] == c then 1 else 0) + Count(s[1..], c)
  }

  lemma {:induction false} CountConcat(a: string, b: string, c: char)
    ensures Count(a + b, c) == Count(a, c) + Count(b, c)
  {
    if a == [] {
      assert a + b == b;
    } else {
      assert (a + b)[0] == a[0];
      assert (a + b)[1..] == a[1..] + b;
      CountConcat(a[1..], b, c);
    }
  }

  lemma {:induction false} CountZero(s: string, c: char)
    ensures Count(s, c) == 0 <==> c !in s
  {
    if s != [] {
      CountZero(s[1..], c);
      assert s == [s[0]] + s[1..];
    }
  }

  /** `s.find(c)`, with "not found" reported as `|s|`. */
  function IndexOf(s: string, c: char): (i: nat)
    ensures i <= |s|
    ensures i < |s| ==> s[i] == c
    ensures c !in s[..i]
  {
    if s == [] || s[0] == c then 0 else 1 + IndexOf(s[1..], c)
  }

  lemma {:induction false} IndexOfFirst(a: string, c: char, b: string)
    requires c !in a
    ensures IndexOf(a + [c] + b, c) == |a|
  {
    if a != [] {
      assert (a + [c] + b)[1..] == a[1..] + [c] + b;
      IndexOfFirst(a[1..], c, b);
    }
  }

  lemma {:induction false} IndexOfAbsent(s: string, c: char)
    requires c !in s
    ensures IndexOf(s, c) == |s|
  {
    if s != [] {
      IndexOfAbsent(s[1..], c);
    }
  }

  /** `s.split(sep)[0]`: the text of `s` before the first occurrence of `sep`,
      or all of `s` when `sep` does not occur. */
  function Before(s: string, sep: string): string
    requires sep != []
  {
    if s == [] || StartsWith(s, sep) then "" else [s[0]] + Before(s[1..], sep)
  }

  /** The result is a prefix of `s` with no occurrence of `sep` starting
      inside it, followed by `sep` or by the end of `s`. */
  lemma {:induction false} BeforeSpec(s: string, sep: string)
    requires sep != []
    ensures var r := Before(s, sep);
            |r| <= |s| && r == s[..|r|]
            && (|r| == |s| || StartsWith(s[|r|..], sep))
            && forall i :: 0 <= i < |r| ==> !StartsWith(s[i..], sep)
  {
    if s != [] && !StartsWith(s, sep) {
      BeforeSpec(s[1..], sep);
      var r := Before(s, sep);
      assert r == [s[0]] + Before(s[1..], sep);
      assert forall i :: 1 <= i <= |s| ==> s[i..] == s[1..][i - 1..];
    }
  }

  /** `t in s` for strings: `t` occurs somewhere inside `s`. */
  predicate Infix(t: string, s: string)
  {
    exists i :: 0 <= i <= |s| && StartsWith(s[i..], t)
  }

  lemma InfixOf(a: string, t: string, b: string)
    ensures Infix(t, a + t + b)
  {
    assert (a + t + b)[|a|..] == t + b;
    assert StartsWith((a + t + b)[|a|..], t);
  }

  lemma InfixStart(t: string, b: string)
    ensures Infix(t, t + b)
  {
    assert (t + b)[0..] == t + b;
  }

  lemma InfixEnd(a: string, t: string)
    ensures Infix(t, a + t)
  {
    assert (a + t)[|a|..] == t;
  }

  lemma InfixTrans(t: string, u: string, s: string)
    requires Infix(t, u) && Infix(u, s)
    ensures Infix(t, s)
  {
    var i :| 0 <= i <= |u| && StartsWith(u[i..], t);
    var j :| 0 <= j <= |s| && StartsWith(s[j..], u);
    forall k | 0 <= k < |t| ensures s[j + i..][k] == t[k] {
      assert s[j + i..][k] == s[j..][..|u|][i + k];
      assert u[i + k] == u[i..][..|t|][k];
    }
    assert s[j + i..][..|t|] == t;
  }
}
