/** The JavaScript string operations the handlers use: `trim`, `length`
    (which counts UTF-16 code units) and `replace` with a string pattern
    (which replaces the first occurrence only). */
module JsStrings {
  import opened Seqs

  /** The characters `String.prototype.trim` removes: ECMAScript's WhiteSpace
      (TAB, VT, FF, ZWNBSP and every space separator of category Zs) and
      LineTerminator (LF, CR, LS, PS) code points. */
  predicate IsWhiteSpace(c: char)
  {
    var n := c as int;
    n == 0x09 || n == 0x0B || n == 0x0C || n == 0xFEFF ||
    n == 0x20 || n == 0xA0 || n == 0x1680 || (0x2000 <= n <= 0x200A) ||
    n == 0x202F || n == 0x205F || n == 0x3000 ||
    n == 0x0A || n == 0x0D || n == 0x2028 || n == 0x2029
  }

  predicate AllWhiteSpace(s: string)
  {
    forall k :: 0 <= k < |s| ==> IsWhiteSpace(s[k])
  }

  /** `s` without its leading white space. */
  function TrimStart(s: string): (r: string)
    ensures |r| <= |s| && r == s[|s| - |r|..]
    ensures AllWhiteSpace(s[..|s| - |r|])
    ensures r != [] ==> !IsWhiteSpace(r[0])
  {
    if s != [] && IsWhiteSpace(s[0]) then TrimStart(s[1..]) else s
  }

  /** `s` without its trailing white space. */
  function TrimEnd(s: string): (r: string)
    ensures |r| <= |s| && r == s[..|r|]
    ensures AllWhiteSpace(s[|r|..])
    ensures r != [] ==> !IsWhiteSpace(r[|r| - 1])
  {
    if s != [] && IsWhiteSpace(s[|s| - 1]) then TrimEnd(s[..|s| - 1]) else s
  }

  /** String.prototype.trim: `s` is the result with white space on either
      side, and the result neither starts nor ends with white space. */
  function Trim(s: string): (r: string)
    ensures exists a, b :: s == a + r + b && AllWhiteSpace(a) && AllWhiteSpace(b)
    ensures r == [] || (!IsWhiteSpace(r[0]) && !IsWhiteSpace(r[|r| - 1]))
  {
    var u := TrimStart(s);
    var t := TrimEnd(u);
    TrimCut(s, u, t);
    t
  }

  /** A string cut after its leading white space `u`, then before the
      trailing white space of that, `t`, lies between two runs of white space
      and has none at its ends. */
  lemma TrimCut(s: string, u: string, t: string)
    requires |u| <= |s| && u == s[|s| - |u|..] && AllWhiteSpace(s[..|s| - |u|])
    requires u != [] ==> !IsWhiteSpace(u[0])
    requires |t| <= |u| && t == u[..|t|] && AllWhiteSpace(u[|t|..])
    requires t != [] ==> !IsWhiteSpace(t[|t| - 1])
    ensures exists a, b :: s == a + t + b && AllWhiteSpace(a) && AllWhiteSpace(b)
    ensures t == [] || (!IsWhiteSpace(t[0]) && !IsWhiteSpace(t[|t| - 1]))
  {
    var a, b := s[..|s| - |u|], u[|t|..];
    assert s == a + u;
    assert u == t + b;
    assert s == a + t + b;
    if t != [] {
      assert t[0] == u[0];
    }
  }

  lemma {:induction false} TrimStartSkips(a: string, t: string)
    requires AllWhiteSpace(a)
    requires t == [] || !IsWhiteSpace(t[0])
    ensures TrimStart(a + t) == t
  {
    if a == [] {
      assert a + t == t;
    } else {
      assert (a + t)[0] == a[0];
      assert (a + t)[1..] == a[1..] + t;
      TrimStartSkips(a[1..], t);
    }
  }

  lemma {:induction false} TrimEndSkips(t: string, b: string)
    requires AllWhiteSpace(b)
    requires t == [] || !IsWhiteSpace(t[|t| - 1])
    ensures TrimEnd(t + b) == t
  {
    if b == [] {
      assert t + b == t;
    } else {
      var n := |t + b|;
      assert (t + b)[n - 1] == b[|b| - 1];
      assert (t + b)[..n - 1] == t + b[..|b| - 1];
      TrimEndSkips(t, b[..|b| - 1]);
    }
  }

  /** Trim is determined by its specification: whatever surrounds a core that
      neither starts nor ends with white space, if it is all white space, is
      exactly what trim removes. */
  lemma TrimOf(a: string, m: string, b: string)
    requires AllWhiteSpace(a) && AllWhiteSpace(b)
    requires m == [] || (!IsWhiteSpace(m[0]) && !IsWhiteSpace(m[|m| - 1]))
    ensures Trim(a + m + b) == m
  {
    if m == [] {
      assert a + m + b == (a + b) + [];
      assert AllWhiteSpace(a + b) by {
        forall k | 0 <= k < |a + b| ensures IsWhiteSpace((a + b)[k]) {
          if k < |a| { assert (a + b)[k] == a[k]; } else { assert (a + b)[k] == b[k - |a|]; }
        }
      }
      TrimStartSkips(a + b, []);
      TrimEndSkips([], []);
    } else {
      assert a + m + b == a + (m + b);
      assert (m + b)[0] == m[0];
      TrimStartSkips(a, m + b);
      TrimEndSkips(m, b);
    }
  }

  /** Trimming a trimmed string changes nothing. */
  lemma TrimIdempotent(s: string)
    ensures Trim(Trim(s)) == Trim(s)
  {
    var t := Trim(s);
    assert AllWhiteSpace([]);
    TrimStartSkips([], t);
    assert [] + t == t;
    TrimEndSkips(t, []);
    assert t + [] == t;
  }

  /** A character outside the Basic Multilingual Plane, which UTF-16 writes
      as a surrogate pair. */
  predicate IsAstral(c: char)
  {
    c as int >= 0x10000
  }

  /** String.prototype.length: the number of UTF-16 code units, where a
      character outside the Basic Multilingual Plane takes two. */
  function Utf16Length(s: string): (n: nat)
    ensures n == |s| + Count(s, IsAstral)
    ensures |s| <= n <= 2 * |s|
    ensures n == |s| <==> forall k :: 0 <= k < |s| ==> (s[k] as int) < 0x10000
  {
    if s == [] then 0 else (if (s[0] as int) < 0x10000 then 1 else 2) + Utf16Length(s[1..])
  }

  predicate OccursAt(s: string, pat: string, i: nat)
  {
    i + |pat| <= |s| && s[i..i + |pat|] == pat
  }

  /** String.prototype.indexOf, searching from `from` on. */
  function IndexOfFrom(s: string, pat: string, from: nat): (r: Option<nat>)
    ensures r.Some? ==> from <= r.value && OccursAt(s, pat, r.value)
    ensures r.Some? ==> forall j :: from <= j < r.value ==> !OccursAt(s, pat, j)
    ensures r.None? <==> forall j :: from <= j ==> !OccursAt(s, pat, j)
    decreases |s| - from
  {
    if from + |pat| > |s| then None
    else if s[from..from + |pat|] == pat then assert OccursAt(s, pat, from); Some(from)
    else IndexOfFrom(s, pat, from + 1)
  }

  function IndexOf(s: string, pat: string): Option<nat>
  {
    IndexOfFrom(s, pat, 0)
  }

  /** `s.replace(pat, "")`: the first occurrence of `pat` removed, or `s`
      itself when `pat` does not occur. */
  function RemoveFirst(s: string, pat: string): (r: string)
    ensures IndexOf(s, pat).None? ==> r == s
    ensures IndexOf(s, pat).Some? ==>
      var i := IndexOf(s, pat).value;
      |r| == |s| - |pat| && i <= |r| && s == r[..i] + pat + r[i..]
  {
    match IndexOf(s, pat)
    case None => s
    case Some(i) =>
      var r := s[..i] + s[i + |pat|..];
      assert r[..i] == s[..i] && r[i..] == s[i + |pat|..];
      assert s == s[..i] + s[i..i + |pat|] + s[i + |pat|..];
      r
  }

  /** A string that starts with `pat` loses exactly that prefix. */
  lemma RemoveFirstOfPrefixed(pat: string, t: string)
    ensures RemoveFirst(pat + t, pat) == t
  {
    assert OccursAt(pat + t, pat, 0) by {
      assert (pat + t)[0..|pat|] == pat;
    }
  }
}
