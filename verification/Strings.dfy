/** The string operations of Go's standard library that the modelled code relies on. */
module Strings {
  import opened Common

  /** unicode.IsSpace. */
  predicate IsSpace(c: char) {
    || ('\t' <= c <= '\r') || c == ' ' || c == '\U{85}' || c == '\U{A0}' || c == '\U{1680}'
    || ('\U{2000}' <= c <= '\U{200a}') || c == '\U{2028}' || c == '\U{2029}' || c == '\U{202f}'
    || c == '\U{205f}' || c == '\U{3000}'
  }

  function TrimLeft(s: string): string {
    if s != "" && IsSpace(s[0]) then TrimLeft(s[1..]) else s
  }

  function TrimRight(s: string): string {
    if s != "" && IsSpace(s[|s| - 1]) then TrimRight(s[..|s| - 1]) else s
  }

  /** strings.TrimSpace. */
  function Trim(s: string): string {
    TrimRight(TrimLeft(s))
  }

  predicate Trimmed(s: string) {
    s == "" || (!IsSpace(s[0]) && !IsSpace(s[|s| - 1]))
  }

  lemma {:induction false} TrimLeftStartsSolid(s: string)
    ensures var t := TrimLeft(s); t == "" || !IsSpace(t[0])
  {
    if s != "" && IsSpace(s[0]) { TrimLeftStartsSolid(s[1..]); }
  }

  lemma {:induction false} TrimRightEndsSolid(s: string)
    ensures var t := TrimRight(s); t <= s && (t == "" || !IsSpace(t[|t| - 1]))
  {
    if s != "" && IsSpace(s[|s| - 1]) { TrimRightEndsSolid(s[..|s| - 1]); }
  }

  lemma TrimTrims(s: string)
    ensures Trimmed(Trim(s))
  {
    TrimLeftStartsSolid(s);
    TrimRightEndsSolid(TrimLeft(s));
  }

  lemma TrimmedIsFixed(s: string)
    requires Trimmed(s)
    ensures Trim(s) == s
  {
  }

  ghost predicate AllSpace(s: string) {
    forall c :: c in s ==> IsSpace(c)
  }

  lemma {:induction false} TrimLeftCuts(s: string)
    ensures exists a :: AllSpace(a) && s == a + TrimLeft(s)
  {
    if s != "" && IsSpace(s[0]) {
      TrimLeftCuts(s[1..]);
      var a :| AllSpace(a) && s[1..] == a + TrimLeft(s[1..]);
      assert AllSpace([s[0]] + a) && s == ([s[0]] + a) + TrimLeft(s);
    } else {
      assert AllSpace("") && s == "" + TrimLeft(s);
    }
  }

  lemma {:induction false} TrimRightCuts(s: string)
    ensures exists b :: AllSpace(b) && s == TrimRight(s) + b
  {
    if s != "" && IsSpace(s[|s| - 1]) {
      var t := s[..|s| - 1];
      TrimRightCuts(t);
      var b :| AllSpace(b) && t == TrimRight(t) + b;
      assert AllSpace(b + [s[|s| - 1]]) && s == TrimRight(s) + (b + [s[|s| - 1]]);
    } else {
      assert AllSpace("") && s == TrimRight(s) + "";
    }
  }

  /** `t` is `s` without the white space around it, and begins and ends with something else. */
  ghost predicate Core(s: string, t: string) {
    Trimmed(t) && exists a, b :: AllSpace(a) && AllSpace(b) && s == a + t + b
  }

  lemma SolidAfter(s: string, blank: string, rest: string, i: nat)
    requires AllSpace(blank) && s == blank + rest && i < |s| && !IsSpace(s[i])
    ensures |blank| <= i
  {
    forall k | 0 <= k < |blank| ensures IsSpace(s[k]) { assert blank[k] in blank; }
  }

  lemma SolidBefore(s: string, rest: string, blank: string, i: nat)
    requires AllSpace(blank) && s == rest + blank && i < |s| && !IsSpace(s[i])
    ensures i < |rest|
  {
    forall k | |rest| <= k < |s| ensures IsSpace(s[k]) { assert blank[k - |rest|] in blank; }
  }

  /** What is left begins no later, and ends no earlier, than any other solid part of the text. */
  lemma CoreCovers(s: string, t: string, a: string, b: string, u: string, c: string, d: string)
    requires AllSpace(a) && AllSpace(b) && s == a + t + b && s == c + u + d && Trimmed(u) && u != ""
    ensures |a| <= |c| && |b| <= |d| && t != ""
  {
    assert s[|c|] == u[0] && s[|c| + |u| - 1] == u[|u| - 1];
    assert s == a + (t + b);
    SolidAfter(s, a, t + b, |c|);
    SolidBefore(s, a + t, b, |c| + |u| - 1);
  }

  lemma CoreUnique(s: string, t: string, u: string)
    requires Core(s, t) && Core(s, u)
    ensures t == u
  {
    var a, b :| AllSpace(a) && AllSpace(b) && s == a + t + b;
    var c, d :| AllSpace(c) && AllSpace(d) && s == c + u + d;
    if u != "" {
      CoreCovers(s, t, a, b, u, c, d);
    }
    if t != "" {
      CoreCovers(s, u, c, d, t, a, b);
      assert t == s[|a|..|s| - |b|] == u;
    }
  }

  /** TrimSpace takes away the white space at both ends, all of it, and nothing else. */
  lemma TrimExactly(s: string, t: string)
    ensures Trim(s) == t <==> Core(s, t)
  {
    TrimTrims(s);
    TrimLeftCuts(s);
    TrimRightCuts(TrimLeft(s));
    var a :| AllSpace(a) && s == a + TrimLeft(s);
    var b :| AllSpace(b) && TrimLeft(s) == Trim(s) + b;
    assert s == a + Trim(s) + b;
    assert Core(s, Trim(s));
    if Core(s, t) { CoreUnique(s, t, Trim(s)); }
  }

  /** strings.Split with a one-character separator. */
  function Split(s: string, sep: char): (fields: seq<string>)
    ensures fields != []
  {
    if s == "" then [""]
    else if s[0] == sep then [""] + Split(s[1..], sep)
    else var rest := Split(s[1..], sep); [[s[0]] + rest[0]] + rest[1..]
  }

  function Join(fields: seq<string>, sep: string): string {
    if fields == [] then "" else if |fields| == 1 then fields[0] else fields[0] + sep + Join(fields[1..], sep)
  }

  lemma JoinPrefixed(prefix: string, fields: seq<string>, sep: string)
    requires fields != []
    ensures Join([prefix + fields[0]] + fields[1..], sep) == prefix + Join(fields, sep)
  {
    var longer := [prefix + fields[0]] + fields[1..];
    assert longer[1..] == fields[1..];
    if |fields| > 1 {
      assert (prefix + fields[0]) + sep + Join(fields[1..], sep) == prefix + (fields[0] + sep + Join(fields[1..], sep));
    }
  }

  /** Split cuts at every separator and nowhere else. */
  lemma {:induction false} SplitCuts(s: string, sep: char)
    ensures Join(Split(s, sep), [sep]) == s
    ensures forall f :: f in Split(s, sep) ==> sep !in f
  {
    if s != "" {
      SplitCuts(s[1..], sep);
      var rest := Split(s[1..], sep);
      if s[0] == sep {
        assert ([""] + rest)[1..] == rest;
        assert s == "" + [sep] + s[1..];
      } else {
        JoinPrefixed([s[0]], rest, [sep]);
        assert s == [s[0]] + s[1..];
      }
    }
  }
}
