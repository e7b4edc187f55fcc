/**
 * The few Python `str` operations the relay relies on: truthiness of an
 * optional string, `str.strip()` with no argument, `str.split(sep)` on a
 * single-character separator, and its inverse `sep.join(pieces)`.
 */
module PyStr {
  import opened Wrappers

  /** Python truthiness of a value that is either `None` or a `str`. */
  predicate Truthy(o: Option<string>) {
    o.Some? && o.value != ""
  }

  /** The characters for which `str.isspace()` holds: those `str.strip()` removes. */
  const Whitespace: set<char> := {
    '\t', '\n', '\U{0B}', '\U{0C}', '\r', '\U{1C}', '\U{1D}', '\U{1E}', '\U{1F}', ' ',
    '\U{85}', '\U{A0}', '\U{1680}',
    '\U{2000}', '\U{2001}', '\U{2002}', '\U{2003}', '\U{2004}', '\U{2005}',
    '\U{2006}', '\U{2007}', '\U{2008}', '\U{2009}', '\U{200A}',
    '\U{2028}', '\U{2029}', '\U{202F}', '\U{205F}', '\U{3000}'
  }

  predicate IsSpace(c: char) {
    c in Whitespace
  }

  /** Every character of `s` belongs to `cs`. */
  predicate AllIn(s: string, cs: set<char>) {
    forall i :: 0 <= i < |s| ==> s[i] in cs
  }

  predicate AllSpace(s: string) {
    AllIn(s, Whitespace)
  }

  /** Removes the leading characters that belong to `cs`. */
  function TrimLeft(s: string, cs: set<char>): (r: string)
    ensures |r| <= |s|
  {
    if |s| > 0 && s[0] in cs then TrimLeft(s[1..], cs) else s
  }

  /** Removes the trailing characters that belong to `cs`. */
  function TrimRight(s: string, cs: set<char>): (r: string)
    ensures |r| <= |s|
  {
    if |s| > 0 && s[|s| - 1] in cs then TrimRight(s[..|s| - 1], cs) else s
  }

  /** `s.strip(chars)`, the characters given as a set. */
  function StripChars(s: string, cs: set<char>): string {
    TrimRight(TrimLeft(s, cs), cs)
  }

  /** `s.strip()`: `isspace()` characters are stripped. */
  function Strip(s: string): string {
    StripChars(s, Whitespace)
  }

  /** `TrimLeft` keeps the suffix after the leading run of characters from `cs`. */
  lemma {:induction false} TrimLeftIsSuffix(s: string, cs: set<char>)
    ensures var r := TrimLeft(s, cs);
      && |r| <= |s| && r == s[|s| - |r|..]
      && AllIn(s[..|s| - |r|], cs)
      && (r == [] || r[0] !in cs)
  {
    if |s| > 0 && s[0] in cs {
      TrimLeftIsSuffix(s[1..], cs);
      var r := TrimLeft(s[1..], cs);
      var k := |s| - |r|;
      assert s[..k] == [s[0]] + s[1..][..k - 1];
    }
  }

  /** `TrimRight` keeps the prefix before the trailing run of characters from `cs`. */
  lemma {:induction false} TrimRightIsPrefix(s: string, cs: set<char>)
    ensures var r := TrimRight(s, cs);
      && |r| <= |s| && r == s[..|r|]
      && AllIn(s[|r|..], cs)
      && (r == [] || r[|r| - 1] !in cs)
  {
    if |s| > 0 && s[|s| - 1] in cs {
      var u := s[..|s| - 1];
      TrimRightIsPrefix(u, cs);
      var r := TrimRight(u, cs);
      assert s[|r|..] == u[|r|..] + [s[|s| - 1]];
      assert u[..|r|] == s[..|r|];
    }
  }

  /**
   * `s.strip(chars)` is the middle of `s` left once a run of those characters
   * is cut from each end, and that middle neither starts nor ends with one.
   */
  lemma StripIsCore(s: string, cs: set<char>)
    ensures var r, k := StripChars(s, cs), |s| - |TrimLeft(s, cs)|;
      && k + |r| <= |s|
      && r == s[k..k + |r|]
      && AllIn(s[..k], cs) && AllIn(s[k + |r|..], cs)
      && (r == [] || (r[0] !in cs && r[|r| - 1] !in cs))
  {
    var t := TrimLeft(s, cs);
    var r := TrimRight(t, cs);
    var k := |s| - |t|;
    TrimLeftIsSuffix(s, cs);
    TrimRightIsPrefix(t, cs);
    assert t == s[k..];
    assert r == t[..|r|];
    assert r == s[k..k + |r|];
    assert s[k + |r|..] == t[|r|..];
    assert r == [] || r[0] == t[0];
  }

  /** A string padded on both sides from `cs` strips back to itself, when its own ends are not in `cs`. */
  lemma {:induction false} StripPadded(left: string, t: string, right: string, cs: set<char>)
    requires AllIn(left, cs) && AllIn(right, cs)
    requires t != [] && t[0] !in cs && t[|t| - 1] !in cs
    ensures StripChars(left + t + right, cs) == t
  {
    assert left + t + right == left + (t + right);
    TrimLeftPadded(left, t + right, cs);
    TrimRightPadded(t, right, cs);
  }

  lemma {:induction false} TrimLeftPadded(left: string, u: string, cs: set<char>)
    requires AllIn(left, cs)
    requires u != [] && u[0] !in cs
    ensures TrimLeft(left + u, cs) == u
  {
    if left != [] {
      assert (left + u)[1..] == left[1..] + u;
      TrimLeftPadded(left[1..], u, cs);
    } else {
      assert left + u == u;
    }
  }

  lemma {:induction false} TrimRightPadded(u: string, right: string, cs: set<char>)
    requires AllIn(right, cs)
    requires u != [] && u[|u| - 1] !in cs
    ensures TrimRight(u + right, cs) == u
  {
    if right != [] {
      assert (u + right)[..|u + right| - 1] == u + right[..|right| - 1];
      TrimRightPadded(u, right[..|right| - 1], cs);
    } else {
      assert u + right == u;
    }
  }

  /** `s.strip().strip() == s.strip()`. */
  lemma StripIdempotent(s: string)
    ensures Strip(Strip(s)) == Strip(s)
  {
    var r := Strip(s);
    StripIsCore(s, Whitespace);
    if r != [] {
      StripPadded([], r, [], Whitespace);
      assert [] + r + [] == r;
    }
  }

  /** `sep.join(pieces)`: the pieces with one separator between neighbours. */
  function Join(pieces: seq<string>, sep: char): string {
    if |pieces| == 0 then ""
    else if |pieces| == 1 then pieces[0]
    else pieces[0] + [sep] + Join(pieces[1..], sep)
  }

  /** Number of occurrences of `c` in `s`. */
  function Count(s: string, c: char): nat {
    if s == [] then 0 else (if s[0] == c then 1 else 0) + Count(s[1..], c)
  }

  /**
   * `s.split(sep)`: never empty (`"".split(",") == [""]`), no piece holds the
   * separator, and joining the pieces back with the separator gives `s`.
   */
  function Split(s: string, sep: char): (r: seq<string>)
    ensures |r| >= 1
    ensures forall i :: 0 <= i < |r| ==> sep !in r[i]
    ensures Join(r, sep) == s
  {
    if |s| == 0 then [""]
    else
      var rest := Split(s[1..], sep);
      if s[0] == sep then
        assert [s[0]] + s[1..] == s;
        [""] + rest
      else
        var r := [[s[0]] + rest[0]] + rest[1..];
        assert r[1..] == rest[1..];
        assert s == [s[0]] + s[1..];
        r
  }

  /** `s.split(sep)` has one more piece than `s` has separators. */
  lemma {:induction false} SplitCount(s: string, sep: char)
    ensures |Split(s, sep)| == Count(s, sep) + 1
  {
    if |s| > 0 {
      SplitCount(s[1..], sep);
    }
  }

  /** A piece without the separator splits into itself alone. */
  lemma {:induction false} SplitWithoutSep(p: string, sep: char)
    requires sep !in p
    ensures Split(p, sep) == [p]
  {
    if p != [] {
      SplitWithoutSep(p[1..], sep);
      assert p == [p[0]] + p[1..];
    }
  }

  /** Splitting at the first separator: a separator-free head is the first piece. */
  lemma {:induction false} SplitAtFirstSep(p: string, t: string, sep: char)
    requires sep !in p
    ensures Split(p + [sep] + t, sep) == [p] + Split(t, sep)
  {
    var s := p + [sep] + t;
    if p == [] {
      assert s[1..] == t;
    } else {
      assert s[1..] == p[1..] + [sep] + t;
      SplitAtFirstSep(p[1..], t, sep);
      assert p == [p[0]] + p[1..];
    }
  }

  /** Splitting a join of separator-free pieces gives those pieces back. */
  lemma {:induction false} SplitJoin(ps: seq<string>, sep: char)
    requires |ps| >= 1
    requires forall i :: 0 <= i < |ps| ==> sep !in ps[i]
    ensures Split(Join(ps, sep), sep) == ps
  {
    if |ps| == 1 {
      SplitWithoutSep(ps[0], sep);
    } else {
      SplitJoin(ps[1..], sep);
      SplitAtFirstSep(ps[0], Join(ps[1..], sep), sep);
      assert ps == [ps[0]] + ps[1..];
    }
  }

  /** Joining separator-free pieces loses nothing: two such lists with the same join are equal. */
  lemma JoinInjective(ps: seq<string>, qs: seq<string>, sep: char)
    requires |ps| >= 1 && |qs| >= 1
    requires forall i :: 0 <= i < |ps| ==> sep !in ps[i]
    requires forall i :: 0 <= i < |qs| ==> sep !in qs[i]
    requires Join(ps, sep) == Join(qs, sep)
    ensures ps == qs
  {
    SplitJoin(ps, sep);
    SplitJoin(qs, sep);
  }
}
