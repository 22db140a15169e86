/**
 * The string operations the services rely on: Java's String.trim(),
 * commons-lang StringUtils.isNotBlank, the "/"-joining reduce used in
 * error messages, and its inverse.
 */
module Text {
  import opened Wrappers

  /** String.trim() removes every character whose code is at most U+0020. */
  predicate IsTrimmable(c: char) {
    c <= ' '
  }

  function TrimStart(s: string): (r: string)
    ensures |r| <= |s| && r == s[|s| - |r|..]
    ensures r == [] || !IsTrimmable(r[0])
    ensures forall i :: 0 <= i < |s| - |r| ==> IsTrimmable(s[i])
  {
    if |s| > 0 && IsTrimmable(s[0]) then TrimStart(s[1..]) else s
  }

  function TrimEnd(s: string): (r: string)
    ensures |r| <= |s| && r == s[..|r|]
    ensures r == [] || !IsTrimmable(r[|r| - 1])
    ensures forall i :: |r| <= i < |s| ==> IsTrimmable(s[i])
  {
    if |s| > 0 && IsTrimmable(s[|s| - 1]) then TrimEnd(s[..|s| - 1]) else s
  }

  /** Java's String.trim(). */
  function Trim(s: string): (r: string)
    ensures |r| <= |s|
    ensures r == [] || (!IsTrimmable(r[0]) && !IsTrimmable(r[|r| - 1]))
  {
    TrimEnd(TrimStart(s))
  }

  /** The number of characters trim() drops from the front. */
  function Lead(s: string): nat
    ensures Lead(s) <= |s|
  {
    |s| - |TrimStart(s)|
  }

  /** trim() keeps the slice of its input that starts after the dropped lead. */
  lemma TrimIsSlice(s: string)
    ensures Lead(s) + |Trim(s)| <= |s|
    ensures Trim(s) == s[Lead(s)..Lead(s) + |Trim(s)|]
  {
    var t, r, lead := TrimStart(s), Trim(s), Lead(s);
    assert t == s[lead..];
    assert r == t[..|r|];
  }

  /** Every character trim() drops after the kept slice is trimmable. */
  lemma TrimDropsTrimmableTail(s: string)
    ensures Lead(s) + |Trim(s)| <= |s|
    ensures forall i :: Lead(s) + |Trim(s)| <= i < |s| ==> IsTrimmable(s[i])
  {
    var t, r, lead := TrimStart(s), Trim(s), Lead(s);
    assert t == s[lead..];
    forall i | lead + |r| <= i < |s|
      ensures IsTrimmable(s[i])
    {
      assert s[i] == t[i - lead];
    }
  }

  /**
   * trim() keeps one contiguous slice of its input and drops only
   * trimmable characters on either side of it.
   */
  lemma TrimKeepsCore(s: string)
    ensures Lead(s) + |Trim(s)| <= |s|
    ensures Trim(s) == s[Lead(s)..Lead(s) + |Trim(s)|]
    ensures forall i :: 0 <= i < Lead(s) ==> IsTrimmable(s[i])
    ensures forall i :: Lead(s) + |Trim(s)| <= i < |s| ==> IsTrimmable(s[i])
  {
    TrimIsSlice(s);
    TrimDropsTrimmableTail(s);
  }

  /** A string with no trimmable character at either end is its own trim. */
  lemma {:induction false} TrimFixesTrimmed(s: string)
    requires s == [] || (!IsTrimmable(s[0]) && !IsTrimmable(s[|s| - 1]))
    ensures Trim(s) == s
  {
  }

  /** trim() is idempotent. */
  lemma TrimIdempotent(s: string)
    ensures Trim(Trim(s)) == Trim(s)
  {
    TrimFixesTrimmed(Trim(s));
  }

  /** trim() gives the empty string exactly when every character is trimmable. */
  lemma TrimEmptyIffAllTrimmable(s: string)
    ensures Trim(s) == [] <==> forall i :: 0 <= i < |s| ==> IsTrimmable(s[i])
  {
    TrimKeepsCore(s);
    assert Trim(s) != [] ==> Trim(s)[0] == s[Lead(s)];
  }

  /** Character.isWhitespace: the ASCII separators and the Unicode space, line and paragraph separators other than the no-break spaces. */
  predicate IsWhitespace(c: char) {
    || c == ' ' || c == '\t' || c == '\n' || c == '\r'
    || c == '\U{000B}' || c == '\U{000C}'
    || ('\U{001C}' <= c <= '\U{001F}')
    || c == '\U{1680}'
    || ('\U{2000}' <= c <= '\U{2006}')
    || ('\U{2008}' <= c <= '\U{200A}')
    || c == '\U{2028}' || c == '\U{2029}' || c == '\U{205F}' || c == '\U{3000}'
  }

  function HasNonWhitespace(s: string): (b: bool)
    ensures b <==> exists i :: 0 <= i < |s| && !IsWhitespace(s[i])
  {
    if s == [] then false
    else if !IsWhitespace(s[0]) then true
    else
      assert forall i :: 1 <= i < |s| ==> s[i] == s[1..][i - 1];
      HasNonWhitespace(s[1..])
  }

  /** StringUtils.isNotBlank: present, and not only whitespace. */
  function IsNotBlank(s: Option<string>): (b: bool)
    ensures b ==> s.Some? && |s.value| > 0
    ensures s.Some? ==> (b <==> exists i :: 0 <= i < |s.value| && !IsWhitespace(s.value[i]))
  {
    s.Some? && HasNonWhitespace(s.value)
  }

  /**
   * xs[0] + sep + xs[1] + ... + sep + xs[|xs| - 1]; string concatenation
   * is associative, so this is the value of Java's stream
   * reduce((a, b) -> a + sep + b) on a non-empty stream.
   */
  function Join(xs: seq<string>, sep: string): string
    requires |xs| > 0
  {
    if |xs| == 1 then xs[0] else xs[0] + sep + Join(xs[1..], sep)
  }

  /** The first position of c in s. */
  function IndexOf(s: string, c: char): (i: nat)
    requires c in s
    ensures i < |s| && s[i] == c && c !in s[..i]
  {
    if s[0] == c then 0
    else
      assert c in s[1..];
      var j := IndexOf(s[1..], c);
      assert s[..j + 1] == [s[0]] + s[1..][..j];
      j + 1
  }

  /** Splits s at every occurrence of c (Java's String.split without regex and without dropping empty pieces). */
  function Split(s: string, c: char): (r: seq<string>)
    ensures |r| > 0
    decreases |s|
  {
    if c in s then
      var i := IndexOf(s, c);
      [s[..i]] + Split(s[i + 1..], c)
    else [s]
  }

  lemma IndexOfAfterPrefix(x: string, c: char, rest: string)
    requires c !in x
    ensures c in x + [c] + rest && IndexOf(x + [c] + rest, c) == |x|
  {
    var s := x + [c] + rest;
    assert s[|x|] == c;
    assert s[..|x|] == x;
    var i := IndexOf(s, c);
    assert i <= |x| ==> s[..|x|][..i] == s[..i];
  }

  /** Splitting at the separator gives back the joined pieces, provided no piece holds the separator. */
  lemma {:induction false} SplitJoin(xs: seq<string>, c: char)
    requires |xs| > 0
    requires forall k :: 0 <= k < |xs| ==> c !in xs[k]
    ensures Split(Join(xs, [c]), c) == xs
  {
    if |xs| == 1 {
    } else {
      var rest := Join(xs[1..], [c]);
      IndexOfAfterPrefix(xs[0], c, rest);
      var s := xs[0] + [c] + rest;
      assert Join(xs, [c]) == s;
      assert s[..|xs[0]|] == xs[0] && s[|xs[0]| + 1..] == rest;
      assert Split(s, c) == [xs[0]] + Split(rest, c);
      assert forall k :: 0 <= k < |xs[1..]| ==> xs[1..][k] == xs[k + 1];
      SplitJoin(xs[1..], c);
      assert xs == [xs[0]] + xs[1..];
    }
  }

  /** Drops one trailing '/' if there is one (String.endsWith("/") then substring). */
  function StripTrailingSlash(s: string): (r: string)
    ensures s == r || s == r + "/"
    ensures |s| > 0 && s[|s| - 1] == '/' ==> |r| == |s| - 1
  {
    if |s| > 0 && s[|s| - 1] == '/' then s[..|s| - 1] else s
  }
}
