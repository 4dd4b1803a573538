/** The two Python string operations the bot's handlers rely on: `str.strip()`
    with no argument and `" ".join(words)`. */
module PyText {

  /** Python's `str.isspace` for a single character: exactly the characters
      `str.strip()` removes when called without an argument. */
  predicate IsSpace(c: char) {
    ('\t' <= c <= '\r') || ('\U{1C}' <= c <= '\U{1F}') || c == ' '
    || c == '\U{85}' || c == '\U{A0}' || c == '\U{1680}'
    || ('\U{2000}' <= c <= '\U{200A}') || c == '\U{2028}' || c == '\U{2029}'
    || c == '\U{202F}' || c == '\U{205F}' || c == '\U{3000}'
  }

  predicate AllSpace(s: string) {
    forall i :: 0 <= i < |s| ==> IsSpace(s[i])
  }

  /** Neither starts nor ends with whitespace. */
  predicate IsStripped(s: string) {
    s == [] || (!IsSpace(s[0]) && !IsSpace(s[|s| - 1]))
  }

  /** `s.lstrip()`. */
  function TrimLeft(s: string): string {
    if s != [] && IsSpace(s[0]) then TrimLeft(s[1..]) else s
  }

  /** `s.rstrip()`. */
  function TrimRight(s: string): string {
    if s != [] && IsSpace(s[|s| - 1]) then TrimRight(s[..|s| - 1]) else s
  }

  /** `lstrip` leaves the suffix of `s` that starts at its first non-whitespace character. */
  lemma {:induction false} TrimLeftIsSuffix(s: string)
    ensures var r := TrimLeft(s);
            |r| <= |s| && r == s[|s| - |r|..] && AllSpace(s[..|s| - |r|])
            && (r == [] || !IsSpace(r[0]))
  {
    if s != [] && IsSpace(s[0]) {
      TrimLeftIsSuffix(s[1..]);
      var r := TrimLeft(s[1..]);
      assert s[..|s| - |r|] == [s[0]] + s[1..][..|s| - 1 - |r|];
    }
  }

  /** `rstrip` leaves the prefix of `s` that ends at its last non-whitespace character. */
  lemma {:induction false} TrimRightIsPrefix(s: string)
    ensures var r := TrimRight(s);
            |r| <= |s| && r == s[..|r|] && AllSpace(s[|r|..])
            && (r == [] || !IsSpace(r[|r| - 1]))
  {
    if s != [] && IsSpace(s[|s| - 1]) {
      TrimRightIsPrefix(s[..|s| - 1]);
      var r := TrimRight(s[..|s| - 1]);
      assert s[|r|..] == s[..|s| - 1][|r|..] + [s[|s| - 1]];
    }
  }

  /** `s.strip()`. */
  function Strip(s: string): (r: string)
    ensures IsStripped(r) && |r| <= |s|
  {
    TrimLeftIsSuffix(s);
    TrimRightIsPrefix(TrimLeft(s));
    TrimRight(TrimLeft(s))
  }

  /** What `strip` returns is the middle of its input, with only whitespace around it. */
  lemma StripIsMiddle(s: string)
    ensures exists i :: 0 <= i <= |s| - |Strip(s)| && Strip(s) == s[i..i + |Strip(s)|]
                        && AllSpace(s[..i]) && AllSpace(s[i + |Strip(s)|..])
  {
    var l := TrimLeft(s);
    var r := TrimRight(l);
    TrimLeftIsSuffix(s);
    TrimRightIsPrefix(l);
    var i := |s| - |l|;
    assert r == Strip(s);
    assert r == s[i..i + |r|];
    assert AllSpace(s[..i]);
    assert s[i + |r|..] == l[|r|..];
    assert AllSpace(s[i + |r|..]);
  }

  /** `" ".join(words)`. */
  function Join(words: seq<string>): (r: string)
    ensures r == [] <==> |words| == 0 || (|words| == 1 && words[0] == [])
  {
    if |words| == 0 then []
    else if |words| == 1 then words[0]
    else words[0] + " " + Join(words[1..])
  }

  /** The joined string is all whitespace exactly when every word is. */
  lemma {:induction false} JoinAllSpace(words: seq<string>)
    ensures AllSpace(Join(words)) <==> forall i :: 0 <= i < |words| ==> AllSpace(words[i])
  {
    if |words| > 1 {
      JoinAllSpace(words[1..]);
      AllSpaceConcat(words[0] + " ", Join(words[1..]));
      AllSpaceConcat(words[0], " ");
      assert forall i :: 0 < i < |words| ==> words[i] == words[1..][i - 1];
    }
  }

  /** Joining adds only the separating spaces: any other character of the
      result comes from one of the words. */
  lemma {:induction false} JoinKeeps(words: seq<string>, c: char)
    requires c in Join(words) && c != ' '
    ensures exists i :: 0 <= i < |words| && c in words[i]
  {
    if |words| > 1 {
      if c in words[0] {
      } else {
        assert c in Join(words[1..]);
        JoinKeeps(words[1..], c);
        var i :| 0 <= i < |words[1..]| && c in words[1..][i];
        assert c in words[i + 1];
      }
    }
  }

  lemma AllSpaceConcat(a: string, b: string)
    ensures AllSpace(a + b) <==> AllSpace(a) && AllSpace(b)
  {
    if AllSpace(a) && AllSpace(b) {
      forall i | 0 <= i < |a + b| ensures IsSpace((a + b)[i]) {
        if i >= |a| { assert (a + b)[i] == b[i - |a|]; }
      }
    }
    if AllSpace(a + b) {
      forall i | 0 <= i < |a| ensures IsSpace(a[i]) { assert a[i] == (a + b)[i]; }
      forall i | 0 <= i < |b| ensures IsSpace(b[i]) { assert b[i] == (a + b)[|a| + i]; }
    }
  }

  lemma {:induction false} TrimLeftSpaces(p: string, x: string)
    requires AllSpace(p)
    requires x == [] || !IsSpace(x[0])
    ensures TrimLeft(p + x) == x
    decreases |p|
  {
    if p != [] {
      assert (p + x)[1..] == p[1..] + x;
      TrimLeftSpaces(p[1..], x);
    } else {
      assert p + x == x;
    }
  }

  lemma {:induction false} TrimRightSpaces(x: string, q: string)
    requires AllSpace(q)
    requires x == [] || !IsSpace(x[|x| - 1])
    ensures TrimRight(x + q) == x
    decreases |q|
  {
    if q != [] {
      assert (x + q)[..|x + q| - 1] == x + q[..|q| - 1];
      TrimRightSpaces(x, q[..|q| - 1]);
    } else {
      assert x + q == x;
    }
  }

  /** Whitespace around a stripped string is exactly what `strip` removes. */
  lemma {:induction false} StripUnique(p: string, m: string, q: string)
    requires AllSpace(p) && AllSpace(q) && IsStripped(m)
    ensures Strip(p + m + q) == m
  {
    if m == [] {
      AllSpaceConcat(p, q);
      assert p + m + q == (p + q) + [];
      TrimLeftSpaces(p + q, []);
    } else {
      assert p + m + q == p + (m + q);
      TrimLeftSpaces(p, m + q);
      TrimRightSpaces(m, q);
    }
  }

  lemma StripIdempotent(s: string)
    ensures Strip(Strip(s)) == Strip(s)
  {
    var m := Strip(s);
    assert [] + m + [] == m;
    StripUnique([], m, []);
  }

  /** A stripped token written as a line comes back from `line.strip()` unchanged. */
  lemma StripLine(t: string)
    requires IsStripped(t)
    ensures Strip(t + "\n") == t
  {
    assert AllSpace("\n");
    assert [] + t + "\n" == t + "\n";
    StripUnique([], t, "\n");
  }

  /** `strip` yields the empty string exactly for all-whitespace input. */
  lemma StripEmptyIff(s: string)
    ensures Strip(s) == [] <==> AllSpace(s)
  {
    if Strip(s) == [] {
      StripIsMiddle(s);
      var i :| 0 <= i <= |s| && AllSpace(s[..i]) && AllSpace(s[i..]);
      assert s == s[..i] + s[i..];
      AllSpaceConcat(s[..i], s[i..]);
    }
    if AllSpace(s) {
      assert s + [] + [] == s;
      StripUnique(s, [], []);
    }
  }

  /** `strip` only removes characters: whatever is in the result was in the input. */
  lemma StripKeeps(s: string, c: char)
    requires c in Strip(s)
    ensures c in s
  {
    var l := TrimLeft(s);
    var r := TrimRight(l);
    TrimLeftIsSuffix(s);
    TrimRightIsPrefix(l);
    var k :| 0 <= k < |r| && r[k] == c;
    assert r[k] == l[k] == s[|s| - |l| + k];
  }
}
