/**
 * The few Python `str` operations the core relies on, on `seq<char>`:
 * `lower()` (ASCII letters only), `isspace()`, `split()` with no
 * argument, `strip()` with no argument, `sep.join(parts)` and the
 * substring test `needle in hay`.
 */
module Strings {

  /** Python's `str.isspace()` for one character: the characters that
      `split()` and `strip()` without arguments treat as whitespace. */
  predicate IsSpace(c: char)
  {
    || c == ' ' || c == '\t' || c == '\n' || c == '\r'
    || c == '\U{000B}' || c == '\U{000C}'
    || ('\U{001C}' <= c <= '\U{001F}')
    || c == '\U{0085}' || c == '\U{00A0}' || c == '\U{1680}'
    || ('\U{2000}' <= c <= '\U{200A}')
    || c == '\U{2028}' || c == '\U{2029}' || c == '\U{202F}'
    || c == '\U{205F}' || c == '\U{3000}'
  }

  predicate IsUpper(c: char) { 'A' <= c <= 'Z' }

  function LowerChar(c: char): (r: char)
    ensures !IsUpper(r)
    ensures !IsUpper(c) ==> r == c
    ensures IsSpace(r) <==> IsSpace(c)
  {
    if IsUpper(c) then (c as int + 32) as char else c
  }

  /** `s.lower()`, restricted to the ASCII letters. */
  function Lower(s: string): (r: string)
    ensures |r| == |s|
    ensures forall i :: 0 <= i < |s| ==> r[i] == LowerChar(s[i])
  {
    seq(|s|, i requires 0 <= i < |s| => LowerChar(s[i]))
  }

  lemma LowerIdentity(s: string)
    requires forall i :: 0 <= i < |s| ==> !IsUpper(s[i])
    ensures Lower(s) == s
  {
  }

  predicate NoSpace(t: string)
  {
    forall i :: 0 <= i < |t| ==> !IsSpace(t[i])
  }

  /** Length of the run of non-whitespace characters that starts `s`. */
  function TokenLen(s: string): (n: nat)
    ensures n <= |s|
    ensures NoSpace(s[..n])
    ensures n < |s| ==> IsSpace(s[n])
  {
    if |s| == 0 || IsSpace(s[0]) then 0
    else
      var n := 1 + TokenLen(s[1..]);
      assert s[..n] == [s[0]] + s[1..][..n - 1];
      n
  }

  /** `s.split()`: the maximal runs of non-whitespace characters, in order. */
  function Split(s: string): (r: seq<string>)
    decreases |s|
  {
    if |s| == 0 then []
    else if IsSpace(s[0]) then Split(s[1..])
    else
      var n := TokenLen(s);
      [s[..n]] + Split(s[n..])
  }

  /** `sep.join(parts)`. */
  function Join(parts: seq<string>, sep: string): (r: string)
  {
    if |parts| == 0 then ""
    else if |parts| == 1 then parts[0]
    else parts[0] + sep + Join(parts[1..], sep)
  }

  /** Drops the whitespace that starts `s`. */
  function StripLeft(s: string): (r: string)
    ensures |r| <= |s|
    ensures r == s[|s| - |r|..]
    ensures r == [] || !IsSpace(r[0])
  {
    if |s| > 0 && IsSpace(s[0]) then StripLeft(s[1..]) else s
  }

  /** Drops the whitespace that ends `s`. */
  function StripRight(s: string): (r: string)
    ensures |r| <= |s|
    ensures r == s[..|r|]
    ensures r == [] || !IsSpace(r[|r| - 1])
  {
    if |s| > 0 && IsSpace(s[|s| - 1]) then StripRight(s[..|s| - 1]) else s
  }

  /** `s.strip()`. */
  function Strip(s: string): (r: string)
  {
    StripRight(StripLeft(s))
  }

  /** Stripping the empty string leaves it empty. */
  lemma StripEmpty()
    ensures Strip("") == ""
  {
  }

  /** Python's `needle in hay` on two strings. */
  predicate Contains(hay: string, needle: string)
    decreases |hay|
  {
    needle <= hay || (|hay| > 0 && Contains(hay[1..], needle))
  }

  /** A string can only occur inside another if each of its characters does. */
  lemma {:induction false} ContainsChars(hay: string, needle: string)
    requires Contains(hay, needle)
    ensures forall c :: c in needle ==> c in hay
  {
    if needle <= hay {
      forall c | c in needle ensures c in hay {
        var i :| 0 <= i < |needle| && needle[i] == c;
        assert hay[i] == c;
      }
    } else {
      ContainsChars(hay[1..], needle);
      forall c | c in needle ensures c in hay {
        assert c in hay[1..];
      }
    }
  }

  /** `re.sub(r'[^...]', '', s)`: the characters of `s` that `keep`
      accepts, in order. */
  function KeepChars(s: string, keep: char -> bool): (r: string)
    ensures forall c :: c in r ==> c in s && keep(c)
    ensures (forall c :: c in s ==> keep(c)) ==> r == s
  {
    if |s| == 0 then ""
    else
      var rest := KeepChars(s[1..], keep);
      assert forall c :: c in s[1..] ==> c in s;
      if keep(s[0]) then [s[0]] + rest else rest
  }

  lemma LowerAppend(a: string, b: string)
    ensures Lower(a + b) == Lower(a) + Lower(b)
  {
  }

  lemma {:induction false} KeepCharsAppend(a: string, b: string, keep: char -> bool)
    ensures KeepChars(a + b, keep) == KeepChars(a, keep) + KeepChars(b, keep)
    decreases |a|
  {
    if |a| > 0 {
      assert (a + b)[1..] == a[1..] + b;
      KeepCharsAppend(a[1..], b, keep);
    } else {
      assert a + b == b;
    }
  }

  /** A character the filter rejects can be removed before filtering. */
  lemma KeepCharsSkip(x: string, d: char, y: string, keep: char -> bool)
    requires !keep(d)
    ensures KeepChars(x + [d] + y, keep) == KeepChars(x + y, keep)
  {
    assert x + [d] + y == x + ([d] + y);
    KeepCharsAppend(x, [d] + y, keep);
    KeepCharsAppend(x, y, keep);
    assert ([d] + y)[1..] == y;
  }

  /** Lower-casing commutes with inserting a character. */
  lemma LowerInsert(x: string, d: char, y: string)
    ensures Lower(x + [d] + y) == Lower(x) + [LowerChar(d)] + Lower(y)
  {
  }

  // ---------------------------------------------------------------------
  // Split and Join

  /** Every piece `split()` returns is non-empty and holds no whitespace,
      and holds only characters of the input. */
  lemma {:induction false} SplitTokens(s: string)
    ensures forall t :: t in Split(s) ==> t != [] && NoSpace(t)
    ensures forall t, c :: t in Split(s) && c in t ==> c in s
    decreases |s|
  {
    if |s| == 0 {
    } else if IsSpace(s[0]) {
      SplitTokens(s[1..]);
      assert forall c :: c in s[1..] ==> c in s;
    } else {
      var n := TokenLen(s);
      SplitTokens(s[n..]);
      assert forall c :: c in s[n..] ==> c in s;
      assert forall c :: c in s[..n] ==> c in s;
    }
  }

  /** Splitting a string that starts with a token followed by whitespace or
      the end. */
  lemma {:induction false} SplitAfterToken(t: string, rest: string)
    requires t != [] && NoSpace(t)
    requires rest == [] || IsSpace(rest[0])
    ensures Split(t + rest) == [t] + Split(rest)
  {
    var s := t + rest;
    TokenLenOf(t, rest);
    assert s[..|t|] == t;
    assert s[|t|..] == rest;
  }

  lemma {:induction false} TokenLenOf(t: string, rest: string)
    requires NoSpace(t)
    requires rest == [] || IsSpace(rest[0])
    ensures TokenLen(t + rest) == |t|
    decreases |t|
  {
    if |t| == 0 {
    } else {
      assert (t + rest)[1..] == t[1..] + rest;
      TokenLenOf(t[1..], rest);
    }
  }

  /** Joining whitespace-free, non-empty tokens with one blank and then
      splitting gives the tokens back. */
  lemma {:induction false} SplitJoin(ts: seq<string>)
    requires forall t :: t in ts ==> t != [] && NoSpace(t)
    ensures Split(Join(ts, " ")) == ts
    decreases |ts|
  {
    if |ts| == 0 {
    } else if |ts| == 1 {
      assert ts[0] in ts;
      SplitAfterToken(ts[0], "");
      assert ts[0] + "" == ts[0];
    } else {
      var rest := Join(ts[1..], " ");
      assert ts[0] in ts;
      assert forall t :: t in ts[1..] ==> t in ts;
      SplitJoin(ts[1..]);
      assert ts[0] + " " + rest == ts[0] + (" " + rest);
      SplitAfterToken(ts[0], " " + rest);
      assert (" " + rest)[1..] == rest;
    }
  }

  /** The characters of a join are those of the parts and of the separator. */
  lemma {:induction false} JoinChars(ts: seq<string>, sep: string, c: char)
    requires c in Join(ts, sep)
    ensures c in sep || exists t :: t in ts && c in t
    decreases |ts|
  {
    if |ts| <= 1 {
    } else {
      var rest := Join(ts[1..], sep);
      assert Join(ts, sep) == ts[0] + sep + rest;
      if c in ts[0] {
      } else if c in sep {
      } else {
        assert c in rest;
        JoinChars(ts[1..], sep, c);
        var t :| t in ts[1..] && c in t;
        assert t in ts;
      }
    }
  }
}
