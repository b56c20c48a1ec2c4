/** The string handling the user service applies to e-mail addresses, names and
    passwords: Python's `str.strip()`, `str.lower()` and the UTF-8 length of a string. */
module Text {

  /** Python's `str.isspace()` for one character: exactly the characters that
      `str.strip()` with no argument removes from both ends. */
  predicate IsSpace(c: char) {
    var n := c as int;
    (0x09 <= n <= 0x0D) || (0x1C <= n <= 0x20) || n == 0x85 || n == 0xA0 || n == 0x1680
    || (0x2000 <= n <= 0x200A) || n == 0x2028 || n == 0x2029 || n == 0x202F
    || n == 0x205F || n == 0x3000
  }

  predicate AllSpace(s: string) {
    forall i :: 0 <= i < |s| ==> IsSpace(s[i])
  }

  /** Leading whitespace removed. */
  function TrimStart(s: string): (r: string)
    ensures |r| <= |s|
  {
    if s != [] && IsSpace(s[0]) then TrimStart(s[1..]) else s
  }

  /** What remains after `TrimStart` is a suffix of `s`, everything cut off was
      whitespace, and what remains does not start with whitespace. */
  lemma {:induction false} TrimStartSpec(s: string)
    ensures var r := TrimStart(s);
      && r == s[|s| - |r|..]
      && AllSpace(s[..|s| - |r|])
      && (r != [] ==> !IsSpace(r[0]))
  {
    if s != [] && IsSpace(s[0]) {
      TrimStartSpec(s[1..]);
      var r := TrimStart(s);
      var k := |s| - |r|;
      assert s[1..][|s| - 1 - |r|..] == s[k..];
      assert AllSpace(s[..k]) by {
        forall i | 0 <= i < k ensures IsSpace(s[..k][i]) {
          if i > 0 {
            assert s[..k][i] == s[1..][..k - 1][i - 1];
          }
        }
      }
    }
  }

  /** Trailing whitespace removed. */
  function TrimEnd(s: string): (r: string)
    ensures |r| <= |s|
  {
    if s != [] && IsSpace(s[|s| - 1]) then TrimEnd(s[..|s| - 1]) else s
  }

  /** What remains after `TrimEnd` is a prefix of `s`, everything cut off was
      whitespace, and what remains does not end with whitespace. */
  lemma {:induction false} TrimEndSpec(s: string)
    ensures var r := TrimEnd(s);
      && r == s[..|r|]
      && AllSpace(s[|r|..])
      && (r != [] ==> !IsSpace(r[|r| - 1]))
  {
    if s != [] && IsSpace(s[|s| - 1]) {
      var n := |s| - 1;
      TrimEndSpec(s[..n]);
      var r := TrimEnd(s);
      assert s[..n][..|r|] == s[..|r|];
      assert AllSpace(s[|r|..]) by {
        forall i | 0 <= i < |s| - |r| ensures IsSpace(s[|r|..][i]) {
          if |r| + i < n {
            assert s[|r|..][i] == s[..n][|r|..][i];
          }
        }
      }
    }
  }

  /** Python's `str.strip()`. */
  function Strip(s: string): string {
    TrimEnd(TrimStart(s))
  }

  /** `str.lower()` on one character, for the ASCII letters. */
  function LowerChar(c: char): char {
    if 'A' <= c <= 'Z' then (c as int + 32) as char else c
  }

  /** `str.lower()`. */
  function Lower(s: string): (r: string)
    ensures |r| == |s|
  {
    if s == [] then [] else [LowerChar(s[0])] + Lower(s[1..])
  }

  /** `str.lower()` lowers every character and adds or removes nothing. */
  lemma {:induction false} LowerSpec(s: string)
    ensures forall i :: 0 <= i < |s| ==> Lower(s)[i] == LowerChar(s[i])
  {
    if s != [] {
      LowerSpec(s[1..]);
      forall i | 0 < i < |s| ensures Lower(s)[i] == LowerChar(s[i]) {
        assert Lower(s)[i] == Lower(s[1..])[i - 1];
      }
    }
  }

  /** The canonical form the user service stores e-mail addresses in:
      `email.strip().lower()`. */
  function NormalizeEmail(s: string): string {
    Lower(Strip(s))
  }

  /** The number of bytes of `s` once encoded as UTF-8 (`len(s.encode("utf-8"))`). */
  function Utf8Width(c: char): (w: nat)
    ensures 1 <= w <= 4
    ensures w == 1 <==> (c as int) < 0x80
  {
    var n := c as int;
    if n < 0x80 then 1 else if n < 0x800 then 2 else if n < 0x10000 then 3 else 4
  }

  function Utf8Length(s: string): (n: nat)
    ensures |s| <= n <= 4 * |s|
  {
    if s == [] then 0 else Utf8Width(s[0]) + Utf8Length(s[1..])
  }

  predicate IsAscii(s: string) {
    forall i :: 0 <= i < |s| ==> (s[i] as int) < 0x80
  }

  /** An ASCII string takes one byte per character. */
  lemma {:induction false} AsciiUtf8Length(s: string)
    requires IsAscii(s)
    ensures Utf8Length(s) == |s|
  {
    if s != [] {
      assert IsAscii(s[1..]) by {
        forall i | 0 <= i < |s[1..]| ensures (s[1..][i] as int) < 0x80 {
          assert s[1..][i] == s[i + 1];
        }
      }
      AsciiUtf8Length(s[1..]);
    }
  }

  /** The byte count of a concatenation is the sum of the byte counts. */
  lemma {:induction false} Utf8LengthAppend(a: string, b: string)
    ensures Utf8Length(a + b) == Utf8Length(a) + Utf8Length(b)
  {
    if a != [] {
      assert (a + b)[0] == a[0] && (a + b)[1..] == a[1..] + b;
      Utf8LengthAppend(a[1..], b);
    } else {
      assert a + b == b;
    }
  }

  /** Lowering never turns a character into whitespace or whitespace into something else. */
  lemma LowerCharKeepsSpace(c: char)
    ensures IsSpace(LowerChar(c)) == IsSpace(c)
  {
  }

  lemma {:induction false} TrimStartLower(s: string)
    ensures TrimStart(Lower(s)) == Lower(TrimStart(s))
  {
    if s != [] {
      LowerCharKeepsSpace(s[0]);
      assert Lower(s)[1..] == Lower(s[1..]);
      if IsSpace(s[0]) {
        TrimStartLower(s[1..]);
      }
    }
  }

  lemma {:induction false} TrimEndLower(s: string)
    ensures TrimEnd(Lower(s)) == Lower(TrimEnd(s))
  {
    if s != [] {
      var n := |s| - 1;
      LowerCharKeepsSpace(s[n]);
      LowerSpec(s);
      LowerSpec(s[..n]);
      assert Lower(s)[..n] == Lower(s[..n]);
      if IsSpace(s[n]) {
        TrimEndLower(s[..n]);
      }
    }
  }

  /** `s.lower().strip()` and `s.strip().lower()` give the same string, so the
      registration route's duplicate check looks up exactly the form it stores. */
  lemma StripLowerCommute(s: string)
    ensures Strip(Lower(s)) == Lower(Strip(s))
  {
    TrimStartLower(s);
    TrimEndLower(TrimStart(s));
  }

  lemma {:induction false} TrimStartFixed(s: string)
    requires s == [] || !IsSpace(s[0])
    ensures TrimStart(s) == s
  {
  }

  /** Stripping a stripped string changes nothing. */
  lemma StripIdempotent(s: string)
    ensures Strip(Strip(s)) == Strip(s)
  {
    var t := TrimStart(s);
    var u := TrimEnd(t);
    TrimStartSpec(s);
    TrimEndSpec(t);
    if u != [] {
      assert u[0] == t[0];
      TrimStartFixed(u);
    }
    assert TrimStart(u) == u;
    assert TrimEnd(u) == u;
  }

  lemma LowerIdempotent(s: string)
    ensures Lower(Lower(s)) == Lower(s)
  {
  }

  /** A normalised e-mail address is its own normal form: storing the normalised
      address and normalising again before a lookup finds it. */
  lemma NormalizeIdempotent(s: string)
    ensures NormalizeEmail(NormalizeEmail(s)) == NormalizeEmail(s)
  {
    var t := Strip(s);
    StripLowerCommute(t);
    StripIdempotent(s);
    LowerIdempotent(t);
  }

  lemma {:induction false} TrimEndFixed(s: string)
    requires s == [] || !IsSpace(s[|s| - 1])
    ensures TrimEnd(s) == s
  {
  }

  /** The shape of a stored address: no surrounding whitespace and no capital letter. */
  predicate IsNormalEmail(e: string) {
    && (forall i :: 0 <= i < |e| ==> !('A' <= e[i] <= 'Z'))
    && (e != [] ==> !IsSpace(e[0]) && !IsSpace(e[|e| - 1]))
  }

  /** Every normalised address has that shape ... */
  lemma NormalizeShape(s: string)
    ensures IsNormalEmail(NormalizeEmail(s))
  {
    var t := Strip(s);
    StripEnds(s);
    LowerShape(t);
  }

  lemma StripEnds(s: string)
    ensures var t := Strip(s); t != [] ==> !IsSpace(t[0]) && !IsSpace(t[|t| - 1])
  {
    var t := Strip(s);
    TrimStartSpec(s);
    TrimEndSpec(TrimStart(s));
    if t != [] {
      assert t[0] == TrimStart(s)[0];
    }
  }

  lemma LowerShape(t: string)
    requires t != [] ==> !IsSpace(t[0]) && !IsSpace(t[|t| - 1])
    ensures IsNormalEmail(Lower(t))
  {
    var e := Lower(t);
    LowerSpec(t);
    forall i | 0 <= i < |e| ensures !('A' <= e[i] <= 'Z') {
      assert e[i] == LowerChar(t[i]);
    }
    if t != [] {
      LowerCharKeepsSpace(t[0]);
      LowerCharKeepsSpace(t[|t| - 1]);
    }
  }

  /** ... and an address of that shape is its own normal form, so normalising a
      stored address again finds the same row. */
  lemma NormalShapeFixed(e: string)
    requires IsNormalEmail(e)
    ensures NormalizeEmail(e) == e
  {
    TrimStartFixed(e);
    TrimEndFixed(e);
    LowerSpec(e);
    assert Lower(e) == e;
  }

  /** `s.strip()` is empty exactly when `s` is empty or only whitespace. */
  lemma StripEmpty(s: string)
    ensures Strip(s) == [] <==> AllSpace(s)
  {
    var t := TrimStart(s);
    TrimStartSpec(s);
    TrimEndSpec(t);
    if AllSpace(s) {
      if t != [] {
        assert false;
      }
    }
    if Strip(s) == [] {
      if t != [] {
        assert false;
      }
      assert s[..|s|] == s;
    }
  }
}
