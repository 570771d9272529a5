/** The string operations of the JavaScript runtime that the system relies on:
    white space as `\s` and `String.prototype.trim` see it, the `lowercase`/`trim`
    setters of a Mongoose string path (with lower-casing restricted to ASCII), and `String.prototype.length`, which counts
    UTF-16 code units rather than characters. */
module Text {

  /** White space and line terminators as ECMAScript defines them for `\s` and `trim`. */
  predicate IsSpace(c: char)
  {
    var n := c as int;
    (9 <= n <= 13) || n == 0x20 || n == 0xA0 || n == 0x1680 || (0x2000 <= n <= 0x200A)
    || n == 0x2028 || n == 0x2029 || n == 0x202F || n == 0x205F || n == 0x3000 || n == 0xFEFF
  }

  /** No character of `s[lo..hi]` is white space. */
  predicate NoSpaceIn(s: string, lo: nat, hi: nat)
    requires lo <= hi <= |s|
  {
    forall k :: lo <= k < hi ==> !IsSpace(s[k])
  }

  /** `s` with its leading white space removed. */
  function TrimStart(s: string): (r: string)
    ensures |r| <= |s| && r == s[|s| - |r|..]
    ensures r == [] || !IsSpace(r[0])
    ensures forall k :: 0 <= k < |s| - |r| ==> IsSpace(s[k])
  {
    if |s| > 0 && IsSpace(s[0]) then TrimStart(s[1..]) else s
  }

  /** `s` with its trailing white space removed. */
  function TrimEnd(s: string): (r: string)
    ensures |r| <= |s| && r == s[..|r|]
    ensures r == [] || !IsSpace(r[|r| - 1])
    ensures forall k :: |r| <= k < |s| ==> IsSpace(s[k])
  {
    if |s| > 0 && IsSpace(s[|s| - 1]) then TrimEnd(s[..|s| - 1]) else s
  }

  /** `String.prototype.trim`. */
  function Trim(s: string): string
  {
    TrimEnd(TrimStart(s))
  }

  /** The lower-case form of an ASCII capital; every other character is left as it is.
      `String.prototype.toLowerCase` also lowers the non-ASCII capitals, which this
      model does not. */
  function LowerChar(c: char): char
  {
    if 'A' <= c <= 'Z' then (c as int + 32) as char else c
  }

  function LowerAscii(s: string): (r: string)
    ensures |r| == |s| && forall k :: 0 <= k < |s| ==> r[k] == LowerChar(s[k])
  {
    seq(|s|, k requires 0 <= k < |s| => LowerChar(s[k]))
  }

  /** What a Mongoose string path declared `lowercase: true, trim: true` stores for `s`,
      and what it turns a query value for that path into. */
  function Normalize(s: string): string
  {
    Trim(LowerAscii(s))
  }

  lemma LowerKeepsSpace(c: char)
    ensures IsSpace(LowerChar(c)) <==> IsSpace(c)
  {
  }

  lemma {:induction false} LowerAsciiTrimStart(s: string)
    ensures LowerAscii(TrimStart(s)) == TrimStart(LowerAscii(s))
  {
    if |s| > 0 {
      LowerKeepsSpace(s[0]);
      if IsSpace(s[0]) {
        assert LowerAscii(s)[1..] == LowerAscii(s[1..]);
        LowerAsciiTrimStart(s[1..]);
      }
    }
  }

  lemma {:induction false} LowerAsciiTrimEnd(s: string)
    ensures LowerAscii(TrimEnd(s)) == TrimEnd(LowerAscii(s))
  {
    if |s| > 0 {
      var n := |s| - 1;
      var l := LowerAscii(s);
      LowerKeepsSpace(s[n]);
      if IsSpace(s[n]) {
        assert l[..n] == LowerAscii(s[..n]);
        assert TrimEnd(s) == TrimEnd(s[..n]);
        assert TrimEnd(l) == TrimEnd(l[..n]);
        LowerAsciiTrimEnd(s[..n]);
      } else {
        assert TrimEnd(s) == s;
        assert TrimEnd(l) == l;
      }
    }
  }

  lemma TrimIdempotent(s: string)
    ensures Trim(Trim(s)) == Trim(s)
  {
    var x := TrimStart(s);
    var y := TrimEnd(x);
    assert y != [] ==> y[0] == x[0];
    assert TrimStart(y) == y;
    assert TrimEnd(y) == y;
  }

  /** A stored email is a fixed point of the setters: storing it again, or querying for it,
      changes nothing. */
  lemma NormalizeIdempotent(s: string)
    ensures Normalize(Normalize(s)) == Normalize(s)
  {
    var l := LowerAscii(s);
    assert LowerAscii(l) == l;
    LowerAsciiTrimStart(l);
    LowerAsciiTrimEnd(TrimStart(l));
    TrimIdempotent(l);
  }

  /** `String.prototype.length`: a character outside the Basic Multilingual Plane is a
      surrogate pair and counts twice. */
  function Utf16Length(s: string): (n: nat)
    ensures |s| <= n <= 2 * |s|
  {
    if s == [] then 0 else (if s[0] as int > 0xFFFF then 2 else 1) + Utf16Length(s[1..])
  }
}
