/**
 * The `FILTER_SANITIZE_ENCODED` filter a request lookup may apply to each
 * value it returns: every byte other than an ASCII letter, a digit, `-`,
 * `.` or `_` becomes `%` followed by two upper-case hexadecimal digits.
 * Its partner is `rawurldecode`, which turns each `%` and two hexadecimal
 * digits (either case) back into the byte they name.
 *
 * PHP strings are byte strings; here each `char` stands for one byte, so
 * a string whose characters are all below 256 (`IsOctets`) is a PHP string.
 */
module UrlEncoding {


  /** A byte the filter passes through unchanged. */
  predicate IsUnreserved(c: char)
  {
    ('a' <= c <= 'z') || ('A' <= c <= 'Z') || ('0' <= c <= '9') || c == '-' || c == '.' || c == '_'
  }

  /** Every character of `s` passes through unchanged. */
  predicate IsSafe(s: string)
  {
    forall i | 0 <= i < |s| :: IsUnreserved(s[i])
  }

  /** Every character of `s` stands for a byte. */
  predicate IsOctets(s: string)
  {
    forall i | 0 <= i < |s| :: s[i] as int < 256
  }

  /** The characters `rawurldecode` reads as hexadecimal digits. */
  predicate IsHexDigit(c: char)
  {
    ('0' <= c <= '9') || ('A' <= c <= 'F') || ('a' <= c <= 'f')
  }

  /** The upper-case hexadecimal digit for `n`. */
  function HexDigit(n: int): (c: char)
    requires 0 <= n < 16
    ensures IsHexDigit(c)
  {
    if n < 10 then ('0' as int + n) as char else ('A' as int + n - 10) as char
  }

  /** The value of a hexadecimal digit, upper- or lower-case. */
  function HexValue(c: char): (v: int)
    requires IsHexDigit(c)
    ensures 0 <= v < 16
  {
    if '0' <= c <= '9' then c as int - '0' as int
    else if 'A' <= c <= 'F' then c as int - 'A' as int + 10
    else c as int - 'a' as int + 10
  }

  /** Reading back an upper-case digit gives its value. */
  lemma HexRoundTrip(n: int)
    requires 0 <= n < 16
    ensures HexValue(HexDigit(n)) == n
  {
  }

  /** One byte under the filter. */
  function EncodeChar(c: char): (r: string)
    ensures IsUnreserved(c) ==> r == [c]
    ensures !IsUnreserved(c) ==> |r| == 3 && r[0] == '%' && IsHexDigit(r[1]) && IsHexDigit(r[2])
    ensures !IsUnreserved(c) && c as int < 256 ==> 16 * HexValue(r[1]) + HexValue(r[2]) == c as int
  {
    if IsUnreserved(c) then [c]
    else
      var hi, lo := (c as int / 16) % 16, c as int % 16;
      HexRoundTrip(hi);
      HexRoundTrip(lo);
      ['%', HexDigit(hi), HexDigit(lo)]
  }

  /**
   * The filter applied to a whole value: what it writes is made of bytes
   * that pass through unchanged and of `%`, and it never shortens the value.
   */
  function Encode(s: string): (r: string)
    ensures |r| >= |s|
    ensures forall i | 0 <= i < |r| :: IsUnreserved(r[i]) || r[i] == '%'
  {
    if s == [] then []
    else
      var head, tail := EncodeChar(s[0]), Encode(s[1..]);
      assert forall i | 0 <= i < |head| :: IsUnreserved(head[i]) || head[i] == '%';
      head + tail
  }

  /** `rawurldecode`: each `%` with two hexadecimal digits becomes the byte they name. */
  function Decode(s: string): (r: string)
    ensures |r| <= |s|
    ensures (forall i | 0 <= i < |s| :: s[i] != '%') ==> r == s
    decreases |s|
  {
    if s == [] then []
    else if s[0] == '%' && |s| >= 3 && IsHexDigit(s[1]) && IsHexDigit(s[2]) then
      [(16 * HexValue(s[1]) + HexValue(s[2])) as char] + Decode(s[3..])
    else
      [s[0]] + Decode(s[1..])
  }

  /** The filter works byte by byte: it distributes over concatenation. */
  lemma {:induction false} EncodeAppend(a: string, b: string)
    ensures Encode(a + b) == Encode(a) + Encode(b)
    decreases |a|
  {
    if a == [] {
      assert a + b == b;
    } else {
      assert (a + b)[0] == a[0];
      assert (a + b)[1..] == a[1..] + b;
      EncodeAppend(a[1..], b);
    }
  }

  /** Decoding one encoded byte in front of the rest gives that byte in front of the decoded rest. */
  lemma DecodeEncodedHead(c: char, rest: string)
    requires c as int < 256
    ensures Decode(EncodeChar(c) + rest) == [c] + Decode(rest)
  {
    var e := EncodeChar(c) + rest;
    if IsUnreserved(c) {
      assert e[0] == c && e[1..] == rest;
    } else {
      assert e[0] == '%' && e[1] == EncodeChar(c)[1] && e[2] == EncodeChar(c)[2];
      assert e[3..] == rest;
    }
  }

  /** `rawurldecode` undoes the filter on every PHP string. */
  lemma {:induction false} DecodeEncode(s: string)
    requires IsOctets(s)
    ensures Decode(Encode(s)) == s
    decreases |s|
  {
    if s != [] {
      assert IsOctets(s[1..]) by {
        forall i | 0 <= i < |s[1..]| ensures s[1..][i] as int < 256 {
          assert s[1..][i] == s[i + 1];
        }
      }
      DecodeEncode(s[1..]);
      DecodeEncodedHead(s[0], Encode(s[1..]));
      assert s == [s[0]] + s[1..];
    }
  }

  /** The filter leaves a value unchanged exactly when every byte of it passes through. */
  lemma {:induction false} EncodeIdentity(s: string)
    ensures Encode(s) == s <==> IsSafe(s)
    decreases |s|
  {
    if s != [] {
      EncodeIdentity(s[1..]);
      if IsUnreserved(s[0]) {
        assert Encode(s) == [s[0]] + Encode(s[1..]);
        assert s == [s[0]] + s[1..];
        if IsSafe(s[1..]) {
          assert IsSafe(s) by {
            forall i | 0 <= i < |s| ensures IsUnreserved(s[i]) {
              if i > 0 { assert s[i] == s[1..][i - 1]; }
            }
          }
        } else {
          var j :| 0 <= j < |s[1..]| && !IsUnreserved(s[1..][j]);
          assert !IsUnreserved(s[j + 1]);
          assert Encode(s)[1..] == Encode(s[1..]);
        }
      } else {
        assert |Encode(s)| == 3 + |Encode(s[1..])|;
        assert !IsUnreserved(s[0]);
      }
    }
  }

  /** A single byte on its own encodes as `EncodeChar` says. */
  lemma EncodeSingle(c: char)
    ensures Encode([c]) == EncodeChar(c)
  {
    assert [c][1..] == [];
  }

  /** `<` and `>` under the filter. */
  lemma AngleBracketsEncoded()
    ensures EncodeChar('<') == "%3C" && EncodeChar('>') == "%3E"
  {
  }

  /**
   * A tag around text that passes through: only the angle brackets are
   * encoded, `<` as `%3C` and `>` as `%3E`.
   */
  lemma EncodeTagged(w: string, x: string)
    requires IsSafe(w) && IsSafe(x)
    ensures Encode(w + ("<" + (x + ">"))) == w + ("%3C" + (x + "%3E"))
  {
    EncodeIdentity(w);
    EncodeIdentity(x);
    AngleBracketsEncoded();
    EncodeSingle('<');
    EncodeSingle('>');
    EncodeAppend(w, "<" + (x + ">"));
    EncodeAppend("<", x + ">");
    EncodeAppend(x, ">");
  }

  /** `bar<script>` under the filter, as the request tests expect it. */
  lemma BarScriptEncoded()
    ensures Encode("bar<script>") == "bar%3Cscript%3E"
  {
    var w, x := "bar", "script";
    assert w + ("<" + (x + ">")) == "bar<script>";
    assert w + ("%3C" + (x + "%3E")) == "bar%3Cscript%3E";
    assert IsSafe(w) && IsSafe(x);
    EncodeTagged(w, x);
  }
}
