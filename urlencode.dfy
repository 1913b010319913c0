/**
 * Query-string encoding as `urllib.parse.urlencode(req.params)` performs it
 * in `_forward_web` (function/function_app.py, line 193): every key and
 * value goes through `quote_plus` with no extra safe characters, pairs are
 * written `k=v` and joined with `&`.
 *
 * The inverse stated alongside it splits the query on `&`, each field on
 * `=`, and applies `unquote_plus` to both sides, on bytes: what it recovers
 * is exactly the UTF-8 encoding of the original keys and values. Unlike
 * `parse_qsl` with its defaults it keeps pairs with blank values; on encoded
 * text it agrees with `parse_qsl(..., keep_blank_values=True)`.
 */
module UrlEncoding {
  import opened Text

  /** The unreserved characters of section 2.3 of RFC 3986, which `quote` never escapes. */
  predicate IsUnreserved(c: char)
  {
    || 'A' <= c <= 'Z'
    || 'a' <= c <= 'z'
    || '0' <= c <= '9'
    || c == '_' || c == '.' || c == '-' || c == '~'
  }

  /** Upper-case hexadecimal digit for `0 <= d < 16`, as `%XX` escapes are written. */
  function HexDigit(d: int): (c: char)
    requires 0 <= d < 16
    ensures IsHexDigit(c) && HexValue(c) == d
    ensures !('a' <= c <= 'f')
  {
    if d < 10 then ('0' as int + d) as char else ('A' as int + d - 10) as char
  }

  /** The digits `unquote` accepts after a `%`, in either case. */
  predicate IsHexDigit(c: char)
  {
    '0' <= c <= '9' || 'a' <= c <= 'f' || 'A' <= c <= 'F'
  }

  function HexValue(c: char): (d: int)
    requires IsHexDigit(c)
    ensures 0 <= d < 16
  {
    if '0' <= c <= '9' then c as int - '0' as int
    else if 'a' <= c <= 'f' then c as int - 'a' as int + 10
    else c as int - 'A' as int + 10
  }

  predicate IsContinuation(b: byte)
  {
    0x80 <= b < 0xC0
  }

  /**
   * The UTF-8 encoding of one Unicode scalar value (section 3 of RFC 3629):
   * one byte below U+0080, otherwise a lead byte that announces the length
   * followed by continuation bytes carrying six bits each.
   */
  function Utf8(c: char): (bs: Bytes)
    ensures 1 <= |bs| <= 4
    ensures |bs| == 1 <==> c as int < 0x80
    ensures |bs| == 1 ==> bs[0] as int == c as int
    ensures |bs| > 1 ==> 0xC0 <= bs[0] && forall i :: 1 <= i < |bs| ==> IsContinuation(bs[i])
  {
    var n := c as int;
    if n < 0x80 then [n as byte]
    else if n < 0x800 then [(0xC0 + n / 64) as byte, (0x80 + n % 64) as byte]
    else if n < 0x10000 then
      [(0xE0 + n / 4096) as byte, (0x80 + n / 64 % 64) as byte, (0x80 + n % 64) as byte]
    else
      [(0xF0 + n / 262144) as byte, (0x80 + n / 4096 % 64) as byte,
       (0x80 + n / 64 % 64) as byte, (0x80 + n % 64) as byte]
  }

  /** Reads the scalar value back out of the bytes of one encoded character. */
  function CodePoint(bs: Bytes): int
    requires 1 <= |bs| <= 4
  {
    if |bs| == 1 then bs[0] as int
    else if |bs| == 2 then (bs[0] as int - 0xC0) * 64 + (bs[1] as int - 0x80)
    else if |bs| == 3 then
      ((bs[0] as int - 0xE0) * 64 + (bs[1] as int - 0x80)) * 64 + (bs[2] as int - 0x80)
    else
      (((bs[0] as int - 0xF0) * 64 + (bs[1] as int - 0x80)) * 64 + (bs[2] as int - 0x80)) * 64
        + (bs[3] as int - 0x80)
  }

  /** UTF-8 loses nothing: every character is read back from its own bytes. */
  lemma Utf8Decodes(c: char)
    ensures CodePoint(Utf8(c)) == c as int
  {
    var n := c as int;
    if n >= 0x800 && n < 0x10000 {
      DivisionDigits(n, 64);
      DivisionDigits(n / 64, 64);
      assert n / 64 / 64 == n / 4096;
    } else if n >= 0x10000 {
      DivisionDigits(n, 64);
      DivisionDigits(n / 64, 64);
      DivisionDigits(n / 4096, 64);
      assert n / 64 / 64 == n / 4096;
      assert n / 4096 / 64 == n / 262144;
    }
  }

  lemma DivisionDigits(n: nat, d: nat)
    requires d > 0
    ensures n == n / d * d + n % d
  {
  }

  /** Two characters with the same UTF-8 bytes are the same character. */
  lemma Utf8Injective(c: char, d: char)
    requires Utf8(c) == Utf8(d)
    ensures c == d
  {
    Utf8Decodes(c);
    Utf8Decodes(d);
  }

  /** `%XX` for one byte. */
  function PercentByte(b: byte): (r: string)
    ensures |r| == 3 && r[0] == '%' && IsHexDigit(r[1]) && IsHexDigit(r[2])
    ensures HexValue(r[1]) * 16 + HexValue(r[2]) == b as int
  {
    ['%', HexDigit(b as int / 16), HexDigit(b as int % 16)]
  }

  function PercentBytes(bs: Bytes): (r: string)
    ensures |r| == 3 * |bs|
  {
    if bs == [] then [] else PercentByte(bs[0]) + PercentBytes(bs[1..])
  }

  /** `quote_plus` applied to one character. */
  function QuoteChar(c: char): (r: string)
    ensures 1 <= |r| <= 12
    ensures r == [c] <==> IsUnreserved(c)
  {
    if IsUnreserved(c) then [c]
    else if c == ' ' then "+"
    else PercentBytes(Utf8(c))
  }

  /**
   * `quote_plus(s, safe='')`: unreserved characters stay, a space becomes
   * `+`, every other character becomes the `%XX` escapes of its UTF-8 bytes.
   */
  function QuotePlus(s: string): (r: string)
    ensures |s| <= |r| <= 12 * |s|
  {
    if s == [] then [] else QuoteChar(s[0]) + QuotePlus(s[1..])
  }

  /** The characters an encoded key or value can hold. */
  predicate IsQuotedChar(c: char)
  {
    IsUnreserved(c) || c == '+' || c == '%'
  }

  lemma PercentBytesAlphabet(bs: Bytes)
    ensures forall i :: 0 <= i < |PercentBytes(bs)| ==> IsQuotedChar(PercentBytes(bs)[i])
  {
    if bs != [] {
      PercentBytesAlphabet(bs[1..]);
      var r := PercentBytes(bs);
      assert r == PercentByte(bs[0]) + PercentBytes(bs[1..]);
      forall i | 0 <= i < |r| ensures IsQuotedChar(r[i]) {
        if i >= 3 {
          assert r[i] == PercentBytes(bs[1..])[i - 3];
        }
      }
    }
  }

  /**
   * Encoded text holds only unreserved characters, `+` and `%`: in
   * particular no `&` and no `=`, so the pairs of a query can be told apart.
   */
  lemma {:induction false} QuotePlusAlphabet(s: string)
    ensures forall i :: 0 <= i < |QuotePlus(s)| ==> IsQuotedChar(QuotePlus(s)[i])
  {
    if s != [] {
      QuotePlusAlphabet(s[1..]);
      QuoteCharAlphabet(s[0]);
      QuotedConcat(QuoteChar(s[0]), QuotePlus(s[1..]));
    }
  }

  lemma QuotedConcat(a: string, b: string)
    requires forall i :: 0 <= i < |a| ==> IsQuotedChar(a[i])
    requires forall i :: 0 <= i < |b| ==> IsQuotedChar(b[i])
    ensures forall i :: 0 <= i < |a + b| ==> IsQuotedChar((a + b)[i])
  {
    forall i | 0 <= i < |a + b| ensures IsQuotedChar((a + b)[i]) {
      if i >= |a| {
        assert (a + b)[i] == b[i - |a|];
      }
    }
  }

  lemma QuoteCharAlphabet(c: char)
    ensures forall i :: 0 <= i < |QuoteChar(c)| ==> IsQuotedChar(QuoteChar(c)[i])
  {
    if !IsUnreserved(c) && c != ' ' {
      PercentBytesAlphabet(Utf8(c));
    }
  }

  lemma QuotedHasNoSeparators(s: string)
    ensures '&' !in QuotePlus(s) && '=' !in QuotePlus(s)
  {
    QuotePlusAlphabet(s);
  }

  /** Text made of unreserved characters only is left as it is. */
  lemma {:induction false} QuotePlusUnreserved(s: string)
    requires forall i :: 0 <= i < |s| ==> IsUnreserved(s[i])
    ensures QuotePlus(s) == s
  {
    if s != [] {
      QuotePlusUnreserved(s[1..]);
      assert s == [s[0]] + s[1..];
    }
  }

  /** A space becomes `+`; the separators of a query are escaped. */
  lemma QuoteSpaceAndSeparators()
    ensures QuotePlus(" ") == "+"
    ensures QuotePlus("&") == "%26"
    ensures QuotePlus("=") == "%3D"
  {
    assert QuotePlus(" ") == QuoteChar(' ') + QuotePlus([]);
    assert QuotePlus("&") == QuoteChar('&') + QuotePlus([]);
    assert QuotePlus("=") == QuoteChar('=') + QuotePlus([]);
  }

  /** A character outside ASCII is escaped byte by byte: U+00E9 is `%C3%A9`. */
  lemma QuoteNonAscii()
    ensures QuotePlus("\U{E9}") == "%C3%A9"
  {
    assert Utf8('\U{E9}') == [0xC3, 0xA9];
    assert QuotePlus("\U{E9}") == QuoteChar('\U{E9}') + QuotePlus([]);
  }

  /**
   * `unquote_plus` down to bytes: `+` is a space, `%` with two hexadecimal
   * digits is that byte, and any other character (a `%` not followed by two
   * digits included) stands for its own UTF-8 bytes.
   */
  function UnquotePlus(s: string): Bytes
  {
    if s == [] then []
    else if s[0] == '+' then [0x20] + UnquotePlus(s[1..])
    else if s[0] == '%' && |s| >= 3 && IsHexDigit(s[1]) && IsHexDigit(s[2]) then
      [(HexValue(s[1]) * 16 + HexValue(s[2])) as byte] + UnquotePlus(s[3..])
    else Utf8(s[0]) + UnquotePlus(s[1..])
  }

  /** The UTF-8 bytes of a whole string. */
  function Utf8String(s: string): Bytes
  {
    if s == [] then [] else Utf8(s[0]) + Utf8String(s[1..])
  }

  lemma {:induction false} UnquotePercentBytes(bs: Bytes, rest: string)
    ensures UnquotePlus(PercentBytes(bs) + rest) == bs + UnquotePlus(rest)
  {
    if bs != [] {
      var p := PercentByte(bs[0]);
      var s := PercentBytes(bs) + rest;
      assert s == p + (PercentBytes(bs[1..]) + rest);
      assert s[..3] == p && s[3..] == PercentBytes(bs[1..]) + rest;
      assert s[0] == '%' && s[1] == p[1] && s[2] == p[2];
      assert UnquotePlus(s) == [bs[0]] + UnquotePlus(s[3..]);
      UnquotePercentBytes(bs[1..], rest);
      assert bs == [bs[0]] + bs[1..];
    } else {
      assert PercentBytes(bs) + rest == rest;
    }
  }

  lemma UnquoteQuoteChar(c: char, rest: string)
    ensures UnquotePlus(QuoteChar(c) + rest) == Utf8(c) + UnquotePlus(rest)
  {
    if IsUnreserved(c) {
      assert ([c] + rest)[1..] == rest;
    } else if c == ' ' {
      assert ("+" + rest)[1..] == rest;
    } else {
      UnquotePercentBytes(Utf8(c), rest);
    }
  }

  /** `unquote_plus(quote_plus(s))` gives back the UTF-8 bytes of `s`. */
  lemma {:induction false} UnquoteQuotePlus(s: string)
    ensures UnquotePlus(QuotePlus(s)) == Utf8String(s)
  {
    if s != [] {
      UnquoteQuoteChar(s[0], QuotePlus(s[1..]));
      UnquoteQuotePlus(s[1..]);
    }
  }

  type Param = (string, string)

  /** `quote_plus(k) + '=' + quote_plus(v)` for one parameter. */
  function EncodePair(p: Param): (r: string)
    ensures '=' in r
  {
    QuotePlus(p.0) + ['='] + QuotePlus(p.1)
  }

  function EncodePairs(params: seq<Param>): (r: seq<string>)
    ensures |r| == |params|
    ensures forall i :: 0 <= i < |params| ==> r[i] == EncodePair(params[i])
  {
    if params == [] then [] else [EncodePair(params[0])] + EncodePairs(params[1..])
  }

  /** `urllib.parse.urlencode(params)`, for parameters in iteration order. */
  function UrlEncode(params: seq<Param>): (r: string)
    ensures r == [] <==> params == []
  {
    if params == [] then [] else
      var pairs := EncodePairs(params);
      assert '=' in pairs[0];
      Join(pairs, '&')
  }

  /** Decoding side: split on `&`, split each field on `=`, unquote both sides. */
  function DecodeQuery(q: string): seq<(Bytes, Bytes)>
  {
    if q == [] then [] else DecodeFields(Split(q, '&'))
  }

  function DecodeFields(fields: seq<string>): seq<(Bytes, Bytes)>
  {
    if fields == [] then []
    else
      var kv := Split(fields[0], '=');
      var v := if |kv| >= 2 then kv[1] else [];
      [(UnquotePlus(kv[0]), UnquotePlus(v))] + DecodeFields(fields[1..])
  }

  /** The parameters as the bytes a server sees after decoding. */
  function Utf8Params(params: seq<Param>): seq<(Bytes, Bytes)>
  {
    if params == [] then []
    else [(Utf8String(params[0].0), Utf8String(params[0].1))] + Utf8Params(params[1..])
  }

  lemma DecodePair(p: Param)
    ensures Split(EncodePair(p), '=') == [QuotePlus(p.0), QuotePlus(p.1)]
  {
    QuotedHasNoSeparators(p.0);
    QuotedHasNoSeparators(p.1);
    SplitJoin([QuotePlus(p.0), QuotePlus(p.1)], '=');
  }

  lemma {:induction false} DecodeEncodedPairs(params: seq<Param>)
    ensures DecodeFields(EncodePairs(params)) == Utf8Params(params)
  {
    if params != [] {
      DecodePair(params[0]);
      UnquoteQuotePlus(params[0].0);
      UnquoteQuotePlus(params[0].1);
      DecodeEncodedPairs(params[1..]);
      assert EncodePairs(params)[1..] == EncodePairs(params[1..]);
    }
  }

  /**
   * The query string loses nothing: decoding it gives back every parameter,
   * in order, as the UTF-8 bytes of its key and value.
   */
  lemma UrlEncodeRoundTrip(params: seq<Param>)
    ensures DecodeQuery(UrlEncode(params)) == Utf8Params(params)
  {
    if params != [] {
      var pairs := EncodePairs(params);
      forall i | 0 <= i < |pairs| ensures '&' !in pairs[i] {
        QuotedHasNoSeparators(params[i].0);
        QuotedHasNoSeparators(params[i].1);
      }
      SplitJoin(pairs, '&');
      DecodeEncodedPairs(params);
    }
  }
}
