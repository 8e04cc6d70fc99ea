/** The two halves of URL query handling the link format relies on:
    `urllib.parse.urlencode` (with its default `quote_plus`) on the serialising side,
    and `urllib.parse.parse_qs` with default options on the parsing side. */
module UrlCodec {
  import opened Wrappers
  import opened Text

  type Pair = (string, string)

  // ---------------------------------------------------------------------------
  // Percent-encoding

  /** The characters `quote` never escapes: ASCII letters, digits and `_.-~`. */
  predicate AlwaysSafe(ch: char)
  {
    'A' <= ch <= 'Z' || 'a' <= ch <= 'z' || '0' <= ch <= '9' || ch == '_' || ch == '.' || ch == '-' || ch == '~'
  }

  /** Upper-case hexadecimal digit, as in `%{:02X}`. */
  function HexDigit(d: nat): (ch: char)
    requires d < 16
    ensures IsHex(ch) && HexValue(ch) == d
  {
    if d < 10 then ('0' as int + d) as char else ('A' as int + d - 10) as char
  }

  predicate IsHex(ch: char)
  {
    '0' <= ch <= '9' || 'a' <= ch <= 'f' || 'A' <= ch <= 'F'
  }

  function HexValue(ch: char): (d: nat)
    requires IsHex(ch)
    ensures d < 16
  {
    if '0' <= ch <= '9' then ch as int - '0' as int
    else if 'a' <= ch <= 'f' then ch as int - 'a' as int + 10
    else ch as int - 'A' as int + 10
  }

  predicate IsByte(b: int)
  {
    0 <= b < 256
  }

  /** The UTF-8 encoding of one character, which `quote` escapes byte by byte. */
  function Utf8(ch: char): (bs: seq<int>)
    ensures 1 <= |bs| <= 4
    ensures forall i :: 0 <= i < |bs| ==> IsByte(bs[i])
    ensures ch < '\U{80}' ==> bs == [ch as int]
  {
    var cp := ch as int;
    if cp < 0x80 then [cp]
    else if cp < 0x800 then [0xC0 + cp / 64, 0x80 + cp % 64]
    else if cp < 0x10000 then [0xE0 + cp / 4096, 0x80 + (cp / 64) % 64, 0x80 + cp % 64]
    else [0xF0 + cp / 262144, 0x80 + (cp / 4096) % 64, 0x80 + (cp / 64) % 64, 0x80 + cp % 64]
  }

  function PercentByte(b: int): string
    requires IsByte(b)
  {
    ['%', HexDigit(b / 16), HexDigit(b % 16)]
  }

  function PercentBytes(bs: seq<int>): string
    requires forall i :: 0 <= i < |bs| ==> IsByte(bs[i])
  {
    if |bs| == 0 then "" else PercentByte(bs[0]) + PercentBytes(bs[1..])
  }

  /** Characters that can appear in the output of `quote_plus`. */
  predicate EncodedChar(ch: char)
  {
    AlwaysSafe(ch) || ch == '+' || ch == '%'
  }

  predicate Encoded(s: string)
  {
    forall i :: 0 <= i < |s| ==> EncodedChar(s[i])
  }

  lemma {:induction false} PercentBytesEncoded(bs: seq<int>)
    requires forall i :: 0 <= i < |bs| ==> IsByte(bs[i])
    ensures Encoded(PercentBytes(bs))
  {
    if |bs| > 0 {
      PercentBytesEncoded(bs[1..]);
    }
  }

  /** `quote_plus` of one character. */
  function QuoteChar(ch: char): (r: string)
    ensures |r| > 0 && Encoded(r)
  {
    if AlwaysSafe(ch) then [ch]
    else if ch == ' ' then "+"
    else
      PercentBytesEncoded(Utf8(ch));
      PercentBytes(Utf8(ch))
  }

  /** `quote_plus(s)` with `safe=''`, as `urlencode` calls it. */
  function QuotePlus(s: string): (r: string)
    ensures Encoded(r)
    ensures |r| == 0 <==> |s| == 0
  {
    if |s| == 0 then "" else QuoteChar(s[0]) + QuotePlus(s[1..])
  }

  /** `unquote_plus(s)`: `+` is a space and `%XX` an escaped byte. Only escapes of ASCII
      bytes are decoded; any other `%` is kept as it stands. */
  function UnquotePlus(s: string): string
  {
    if |s| == 0 then ""
    else if s[0] == '+' then " " + UnquotePlus(s[1..])
    else if s[0] == '%' && |s| >= 3 && IsHex(s[1]) && IsHex(s[2]) && HexValue(s[1]) * 16 + HexValue(s[2]) < 0x80 then
      [(HexValue(s[1]) * 16 + HexValue(s[2])) as char] + UnquotePlus(s[3..])
    else [s[0]] + UnquotePlus(s[1..])
  }

  lemma UnquoteQuoteChar(ch: char, rest: string)
    requires ch < '\U{80}'
    ensures UnquotePlus(QuoteChar(ch) + rest) == [ch] + UnquotePlus(rest)
  {
    var s := QuoteChar(ch) + rest;
    if AlwaysSafe(ch) {
      assert s[1..] == rest;
    } else if ch == ' ' {
      assert s[1..] == rest;
    } else {
      var cp := ch as int;
      assert Utf8(ch) == [cp];
      assert PercentBytes([cp]) == PercentByte(cp) + PercentBytes([]);
      assert QuoteChar(ch) == PercentByte(cp);
      assert s[1] == HexDigit(cp / 16) && s[2] == HexDigit(cp % 16);
      assert HexValue(s[1]) * 16 + HexValue(s[2]) == cp;
      assert s[3..] == rest;
    }
  }

  /** Decoding undoes `quote_plus` on ASCII text. */
  lemma {:induction false} UnquoteQuotePlus(s: string)
    requires IsAscii(s)
    ensures UnquotePlus(QuotePlus(s)) == s
  {
    if |s| > 0 {
      UnquoteQuoteChar(s[0], QuotePlus(s[1..]));
      UnquoteQuotePlus(s[1..]);
      assert s == [s[0]] + s[1..];
    }
  }

  // ---------------------------------------------------------------------------
  // Query strings

  /** `urlencode(params)`: `k=v` pairs, both sides quoted, joined by `&`. */
  function Urlencode(params: seq<Pair>): string
  {
    Join(Pieces(params), '&')
  }

  function Piece(p: Pair): string
  {
    QuotePlus(p.0) + "=" + QuotePlus(p.1)
  }

  function Pieces(params: seq<Pair>): (ps: seq<string>)
    ensures |ps| == |params|
    ensures forall i :: 0 <= i < |ps| ==> ps[i] == Piece(params[i])
  {
    if |params| == 0 then [] else [Piece(params[0])] + Pieces(params[1..])
  }

  /** `parse_qsl(q)` with default options: pieces split on `&`; a piece without `=`
      or with an empty value is dropped; names and values are decoded. */
  function ParseQsl(q: string): seq<Pair>
  {
    Fields(Split(q, '&'))
  }

  function Fields(pieces: seq<string>): seq<Pair>
  {
    if |pieces| == 0 then [] else Field(pieces[0]) + Fields(pieces[1..])
  }

  function Field(piece: string): seq<Pair>
  {
    if piece == "" then []
    else
      match SplitFirst(piece, '=')
      case None => []
      case Some(nv) => if |nv.1| > 0 then [(UnquotePlus(nv.0), UnquotePlus(nv.1))] else []
  }

  /** No pair of `pairs` is given for `key`. */
  predicate NoKey(pairs: seq<Pair>, key: string)
  {
    forall i :: 0 <= i < |pairs| ==> pairs[i].0 != key
  }

  /** `parse_qs(q).get(key, [default])[0]`: the first value given for `key`. */
  function FirstValue(pairs: seq<Pair>, key: string): (r: Option<string>)
    ensures r.None? <==> NoKey(pairs, key)
    ensures r.Some? ==> exists i :: 0 <= i < |pairs| && pairs[i] == (key, r.value) && NoKey(pairs[..i], key)
  {
    if |pairs| == 0 then None
    else if pairs[0].0 == key then Some(pairs[0].1)
    else
      var r := FirstValue(pairs[1..], key);
      assert forall i :: 1 <= i < |pairs| ==> pairs[i] == pairs[1..][i - 1];
      assert r.Some? ==> exists i :: 0 <= i < |pairs| && pairs[i] == (key, r.value) && NoKey(pairs[..i], key)
      by {
        if r.Some? {
          var i :| 0 <= i < |pairs[1..]| && pairs[1..][i] == (key, r.value) && NoKey(pairs[1..][..i], key);
          assert pairs[i + 1] == (key, r.value);
          assert pairs[..i + 1] == [pairs[0]] + pairs[1..][..i];
        }
      }
      r
  }

  /** The pairs `parse_qs` keeps: those whose value is not blank. */
  function NonBlank(params: seq<Pair>): seq<Pair>
  {
    if |params| == 0 then []
    else if params[0].1 == "" then NonBlank(params[1..])
    else [params[0]] + NonBlank(params[1..])
  }

  predicate AsciiPairs(params: seq<Pair>)
  {
    forall i :: 0 <= i < |params| ==> IsAscii(params[i].0) && IsAscii(params[i].1)
  }

  /** Encoded text never holds a character outside the encoded alphabet. */
  lemma EncodedExcludes(s: string, ch: char)
    requires Encoded(s) && !EncodedChar(ch)
    ensures ch !in s
  {
    forall i | 0 <= i < |s| ensures s[i] != ch {
      assert EncodedChar(s[i]);
    }
  }

  lemma FieldOfPiece(p: Pair)
    requires IsAscii(p.0) && IsAscii(p.1)
    ensures Field(Piece(p)) == if p.1 == "" then [] else [p]
  {
    var k := QuotePlus(p.0);
    EncodedExcludes(k, '=');
    SplitFirstConcat(k, '=', QuotePlus(p.1));
    assert Piece(p) == k + ['='] + QuotePlus(p.1);
    UnquoteQuotePlus(p.0);
    UnquoteQuotePlus(p.1);
  }

  lemma {:induction false} FieldsOfPieces(params: seq<Pair>)
    requires AsciiPairs(params)
    ensures Fields(Pieces(params)) == NonBlank(params)
  {
    if |params| > 0 {
      FieldOfPiece(params[0]);
      FieldsOfPieces(params[1..]);
      assert Pieces(params)[1..] == Pieces(params[1..]);
    }
  }

  /** Parsing an encoded query gives back the pairs with non-blank values, in order. */
  lemma ParseUrlencode(params: seq<Pair>)
    requires AsciiPairs(params)
    ensures ParseQsl(Urlencode(params)) == NonBlank(params)
  {
    var ps := Pieces(params);
    if |ps| == 0 {
      assert Split("", '&') == [""];
    } else {
      forall k | 0 <= k < |ps| ensures '&' !in ps[k] {
        EncodedExcludes(QuotePlus(params[k].0), '&');
        EncodedExcludes(QuotePlus(params[k].1), '&');
      }
      SplitJoin(ps, '&');
    }
    FieldsOfPieces(params);
  }
}
