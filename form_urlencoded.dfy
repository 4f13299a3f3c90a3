/**
 * `URLSearchParams` as `exerciseApi.getAll` uses it: a list of name/value
 * pairs that `append` extends and `toString` serializes in the
 * application/x-www-form-urlencoded format of the WHATWG URL Standard
 * (UTF-8 bytes; space as `+`; ASCII letters, digits and `*-._` as they are;
 * every other byte as `%` and two upper-case hex digits; `name=value` pairs
 * joined by `&`).  The parser of the same format is the partner the
 * serializer is proved against.
 */
module FormUrlEncoded {
  import opened Wrappers

  type Byte = b: int | 0 <= b < 256

  // ---------------------------------------------------------------- UTF-8

  /** A Unicode scalar value, the range of Dafny's `char`. */
  predicate IsScalar(cp: int) {
    (0 <= cp < 0xD800) || (0xE000 <= cp < 0x11_0000)
  }

  /** A continuation byte `10xxxxxx`. */
  function Cont(x: int): (b: Byte)
    requires 0 <= x < 64
    ensures 0x80 <= b < 0xC0
  {
    0x80 + x
  }

  /** The UTF-8 encoding of one character: one to four bytes, by the size of its code point. */
  function CharBytes(c: char): (bs: seq<Byte>)
    ensures 1 <= |bs| <= 4
    ensures (|bs| == 1) <==> (c as int < 0x80)
  {
    var cp := c as int;
    var q1, r1 := cp / 64, cp % 64;
    var q2, r2 := q1 / 64, q1 % 64;
    var q3, r3 := q2 / 64, q2 % 64;
    if cp < 0x80 then [cp]
    else if cp < 0x800 then [0xC0 + q1, Cont(r1)]
    else if cp < 0x1_0000 then [0xE0 + q2, Cont(r2), Cont(r1)]
    else [0xF0 + q3, Cont(r3), Cont(r2), Cont(r1)]
  }

  /** The UTF-8 encoding of a string. */
  function Utf8(s: string): (bs: seq<Byte>)
    ensures |s| <= |bs| <= 4 * |s|
  {
    if |s| == 0 then [] else CharBytes(s[0]) + Utf8(s[1..])
  }

  predicate IsCont(b: Byte) {
    0x80 <= b < 0xC0
  }

  /** Prepends a decoded character to the decoding of the rest, propagating a failure. */
  function Prepend(c: char, rest: Option<string>): (r: Option<string>) {
    match rest
    case Some(t) => Some([c] + t)
    case None => None
  }

  /** `cp` as a character, when it is a scalar value, in front of `rest`. */
  function PrependCodePoint(cp: int, rest: Option<string>): (r: Option<string>) {
    if IsScalar(cp) then Prepend(cp as char, rest) else None
  }

  /** A UTF-8 decoder: the code point of each lead byte and its continuation bytes; None on a malformed sequence. */
  function Utf8Decode(bs: seq<Byte>): (r: Option<string>)
    decreases |bs|
  {
    if |bs| == 0 then Some([])
    else if bs[0] < 0x80 then PrependCodePoint(bs[0], Utf8Decode(bs[1..]))
    else if 0xC0 <= bs[0] < 0xE0 && |bs| >= 2 && IsCont(bs[1]) then
      PrependCodePoint((bs[0] as int - 0xC0) * 64 + (bs[1] as int - 0x80), Utf8Decode(bs[2..]))
    else if 0xE0 <= bs[0] < 0xF0 && |bs| >= 3 && IsCont(bs[1]) && IsCont(bs[2]) then
      PrependCodePoint(((bs[0] as int - 0xE0) * 64 + (bs[1] as int - 0x80)) * 64 + (bs[2] as int - 0x80), Utf8Decode(bs[3..]))
    else if 0xF0 <= bs[0] < 0xF8 && |bs| >= 4 && IsCont(bs[1]) && IsCont(bs[2]) && IsCont(bs[3]) then
      PrependCodePoint((((bs[0] as int - 0xF0) * 64 + (bs[1] as int - 0x80)) * 64 + (bs[2] as int - 0x80)) * 64 + (bs[3] as int - 0x80),
                       Utf8Decode(bs[4..]))
    else None
  }

  /** Decoding one encoded character in front of any bytes gives that character in front of their decoding. */
  lemma CharBytesDecode(c: char, rest: seq<Byte>)
    ensures Utf8Decode(CharBytes(c) + rest) == Prepend(c, Utf8Decode(rest))
  {
    var cp := c as int;
    var q1, r1 := cp / 64, cp % 64;
    var q2, r2 := q1 / 64, q1 % 64;
    var q3, r3 := q2 / 64, q2 % 64;
    var bs := CharBytes(c) + rest;
    assert cp == q1 * 64 + r1;
    assert q1 == q2 * 64 + r2;
    assert q2 == q3 * 64 + r3;
    if cp < 0x80 {
      assert bs[1..] == rest;
    } else if cp < 0x800 {
      assert bs[2..] == rest;
      assert (bs[0] as int - 0xC0) * 64 + (bs[1] as int - 0x80) == cp;
    } else if cp < 0x1_0000 {
      assert bs[3..] == rest;
      assert ((bs[0] as int - 0xE0) * 64 + (bs[1] as int - 0x80)) * 64 + (bs[2] as int - 0x80) == cp;
    } else {
      assert bs[4..] == rest;
      assert q3 < 0x11;
      assert (((bs[0] as int - 0xF0) * 64 + (bs[1] as int - 0x80)) * 64 + (bs[2] as int - 0x80)) * 64 + (bs[3] as int - 0x80) == cp;
    }
  }

  /** UTF-8 loses nothing: decoding the encoding of a string gives the string back. */
  lemma {:induction false} Utf8RoundTrip(s: string)
    ensures Utf8Decode(Utf8(s)) == Some(s)
  {
    if |s| > 0 {
      CharBytesDecode(s[0], Utf8(s[1..]));
      Utf8RoundTrip(s[1..]);
      assert [s[0]] + s[1..] == s;
    }
  }

  // ---------------------------------------------------------------- bytes as text

  /** Bytes that stand for themselves: ASCII letters, digits and `*`, `-`, `.`, `_`. */
  predicate IsUnreserved(b: Byte) {
    b == 0x2A || b == 0x2D || b == 0x2E || (0x30 <= b <= 0x39) ||
    (0x41 <= b <= 0x5A) || b == 0x5F || (0x61 <= b <= 0x7A)
  }

  /** An upper-case hexadecimal digit. */
  function HexDigit(d: int): (c: char)
    requires 0 <= d < 16
    ensures IsHex(c) && HexValue(c) == d
  {
    if d < 10 then ('0' as int + d) as char else ('A' as int + d - 10) as char
  }

  predicate IsHex(c: char) {
    ('0' <= c <= '9') || ('A' <= c <= 'F') || ('a' <= c <= 'f')
  }

  function HexValue(c: char): (d: int)
    requires IsHex(c)
    ensures 0 <= d < 16
  {
    if '0' <= c <= '9' then c as int - '0' as int
    else if 'A' <= c <= 'F' then c as int - 'A' as int + 10
    else c as int - 'a' as int + 10
  }

  /** The text for one byte: `+` for a space, the byte itself when unreserved, `%XX` otherwise. */
  function ByteText(b: Byte): (t: string)
    ensures |t| == 1 || |t| == 3
    ensures forall i :: 0 <= i < |t| ==> t[i] != '&' && t[i] != '='
  {
    if b == 0x20 then "+"
    else if IsUnreserved(b) then [b as char]
    else ['%', HexDigit(b / 16), HexDigit(b % 16)]
  }

  function BytesText(bs: seq<Byte>): (t: string)
    ensures forall i :: 0 <= i < |t| ==> t[i] != '&' && t[i] != '='
  {
    if |bs| == 0 then [] else ByteText(bs[0]) + BytesText(bs[1..])
  }

  /** The form-urlencoded serialization of one name or value. */
  function Encode(s: string): (t: string)
    ensures forall i :: 0 <= i < |t| ==> t[i] != '&' && t[i] != '='
  {
    BytesText(Utf8(s))
  }

  /**
   * The bytes a form-urlencoded text stands for: `+` is a space, `%` with two
   * hex digits is that byte, a `%` without them stands for itself, and every
   * other character for its own UTF-8 bytes.
   */
  function TextBytes(t: string): (r: seq<Byte>)
    decreases |t|
  {
    if |t| == 0 then []
    else if t[0] == '+' then [0x20] + TextBytes(t[1..])
    else if t[0] == '%' && |t| >= 3 && IsHex(t[1]) && IsHex(t[2]) then
      [HexValue(t[1]) * 16 + HexValue(t[2])] + TextBytes(t[3..])
    else CharBytes(t[0]) + TextBytes(t[1..])
  }

  /** Decodes a form-urlencoded name or value; None when its bytes are not UTF-8. */
  function Decode(t: string): (r: Option<string>) {
    Utf8Decode(TextBytes(t))
  }

  lemma ByteTextBytes(b: Byte, rest: string)
    ensures TextBytes(ByteText(b) + rest) == [b] + TextBytes(rest)
  {
    var t := ByteText(b) + rest;
    if b == 0x20 {
      assert t[1..] == rest;
    } else if IsUnreserved(b) {
      assert t[1..] == rest;
    } else {
      assert t[3..] == rest;
    }
  }

  lemma {:induction false} BytesTextRoundTrip(bs: seq<Byte>)
    ensures TextBytes(BytesText(bs)) == bs
  {
    if |bs| > 0 {
      ByteTextBytes(bs[0], BytesText(bs[1..]));
      BytesTextRoundTrip(bs[1..]);
      assert [bs[0]] + bs[1..] == bs;
    }
  }

  /** Encoding loses nothing: every string decodes back from its encoding. */
  lemma EncodeRoundTrip(s: string)
    ensures Decode(Encode(s)) == Some(s)
  {
    BytesTextRoundTrip(Utf8(s));
    Utf8RoundTrip(s);
  }

  /** Letters, digits and `*-._` are sent as they are. */
  lemma {:induction false} EncodeUnreserved(s: string)
    requires forall i :: 0 <= i < |s| ==> s[i] as int < 0x80 && IsUnreserved(s[i] as int)
    ensures Encode(s) == s
  {
    if |s| > 0 {
      EncodeUnreserved(s[1..]);
      assert Utf8(s) == [s[0] as int] + Utf8(s[1..]);
      assert Encode(s) == [s[0]] + Encode(s[1..]);
      assert [s[0]] + s[1..] == s;
    }
  }

  // ---------------------------------------------------------------- pairs

  /** The index of the first `c` in `s`. */
  function IndexOf(s: string, c: char): (r: Option<nat>)
    ensures r.None? <==> c !in s
    ensures r.Some? ==> r.value < |s| && s[r.value] == c && c !in s[..r.value]
  {
    if |s| == 0 then None
    else if s[0] == c then Some(0)
    else match IndexOf(s[1..], c)
      case None => None
      case Some(i) =>
        assert s[..i + 1] == [s[0]] + s[1..][..i];
        Some(i + 1)
  }

  /** `s` cut at every `sep`. */
  function Split(s: string, sep: char): (parts: seq<string>)
    ensures |parts| >= 1
    decreases |s|
  {
    match IndexOf(s, sep)
    case None => [s]
    case Some(i) => [s[..i]] + Split(s[i + 1..], sep)
  }

  /** `parts` joined by `sep`. */
  function Join(parts: seq<string>, sep: char): (r: string) {
    if |parts| == 0 then ""
    else if |parts| == 1 then parts[0]
    else parts[0] + [sep] + Join(parts[1..], sep)
  }

  /** The first `sep` after a run without one is where that run ends. */
  lemma IndexOfAfterRun(a: string, sep: char, b: string)
    requires sep !in a
    ensures IndexOf(a + [sep] + b, sep) == Some(|a|)
  {
    var s := a + [sep] + b;
    assert s[|a|] == sep;
    assert s[..|a|] == a;
  }

  /** Splitting a run without `sep`, then `sep`, then the rest: the run, then the pieces of the rest. */
  lemma SplitAfterRun(a: string, sep: char, b: string)
    requires sep !in a
    ensures Split(a + [sep] + b, sep) == [a] + Split(b, sep)
  {
    var s := a + [sep] + b;
    IndexOfAfterRun(a, sep, b);
    assert s[..|a|] == a;
    assert s[|a| + 1..] == b;
  }

  lemma {:induction false} SplitJoin(parts: seq<string>, sep: char)
    requires |parts| >= 1
    requires forall i :: 0 <= i < |parts| ==> sep !in parts[i]
    ensures Split(Join(parts, sep), sep) == parts
  {
    if |parts| == 1 {
      assert Join(parts, sep) == parts[0];
    } else {
      var rest := Join(parts[1..], sep);
      assert Join(parts, sep) == parts[0] + [sep] + rest;
      SplitAfterRun(parts[0], sep, rest);
      SplitJoin(parts[1..], sep);
      assert [parts[0]] + parts[1..] == parts;
    }
  }

  /** The text of one pair: `name=value`, both encoded. */
  function PairText(p: (string, string)): (t: string)
    ensures '&' !in t && t != ""
  {
    var t := Encode(p.0) + "=" + Encode(p.1);
    assert t[|Encode(p.0)|] == '=';
    t
  }

  /** `URLSearchParams.prototype.toString`: the pairs' texts joined by `&`, in order. */
  function Serialize(pairs: seq<(string, string)>): (r: string) {
    Join(PairTexts(pairs), '&')
  }

  function PairTexts(pairs: seq<(string, string)>): (ts: seq<string>)
    ensures |ts| == |pairs|
    ensures forall i :: 0 <= i < |pairs| ==> ts[i] == PairText(pairs[i])
  {
    if |pairs| == 0 then [] else [PairText(pairs[0])] + PairTexts(pairs[1..])
  }

  /** One `name=value` segment: cut at its first `=`; a segment without one is a name with an empty value. */
  function ParsePair(seg: string): (r: Option<(string, string)>) {
    match IndexOf(seg, '=')
    case None =>
      (match Decode(seg) case Some(n) => Some((n, "")) case None => None)
    case Some(i) =>
      (match (Decode(seg[..i]), Decode(seg[i + 1..]))
       case (Some(n), Some(v)) => Some((n, v))
       case _ => None)
  }

  /** Parses the segments of a query in order, skipping empty ones. */
  function ParseSegments(segs: seq<string>): (r: Option<seq<(string, string)>>) {
    if |segs| == 0 then Some([])
    else if segs[0] == "" then ParseSegments(segs[1..])
    else match (ParsePair(segs[0]), ParseSegments(segs[1..]))
      case (Some(p), Some(ps)) => Some([p] + ps)
      case _ => None
  }

  /** The form-urlencoded parser: split on `&`, drop empty segments, split each at `=` and decode. */
  function Parse(q: string): (r: Option<seq<(string, string)>>) {
    ParseSegments(Split(q, '&'))
  }

  lemma PairTextParses(p: (string, string))
    ensures ParsePair(PairText(p)) == Some(p)
  {
    var n := Encode(p.0);
    var t := PairText(p);
    assert IndexOf(t, '=') == Some(|n|) by {
      assert t[..|n|] == n;
    }
    assert t[..|n|] == n;
    assert t[|n| + 1..] == Encode(p.1);
    EncodeRoundTrip(p.0);
    EncodeRoundTrip(p.1);
  }

  lemma {:induction false} ParsePairTexts(pairs: seq<(string, string)>)
    ensures ParseSegments(PairTexts(pairs)) == Some(pairs)
  {
    if |pairs| > 0 {
      var ts := PairTexts(pairs);
      assert ts[1..] == PairTexts(pairs[1..]);
      PairTextParses(pairs[0]);
      ParsePairTexts(pairs[1..]);
      assert [pairs[0]] + pairs[1..] == pairs;
    }
  }

  /** Serializing and parsing back gives every pair, in order, repeats included. */
  lemma SerializeRoundTrip(pairs: seq<(string, string)>)
    ensures Parse(Serialize(pairs)) == Some(pairs)
  {
    if |pairs| == 0 {
      assert Split("", '&') == [""];
    } else {
      SplitJoin(PairTexts(pairs), '&');
      ParsePairTexts(pairs);
    }
  }

  /** The `URLSearchParams` object: its list of pairs, which `append` extends. */
  class SearchParams {
    var list: seq<(string, string)>

    constructor ()
      ensures list == []
    {
      list := [];
    }

    /** `append`: adds a pair at the end, keeping every earlier one, repeats included. */
    method Append(name: string, value: string)
      modifies this
      ensures list == old(list) + [(name, value)]
    {
      list := list + [(name, value)];
    }

    /** `toString`. */
    function ToString(): (q: string)
      reads this
      ensures Parse(q) == Some(list)
    {
      SerializeRoundTrip(list);
      Serialize(list)
    }
  }
}
