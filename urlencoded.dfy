// Python `urllib.parse.parse_qsl` with its default arguments (keep_blank_values=False,
// strict_parsing=False, separator '&'), the reading of
// application/x-www-form-urlencoded text used by the database subscriber, and
// `dict(...)` over its result.
module UrlEncoded {
  import opened Base
  import opened Text
  import Wire

  datatype Pair = Pair(name: string, value: string)

  // ---------------------------------------------------------------- percent escapes

  /** A byte of `unquote_to_bytes`'s result. */
  type Byte = b: int | 0 <= b < 256

  predicate IsHex(c: char)
  {
    '0' <= c <= '9' || 'a' <= c <= 'f' || 'A' <= c <= 'F'
  }

  function HexValue(c: char): (v: nat)
    requires IsHex(c)
    ensures v < 16
  {
    if c <= '9' then c as int - '0' as int
    else if c <= 'F' then c as int - 'A' as int + 10
    else c as int - 'a' as int + 10
  }

  /** Upper-case hexadecimal digit, as `urllib.parse.quote` writes it. */
  function HexChar(v: nat): (c: char)
    requires v < 16
    ensures IsHex(c) && HexValue(c) == v && IsAscii(c)
  {
    if v < 10 then ('0' as int + v) as char else ('A' as int + v - 10) as char
  }

  predicate IsAscii(c: char)
  {
    (c as int) < 128
  }

  /**
   * `unquote_to_bytes` on ASCII text: each '%' followed by two hexadecimal digits becomes
   * the byte with that value; every other character, a lone '%' included, its own code.
   */
  function UnquoteBytes(s: string): (r: seq<Byte>)
    requires forall i :: 0 <= i < |s| ==> IsAscii(s[i])
    ensures s != [] ==> r != []
  {
    if s == [] then []
    else if |s| >= 3 && s[0] == '%' && IsHex(s[1]) && IsHex(s[2]) then
      [16 * HexValue(s[1]) + HexValue(s[2])] + UnquoteBytes(s[3..])
    else
      assert IsAscii(s[0]);
      var b: Byte := s[0] as int;
      [b] + UnquoteBytes(s[1..])
  }

  /** The length of the UTF-8 sequence a byte starts, 0 for a byte that cannot start one. */
  function SequenceLength(b: Byte): nat
  {
    if b < 0x80 then 1
    else if 0xC2 <= b <= 0xDF then 2
    else if 0xE0 <= b <= 0xEF then 3
    else if 0xF0 <= b <= 0xF4 then 4
    else 0
  }

  /**
   * The bytes that may follow `lead` as the second byte of its sequence; the narrower
   * ranges after E0, ED, F0 and F4 rule out overlong forms, surrogates and codes past U+10FFFF.
   */
  predicate SecondFits(lead: Byte, b: Byte)
  {
    if lead == 0xE0 then 0xA0 <= b <= 0xBF
    else if lead == 0xED then 0x80 <= b <= 0x9F
    else if lead == 0xF0 then 0x90 <= b <= 0xBF
    else if lead == 0xF4 then 0x80 <= b <= 0x8F
    else 0x80 <= b <= 0xBF
  }

  predicate IsContinuation(b: Byte)
  {
    0x80 <= b <= 0xBF
  }

  /**
   * How many bytes at the head of `bs` the decoder takes in one step: the whole sequence
   * when it is complete and well formed, else its longest well-formed beginning, and at
   * least the first byte.
   */
  function Taken(bs: seq<Byte>): (m: nat)
    requires bs != []
    ensures 1 <= m <= |bs|
    ensures m > 1 ==> m <= SequenceLength(bs[0])
  {
    var n := SequenceLength(bs[0]);
    if n < 2 || |bs| < 2 || !SecondFits(bs[0], bs[1]) then 1
    else if n < 3 || |bs| < 3 || !IsContinuation(bs[2]) then 2
    else if n < 4 || |bs| < 4 || !IsContinuation(bs[3]) then 3
    else 4
  }

  /** The character of a complete, well-formed sequence at the head of `bs`. */
  function CodePoint(bs: seq<Byte>): char
    requires bs != [] && Taken(bs) == SequenceLength(bs[0])
  {
    var n := SequenceLength(bs[0]);
    var lead: int := bs[0];
    if n == 1 then lead as char
    else if n == 2 then ((lead - 0xC0) * 64 + (bs[1] as int - 0x80)) as char
    else if n == 3 then ((lead - 0xE0) * 4096 + (bs[1] as int - 0x80) * 64 + (bs[2] as int - 0x80)) as char
    else ((lead - 0xF0) * 262144 + (bs[1] as int - 0x80) * 4096 + (bs[2] as int - 0x80) * 64 + (bs[3] as int - 0x80)) as char
  }

  /** U+FFFD, what the "replace" error handler puts for each ill-formed part. */
  const Replacement: char := '\U{FFFD}'

  /** `bytes.decode("utf-8", "replace")`. */
  function DecodeUtf8(bs: seq<Byte>): (r: string)
    ensures bs != [] ==> r != []
    decreases |bs|
  {
    if bs == [] then []
    else
      var m := Taken(bs);
      (if m == SequenceLength(bs[0]) then [CodePoint(bs)] else [Replacement]) + DecodeUtf8(bs[m..])
  }

  /** The length of the run of ASCII characters at the head of `s`. */
  function AsciiRun(s: string): (n: nat)
    ensures n <= |s| && (n < |s| ==> !IsAscii(s[n]))
    ensures s != [] && IsAscii(s[0]) ==> n >= 1
  {
    if s == [] || !IsAscii(s[0]) then 0 else 1 + AsciiRun(s[1..])
  }

  /** The run is ASCII throughout. */
  lemma {:induction false} AsciiRunAscii(s: string)
    ensures forall i :: 0 <= i < AsciiRun(s) ==> IsAscii(s[..AsciiRun(s)][i])
  {
    if s != [] && IsAscii(s[0]) {
      AsciiRunAscii(s[1..]);
      assert forall i :: 1 <= i < AsciiRun(s) ==> s[..AsciiRun(s)][i] == s[1..][..AsciiRun(s[1..])][i - 1];
    }
  }

  /**
   * `urllib.parse.unquote`: text without '%' comes back as it is; otherwise each maximal
   * run of ASCII characters goes through `unquote_to_bytes` and is decoded as UTF-8 with
   * replacement, and every other character is kept.
   */
  function Unquote(s: string): (r: string)
    ensures '%' !in s ==> r == s
    ensures s != [] ==> r != []
  {
    if '%' !in s then s else UnquoteRuns(s)
  }

  function UnquoteRuns(s: string): (r: string)
    ensures s != [] ==> r != []
    decreases |s|
  {
    if s == [] then []
    else if IsAscii(s[0]) then
      var n := AsciiRun(s);
      AsciiRunAscii(s);
      DecodeUtf8(UnquoteBytes(s[..n])) + UnquoteRuns(s[n..])
    else
      [s[0]] + UnquoteRuns(s[1..])
  }

  /** The UTF-8 bytes of one character. */
  function Utf8(c: char): (r: seq<Byte>)
    ensures 1 <= |r| <= 4
  {
    var x := c as int;
    if x < 0x80 then [x]
    else if x < 0x800 then [0xC0 + x / 64, 0x80 + x % 64]
    else if x < 0x10000 then [0xE0 + x / 4096, 0x80 + x / 64 % 64, 0x80 + x % 64]
    else [0xF0 + x / 262144, 0x80 + x / 4096 % 64, 0x80 + x / 64 % 64, 0x80 + x % 64]
  }

  /** `s.encode("utf-8")`. */
  function EncodeUtf8(s: string): (r: seq<Byte>)
    ensures s != [] ==> r != []
  {
    if s == [] then [] else Utf8(s[0]) + EncodeUtf8(s[1..])
  }

  /** Each byte written as a `%XX` escape. */
  function EscapeBytes(bs: seq<Byte>): (r: string)
    ensures |r| == 3 * |bs|
  {
    if bs == [] then [] else ['%', HexChar(bs[0] / 16), HexChar(bs[0] % 16)] + EscapeBytes(bs[1..])
  }

  /** Escapes are ASCII. */
  lemma {:induction false} EscapeBytesAscii(bs: seq<Byte>)
    ensures forall i :: 0 <= i < |EscapeBytes(bs)| ==> IsAscii(EscapeBytes(bs)[i])
  {
    if bs != [] {
      EscapeBytesAscii(bs[1..]);
      var r := EscapeBytes(bs);
      assert forall i :: 3 <= i < |r| ==> r[i] == EscapeBytes(bs[1..])[i - 3];
    }
  }

  /**
   * Every character written as the `%XX` escapes of its UTF-8 bytes, as
   * `urllib.parse.quote(s, safe="")` writes all but ASCII letters, digits and `_.-~`.
   */
  function Escape(s: string): string
  {
    EscapeBytes(EncodeUtf8(s))
  }

  /** Unquoting undoes escaping for every text, so an escaped '&', '=' or '+' reaches the receiver intact. */
  lemma {:induction false} UnquoteEscape(s: string)
    ensures Unquote(Escape(s)) == s
  {
    if s != [] {
      var e := Escape(s);
      assert e[0] == '%';
      EscapeBytesAscii(EncodeUtf8(s));
      assert AsciiRun(e) == |e| by {
        AsciiRunAll(e);
      }
      assert e[..|e|] == e;
      assert UnquoteRuns(e[|e|..]) == [];
      UnquoteBytesEscape(EncodeUtf8(s));
      DecodeEncode(s);
    }
  }

  /** A lone escape above %7F is not UTF-8: it decodes to the replacement character, not to U+00E9. */
  lemma {:induction false} UnquoteLoneByte()
    ensures Unquote("%E9") == [Replacement]
  {
    var s := "%E9";
    assert AsciiRun(s[2..]) == 1 && AsciiRun(s[1..]) == 2 && AsciiRun(s) == 3;
    assert s[..3] == s && s[3..] == [];
    assert UnquoteBytes(s) == [0xE9];
    assert Taken([0xE9]) == 1;
  }

  /** The two escapes of the UTF-8 encoding of U+00E9 decode to that one character. */
  lemma {:induction false} UnquoteTwoBytes()
    ensures Unquote("%C3%A9") == "\U{E9}"
  {
    assert EncodeUtf8("\U{E9}") == [0xC3, 0xA9];
    assert Escape("\U{E9}") == "%C3%A9";
    UnquoteEscape("\U{E9}");
  }

  lemma {:induction false} AsciiRunAll(s: string)
    requires forall i :: 0 <= i < |s| ==> IsAscii(s[i])
    ensures AsciiRun(s) == |s|
  {
    if s != [] {
      AsciiRunAll(s[1..]);
    }
  }

  /** `unquote_to_bytes` reads the escapes of the bytes back to the bytes. */
  lemma {:induction false} UnquoteBytesEscape(bs: seq<Byte>)
    ensures (forall i :: 0 <= i < |EscapeBytes(bs)| ==> IsAscii(EscapeBytes(bs)[i])) && UnquoteBytes(EscapeBytes(bs)) == bs
  {
    EscapeBytesAscii(bs);
    if bs != [] {
      var e := EscapeBytes(bs);
      EscapeBytesAscii(bs[1..]);
      assert e[3..] == EscapeBytes(bs[1..]);
      UnquoteBytesEscape(bs[1..]);
      assert 16 * HexValue(e[1]) + HexValue(e[2]) == bs[0];
    }
  }

  /** Decoding the UTF-8 encoding of a text gives the text back. */
  lemma {:induction false} DecodeEncode(s: string)
    ensures DecodeUtf8(EncodeUtf8(s)) == s
  {
    if s != [] {
      DecodeEncode(s[1..]);
      Utf8Decodes(s[0], EncodeUtf8(s[1..]));
      assert [s[0]] + s[1..] == s;
    }
  }

  /** The decoder takes the encoding of one character as one complete sequence. */
  lemma {:induction false} Utf8Decodes(c: char, rest: seq<Byte>)
    ensures DecodeUtf8(Utf8(c) + rest) == [c] + DecodeUtf8(rest)
  {
    var u := Utf8(c);
    var bs := u + rest;
    Utf8Sequence(c, rest);
    assert bs[|u|..] == rest;
  }

  /** The encoding of `c` at the head of any bytes is one complete sequence whose character is `c`. */
  lemma {:induction false} Utf8Sequence(c: char, rest: seq<Byte>)
    ensures var bs := Utf8(c) + rest; Taken(bs) == |Utf8(c)| == SequenceLength(bs[0]) && CodePoint(bs) == c
  {
    var x := c as int;
    if x < 0x80 {
    } else if x < 0x800 {
      assert x == (x / 64) * 64 + x % 64;
    } else if x < 0x10000 {
      Utf8Three(c, rest);
    } else {
      Utf8Four(c, rest);
    }
  }

  lemma {:induction false} Utf8Three(c: char, rest: seq<Byte>)
    requires 0x800 <= c as int < 0x10000
    ensures var bs := Utf8(c) + rest; Taken(bs) == 3 == SequenceLength(bs[0]) && CodePoint(bs) == c
  {
    var x := c as int;
    assert x / 64 % 64 == x / 64 - (x / 4096) * 64;
    assert x == (x / 4096) * 4096 + (x / 64 % 64) * 64 + x % 64;
  }

  lemma {:induction false} Utf8Four(c: char, rest: seq<Byte>)
    requires 0x10000 <= c as int
    ensures var bs := Utf8(c) + rest; Taken(bs) == 4 == SequenceLength(bs[0]) && CodePoint(bs) == c
  {
    var x := c as int;
    assert x / 4096 % 64 == x / 4096 - (x / 262144) * 64;
    assert x / 64 % 64 == x / 64 - (x / 4096) * 64;
    assert x == (x / 262144) * 262144 + (x / 4096 % 64) * 4096 + (x / 64 % 64) * 64 + x % 64;
  }

  /** A name or value as `parse_qsl` decodes it: '+' to space, then percent escapes. */
  function DecodeText(s: string): string
  {
    Unquote(Substitute(s, '+', " "))
  }

  // ---------------------------------------------------------------- parse_qsl

  /**
   * One '&'-separated part: empty parts, parts without '=' and parts whose value is
   * empty are dropped; otherwise the name ends at the first '='.
   */
  function Entry(part: string): (r: seq<Pair>)
    ensures |r| <= 1
    ensures r != [] ==> r[0].value != []
  {
    if part == [] then []
    else match Find(part, '=')
      case None => []
      case Some(k) =>
        if k + 1 == |part| then []
        else [Pair(DecodeText(part[..k]), DecodeText(part[k + 1..]))]
  }

  function Collect(parts: seq<string>): (r: seq<Pair>)
    ensures |r| <= |parts|
    ensures forall i :: 0 <= i < |r| ==> r[i].value != []
  {
    if parts == [] then [] else Entry(parts[0]) + Collect(parts[1..])
  }

  function ParseQsl(qs: string): seq<Pair>
  {
    if qs == [] then [] else Collect(Split(qs, '&'))
  }

  /** `dict(pairs)`: later pairs overwrite earlier ones with the same name. */
  function ToDict(ps: seq<Pair>): map<string, string>
  {
    if ps == [] then map[] else ToDict(ps[..|ps| - 1])[ps[|ps| - 1].name := ps[|ps| - 1].value]
  }

  // ---------------------------------------------------------------- properties

  /** Parts that `parse_qsl` skips: empty ones, ones without '=', ones with an empty value. */
  lemma {:induction false} EntryDropped(name: string)
    requires '=' !in name
    ensures Entry(name) == []
    ensures Entry(name + "=") == []
  {
    var t := name + "=";
    assert Find(t, '=') == Some(|name|) by {
      assert t[|name|] == '=';
      assert t[..|name|] == name;
    }
  }

  /** The dictionary holds exactly the names that occur. */
  lemma {:induction false} ToDictKeys(ps: seq<Pair>)
    ensures ToDict(ps).Keys == set i | 0 <= i < |ps| :: ps[i].name
  {
    if ps != [] {
      var init := ps[..|ps| - 1];
      ToDictKeys(init);
      assert forall i :: 0 <= i < |init| ==> init[i] == ps[i];
    }
  }

  /** The value kept for a name is the one of its last occurrence. */
  lemma {:induction false} ToDictLast(ps: seq<Pair>, i: nat)
    requires i < |ps|
    requires forall j :: i < j < |ps| ==> ps[j].name != ps[i].name
    ensures ps[i].name in ToDict(ps) && ToDict(ps)[ps[i].name] == ps[i].value
  {
    if i < |ps| - 1 {
      var init := ps[..|ps| - 1];
      ToDictLast(init, i);
    }
  }

  // ---------------------------------------------------------------- round trip

  /** No character `parse_qsl` would treat specially. */
  predicate Safe(s: string)
  {
    '&' !in s && '%' !in s && '+' !in s
  }

  /** A field the unescaped firmware encoding carries through intact. */
  predicate Plain(f: Wire.Field)
  {
    Safe(f.key) && Safe(f.value) && '=' !in f.key && f.value != []
  }

  function AsPairs(fs: seq<Wire.Field>): (ps: seq<Pair>)
    ensures |ps| == |fs| && forall i :: 0 <= i < |fs| ==> ps[i] == Pair(fs[i].key, fs[i].value)
  {
    if fs == [] then [] else [Pair(fs[0].key, fs[0].value)] + AsPairs(fs[1..])
  }

  lemma {:induction false} DecodePlain(s: string)
    requires Safe(s)
    ensures DecodeText(s) == s
  {
  }

  lemma {:induction false} EntryPairText(f: Wire.Field)
    requires Plain(f)
    ensures Entry(Wire.PairText(f)) == [Pair(f.key, f.value)]
  {
    var t := Wire.PairText(f);
    assert Find(t, '=') == Some(|f.key|) by {
      assert t[|f.key|] == '=';
      assert t[..|f.key|] == f.key;
    }
    assert t[..|f.key|] == f.key;
    assert t[|f.key| + 1..] == f.value;
    DecodePlain(f.key);
    DecodePlain(f.value);
  }

  lemma {:induction false} CollectPairTexts(fs: seq<Wire.Field>)
    requires forall i :: 0 <= i < |fs| ==> Plain(fs[i])
    ensures Collect(Wire.PairTexts(fs)) == AsPairs(fs)
  {
    if fs != [] {
      EntryPairText(fs[0]);
      assert Wire.PairTexts(fs)[1..] == Wire.PairTexts(fs[1..]);
      CollectPairTexts(fs[1..]);
    }
  }

  /** Plain fields joined by the firmware come back from `parse_qsl` as the same pairs, in order. */
  lemma {:induction false} ParseEncode(fs: seq<Wire.Field>)
    requires forall i :: 0 <= i < |fs| ==> Plain(fs[i])
    ensures ParseQsl(Wire.Encode(fs)) == AsPairs(fs)
  {
    if fs != [] {
      var e := Wire.Encode(fs);
      Wire.SplitEncode(fs);
      assert Wire.PairTexts(fs)[0] != "";
      CollectPairTexts(fs);
    }
  }

  /** With distinct names, the dictionary maps each key to its field's value. */
  lemma {:induction false} DictOfEncode(fs: seq<Wire.Field>, i: nat)
    requires forall j :: 0 <= j < |fs| ==> Plain(fs[j])
    requires i < |fs| && forall j :: i < j < |fs| ==> fs[j].key != fs[i].key
    ensures fs[i].key in ToDict(ParseQsl(Wire.Encode(fs)))
    ensures ToDict(ParseQsl(Wire.Encode(fs)))[fs[i].key] == fs[i].value
  {
    ParseEncode(fs);
    ToDictLast(AsPairs(fs), i);
  }
}
