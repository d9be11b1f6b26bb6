/** The JSON string writer, a decoder for the strings of section 7 of RFC 8259, and the
    analyzer's two-pass unquoting of CSV fields, all over bytes. */
module Json {
  import opened Options

  type Byte = b: nat | b < 256

  const QUOTE: Byte := 0x22
  const BACKSLASH: Byte := 0x5C

  // ----- the writer

  /** The letter behind the backslash for the control bytes that have one. */
  function ShortEscape(c: Byte): Option<Byte> {
    if c == 0x0A then Some(0x6E) else if c == 0x0D then Some(0x72) else if c == 0x09 then Some(0x74)
    else if c == 0x08 then Some(0x62) else if c == 0x0C then Some(0x66) else None
  }

  function HexDigit(d: nat): Byte
    requires d < 16
  {
    if d < 10 then 0x30 + d else 0x41 + d - 10
  }

  function EscapeByte(c: Byte): seq<Byte> {
    if c == BACKSLASH || c == QUOTE then [BACKSLASH, c]
    else if ShortEscape(c).Some? then [BACKSLASH, ShortEscape(c).value]
    else if c < 0x20 then [BACKSLASH, 0x75, 0x30, 0x30, HexDigit(c / 16), HexDigit(c % 16)]
    else [c]
  }

  function Escape(v: seq<Byte>): seq<Byte> {
    if v == [] then [] else EscapeByte(v[0]) + Escape(v[1..])
  }

  /** The bytes of an ASCII text. */
  function Text(s: string): (bytes: seq<Byte>)
    requires forall i | 0 <= i < |s| :: s[i] < 128 as char
  {
    seq(|s|, i requires 0 <= i < |s| => s[i] as int)
  }

  /** Every byte as it is written: quotation mark, backslash and five control bytes with a letter
      of their own, the other control bytes as four upper-case hexadecimal digits, the rest as is. */
  lemma EscapesExact(c: Byte)
    ensures EscapeByte(0x5C) == Text("\\\\") && EscapeByte(0x22) == Text("\\\"")
    ensures EscapeByte('\n' as int) == Text("\\n") && EscapeByte('\r' as int) == Text("\\r") && EscapeByte('\t' as int) == Text("\\t")
    ensures EscapeByte(0x08) == Text("\\b") && EscapeByte(0x0C) == Text("\\f")
    ensures c < 0x20 && c !in {0x08, 0x09, 0x0A, 0x0C, 0x0D} ==>
              EscapeByte(c) == Text("\\u00") + [Text("0123456789ABCDEF")[c / 16], Text("0123456789ABCDEF")[c % 16]]
    ensures c >= 0x20 && c != 0x5C && c != 0x22 ==> EscapeByte(c) == [c]
  {
    if c < 0x20 {
      HexDigits(c / 16);
      HexDigits(c % 16);
    }
  }

  lemma HexDigits(d: nat)
    requires d < 16
    ensures HexDigit(d) == Text("0123456789ABCDEF")[d]
  {
  }

  lemma {:induction false} EscapeAppend(v: seq<Byte>, c: Byte)
    ensures Escape(v + [c]) == Escape(v) + EscapeByte(c)
  {
    if v == [] {
      assert (v + [c])[1..] == [];
    } else {
      assert (v + [c])[1..] == v[1..] + [c];
      EscapeAppend(v[1..], c);
    }
  }

  method WriteJsonString(value: seq<Byte>) returns (out: seq<Byte>)
    ensures out == [QUOTE] + Escape(value) + [QUOTE]
  {
    out := [QUOTE];
    for i := 0 to |value|
      invariant out == [QUOTE] + Escape(value[..i])
    {
      EscapeAppend(value[..i], value[i]);
      assert value[..i + 1] == value[..i] + [value[i]];
      out := out + EscapeByte(value[i]);
    }
    assert value[..|value|] == value;
    out := out + [QUOTE];
  }

  // ----- the decoder

  function FromHex(c: Byte): Option<nat> {
    if 0x30 <= c <= 0x39 then Some(c - 0x30)
    else if 0x41 <= c <= 0x46 then Some(c - 0x41 + 10)
    else if 0x61 <= c <= 0x66 then Some(c - 0x61 + 10)
    else None
  }

  /** The UTF-8 bytes of a code unit outside the surrogates. */
  function Utf8(u: nat): Option<seq<Byte>>
    requires u < 0x10000
  {
    if u < 0x80 then Some([u])
    else if u < 0x800 then Some([0xC0 + u / 64, 0x80 + u % 64])
    else if 0xD800 <= u < 0xE000 then None
    else Some([0xE0 + u / 4096, 0x80 + u / 64 % 64, 0x80 + u % 64])
  }

  /** What follows a backslash: the bytes it stands for and how many bytes it takes. */
  function DecodeEscape(s: seq<Byte>): (r: Option<(seq<Byte>, nat)>)
    ensures r.Some? ==> 1 <= r.value.1 <= |s|
  {
    if s == [] then None
    else if s[0] == QUOTE || s[0] == BACKSLASH || s[0] == 0x2F then Some(([s[0]], 1))
    else if s[0] == 0x62 then Some(([0x08], 1))
    else if s[0] == 0x66 then Some(([0x0C], 1))
    else if s[0] == 0x6E then Some(([0x0A], 1))
    else if s[0] == 0x72 then Some(([0x0D], 1))
    else if s[0] == 0x74 then Some(([0x09], 1))
    else if s[0] == 0x75 && |s| >= 5 then DecodeUnit(s[1..5])
    else None
  }

  function DecodeUnit(s: seq<Byte>): (r: Option<(seq<Byte>, nat)>)
    requires |s| == 4
    ensures r.Some? ==> r.value.1 == 5
  {
    var (a, b, c, d) := (FromHex(s[0]), FromHex(s[1]), FromHex(s[2]), FromHex(s[3]));
    if a.Some? && b.Some? && c.Some? && d.Some?
       && Utf8(((a.value * 16 + b.value) * 16 + c.value) * 16 + d.value).Some?
    then Some((Utf8(((a.value * 16 + b.value) * 16 + c.value) * 16 + d.value).value, 5))
    else None
  }

  /** Decode up to the closing quotation mark, which has to be the last byte. */
  function DecodeBody(s: seq<Byte>): Option<seq<Byte>> {
    if s == [] || s[0] < 0x20 then None
    else if s[0] == QUOTE then (if |s| == 1 then Some([]) else None)
    else if s[0] == BACKSLASH then
      var e := DecodeEscape(s[1..]);
      if e.None? then None
      else
        var rest := DecodeBody(s[1 + e.value.1..]);
        if rest.None? then None else Some(e.value.0 + rest.value)
    else
      var rest := DecodeBody(s[1..]);
      if rest.None? then None else Some([s[0]] + rest.value)
  }

  function Decode(text: seq<Byte>): Option<seq<Byte>> {
    if text != [] && text[0] == QUOTE then DecodeBody(text[1..]) else None
  }

  lemma HexRoundTrip(d: nat)
    requires d < 16
    ensures FromHex(HexDigit(d)) == Some(d)
  {
  }

  lemma UnitRoundTrip(c: Byte)
    requires c < 0x20
    ensures DecodeUnit([0x30, 0x30, HexDigit(c / 16), HexDigit(c % 16)]) == Some(([c], 5))
  {
    HexRoundTrip(c / 16);
    HexRoundTrip(c % 16);
    assert c == c / 16 * 16 + c % 16;
  }

  lemma ControlEscape(a: Byte, b: Byte, rest: seq<Byte>)
    ensures var s := [BACKSLASH, 0x75, 0x30, 0x30, a, b] + rest;
            |s| >= 6 && s[0] == BACKSLASH && s[6..] == rest && DecodeEscape(s[1..]) == DecodeUnit([0x30, 0x30, a, b])
  {
    hide DecodeUnit;
    var s := [BACKSLASH, 0x75, 0x30, 0x30, a, b] + rest;
    assert s[1..] == [0x75, 0x30, 0x30, a, b] + rest;
    assert s[1..][1..5] == [0x30, 0x30, a, b];
  }

  /** A backslash escape of n bytes in front of rest. */
  lemma EscapeStep(s: seq<Byte>, c: Byte, n: nat, rest: seq<Byte>)
    requires |s| == n + 1 + |rest| && s[0] == BACKSLASH && DecodeEscape(s[1..]) == Some(([c], n)) && s[n + 1..] == rest
    ensures DecodeBody(s) == (if DecodeBody(rest).None? then None else Some([c] + DecodeBody(rest).value))
  {
    hide DecodeEscape;
  }

  lemma DecodeShort(c: Byte, rest: seq<Byte>)
    requires c == BACKSLASH || c == QUOTE || ShortEscape(c).Some?
    ensures DecodeBody(EscapeByte(c) + rest)
         == (if DecodeBody(rest).None? then None else Some([c] + DecodeBody(rest).value))
  {
    var s := EscapeByte(c) + rest;
    assert s[1..][0] == EscapeByte(c)[1] && s[2..] == rest;
    EscapeStep(s, c, 1, rest);
  }

  lemma DecodeControl(c: Byte, rest: seq<Byte>)
    requires c < 0x20 && ShortEscape(c).None?
    ensures DecodeBody(EscapeByte(c) + rest)
         == (if DecodeBody(rest).None? then None else Some([c] + DecodeBody(rest).value))
  {
    hide HexDigit, DecodeUnit, DecodeEscape, DecodeBody;
    UnitRoundTrip(c);
    ControlEscape(HexDigit(c / 16), HexDigit(c % 16), rest);
    EscapeStep(EscapeByte(c) + rest, c, 5, rest);
  }

  /** One escaped byte decodes to itself, whatever follows. */
  lemma DecodeByte(c: Byte, rest: seq<Byte>)
    ensures DecodeBody(EscapeByte(c) + rest)
         == (if DecodeBody(rest).None? then None else Some([c] + DecodeBody(rest).value))
  {
    if c == BACKSLASH || c == QUOTE || ShortEscape(c).Some? {
      DecodeShort(c, rest);
    } else if c < 0x20 {
      DecodeControl(c, rest);
    } else {
      assert ([c] + rest)[1..] == rest;
    }
  }

  lemma {:induction false} DecodeEscaped(v: seq<Byte>)
    ensures DecodeBody(Escape(v) + [QUOTE]) == Some(v)
  {
    if v == [] {
      assert Escape(v) + [QUOTE] == [QUOTE];
    } else {
      DecodeEscaped(v[1..]);
      DecodeByte(v[0], Escape(v[1..]) + [QUOTE]);
      assert Escape(v) + [QUOTE] == EscapeByte(v[0]) + (Escape(v[1..]) + [QUOTE]);
      assert v == [v[0]] + v[1..];
    }
  }

  /** Every byte string survives writing and decoding. Since the decoder accepts no byte below
      0x20 and nothing behind an unescaped quotation mark, the output contains neither. */
  lemma RoundTrip(v: seq<Byte>)
    ensures Decode([QUOTE] + Escape(v) + [QUOTE]) == Some(v)
  {
    DecodeEscaped(v);
    assert ([QUOTE] + Escape(v) + [QUOTE])[1..] == Escape(v) + [QUOTE];
  }

  lemma {:induction false} NoRawControl(v: seq<Byte>, i: nat)
    requires i < |Escape(v)|
    ensures Escape(v)[i] >= 0x20
    ensures Escape(v)[i] == QUOTE ==> i > 0 && Escape(v)[i - 1] == BACKSLASH
  {
    var e := EscapeByte(v[0]);
    if i >= |e| {
      NoRawControl(v[1..], i - |e|);
    }
  }

  // ----- the analyzer's unquoting

  /** Python's replace of the two bytes a, b by c: left to right, without overlap. */
  function ReplacePair(s: seq<Byte>, a: Byte, b: Byte, c: Byte): seq<Byte> {
    if s == [] then []
    else if |s| >= 2 && s[0] == a && s[1] == b then [c] + ReplacePair(s[2..], a, b, c)
    else [s[0]] + ReplacePair(s[1..], a, b, c)
  }

  function Unquote(value: seq<Byte>): seq<Byte> {
    if |value| >= 2 && value[0] == QUOTE && value[|value| - 1] == QUOTE
    then ReplacePair(ReplacePair(value[1..|value| - 1], BACKSLASH, QUOTE, QUOTE), BACKSLASH, BACKSLASH, BACKSLASH)
    else value
  }

  /** What the first pass leaves of an escaped byte. */
  function Halfway(c: Byte): seq<Byte> {
    if c == QUOTE then [QUOTE] else EscapeByte(c)
  }

  /** What both passes leave: control bytes keep their escapes. */
  function Leftover(c: Byte): seq<Byte> {
    if c < 0x20 then EscapeByte(c) else [c]
  }

  function Flatten(v: seq<Byte>, f: Byte -> seq<Byte>): seq<Byte> {
    if v == [] then [] else f(v[0]) + Flatten(v[1..], f)
  }

  /** A pair that does not occur across the front is not replaced there. */
  lemma {:induction false} ReplaceSkips(front: seq<Byte>, rest: seq<Byte>, a: Byte, b: Byte, c: Byte)
    requires forall i | 0 <= i < |front| :: front[i] == a ==> i + 1 < |front + rest| && (front + rest)[i + 1] != b
    ensures ReplacePair(front + rest, a, b, c) == front + ReplacePair(rest, a, b, c)
  {
    if front == [] {
      assert front + rest == rest;
    } else {
      var tail := front[1..];
      assert (front + rest)[1..] == tail + rest;
      forall i | 0 <= i < |tail|
        ensures tail[i] == a ==> i + 1 < |tail + rest| && (tail + rest)[i + 1] != b
      {
        assert front[i + 1] == tail[i];
      }
      ReplaceSkips(tail, rest, a, b, c);
    }
  }

  lemma {:induction false} FirstPass(v: seq<Byte>)
    ensures ReplacePair(Escape(v), BACKSLASH, QUOTE, QUOTE) == Flatten(v, Halfway)
  {
    if v != [] {
      var rest := Escape(v[1..]);
      FirstPass(v[1..]);
      if v[0] == QUOTE {
        assert (EscapeByte(QUOTE) + rest)[2..] == rest;
      } else if v[0] == BACKSLASH && rest == [] {
        assert Escape(v) == [BACKSLASH, BACKSLASH];
      } else {
        ReplaceSkips(EscapeByte(v[0]), rest, BACKSLASH, QUOTE, QUOTE);
      }
    }
  }

  lemma {:induction false} SecondPass(v: seq<Byte>)
    ensures ReplacePair(Flatten(v, Halfway), BACKSLASH, BACKSLASH, BACKSLASH) == Flatten(v, Leftover)
  {
    if v != [] {
      var rest := Flatten(v[1..], Halfway);
      SecondPass(v[1..]);
      if v[0] == BACKSLASH {
        assert (Halfway(BACKSLASH) + rest)[2..] == rest;
      } else {
        ReplaceSkips(Halfway(v[0]), rest, BACKSLASH, BACKSLASH, BACKSLASH);
      }
    }
  }

  lemma {:induction false} LeftoverExact(v: seq<Byte>)
    ensures |Flatten(v, Leftover)| >= |v|
    ensures Flatten(v, Leftover) == v <==> forall i | 0 <= i < |v| :: v[i] >= 0x20
  {
    if v != [] {
      LeftoverExact(v[1..]);
      if v[0] >= 0x20 {
        assert Flatten(v, Leftover)[1..] == Flatten(v[1..], Leftover);
        assert forall i | 1 <= i < |v| :: v[i] == v[1..][i - 1];
      }
    }
  }

  /** The two passes undo the writer exactly on the strings without control bytes. */
  lemma UnquoteExact(v: seq<Byte>)
    ensures Unquote([QUOTE] + Escape(v) + [QUOTE]) == v <==> forall i | 0 <= i < |v| :: v[i] >= 0x20
  {
    var text := [QUOTE] + Escape(v) + [QUOTE];
    assert text[1..|text| - 1] == Escape(v);
    FirstPass(v);
    SecondPass(v);
    LeftoverExact(v);
  }
}
