/**
 The server: contents of JSON strings (section 7 of RFC 8259), decoded once when a
 message is sent and encoded twice when it is delivered.
 */
module Json {
  import opened Basics
  import opened WireEscape

  datatype Decoding = Decoded(text: string) | Malformed

  const HEX := "0123456789abcdef"

  /** Escapes what must be escaped, with the short forms where there are any. */
  function EncodeByte(c: char): (w: string)
    ensures w != ""
  {
    if c == '"' then "\\\""
    else if c == '\\' then "\\\\"
    else if c == BS then "\\b"
    else if c == FF then "\\f"
    else if c == LF then "\\n"
    else if c == CR then "\\r"
    else if c == TAB then "\\t"
    else if c as int < 32 then "\\u00" + [HEX[c as int / 16], HEX[c as int % 16]]
    else [c]
  }

  function Encode(s: string): string {
    if s == "" then "" else EncodeByte(s[0]) + Encode(s[1..])
  }

  function HexValue(c: char): int {
    if '0' <= c <= '9' then c as int - '0' as int
    else if 'a' <= c <= 'f' then c as int - 'a' as int + 10
    else if 'A' <= c <= 'F' then c as int - 'A' as int + 10
    else -1
  }

  /** The byte a `\u` escape stands for, when it is an ASCII one. */
  function HexByte(s: string): int
    requires |s| == 4
  {
    if s[0] == '0' && s[1] == '0' && 0 <= HexValue(s[2]) < 8 && 0 <= HexValue(s[3])
    then HexValue(s[2]) * 16 + HexValue(s[3]) else -1
  }

  /** The letter of a two-byte escape and what it stands for. */
  function ShortForm(c: char): string {
    match c
    case '"' => "\""
    case '\\' => "\\"
    case '/' => "/"
    case 'b' => [BS]
    case 'f' => [FF]
    case 'n' => [LF]
    case 'r' => [CR]
    case 't' => [TAB]
    case _ => ""
  }

  function Cons(c: char, d: Decoding): Decoding {
    if d.Decoded? then Decoded([c] + d.text) else Malformed
  }

  /** The first byte of the contents and the number of bytes it is written with; none when it is malformed. */
  function First(s: string): (string, nat)
    requires s != ""
    ensures First(s).0 != "" ==> |First(s).0| == 1 && 1 <= First(s).1 <= |s|
  {
    if s[0] != '\\' then (if s[0] == '"' || s[0] as int < 32 then "" else [s[0]], 1)
    else if |s| >= 2 && ShortForm(s[1]) != "" then (ShortForm(s[1]), 2)
    else if |s| >= 6 && s[1] == 'u' && HexByte(s[2..6]) >= 0 then ([HexByte(s[2..6]) as char], 6)
    else ("", 1)
  }

  function Decode(s: string): Decoding {
    if s == "" then Decoded("")
    else
      var (c, n) := First(s);
      if c == "" then Malformed else Cons(c[0], Decode(s[n..]))
  }

  lemma FirstOfEncoded(c: char, t: string)
    ensures First(EncodeByte(c) + t) == ([c], |EncodeByte(c)|)
  {
    if c as int < 32 && !(IsSeven(c) && c != BEL && c != VT) { FirstOfHex(c, t); }
  }

  lemma FirstOfHex(c: char, t: string)
    requires c as int < 32 && !(IsSeven(c) && c != BEL && c != VT)
    ensures First(EncodeByte(c) + t) == ([c], |EncodeByte(c)|)
  {
    HexRoundTrip(c as int);
    assert (EncodeByte(c) + t)[2..6] == EncodeByte(c)[2..6];
  }

  lemma HexRoundTrip(n: nat)
    requires n < 32
    ensures HexByte(['0', '0', HEX[n / 16], HEX[n % 16]]) == n
  {
    HexDigit(n / 16);
    HexDigit(n % 16);
  }

  lemma HexDigit(d: nat)
    requires d < 16
    ensures HexValue(HEX[d]) == d
  {
  }

  /** Decoding undoes encoding, for every text. */
  lemma {:induction false} DecodeEncoded(s: string)
    ensures Decode(Encode(s)) == Decoded(s)
  {
    if s != "" {
      var w := EncodeByte(s[0]);
      FirstOfEncoded(s[0], Encode(s[1..]));
      assert Encode(s)[|w|..] == Encode(s[1..]);
      DecodeEncoded(s[1..]);
    }
  }

  // -------------------------------------------------------------- what the server reads

  /** BEL, VT and the apostrophe arrive as a backslash and a letter or the apostrophe. */
  function ReadByte(c: char): string {
    if c == BEL then "\\a" else if c == VT then "\\v" else if c == '\'' then "\\'" else [c]
  }

  function AsRead(s: string): string {
    if s == "" then "" else ReadByte(s[0]) + AsRead(s[1..])
  }

  lemma DecodeNext(w: string, c: char, t: string)
    requires w != "" && First(w + t) == ([c], |w|)
    ensures Decode(w + t) == Cons(c, Decode(t))
  {
    assert (w + t)[|w|..] == t;
  }

  lemma DecodeLetter(d: char, t: string)
    requires d == 'a' || d == 'v' || d == '\''
    ensures Decode(['\\', '\\', d] + t) == Cons('\\', Cons(d, Decode(t)))
  {
    DecodeNext([d], d, t);
    DecodeNext("\\\\", '\\', [d] + t);
    assert ['\\', '\\', d] + t == "\\\\" + ([d] + t);
  }

  lemma DecodeByte(c: char, t: string)
    requires c as int >= 32 || IsSeven(c)
    ensures Decode(EscapeByte(c) + t) == if Decode(t).Decoded? then Decoded(ReadByte(c) + Decode(t).text) else Malformed
  {
    if c == BEL || c == VT || c == '\'' {
      DecodeSlashed(c, t);
    } else {
      DecodeNext(EscapeByte(c), c, t);
    }
  }

  lemma DecodeSlashed(c: char, t: string)
    requires c == BEL || c == VT || c == '\''
    ensures Decode(EscapeByte(c) + t) == if Decode(t).Decoded? then Decoded(ReadByte(c) + Decode(t).text) else Malformed
  {
    var d := ReadByte(c)[1];
    DecodeLetter(d, t);
    assert EscapeByte(c) == ['\\', '\\', d];
    if Decode(t).Decoded? { Regroup(['\\'], [d], Decode(t).text); }
  }

  /** What the sender writes is a legal JSON string exactly when the message has no other control bytes. */
  lemma {:induction false} EscapedIsLegal(s: string)
    ensures Decode(Escaped(s)) == if OnlySeven(s) then Decoded(AsRead(s)) else Malformed
  {
    if s != "" {
      OnlySevenCons(s);
      EscapedIsLegal(s[1..]);
      if s[0] as int >= 32 || IsSeven(s[0]) {
        LegalCons(s);
      } else {
        assert First(Escaped(s)).0 == "";
      }
    }
  }

  lemma OnlySevenCons(s: string)
    requires s != ""
    ensures OnlySeven(s) <==> (s[0] as int >= 32 || IsSeven(s[0])) && OnlySeven(s[1..])
  {
    assert s == [s[0]] + s[1..];
  }

  lemma LegalCons(s: string)
    requires s != "" && (s[0] as int >= 32 || IsSeven(s[0]))
    requires Decode(Escaped(s[1..])) == if OnlySeven(s[1..]) then Decoded(AsRead(s[1..])) else Malformed
    ensures Decode(Escaped(s)) == if OnlySeven(s[1..]) then Decoded(AsRead(s)) else Malformed
  {
    DecodeByte(s[0], Escaped(s[1..]));
  }

  // ---------------------------------------------------------------- what is delivered

  /** The bytes of the delivered frame for a byte of the message. */
  function WireByte(c: char): string {
    if c == '"' then "\\\\\\\""
    else if c == '\\' then "\\\\\\\\"
    else if c == BEL then "\\\\\\\\a"
    else if c == VT then "\\\\\\\\v"
    else if c == '\'' then "\\\\\\\\'"
    else if c == BS then "\\\\b"
    else if c == FF then "\\\\f"
    else if c == LF then "\\\\n"
    else if c == CR then "\\\\r"
    else if c == TAB then "\\\\t"
    else [c]
  }

  function Wire(s: string): string {
    if s == "" then "" else WireByte(s[0]) + Wire(s[1..])
  }

  lemma {:induction false} EncodeConcat(s: string, t: string)
    ensures Encode(s + t) == Encode(s) + Encode(t)
  {
    if s == "" {
      assert s + t == t;
    } else {
      EncodeConcat(s[1..], t);
      EncodeFirst(s, t);
      Regroup(EncodeByte(s[0]), Encode(s[1..]), Encode(t));
    }
  }

  lemma EncodeFirst(s: string, t: string)
    requires s != ""
    ensures Encode(s + t) == EncodeByte(s[0]) + Encode(s[1..] + t)
  {
    assert (s + t)[1..] == s[1..] + t;
  }

  lemma EncodeOne(c: char)
    ensures Encode([c]) == EncodeByte(c)
  {
    assert [c][1..] == "" && EncodeByte(c) + "" == EncodeByte(c);
  }

  lemma EncodeTwo(c: char, d: char)
    ensures Encode([c, d]) == EncodeByte(c) + EncodeByte(d)
  {
    EncodeConcat([c], [d]);
    EncodeOne(c);
    EncodeOne(d);
    assert [c] + [d] == [c, d];
  }

  lemma TwiceLetter(d: char)
    requires d == 'a' || d == 'v' || d == '\''
    ensures Encode(Encode(['\\', d])) == "\\\\\\\\" + [d]
  {
    EncodeTwo('\\', d);
    assert Encode(['\\', d]) == "\\\\" + [d];
    EncodeConcat("\\\\", [d]);
    EncodeTwo('\\', '\\');
    EncodeOne(d);
  }

  lemma TwiceShort(c: char, d: char)
    requires EncodeByte(c) == ['\\', d]
    ensures Encode(Encode([c])) == "\\\\" + EncodeByte(d)
  {
    EncodeOne(c);
    EncodeTwo('\\', d);
  }

  lemma TwiceSlashed(c: char)
    requires c == BEL || c == VT || c == '\''
    ensures Encode(Encode(ReadByte(c))) == WireByte(c)
  {
    TwiceLetter(ReadByte(c)[1]);
    assert ReadByte(c) == ['\\', ReadByte(c)[1]];
  }

  lemma TwiceByte(c: char)
    requires c as int >= 32 || IsSeven(c)
    ensures Encode(Encode(ReadByte(c))) == WireByte(c)
  {
    if c == BEL || c == VT || c == '\'' {
      TwiceSlashed(c);
    } else if |EncodeByte(c)| == 2 {
      TwiceShort(c, EncodeByte(c)[1]);
    } else {
      EncodeOne(c);
    }
  }

  /** Encoding twice what was decoded once, byte by byte. */
  lemma {:induction false} EncodedTwice(s: string)
    requires OnlySeven(s)
    ensures Encode(Encode(AsRead(s))) == Wire(s)
  {
    if s != "" {
      EncodeConcat(ReadByte(s[0]), AsRead(s[1..]));
      EncodeConcat(Encode(ReadByte(s[0])), Encode(AsRead(s[1..])));
      TwiceByte(s[0]);
      EncodedTwice(s[1..]);
    }
  }

  lemma {:induction false} WireConcat(s: string, t: string)
    ensures Wire(s + t) == Wire(s) + Wire(t)
  {
    if s == "" {
      assert s + t == t;
    } else {
      WireConcat(s[1..], t);
      WireFirst(s, t);
      Regroup(WireByte(s[0]), Wire(s[1..]), Wire(t));
    }
  }

  lemma WireFirst(s: string, t: string)
    requires s != ""
    ensures Wire(s + t) == WireByte(s[0]) + Wire(s[1..] + t)
  {
    assert (s + t)[1..] == s[1..] + t;
  }
}
