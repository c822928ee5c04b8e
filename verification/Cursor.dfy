/** Opaque page cursors: decimal keys joined by colons, in unpadded base64url
    (section 5 of RFC 4648). */
module Cursor {
  import opened Options
  import opened Arithmetic
  import opened DecimalText

  newtype Byte = b: int | 0 <= b < 256

  // ----------------------------------------------------------------- base64url

  /** The character for a 6-bit group. */
  function Symbol(v: nat): (c: char)
    requires v < 64
  {
    if v < 26 then ('A' as int + v) as char
    else if v < 52 then ('a' as int + (v - 26)) as char
    else if v < 62 then ('0' as int + (v - 52)) as char
    else if v == 62 then '-'
    else '_'
  }

  /** The 6-bit group of a character; the decoder also takes the two standard symbols. */
  function GroupOf(c: char): (r: Option<nat>)
    ensures r.Some? ==> r.value < 64
  {
    if 'A' <= c <= 'Z' then Some(c as int - 'A' as int)
    else if 'a' <= c <= 'z' then Some(c as int - 'a' as int + 26)
    else if '0' <= c <= '9' then Some(c as int - '0' as int + 52)
    else if c == '-' || c == '+' then Some(62)
    else if c == '_' || c == '/' then Some(63)
    else None
  }

  lemma GroupOfSymbol(v: nat)
    requires v < 64
    ensures GroupOf(Symbol(v)) == Some(v)
  {
  }

  function Encode3(a: nat, b: nat, c: nat): string
    requires a < 256 && b < 256 && c < 256
  {
    [Symbol(a / 4), Symbol(a % 4 * 16 + b / 16), Symbol(b % 16 * 4 + c / 64), Symbol(c % 64)]
  }

  function EncodeBytes(bytes: seq<Byte>): string {
    if |bytes| == 0 then ""
    else if |bytes| == 1 then Encode3(bytes[0] as nat, 0, 0)[..2]
    else if |bytes| == 2 then Encode3(bytes[0] as nat, bytes[1] as nat, 0)[..3]
    else Encode3(bytes[0] as nat, bytes[1] as nat, bytes[2] as nat) + EncodeBytes(bytes[3..])
  }

  /** Groups of four characters; a lone last character is an error. */
  function DecodeBytes(s: string): Option<seq<Byte>> {
    if |s| == 0 then Some([])
    else if |s| == 1 then None
    else
      var g0, g1 := GroupOf(s[0]), GroupOf(s[1]);
      if g0.None? || g1.None? then None
      else
        var first := (g0.value * 4 + g1.value / 16) as Byte;
        if |s| == 2 then Some([first])
        else
          var g2 := GroupOf(s[2]);
          if g2.None? then None
          else
            var second := (g1.value % 16 * 16 + g2.value / 4) as Byte;
            if |s| == 3 then Some([first, second])
            else
              var g3 := GroupOf(s[3]);
              if g3.None? then None
              else
                var rest := DecodeBytes(s[4..]);
                if rest.None? then None
                else Some([first, second, (g2.value % 4 * 64 + g3.value) as Byte] + rest.value)
  }

  lemma Groups(a: nat, b: nat, c: nat)
    requires a < 256 && b < 256 && c < 256
    ensures
      var e := Encode3(a, b, c);
      && GroupOf(e[0]) == Some(a / 4) && GroupOf(e[1]) == Some(a % 4 * 16 + b / 16)
      && GroupOf(e[2]) == Some(b % 16 * 4 + c / 64) && GroupOf(e[3]) == Some(c % 64)
    ensures a / 4 * 4 + (a % 4 * 16 + b / 16) / 16 == a
    ensures (a % 4 * 16 + b / 16) % 16 * 16 + (b % 16 * 4 + c / 64) / 4 == b
    ensures (b % 16 * 4 + c / 64) % 4 * 64 + c % 64 == c
  {
    GroupOfSymbol(a / 4);
    GroupOfSymbol(a % 4 * 16 + b / 16);
    GroupOfSymbol(b % 16 * 4 + c / 64);
    GroupOfSymbol(c % 64);
  }

  lemma OneByte(a: Byte)
    ensures DecodeBytes(EncodeBytes([a])) == Some([a])
  {
    Groups(a as nat, 0, 0);
  }

  lemma TwoBytes(a: Byte, b: Byte)
    ensures DecodeBytes(EncodeBytes([a, b])) == Some([a, b])
  {
    var e := Encode3(a as nat, b as nat, 0);
    Groups(a as nat, b as nat, 0);
    assert EncodeBytes([a, b]) == [e[0], e[1], e[2]];
  }

  lemma ThreeBytes(a: Byte, b: Byte, c: Byte, tail: string)
    ensures DecodeBytes(Encode3(a as nat, b as nat, c as nat) + tail) ==
      if DecodeBytes(tail).None? then None else Some([a, b, c] + DecodeBytes(tail).value)
  {
    var s := Encode3(a as nat, b as nat, c as nat) + tail;
    Groups(a as nat, b as nat, c as nat);
    assert s[4..] == tail;
  }

  lemma {:induction false} BytesRoundTrip(bytes: seq<Byte>)
    ensures DecodeBytes(EncodeBytes(bytes)) == Some(bytes)
  {
    if |bytes| == 1 {
      OneByte(bytes[0]);
      assert bytes == [bytes[0]];
    } else if |bytes| == 2 {
      TwoBytes(bytes[0], bytes[1]);
      assert bytes == [bytes[0], bytes[1]];
    } else if |bytes| >= 3 {
      ThreeBytes(bytes[0], bytes[1], bytes[2], EncodeBytes(bytes[3..]));
      BytesRoundTrip(bytes[3..]);
      assert bytes == [bytes[0], bytes[1], bytes[2]] + bytes[3..];
    }
  }

  lemma {:induction false} NoPadding(bytes: seq<Byte>)
    ensures '=' !in EncodeBytes(bytes)
  {
    if |bytes| >= 3 {
      NoPadding(bytes[3..]);
    }
  }

  // ------------------------------------------------------------------- integers

  function IntText(n: int): string {
    if n < 0 then "-" + NatText(-n) else NatText(n)
  }

  function ParseInt(s: string): Option<int> {
    if s == "" then None
    else if s[0] == '-' then (if |s| > 1 && AllDigits(s[1..]) then Some(0 - (DigitsValue(s[1..]) as int)) else None)
    else if AllDigits(s) then Some(DigitsValue(s))
    else None
  }

  lemma IntRoundTrip(n: int)
    ensures ParseInt(IntText(n)) == Some(n)
    ensures forall i | 0 <= i < |IntText(n)| :: IntText(n)[i] == '-' || IsDigit(IntText(n)[i])
  {
    var m := if n < 0 then -n else n;
    NatTextValue(m);
    if n < 0 {
      assert ("-" + NatText(m))[1..] == NatText(m);
    } else {
      assert IsDigit(NatText(m)[0]);
    }
  }

  // -------------------------------------------------------------------- cursors

  predicate Ascii(s: string) {
    forall i | 0 <= i < |s| :: s[i] as int < 128
  }

  function ToBytes(s: string): seq<Byte>
    requires Ascii(s)
  {
    seq(|s|, i requires 0 <= i < |s| => (s[i] as int) as Byte)
  }

  /** ASCII decoding; a byte above 127 is an error. */
  function FromBytes(bytes: seq<Byte>): Option<string> {
    if forall i | 0 <= i < |bytes| :: bytes[i] < 128
    then Some(seq(|bytes|, i requires 0 <= i < |bytes| => (bytes[i] as int) as char))
    else None
  }

  lemma AsciiRoundTrip(s: string)
    requires Ascii(s)
    ensures FromBytes(ToBytes(s)) == Some(s)
  {
    assert FromBytes(ToBytes(s)).value == s;
  }

  /** Position of the first colon, or the length. */
  function FindColon(s: string): (k: nat)
    ensures k <= |s| && (k < |s| ==> s[k] == ':') && forall i | 0 <= i < k :: s[i] != ':'
  {
    if s == "" || s[0] == ':' then 0 else 1 + FindColon(s[1..])
  }

  /** The part before the first colon as an integer, and the part after it. */
  function SplitKey(s: string): Option<(int, string)> {
    var k := FindColon(s);
    if k == |s| then None
    else
      var n := ParseInt(s[..k]);
      if n.None? then None else Some((n.value, s[k + 1..]))
  }

  lemma SplitJoined(n: int, rest: string)
    ensures SplitKey(IntText(n) + ":" + rest) == Some((n, rest))
  {
    IntRoundTrip(n);
    var t := IntText(n);
    var s := t + ":" + rest;
    assert s[|t|] == ':';
    assert FindColon(s) == |t|;
    assert s[..|t|] == t && s[|t| + 1..] == rest;
  }

  function PairText(ts: int, id: int): string {
    IntText(ts) + ":" + IntText(id)
  }

  function TripleText(ts: int, rank: int, id: int): string {
    IntText(ts) + ":" + PairText(rank, id)
  }

  lemma AsciiJoin(a: string, b: string)
    requires Ascii(a) && Ascii(b)
    ensures Ascii(a + ":" + b)
  {
  }

  lemma TextsAreAscii(ts: int, rank: int, id: int)
    ensures Ascii(PairText(ts, id)) && Ascii(TripleText(ts, rank, id))
  {
    IntRoundTrip(ts);
    IntRoundTrip(rank);
    IntRoundTrip(id);
    AsciiJoin(IntText(ts), IntText(id));
    AsciiJoin(IntText(rank), IntText(id));
    AsciiJoin(IntText(ts), PairText(rank, id));
  }

  function Armor(s: string): string
    requires Ascii(s)
  {
    EncodeBytes(ToBytes(s))
  }

  function Unarmor(value: string): Option<string> {
    if value == "" then None
    else
      var bytes := DecodeBytes(value);
      if bytes.None? then None else FromBytes(bytes.value)
  }

  function EncodeCursor(ts: int, id: int): string {
    TextsAreAscii(ts, 0, id);
    Armor(PairText(ts, id))
  }

  function DecodeCursor(value: string): Option<(int, int)> {
    var text := Unarmor(value);
    if text.None? then None
    else
      var first := SplitKey(text.value);
      if first.None? then None
      else
        var id := ParseInt(first.value.1);
        if id.None? then None else Some((first.value.0, id.value))
  }

  function EncodeEntriesCursor(ts: int, rank: int, id: int): string {
    TextsAreAscii(ts, rank, id);
    Armor(TripleText(ts, rank, id))
  }

  function DecodeEntriesCursor(value: string): Option<(int, int, int)> {
    var text := Unarmor(value);
    if text.None? then None
    else
      var first := SplitKey(text.value);
      if first.None? then None
      else
        var second := SplitKey(first.value.1);
        if second.None? then None
        else
          var id := ParseInt(second.value.1);
          if id.None? || second.value.0 !in {0, 1} then None
          else Some((first.value.0, second.value.0, id.value))
  }

  lemma ArmorRoundTrip(s: string)
    requires Ascii(s) && s != ""
    ensures Unarmor(Armor(s)) == Some(s)
    ensures '=' !in Armor(s)
  {
    BytesRoundTrip(ToBytes(s));
    NoPadding(ToBytes(s));
    AsciiRoundTrip(s);
  }

  /** A cursor decodes to exactly the pair it was made from, and carries no padding. */
  lemma {:induction false} CursorRoundTrip(ts: int, id: int)
    ensures DecodeCursor(EncodeCursor(ts, id)) == Some((ts, id))
    ensures '=' !in EncodeCursor(ts, id)
  {
    TextsAreAscii(ts, 0, id);
    ArmorRoundTrip(PairText(ts, id));
    SplitJoined(ts, IntText(id));
    IntRoundTrip(id);
  }

  lemma {:induction false} EntriesCursorRoundTrip(ts: int, rank: int, id: int)
    ensures DecodeEntriesCursor(EncodeEntriesCursor(ts, rank, id)) == if rank in {0, 1} then Some((ts, rank, id)) else None
    ensures '=' !in EncodeEntriesCursor(ts, rank, id)
  {
    TextsAreAscii(ts, rank, id);
    ArmorRoundTrip(TripleText(ts, rank, id));
    SplitJoined(ts, PairText(rank, id));
    SplitJoined(rank, IntText(id));
    IntRoundTrip(id);
  }
}
