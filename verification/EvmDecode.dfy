/** Decoding of JSON-RPC hex results into 32-byte words. */
module EvmDecode {
  import opened Common

  type Byte = b: int | 0 <= b < 256

  /** One slot of a batch answer: no result, a JSON value that is not a string,
      or a JSON string. */
  datatype Raw = Missing | NotAString | Text(s: string)

  // ---- Hex text ----

  predicate IsSpace(c: char) {
    c == ' ' || c == '\t' || c == '\n' || c == '\r' || c == '\U{0B}' || c == '\U{0C}'
  }

  function HexValue(c: char): (r: Option<int>)
    ensures r.Some? ==> 0 <= r.value < 16
  {
    if '0' <= c <= '9' then Some(c as int - '0' as int)
    else if 'a' <= c <= 'f' then Some(c as int - 'a' as int + 10)
    else if 'A' <= c <= 'F' then Some(c as int - 'A' as int + 10)
    else None
  }

  /** What scanning two characters with %02x yields: leading blanks are skipped,
      a sign is taken, and scanning stops quietly at the first character that is
      no digit. */
  function ScanPair(c0: char, c1: char): Option<Byte> {
    var h0, h1 := HexValue(c0), HexValue(c1);
    if h0.Some? then Some(if h1.Some? then 16 * h0.value + h1.value else h0.value)
    else if h1.None? || c0 == '\n' then None
    else if c0 == '+' || IsSpace(c0) then Some(h1.value)
    else if c0 == '-' then Some((256 - h1.value) % 256)
    else None
  }

  function TrimLeft(s: string): string {
    if s != "" && IsSpace(s[0]) then TrimLeft(s[1..]) else s
  }

  function TrimRight(s: string): string {
    if s != "" && IsSpace(s[|s| - 1]) then TrimRight(s[..|s| - 1]) else s
  }

  function TrimPrefix(s: string): string {
    if "0x" <= s then s[2..] else s
  }

  /** The digits a result string carries, padded to whole bytes. */
  function Digits(s: string): (r: string)
    ensures |r| % 2 == 0
  {
    var t := TrimPrefix(TrimRight(TrimLeft(s)));
    if |t| % 2 != 0 then "0" + t else t
  }

  function ScanPairs(s: string): (r: Option<seq<Byte>>)
    requires |s| % 2 == 0
    ensures r.Some? ==> |r.value| == |s| / 2
    decreases |s|
  {
    if s == "" then Some([])
    else
      var front := ScanPairs(s[..|s| - 2]);
      var b := ScanPair(s[|s| - 2], s[|s| - 1]);
      if front.Some? && b.Some? then Some(front.value + [b.value]) else None
  }

  function HexBytes(raw: Raw): Option<seq<Byte>> {
    if !raw.Text? || Digits(raw.s) == "" then None else ScanPairs(Digits(raw.s))
  }

  /** decodeHexBytes as it is written: a byte array filled pair by pair. */
  method DecodeHexBytes(raw: Raw) returns (r: Option<seq<Byte>>)
    ensures r == HexBytes(raw)
  {
    if !raw.Text? { return None; }
    var s := Digits(raw.s);
    if s == "" { return None; }
    var b := new Byte[|s| / 2];
    for i := 0 to b.Length
      invariant ScanPairs(s[..2 * i]) == Some(b[..i])
    {
      var v := ScanPair(s[2 * i], s[2 * i + 1]);
      ScanNext(s, i, b[..i]);
      if v.None? { return None; }
      b[i] := v.value;
      assert b[..i + 1] == b[..i] + [v.value];
    }
    assert s[..2 * b.Length] == s && b[..b.Length] == b[..];
    return Some(b[..]);
  }

  lemma ScanNext(s: string, i: nat, front: seq<Byte>)
    requires |s| % 2 == 0 && 2 * i + 2 <= |s| && ScanPairs(s[..2 * i]) == Some(front)
    ensures var v := ScanPair(s[2 * i], s[2 * i + 1]);
      if v.Some? then ScanPairs(s[..2 * (i + 1)]) == Some(front + [v.value]) else ScanPairs(s).None?
  {
    assert s[..2 * (i + 1)][..2 * i] == s[..2 * i];
    if ScanPair(s[2 * i], s[2 * i + 1]).None? { NoneFromPrefix(s, i + 1); }
  }

  lemma {:induction false} NoneFromPrefix(s: string, i: nat)
    requires |s| % 2 == 0 && 2 * i <= |s| && ScanPairs(s[..2 * i]).None?
    ensures ScanPairs(s).None?
    decreases |s|
  {
    if 2 * i < |s| {
      assert s[..|s| - 2][..2 * i] == s[..2 * i];
      NoneFromPrefix(s[..|s| - 2], i);
    } else {
      assert s[..2 * i] == s;
    }
  }

  // ---- Words ----

  function BigEndian(b: seq<Byte>): (r: int)
    ensures r >= 0
  {
    if b == [] then 0 else BigEndian(b[..|b| - 1]) * 256 + b[|b| - 1]
  }

  function Word(b: seq<Byte>, i: nat): Option<int> {
    if i * 32 + 32 > |b| then None else Some(BigEndian(b[i * 32..i * 32 + 32]))
  }

  function DecodeUint256(raw: Raw): Option<int> {
    var b := HexBytes(raw);
    if b.None? then None else Word(b.value, 0)
  }

  function DecodeReserves(raw: Raw): Option<(int, int)> {
    var b := HexBytes(raw);
    if b.None? then None
    else
      var r0, r1 := Word(b.value, 0), Word(b.value, 1);
      if r0.None? || r1.None? then None else Some((r0.value, r1.value))
  }

  function DecodeSlot0(raw: Raw): Option<int> {
    DecodeUint256(raw)
  }

  // ---- What a node sends: ABI words as hex ----

  function Pow256(n: nat): (r: int)
    ensures r >= 1
  {
    if n == 0 then 1 else Pow256(n - 1) * 256
  }

  /** n as width big-endian bytes. */
  function ToBytes(n: nat, width: nat): (r: seq<Byte>)
    ensures |r| == width
  {
    if width == 0 then [] else ToBytes(n / 256, width - 1) + [n % 256]
  }

  function HexDigit(v: int): char
    requires 0 <= v < 16
  {
    if v < 10 then ('0' as int + v) as char else ('a' as int + v - 10) as char
  }

  function ToHex(b: seq<Byte>): (r: string)
    ensures |r| == 2 * |b|
  {
    if b == [] then "" else ToHex(b[..|b| - 1]) + [HexDigit(b[|b| - 1] / 16), HexDigit(b[|b| - 1] % 16)]
  }

  function EncodeWords(words: seq<nat>): (r: seq<Byte>)
    ensures |r| == 32 * |words|
  {
    if words == [] then [] else EncodeWords(words[..|words| - 1]) + ToBytes(words[|words| - 1], 32)
  }

  function Encode(words: seq<nat>): Raw {
    Text("0x" + ToHex(EncodeWords(words)))
  }

  // ---- Round trips ----

  lemma {:induction false} BytesRoundTrip(n: nat, width: nat)
    requires n < Pow256(width)
    ensures BigEndian(ToBytes(n, width)) == n
    decreases width
  {
    if width > 0 {
      BytesRoundTrip(n / 256, width - 1);
      var b := ToBytes(n, width);
      assert b[..|b| - 1] == ToBytes(n / 256, width - 1);
    }
  }

  lemma DigitRoundTrip(v: int)
    requires 0 <= v < 16
    ensures HexValue(HexDigit(v)) == Some(v) && !IsSpace(HexDigit(v)) && HexDigit(v) != 'x'
  {
  }

  lemma {:induction false} HexRoundTrip(b: seq<Byte>)
    ensures ScanPairs(ToHex(b)) == Some(b)
    decreases |b|
  {
    if b != [] {
      var last := b[|b| - 1];
      HexRoundTrip(b[..|b| - 1]);
      DigitRoundTrip(last / 16);
      DigitRoundTrip(last % 16);
      var s := ToHex(b);
      assert s[..|s| - 2] == ToHex(b[..|b| - 1]);
      assert b == b[..|b| - 1] + [last];
    }
  }

  lemma NothingToTrim(s: string)
    requires s != "" && !IsSpace(s[0]) && !IsSpace(s[|s| - 1])
    ensures TrimRight(TrimLeft(s)) == s
  {
  }

  lemma PrefixedDigits(t: string)
    requires t != "" && |t| % 2 == 0 && !IsSpace(t[|t| - 1])
    ensures Digits("0x" + t) == t
  {
    var s := "0x" + t;
    assert s[|s| - 1] == t[|t| - 1];
    NothingToTrim(s);
    assert s[2..] == t;
  }

  lemma LastDigit(b: seq<Byte>)
    requires b != []
    ensures !IsSpace(ToHex(b)[|ToHex(b)| - 1])
  {
    DigitRoundTrip(b[|b| - 1] % 16);
  }

  predicate AreWords(words: seq<nat>) {
    forall i :: 0 <= i < |words| ==> words[i] < Pow256(32)
  }

  lemma {:induction false} WordRoundTrip(words: seq<nat>, i: nat)
    requires i < |words| && AreWords(words)
    ensures Word(EncodeWords(words), i) == Some(words[i])
    decreases |words|
  {
    var b := EncodeWords(words);
    var last := |words| - 1;
    if i == last {
      assert b[i * 32..i * 32 + 32] == ToBytes(words[i], 32);
      BytesRoundTrip(words[i], 32);
    } else {
      WordRoundTrip(words[..last], i);
      assert b[i * 32..i * 32 + 32] == EncodeWords(words[..last])[i * 32..i * 32 + 32];
    }
  }

  lemma EncodedBytes(words: seq<nat>)
    requires words != []
    ensures HexBytes(Encode(words)) == Some(EncodeWords(words))
  {
    LastDigit(EncodeWords(words));
    PrefixedDigits(ToHex(EncodeWords(words)));
    HexRoundTrip(EncodeWords(words));
  }

  /** What a v2 pool answers to getReserves, and a v3 pool to slot0 or a token to
      balanceOf, decodes to the values sent, whatever words follow. */
  lemma AnswersDecode(words: seq<nat>)
    requires words != [] && AreWords(words)
    ensures DecodeUint256(Encode(words)) == DecodeSlot0(Encode(words)) == Some(words[0])
    ensures DecodeReserves(Encode(words)) == if |words| >= 2 then Some((words[0], words[1])) else None
  {
    EncodedBytes(words);
    WordRoundTrip(words, 0);
    if |words| >= 2 { WordRoundTrip(words, 1); }
  }

  // ---- Text that is not hex ----

  predicate IsHex(s: string) {
    forall i :: 0 <= i < |s| ==> HexValue(s[i]).Some?
  }

  lemma ScanOnePair(c0: char, c1: char)
    ensures ScanPairs([c0, c1]) == if ScanPair(c0, c1).Some? then Some([ScanPair(c0, c1).value]) else None
  {
    var d := [c0, c1];
    assert d[..|d| - 2] == "";
    var none: seq<Byte> := [];
    assert ScanPairs("") == Some(none);
    if ScanPair(c0, c1).Some? { assert none + [ScanPair(c0, c1).value] == [ScanPair(c0, c1).value]; }
  }

  /** A stray character after a hex digit is not refused: the byte is read as
      that digit alone. */
  lemma StrayDigitIsAccepted(c0: char, c1: char)
    requires HexValue(c0).Some? && HexValue(c1).None? && !IsSpace(c1)
    ensures HexBytes(Text(['0', 'x', c0, c1])) == Some([HexValue(c0).value])
  {
    var t := ['0', 'x', c0, c1];
    assert TrimLeft(t) == t && TrimRight(t) == t;
    assert "0x" <= t && t[2..] == [c0, c1];
    assert Digits(t) == [c0, c1];
    ScanOnePair(c0, c1);
  }

  /** Every pair can be scanned. */
  predicate Scannable(s: string)
    requires |s| % 2 == 0
  {
    forall i :: 0 <= i < |s| / 2 ==> ScanPair(s[2 * i], s[2 * i + 1]).Some?
  }

  /** Text is refused exactly when some pair cannot be scanned; hex never is. */
  lemma {:induction false} DecodesIffScannable(s: string)
    requires |s| % 2 == 0
    ensures ScanPairs(s).Some? <==> Scannable(s)
    ensures IsHex(s) ==> Scannable(s)
    decreases |s|
  {
    if s != "" {
      var front := s[..|s| - 2];
      DecodesIffScannable(front);
      assert forall i :: 0 <= i < |front| / 2 ==> front[2 * i] == s[2 * i] && front[2 * i + 1] == s[2 * i + 1];
      assert Scannable(s) <==> Scannable(front) && ScanPair(s[|s| - 2], s[|s| - 1]).Some? by {
        assert |s| - 2 == 2 * (|s| / 2 - 1);
      }
    }
  }
}
