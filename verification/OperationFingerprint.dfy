/** The byte string behind an operation's fingerprint: each part as decimal length, colon, bytes, semicolon. */
module OperationFingerprint {
  import opened Common

  newtype Byte = x: int | 0 <= x < 256
  type Bytes = seq<Byte>

  const COLON: Byte := 58
  const SEMICOLON: Byte := 59

  predicate IsDigit(b: Byte) { 48 <= b <= 57 }

  function DigitOf(d: nat): (b: Byte)
    requires d < 10
    ensures IsDigit(b) && b != COLON && ValueOf(b) == d
  {
    (48 + d) as Byte
  }

  function ValueOf(b: Byte): (d: nat)
    ensures d < 10
  {
    if IsDigit(b) then b as nat - 48 else 0
  }

  /** The decimal text of a number, without leading zeros. */
  function Decimal(n: nat): (text: Bytes)
    ensures text != [] && forall i :: 0 <= i < |text| ==> IsDigit(text[i])
    ensures text[0] == 48 ==> n == 0 && |text| == 1
  {
    if n < 10 then [DigitOf(n)] else Decimal(n / 10) + [DigitOf(n % 10)]
  }

  function Parse(text: Bytes): nat {
    if text == [] then 0 else 10 * Parse(text[..|text| - 1]) + ValueOf(text[|text| - 1])
  }

  lemma {:induction false} ParseUndoesDecimal(n: nat)
    ensures Parse(Decimal(n)) == n
  {
    if n < 10 {
      assert Parse([DigitOf(n)][..0]) == 0;
    } else {
      ParseUndoesDecimal(n / 10);
      assert Decimal(n)[..|Decimal(n)| - 1] == Decimal(n / 10);
    }
  }

  function Frame(part: Bytes): Bytes {
    Decimal(|part|) + [COLON] + part + [SEMICOLON]
  }

  /** What the hash is fed, as one string. */
  function Encode(parts: seq<Bytes>): Bytes {
    if parts == [] then [] else Frame(parts[0]) + Encode(parts[1..])
  }

  lemma {:induction false} EncodeAppend(parts: seq<Bytes>, part: Bytes)
    ensures Encode(parts + [part]) == Encode(parts) + Frame(part)
  {
    if parts == [] {
      assert ([] + [part])[1..] == [];
    } else {
      assert (parts + [part])[1..] == parts[1..] + [part];
      EncodeAppend(parts[1..], part);
    }
  }

  /** The running hash's input, update by update. */
  method FeedHash(parts: seq<Bytes>) returns (fed: Bytes)
    ensures fed == Encode(parts)
  {
    fed := [];
    for i := 0 to |parts|
      invariant fed == Encode(parts[..i])
    {
      fed := fed + Decimal(|parts[i]|);
      fed := fed + [COLON];
      fed := fed + parts[i];
      fed := fed + [SEMICOLON];
      EncodeAppend(parts[..i], parts[i]);
      assert parts[..i + 1] == parts[..i] + [parts[i]];
    }
    assert parts[..|parts|] == parts;
  }

  // ----- decoding -----

  /** The position of the first colon, or the length. */
  function ColonAt(s: Bytes): (i: nat)
    ensures i <= |s|
  {
    if s == [] || s[0] == COLON then 0 else 1 + ColonAt(s[1..])
  }

  datatype Reading = Reading(part: Bytes, rest: Bytes)

  /** Reads one frame off the front. */
  function FirstFrame(s: Bytes): (reading: Option<Reading>)
    ensures reading.Some? ==> |reading.value.rest| < |s|
  {
    var colon := ColonAt(s);
    var length := Parse(s[..colon]);
    if colon + length + 2 > |s| || s[colon + length + 1] != SEMICOLON then None
    else Some(Reading(s[colon + 1..colon + 1 + length], s[colon + length + 2..]))
  }

  function Decode(s: Bytes): Option<seq<Bytes>>
    decreases |s|
  {
    if s == [] then Some([])
    else
      match FirstFrame(s)
      case None => None
      case Some(Reading(part, rest)) =>
        match Decode(rest)
        case None => None
        case Some(parts) => Some([part] + parts)
  }

  lemma {:induction false} ColonAfterDigits(digits: Bytes, rest: Bytes)
    requires forall i :: 0 <= i < |digits| ==> IsDigit(digits[i])
    ensures ColonAt(digits + [COLON] + rest) == |digits|
  {
    var s := digits + [COLON] + rest;
    if digits == [] {
      assert s[0] == COLON;
    } else {
      assert s[0] == digits[0] && IsDigit(digits[0]);
      assert s[1..] == digits[1..] + [COLON] + rest;
      ColonAfterDigits(digits[1..], rest);
    }
  }

  /** Whatever follows a frame, reading gives back its part and what follows. */
  lemma FrameIsFound(part: Bytes, rest: Bytes)
    ensures Frame(part) + rest != []
    ensures FirstFrame(Frame(part) + rest) == Some(Reading(part, rest))
  {
    var digits := Decimal(|part|);
    var s := Frame(part) + rest;
    assert s == digits + [COLON] + (part + [SEMICOLON] + rest);
    ColonAfterDigits(digits, part + [SEMICOLON] + rest);
    ParseUndoesDecimal(|part|);
    assert s[..|digits|] == digits;
    assert s[|digits| + 1..|digits| + 1 + |part|] == part;
    assert s[|digits| + |part| + 2..] == rest;
  }

  /** The string a fingerprint is made of determines the parts. */
  lemma {:induction false} DecodeUndoesEncode(parts: seq<Bytes>)
    ensures Decode(Encode(parts)) == Some(parts)
  {
    if parts != [] {
      FrameIsFound(parts[0], Encode(parts[1..]));
      DecodeUndoesEncode(parts[1..]);
      assert parts == [parts[0]] + parts[1..];
    }
  }

  /** Two different lists of parts never feed the hash the same string. */
  lemma DifferentPartsDifferentStrings(a: seq<Bytes>, b: seq<Bytes>)
    requires Encode(a) == Encode(b)
    ensures a == b
  {
    DecodeUndoesEncode(a);
    DecodeUndoesEncode(b);
  }
}
