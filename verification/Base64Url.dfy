/** Unpadded base64url (section 5 of RFC 4648), the encoding of session identifiers
    (sdk/go/gateway/sessionauth/store.go). */
module Base64Url {
  import opened Octets

  /** Letters, digits, minus and underscore, in the order of the standard's table. */
  function Digit(n: int): char
    requires 0 <= n < 64
  {
    if n < 26 then ('A' as int + n) as char
    else if n < 52 then ('a' as int + n - 26) as char
    else if n < 62 then ('0' as int + n - 52) as char
    else if n == 62 then '-' else '_'
  }

  const UPPER := "ABCDEFGHIJKLMNOPQRSTUVWXYZ"
  const LOWER := "abcdefghijklmnopqrstuvwxyz"
  const OTHERS := "0123456789-_"

  /** Table 2 of RFC 4648, letter by letter. */
  lemma AlphabetIsStandard(n: int)
    requires 0 <= n < 64
    ensures Digit(n) == if n < 26 then UPPER[n] else if n < 52 then LOWER[n - 26] else OTHERS[n - 52]
  {
    if n < 26 {
      assert UPPER[n] == ('A' as int + n) as char;
    } else if n < 52 {
      assert LOWER[n - 26] == ('a' as int + n - 26) as char;
    } else {
      assert OTHERS[n - 52] == Digit(n);
    }
  }

  /** Three bytes are four digits; a rest of one or two bytes is two or three, their last bits zero. */
  function Encode(bytes: Bytes): string {
    if bytes == [] then ""
    else if |bytes| == 1 then [Digit(bytes[0] / 4), Digit(bytes[0] % 4 * 16)]
    else if |bytes| == 2 then
      [Digit(bytes[0] / 4), Digit(bytes[0] % 4 * 16 + bytes[1] / 16), Digit(bytes[1] % 16 * 4)]
    else
      [Digit(bytes[0] / 4), Digit(bytes[0] % 4 * 16 + bytes[1] / 16), Digit(bytes[1] % 16 * 4 + bytes[2] / 64),
       Digit(bytes[2] % 64)] + Encode(bytes[3..])
  }

  /** The digit's value, or -1 for a character that is no digit. */
  function Value(c: char): (n: int)
    ensures -1 <= n < 64
  {
    if 'A' <= c <= 'Z' then c as int - 'A' as int
    else if 'a' <= c <= 'z' then c as int - 'a' as int + 26
    else if '0' <= c <= '9' then c as int - '0' as int + 52
    else if c == '-' then 62
    else if c == '_' then 63
    else -1
  }

  lemma DigitHasValue(n: int)
    requires 0 <= n < 64
    ensures Value(Digit(n)) == n
  {
  }

  lemma ValueHasDigit(c: char)
    requires Value(c) >= 0
    ensures Digit(Value(c)) == c
  {
  }

  /** Digits only, and no single one left over. */
  predicate Decodable(text: string) {
    (forall i :: 0 <= i < |text| ==> Value(text[i]) >= 0) && |text| % 4 != 1
  }

  /** And nothing in the last digit's spare bits. */
  predicate Canonical(text: string) {
    && Decodable(text)
    && (|text| % 4 == 2 ==> Value(text[|text| - 1]) % 16 == 0)
    && (|text| % 4 == 3 ==> Value(text[|text| - 1]) % 4 == 0)
  }

  lemma DecodableRest(text: string)
    requires Decodable(text) && |text| >= 4
    ensures Decodable(text[4..])
  {
    var rest := text[4..];
    assert forall i :: 0 <= i < |rest| ==> rest[i] == text[i + 4];
    assert |rest| % 4 == |text| % 4;
  }

  /** RawURLEncoding.DecodeString, which ignores the spare bits. */
  function Decode(text: string): Bytes
    requires Decodable(text)
  {
    if text == "" then []
    else if |text| == 2 then [Value(text[0]) * 4 + Value(text[1]) / 16]
    else if |text| == 3 then
      [Value(text[0]) * 4 + Value(text[1]) / 16, Value(text[1]) % 16 * 16 + Value(text[2]) / 4]
    else
      DecodableRest(text);
      [Value(text[0]) * 4 + Value(text[1]) / 16, Value(text[1]) % 16 * 16 + Value(text[2]) / 4,
       Value(text[2]) % 4 * 64 + Value(text[3])] + Decode(text[4..])
  }

  lemma CanonicalRest(text: string)
    requires Canonical(text) && |text| >= 4
    ensures Canonical(text[4..])
  {
    var rest := text[4..];
    assert forall i :: 0 <= i < |rest| ==> rest[i] == text[i + 4];
    assert |rest| % 4 == |text| % 4;
  }

  lemma DigitIsDigit(n: int)
    requires 0 <= n < 64
    ensures Value(Digit(n)) >= 0 && (n % 16 == 0 ==> Value(Digit(n)) % 16 == 0) && (n % 4 == 0 ==> Value(Digit(n)) % 4 == 0)
  {
    DigitHasValue(n);
  }

  lemma TwoAreCanonical(a: int, b: int)
    requires 0 <= a < 64 && 0 <= b < 64 && b % 16 == 0
    ensures Canonical([Digit(a), Digit(b)])
  {
    DigitIsDigit(a);
    DigitIsDigit(b);
    hide Digit, Value;
  }

  lemma ThreeAreCanonical(a: int, b: int, c: int)
    requires 0 <= a < 64 && 0 <= b < 64 && 0 <= c < 64 && c % 4 == 0
    ensures Canonical([Digit(a), Digit(b), Digit(c)])
  {
    DigitIsDigit(a);
    DigitIsDigit(b);
    DigitIsDigit(c);
    hide Digit, Value;
  }

  lemma NothingIsCanonical()
    ensures Canonical("")
  {
  }

  lemma ShortIsCanonical(bytes: Bytes)
    requires |bytes| <= 2
    ensures Canonical(Encode(bytes)) && |Encode(bytes)| == (|bytes| * 4 + 2) / 3
  {
    hide Digit, Value, Canonical;
    if |bytes| == 1 {
      TwoAreCanonical(bytes[0] / 4, bytes[0] % 4 * 16);
    } else if |bytes| == 2 {
      var b, c := bytes[0] % 4 * 16 + bytes[1] / 16, bytes[1] % 16 * 4;
      ThreeAreCanonical(bytes[0] / 4, b, c);
    } else {
      NothingIsCanonical();
    }
  }

  lemma CanonicalAfter(head: string, rest: string)
    requires |head| == 4 && (forall i :: 0 <= i < 4 ==> Value(head[i]) >= 0) && Canonical(rest)
    ensures Canonical(head + rest)
  {
    hide Value;
    var text := head + rest;
    assert |text| % 4 == |rest| % 4;
    if rest != [] { assert text[|text| - 1] == rest[|rest| - 1]; }
  }

  lemma {:induction false} EncodeIsCanonical(bytes: Bytes)
    ensures Canonical(Encode(bytes))
    ensures |Encode(bytes)| == (|bytes| * 4 + 2) / 3
  {
    hide Digit, Value, Canonical;
    if |bytes| <= 2 {
      ShortIsCanonical(bytes);
    } else {
      EncodeIsCanonical(bytes[3..]);
      DigitIsDigit(bytes[0] / 4);
      DigitIsDigit(bytes[0] % 4 * 16 + bytes[1] / 16);
      DigitIsDigit(bytes[1] % 16 * 4 + bytes[2] / 64);
      DigitIsDigit(bytes[2] % 64);
      CanonicalAfter(Encode(bytes)[..4], Encode(bytes[3..]));
      assert Encode(bytes) == Encode(bytes)[..4] + Encode(bytes[3..]);
    }
  }

  lemma Split(hi: int, lo: int, m: int)
    requires 0 <= hi && 0 <= lo < m && (m == 4 || m == 16 || m == 64)
    ensures (hi * m + lo) / m == hi && (hi * m + lo) % m == lo
  {
  }

  /** Four digits and the three bytes they make. */
  lemma Regroup(a: int, b: int, c: int, d: int)
    requires 0 <= a < 64 && 0 <= b < 64 && 0 <= c < 64 && 0 <= d < 64
    ensures var x, y, z := a * 4 + b / 16, b % 16 * 16 + c / 4, c % 4 * 64 + d;
            && x / 4 == a && x % 4 == b / 16 && y / 16 == b % 16 && y % 16 == c / 4 && z / 64 == c % 4 && z % 64 == d
            && 0 <= x < 256 && 0 <= y < 256 && 0 <= z < 256
            && x % 4 * 16 + y / 16 == b && y % 16 * 4 + z / 64 == c
  {
    Split(a, b / 16, 4);
    Split(b % 16, c / 4, 16);
    Split(c % 4, d, 64);
  }

  lemma AllDigits(text: string)
    requires Canonical(text)
    ensures forall i :: 0 <= i < |text| ==> 0 <= Value(text[i]) < 64 && Digit(Value(text[i])) == text[i]
  {
    hide Digit, Value;
    forall i | 0 <= i < |text| ensures 0 <= Value(text[i]) < 64 && Digit(Value(text[i])) == text[i] { ValueHasDigit(text[i]); }
  }

  lemma DecodeHead(text: string)
    requires Canonical(text) && |text| >= 4
    ensures var bytes := Decode(text);
            && Canonical(text[4..]) && |bytes| >= 3 && bytes[3..] == Decode(text[4..])
            && bytes[0] == Value(text[0]) * 4 + Value(text[1]) / 16
            && bytes[1] == Value(text[1]) % 16 * 16 + Value(text[2]) / 4
            && bytes[2] == Value(text[2]) % 4 * 64 + Value(text[3])
  {
    CanonicalRest(text);
    hide Value, Canonical;
    var rest := Decode(text[4..]);
    assert Decode(text)[3..] == rest;
  }

  lemma EncodeHead(bytes: Bytes, a: int, b: int, c: int, d: int)
    requires |bytes| >= 3 && 0 <= a < 64 && 0 <= b < 64 && 0 <= c < 64 && 0 <= d < 64
    requires bytes[0] == a * 4 + b / 16 && bytes[1] == b % 16 * 16 + c / 4 && bytes[2] == c % 4 * 64 + d
    ensures Encode(bytes) == [Digit(a), Digit(b), Digit(c), Digit(d)] + Encode(bytes[3..])
  {
    hide Digit;
    Regroup(a, b, c, d);
  }

  lemma ShortThree(a: int, b: int, c: int)
    requires 0 <= a < 64 && 0 <= b < 64 && 0 <= c < 64 && c % 4 == 0
    ensures var x, y := a * 4 + b / 16, b % 16 * 16 + c / 4;
            x / 4 == a && x % 4 * 16 + y / 16 == b && y % 16 * 4 == c
  {
    Split(a, b / 16, 4);
    Split(b % 16, c / 4, 16);
  }

  lemma TwoBack(a: char, b: char)
    requires Value(a) >= 0 && Value(b) >= 0 && Value(b) % 16 == 0
    ensures Decodable([a, b]) && Encode(Decode([a, b])) == [a, b]
  {
    ValueHasDigit(a);
    ValueHasDigit(b);
    Split(Value(a), Value(b) / 16, 4);
    hide Digit, Value;
    assert Value(b) / 16 * 16 == Value(b);
  }

  lemma ThreeBack(a: char, b: char, c: char)
    requires Value(a) >= 0 && Value(b) >= 0 && Value(c) >= 0 && Value(c) % 4 == 0
    ensures Decodable([a, b, c]) && Encode(Decode([a, b, c])) == [a, b, c]
  {
    ValueHasDigit(a);
    ValueHasDigit(b);
    ValueHasDigit(c);
    ShortThree(Value(a), Value(b), Value(c));
    hide Digit, Value;
  }

  lemma NothingBack()
    ensures Decode("") == [] && Encode([]) == ""
  {
  }

  lemma ShortBack(text: string)
    requires Canonical(text) && |text| < 4
    ensures Encode(Decode(text)) == text
  {
    assert |text| != 1 && forall i :: 0 <= i < |text| ==> Value(text[i]) >= 0;
    hide Digit, Value, Encode, Decode;
    if |text| == 2 {
      assert text == [text[0], text[1]];
      TwoBack(text[0], text[1]);
    } else if |text| == 3 {
      assert text == [text[0], text[1], text[2]];
      ThreeBack(text[0], text[1], text[2]);
    } else {
      NothingBack();
    }
  }

  lemma {:induction false} EncodeDecode(text: string)
    requires Canonical(text)
    ensures Encode(Decode(text)) == text
  {
    assert Decodable(text);
    hide Encode, Decode, Canonical, Digit, Value;
    if |text| >= 4 {
      DecodeHead(text);
      EncodeDecode(text[4..]);
      AllDigits(text);
      EncodeHead(Decode(text), Value(text[0]), Value(text[1]), Value(text[2]), Value(text[3]));
      assert text == [text[0], text[1], text[2], text[3]] + text[4..];
    } else {
      ShortBack(text);
    }
  }

  lemma {:induction false} DecodeLength(text: string)
    requires Decodable(text)
    ensures |Decode(text)| == |text| * 3 / 4
  {
    if |text| >= 4 {
      DecodableRest(text);
      DecodeLength(text[4..]);
    }
  }

  lemma DecodeGroup(a: int, b: int, c: int, d: int, rest: string)
    requires 0 <= a < 64 && 0 <= b < 64 && 0 <= c < 64 && 0 <= d < 64 && Canonical(rest)
    ensures var text := [Digit(a), Digit(b), Digit(c), Digit(d)] + rest;
            Canonical(text) && Decode(text) == [a * 4 + b / 16, b % 16 * 16 + c / 4, c % 4 * 64 + d] + Decode(rest)
  {
    DigitHasValue(a);
    DigitHasValue(b);
    DigitHasValue(c);
    DigitHasValue(d);
    hide Digit, Value;
    var text := [Digit(a), Digit(b), Digit(c), Digit(d)] + rest;
    CanonicalAfter([Digit(a), Digit(b), Digit(c), Digit(d)], rest);
    hide Canonical;
    assert text[4..] == rest;
  }

  /** Three bytes from the four digits made of them. */
  lemma Ungroup(x: Byte, y: Byte, z: Byte)
    ensures var a, b, c, d := x / 4, x % 4 * 16 + y / 16, y % 16 * 4 + z / 64, z % 64;
            && 0 <= a < 64 && 0 <= b < 64 && 0 <= c < 64 && 0 <= d < 64
            && a * 4 + b / 16 == x && b % 16 * 16 + c / 4 == y && c % 4 * 64 + d == z
  {
    Split(x % 4, y / 16, 16);
    Split(y % 16, z / 64, 4);
  }

  lemma DecodeTwo(a: int, b: int)
    requires 0 <= a < 64 && 0 <= b < 64
    ensures var text := [Digit(a), Digit(b)];
            Decodable(text) && Decode(text) == [a * 4 + b / 16]
  {
    DigitHasValue(a);
    DigitHasValue(b);
    hide Digit, Value;
  }

  lemma DecodeThree(a: int, b: int, c: int)
    requires 0 <= a < 64 && 0 <= b < 64 && 0 <= c < 64
    ensures var text := [Digit(a), Digit(b), Digit(c)];
            Decodable(text) && Decode(text) == [a * 4 + b / 16, b % 16 * 16 + c / 4]
  {
    DigitHasValue(a);
    DigitHasValue(b);
    DigitHasValue(c);
    hide Digit, Value;
  }

  lemma DecodeTwoBytes(bytes: Bytes)
    requires |bytes| == 2
    ensures Decodable(Encode(bytes)) && Decode(Encode(bytes)) == bytes
  {
    hide Digit, Value, Canonical, Decode;
    var x, y := bytes[0], bytes[1];
    Ungroup(x, y, 0);
    DecodeThree(x / 4, x % 4 * 16 + y / 16, y % 16 * 4);
  }

  lemma DecodeNothing()
    ensures Decodable("") && Decode("") == []
  {
  }

  lemma {:induction false} DecodeEncode(bytes: Bytes)
    ensures Canonical(Encode(bytes)) && Decode(Encode(bytes)) == bytes
  {
    hide Digit, Value, Canonical, Decode;
    EncodeIsCanonical(bytes);
    if |bytes| >= 3 {
      var x, y, z := bytes[0], bytes[1], bytes[2];
      Ungroup(x, y, z);
      DecodeEncode(bytes[3..]);
      DecodeGroup(x / 4, x % 4 * 16 + y / 16, y % 16 * 4 + z / 64, z % 64, Encode(bytes[3..]));
      assert bytes == [x, y, z] + bytes[3..];
    } else if |bytes| == 2 {
      DecodeTwoBytes(bytes);
    } else if |bytes| == 1 {
      Ungroup(bytes[0], 0, 0);
      DecodeTwo(bytes[0] / 4, bytes[0] % 4 * 16);
    } else {
      DecodeNothing();
    }
  }

  /** Vectors of section 10 of RFC 4648, without their padding: "f", "fo", "foo" and "foobar". */
  lemma StandardVectors()
    ensures Encode([102]) == "Zg" && Encode([102, 111]) == "Zm8" && Encode([102, 111, 111]) == "Zm9v"
    ensures Encode([102, 111, 111, 98, 97, 114]) == "Zm9vYmFy"
  {
    var foobar: Bytes := [102, 111, 111, 98, 97, 114];
    assert foobar[3..] == [98, 97, 114];
    assert Encode([98, 97, 114]) == "YmFy";
  }
}
