/** UTF-8 as defined by section 4 of RFC 3629, and the two truncations built on it:
    truncateUTF8 (sdk/go/logging/handler.go) and _truncate_utf8
    (sdk/python/logging/src/stellarmesh_logging/formatter.py). */
module Utf8 {
  import opened Octets

  /** "[TRUNCATED]" */
  const TRUNCATED: Bytes := [91, 84, 82, 85, 78, 67, 65, 84, 69, 68, 93]

  /** U+FFFD */
  const REPLACEMENT: Bytes := [239, 191, 189]

  predicate Tail(b: Byte) { 0x80 <= b <= 0xBF }

  /** The length of the UTF-8 character the text begins with, or 0 if it begins with none. */
  function RuneLength(s: Bytes): (n: nat)
    ensures n <= |s| && n <= 4
  {
    if s == [] then 0
    else if s[0] <= 0x7F then 1
    else if 0xC2 <= s[0] <= 0xDF then if |s| >= 2 && Tail(s[1]) then 2 else 0
    else if 0xE0 <= s[0] <= 0xEF then
      if |s| >= 3 && Tail(s[1]) && Tail(s[2]) && (s[0] == 0xE0 ==> s[1] >= 0xA0) && (s[0] == 0xED ==> s[1] <= 0x9F)
      then 3 else 0
    else if 0xF0 <= s[0] <= 0xF4 then
      if |s| >= 4 && Tail(s[1]) && Tail(s[2]) && Tail(s[3])
         && (s[0] == 0xF0 ==> s[1] >= 0x90) && (s[0] == 0xF4 ==> s[1] <= 0x8F)
      then 4 else 0
    else 0
  }

  predicate Valid(s: Bytes) {
    s == [] || (RuneLength(s) > 0 && Valid(s[RuneLength(s)..]))
  }

  /** strings.ToValidUTF8: each run of invalid bytes becomes one replacement character. */
  function ToValid(s: Bytes, inRun: bool): Bytes {
    if s == [] then []
    else
      var n := RuneLength(s);
      if n > 0 then s[..n] + ToValid(s[n..], false)
      else (if inRun then [] else REPLACEMENT) + ToValid(s[1..], true)
  }

  /** Only the bytes of the character itself decide its length. */
  lemma RuneLengthLocal(s: Bytes, t: Bytes)
    requires RuneLength(s) > 0 && |t| >= RuneLength(s) && t[..RuneLength(s)] == s[..RuneLength(s)]
    ensures RuneLength(t) == RuneLength(s)
  {
    var n := RuneLength(s);
    assert forall i :: 0 <= i < n ==> t[..n][i] == t[i] && s[..n][i] == s[i];
  }

  lemma {:induction false} ValidConcat(a: Bytes, b: Bytes)
    requires Valid(a) && Valid(b)
    ensures Valid(a + b)
  {
    if a == [] {
      assert a + b == b;
    } else {
      var n := RuneLength(a);
      assert (a + b)[..n] == a[..n] && (a + b)[n..] == a[n..] + b;
      RuneLengthLocal(a, a + b);
      ValidConcat(a[n..], b);
    }
  }

  lemma RuneIsValid(s: Bytes)
    requires RuneLength(s) > 0
    ensures Valid(s[..RuneLength(s)])
  {
    var n := RuneLength(s);
    RuneLengthLocal(s, s[..n]);
    assert s[..n][n..] == [];
  }

  lemma {:induction false} ToValidIsValid(s: Bytes, inRun: bool)
    ensures Valid(ToValid(s, inRun))
  {
    if s != [] {
      var n := RuneLength(s);
      if n > 0 {
        ToValidIsValid(s[n..], false);
        RuneIsValid(s);
        ValidConcat(s[..n], ToValid(s[n..], false));
      } else {
        ToValidIsValid(s[1..], true);
        assert RuneLength(REPLACEMENT) == 3 && REPLACEMENT[3..] == [] && Valid(REPLACEMENT);
        ValidConcat(REPLACEMENT, ToValid(s[1..], true));
        assert [] + ToValid(s[1..], true) == ToValid(s[1..], true);
      }
    }
  }

  /** Valid text is left alone. */
  lemma {:induction false} ToValidKeepsValid(s: Bytes, inRun: bool)
    requires Valid(s)
    ensures ToValid(s, inRun) == s
  {
    if s != [] { ToValidKeepsValid(s[RuneLength(s)..], false); }
  }

  // ----- the encoder valid text comes from -----

  /** The code points UTF-8 encodes: no surrogates. */
  predicate Scalar(n: int) { 0 <= n < 0xD800 || 0xDFFF < n <= 0x10FFFF }

  /** Section 3 of RFC 3629. */
  function EncodeRune(n: int): Bytes
    requires Scalar(n)
  {
    if n < 0x80 then [n]
    else if n < 0x800 then [0xC0 + n / 0x40, 0x80 + n % 0x40]
    else if n < 0x1_0000 then [0xE0 + n / 0x1000, 0x80 + n / 0x40 % 0x40, 0x80 + n % 0x40]
    else [0xF0 + n / 0x4_0000, 0x80 + n / 0x1000 % 0x40, 0x80 + n / 0x40 % 0x40, 0x80 + n % 0x40]
  }

  function EncodeText(runes: seq<int>): Bytes
    requires forall i :: 0 <= i < |runes| ==> Scalar(runes[i])
  {
    if runes == [] then [] else EncodeRune(runes[0]) + EncodeText(runes[1..])
  }

  lemma Shifted(n: int)
    requires 0 <= n
    ensures n / 0x1000 == n / 0x40 / 0x40 && n / 0x4_0000 == n / 0x40 / 0x40 / 0x40
  {
  }

  lemma EncodedIsRune(n: int)
    requires Scalar(n)
    ensures 0 < |EncodeRune(n)| <= 4 && RuneLength(EncodeRune(n)) == |EncodeRune(n)|
  {
    if n < 0x800 {
      assert n / 0x40 <= 0x1F;
    } else if n < 0x1_0000 {
      Shifted(n);
      assert n / 0x40 == n / 0x1000 * 0x40 + n / 0x40 % 0x40;
    } else {
      Shifted(n);
      assert n / 0x1000 == n / 0x4_0000 * 0x40 + n / 0x1000 % 0x40;
    }
  }

  /** The number the bits of the character at the front make. */
  function RuneAt(s: Bytes): int
    requires RuneLength(s) > 0
  {
    var a: int := s[0];
    if RuneLength(s) == 1 then a
    else
      var b: int := s[1];
      if RuneLength(s) == 2 then (a - 0xC0) * 0x40 + (b - 0x80)
      else
        var c: int := s[2];
        if RuneLength(s) == 3 then ((a - 0xE0) * 0x40 + (b - 0x80)) * 0x40 + (c - 0x80)
        else
          var d: int := s[3];
          (((a - 0xF0) * 0x40 + (b - 0x80)) * 0x40 + (c - 0x80)) * 0x40 + (d - 0x80)
  }

  /** A number and its last six bits. */
  lemma SixBits(high: int, low: int)
    requires 0 <= high && 0 <= low < 0x40
    ensures (high * 0x40 + low) / 0x40 == high && (high * 0x40 + low) % 0x40 == low
  {
  }

  lemma ThreeEncoded(a: int, b: int, c: int)
    requires 0 <= a < 0x10 && 0 <= b < 0x40 && 0 <= c < 0x40 && (a == 0 ==> b >= 0x20) && (a == 0xD ==> b <= 0x1F)
    ensures var n := (a * 0x40 + b) * 0x40 + c;
            Scalar(n) && EncodeRune(n) == [0xE0 + a, 0x80 + b, 0x80 + c]
  {
    var n := (a * 0x40 + b) * 0x40 + c;
    Shifted(n);
    SixBits(a, b);
    SixBits(a * 0x40 + b, c);
    assert 0x800 <= n < 0x1_0000;
  }

  lemma FourEncoded(a: int, b: int, c: int, d: int)
    requires 0 <= a <= 4 && 0 <= b < 0x40 && 0 <= c < 0x40 && 0 <= d < 0x40 && (a == 0 ==> b >= 0x10) && (a == 4 ==> b <= 0xF)
    ensures var n := ((a * 0x40 + b) * 0x40 + c) * 0x40 + d;
            Scalar(n) && EncodeRune(n) == [0xF0 + a, 0x80 + b, 0x80 + c, 0x80 + d]
  {
    var n := ((a * 0x40 + b) * 0x40 + c) * 0x40 + d;
    Shifted(n);
    SixBits(a, b);
    SixBits(a * 0x40 + b, c);
    SixBits((a * 0x40 + b) * 0x40 + c, d);
    assert 0x1_0000 <= n <= 0x10FFFF;
  }

  lemma RuneIsEncoded(s: Bytes)
    requires RuneLength(s) > 0
    ensures Scalar(RuneAt(s)) && EncodeRune(RuneAt(s)) == s[..RuneLength(s)]
  {
    var a: int := s[0];
    if RuneLength(s) == 2 {
      SixBits(a - 0xC0, s[1] as int - 0x80);
    } else if RuneLength(s) == 3 {
      hide EncodeRune, Scalar;
      ThreeEncoded(a - 0xE0, s[1] as int - 0x80, s[2] as int - 0x80);
    } else if RuneLength(s) == 4 {
      hide EncodeRune, Scalar;
      FourEncoded(a - 0xF0, s[1] as int - 0x80, s[2] as int - 0x80, s[3] as int - 0x80);
    }
  }

  ghost predicate Encoded(s: Bytes) {
    exists runes: seq<int> :: (forall i :: 0 <= i < |runes| ==> Scalar(runes[i])) && EncodeText(runes) == s
  }

  lemma {:induction false} EncodedIsValid(runes: seq<int>)
    requires forall i :: 0 <= i < |runes| ==> Scalar(runes[i])
    ensures Valid(EncodeText(runes))
  {
    hide EncodeRune, RuneLength, Scalar;
    if runes != [] {
      EncodedIsRune(runes[0]);
      EncodedIsValid(runes[1..]);
      var first := EncodeRune(runes[0]);
      assert first[..|first|] == first && first[|first|..] == [];
      ValidConcat(first, EncodeText(runes[1..]));
    }
  }

  lemma {:induction false} ValidIsEncoded(s: Bytes)
    requires Valid(s)
    ensures Encoded(s)
  {
    hide EncodeRune, RuneLength, Scalar, RuneAt;
    if s == [] {
      assert EncodeText([]) == [];
    } else {
      var n := RuneLength(s);
      ValidIsEncoded(s[n..]);
      var rest: seq<int> :| (forall i :: 0 <= i < |rest| ==> Scalar(rest[i])) && EncodeText(rest) == s[n..];
      RuneIsEncoded(s);
      var runes := [RuneAt(s)] + rest;
      assert runes[1..] == rest;
      assert EncodeText(runes) == s[..n] + s[n..] == s;
    }
  }

  /** Valid are exactly the byte strings the encoder can make. */
  lemma ValidExactly(s: Bytes)
    ensures Valid(s) <==> Encoded(s)
  {
    hide Valid, EncodeText, Scalar;
    if Valid(s) { ValidIsEncoded(s); }
    if Encoded(s) {
      var runes: seq<int> :| (forall i :: 0 <= i < |runes| ==> Scalar(runes[i])) && EncodeText(runes) == s;
      EncodedIsValid(runes);
    }
  }

  // ----- what repairing does -----

  /** At none of the first n bytes a character begins. */
  predicate BadRun(s: Bytes, n: nat) {
    n == 0 || (s != [] && RuneLength(s) == 0 && BadRun(s[1..], n - 1))
  }

  /** The run at the front, up to the next character. */
  function RunLength(s: Bytes): (n: nat)
    ensures n <= |s| && BadRun(s, n) && (n == |s| || RuneLength(s[n..]) > 0)
  {
    if s == [] || RuneLength(s) > 0 then assert s[0..] == s; 0
    else
      var n := RunLength(s[1..]);
      assert s[1..][n..] == s[n + 1..];
      n + 1
  }

  lemma {:induction false} RunSkipped(s: Bytes, n: nat)
    requires BadRun(s, n) && n <= |s| && (n == |s| || RuneLength(s[n..]) > 0)
    ensures ToValid(s, true) == ToValid(s[n..], false)
    decreases n
  {
    hide RuneLength;
    if n == 0 {
      assert s[0..] == s;
    } else {
      assert s[1..][n - 1..] == s[n..];
      RunSkipped(s[1..], n - 1);
      assert [] + ToValid(s[1..], true) == ToValid(s[1..], true);
    }
  }

  lemma FirstRun(s: Bytes, n: nat)
    requires 0 < n <= |s| && BadRun(s, n) && (n == |s| || RuneLength(s[n..]) > 0)
    ensures ToValid(s, false) == EncodeRune(0xFFFD) + ToValid(s[n..], false)
  {
    assert EncodeRune(0xFFFD) == REPLACEMENT;
    hide RuneLength, EncodeRune;
    assert s[1..][n - 1..] == s[n..];
    RunSkipped(s[1..], n - 1);
  }

  lemma CharacterStays(head: Bytes, tail: Bytes)
    requires RuneLength(head + tail) == |head| > 0
    ensures ToValid(head + tail, false) == head + ToValid(tail, false)
  {
    hide RuneLength;
    assert (head + tail)[..|head|] == head && (head + tail)[|head|..] == tail;
  }

  lemma Regroup(a: Bytes, b: Bytes, c: Bytes)
    ensures a + (b + c) == a + b + c
  {
  }

  /** Valid text in front stays. */
  lemma {:induction false} ValidStays(valid: Bytes, s: Bytes)
    requires Valid(valid)
    ensures ToValid(valid + s, false) == valid + ToValid(s, false)
    decreases |valid|
  {
    if valid == [] {
      assert valid + s == s && [] + ToValid(s, false) == ToValid(s, false);
    } else {
      var k := RuneLength(valid);
      var head, tail := valid[..k], valid[k..];
      assert Valid(tail);
      hide Valid, ToValid, RuneLength;
      assert valid == head + tail;
      Regroup(head, tail, s);
      assert (valid + s)[..k] == valid[..k];
      RuneLengthLocal(valid, valid + s);
      CharacterStays(head, tail + s);
      ValidStays(tail, s);
      Regroup(head, tail, ToValid(s, false));
    }
  }

  /** A maximal run of bytes at which no character begins is replaced by one U+FFFD; the valid text in front of it
      stays, and what follows is repaired likewise. */
  lemma RunIsReplaced(valid: Bytes, s: Bytes, n: nat)
    requires Valid(valid) && 0 < n <= |s| && BadRun(s, n) && (n == |s| || RuneLength(s[n..]) > 0)
    ensures ToValid(valid + s, false) == valid + (EncodeRune(0xFFFD) + ToValid(s[n..], false))
  {
    hide EncodeRune, BadRun, RuneLength, ToValid;
    ValidStays(valid, s);
    FirstRun(s, n);
  }

  /** The characters at the front, up to the first byte at which none begins. */
  function ValidPart(s: Bytes): (k: nat)
    ensures k <= |s|
  {
    var n := RuneLength(s);
    if n == 0 then 0 else n + ValidPart(s[n..])
  }

  /** Every text is valid or has such a run behind its valid part: the laws say of any text what it becomes. */
  lemma {:induction false} InvalidHasRun(s: Bytes)
    ensures var k := ValidPart(s);
            && Valid(s[..k]) && (Valid(s) <==> k == |s|)
            && (k < |s| ==> 0 < RunLength(s[k..]) && s[..k] + s[k..] == s)
  {
    hide RuneLength;
    var r, k := RuneLength(s), ValidPart(s);
    if r == 0 {
      assert s[..0] == [] && s[0..] == s;
    } else {
      InvalidHasRun(s[r..]);
      RuneIsValid(s);
      ValidConcat(s[..r], s[r..][..k - r]);
      assert s[..k] == s[..r] + s[r..][..k - r] && s[k..] == s[r..][k - r..];
    }
  }

  // ----- truncation -----

  /** The longest valid prefix of at most k bytes. */
  function Cut(s: Bytes, k: nat): (n: nat)
    requires k <= |s|
    ensures n <= k && Valid(s[..n])
    ensures forall j :: n < j <= k ==> !Valid(s[..j])
  {
    if Valid(s[..k]) then k else Cut(s, k - 1)
  }

  /** The limited form of a valid text: the text itself, or its longest fitting valid prefix and the marker. */
  function Limited(s: Bytes, limit: nat): Bytes
    requires limit >= |TRUNCATED|
  {
    if |s| <= limit then s else s[..Cut(s, limit - |TRUNCATED|)] + TRUNCATED
  }

  function Truncate(value: Bytes, limit: nat): Bytes
    requires limit >= |TRUNCATED|
  {
    Limited(ToValid(value, false), limit)
  }

  /** Among any four consecutive lengths up to k one ends a character: a cut loses at most three bytes. */
  lemma {:induction false} CutLosesLittle(s: Bytes, k: nat)
    requires Valid(s) && k <= |s|
    ensures k - 3 <= Cut(s, k)
  {
    var n := RuneLength(s);
    if s != [] && n <= k {
      CutLosesLittle(s[n..], k - n);
      var j := n + Cut(s[n..], k - n);
      assert s[..j] == s[..n] + s[n..][..j - n];
      RuneIsValid(s);
      ValidConcat(s[..n], s[n..][..j - n]);
      assert Valid(s[..j]);
    }
  }

  lemma {:induction false} AsciiIsValid(s: Bytes)
    requires forall i :: 0 <= i < |s| ==> s[i] <= 0x7F
    ensures Valid(s)
  {
    if s != [] { AsciiIsValid(s[1..]); }
  }

  lemma MarkerIsValid()
    ensures Valid(TRUNCATED)
  {
    hide Valid, RuneLength;
    AsciiIsValid(TRUNCATED);
  }

  /** Truncation keeps to the limit, yields valid text, keeps what already fits, and otherwise keeps the
      longest valid prefix the marker leaves room for, at most three bytes short of that room. */
  lemma TruncateBounds(value: Bytes, limit: nat)
    requires limit >= |TRUNCATED|
    ensures |Truncate(value, limit)| <= limit && Valid(Truncate(value, limit))
    ensures Valid(value) && |value| <= limit ==> Truncate(value, limit) == value
    ensures Valid(value) && |value| > limit ==>
              exists n: nat :: limit - |TRUNCATED| - 3 <= n <= limit - |TRUNCATED| && Valid(value[..n])
                          && Truncate(value, limit) == value[..n] + TRUNCATED
                          && forall j :: n < j <= limit - |TRUNCATED| ==> !Valid(value[..j])
  {
    var s := ToValid(value, false);
    ToValidIsValid(value, false);
    if Valid(value) { ToValidKeepsValid(value, false); }
    MarkerIsValid();
    if |s| > limit {
      var n := Cut(s, limit - |TRUNCATED|);
      ValidConcat(s[..n], TRUNCATED);
      CutLosesLittle(s, limit - |TRUNCATED|);
    }
  }

  /** truncateUTF8: shorten the prefix until it is valid. */
  method GoTruncate(value: Bytes, limit: nat) returns (r: Bytes)
    requires limit >= |TRUNCATED|
    ensures r == Truncate(value, limit)
  {
    var s := ToValid(value, false);
    if |s| <= limit { return s; }
    var prefixLimit := limit - |TRUNCATED|;
    while prefixLimit > 0 && !Valid(s[..prefixLimit])
      invariant 0 <= prefixLimit <= limit - |TRUNCATED|
      invariant Cut(s, prefixLimit) == Cut(s, limit - |TRUNCATED|)
    {
      prefixLimit := prefixLimit - 1;
    }
    return s[..prefixLimit] + TRUNCATED;
  }

  /** _truncate_utf8 on the encoded text, which encode() makes valid; decode() fails on an invalid prefix. */
  method PythonTruncate(encoded: Bytes, limit: nat) returns (r: Bytes)
    requires limit >= |TRUNCATED| && Valid(encoded)
    ensures r == Truncate(encoded, limit)
  {
    ToValidKeepsValid(encoded, false);
    if |encoded| <= limit { return encoded; }
    var prefix := encoded[..limit - |TRUNCATED|];
    while prefix != []
      invariant |prefix| <= limit - |TRUNCATED| && prefix == encoded[..|prefix|]
      invariant Cut(encoded, |prefix|) == Cut(encoded, limit - |TRUNCATED|)
    {
      if Valid(prefix) { return prefix + TRUNCATED; }
      prefix := prefix[..|prefix| - 1];
    }
    assert encoded[..0] == [] && [] + TRUNCATED == TRUNCATED;
    return TRUNCATED;
  }
}
