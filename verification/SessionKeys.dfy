/** Redis key construction for sessions (sdk/go/gateway/sessionauth/key.go), and the Lua
    script's own `escape` (store.go). Strings are byte strings, as in both languages. */
module SessionKeys {
  import opened Octets
  import opened Results

  datatype Kind = Session | UserSessions

  const PERCENT: Byte := 37
  const OPEN_BRACE: Byte := 123
  const CLOSE_BRACE: Byte := 125
  const DEFAULT_SEPARATOR: Bytes := [58]

  /** The fixed middle segment: "session" or "user_sessions". */
  function KindName(kind: Kind): Bytes {
    match kind
    case Session => [115, 101, 115, 115, 105, 111, 110]
    case UserSessions => [117, 115, 101, 114, 95, 115, 101, 115, 115, 105, 111, 110, 115]
  }

  predicate Alphanumeric(c: Byte) {
    48 <= c <= 57 || 65 <= c <= 90 || 97 <= c <= 122
  }

  predicate SeparatorByte(c: Byte) {
    33 <= c <= 126 && c != PERCENT && c != OPEN_BRACE && c != CLOSE_BRACE && !Alphanumeric(c)
  }

  /** What every separator in use satisfies. */
  ghost predicate LegalSeparator(separator: Bytes) {
    separator != [] && forall c :: c in separator ==> SeparatorByte(c)
  }

  /** NewKeyBuilder: empty means ":", and every byte must be ASCII punctuation other than % { }. */
  method NewKeyBuilder(separator: Bytes) returns (r: Result<Bytes>)
    ensures r.Ok? <==> separator == [] || LegalSeparator(separator)
    ensures r.Ok? ==> LegalSeparator(r.value)
    ensures r.Ok? ==> r.value == if separator == [] then DEFAULT_SEPARATOR else separator
  {
    var chosen := if separator == [] then DEFAULT_SEPARATOR else separator;
    for i := 0 to |chosen|
      invariant forall j :: 0 <= j < i ==> SeparatorByte(chosen[j])
    {
      if !SeparatorByte(chosen[i]) {
        assert chosen[i] in separator;
        return Err;
      }
    }
    return Ok(chosen);
  }

  /** Bytes that never appear raw in an escaped segment. */
  predicate Special(separator: Bytes, c: Byte) {
    c <= 32 || c >= 127 || c == PERCENT || c == OPEN_BRACE || c == CLOSE_BRACE || c in separator
  }

  function HexDigit(n: int): Byte
    requires 0 <= n < 16
  {
    if n < 10 then 48 + n else 55 + n
  }

  function HexValue(c: Byte): int {
    if 48 <= c <= 57 then c - 48 else if 65 <= c <= 70 then c - 55 else 0
  }

  function EscapeByte(separator: Bytes, c: Byte): Bytes {
    if Special(separator, c) then [PERCENT, HexDigit(c / 16), HexDigit(c % 16)] else [c]
  }

  /** KeyBuilder.escape as a function of the bytes. */
  function Escape(separator: Bytes, value: Bytes): Bytes {
    if value == [] then [] else EscapeByte(separator, value[0]) + Escape(separator, value[1..])
  }

  lemma EscapeStep(separator: Bytes, done: Bytes, value: Bytes, i: nat)
    requires i < |value|
    ensures done + Escape(separator, value[i..]) == done + EscapeByte(separator, value[i]) + Escape(separator, value[i + 1..])
  {
    hide EscapeByte;
    var piece, rest := EscapeByte(separator, value[i]), Escape(separator, value[i + 1..]);
    assert value[i..][1..] == value[i + 1..];
    assert done + (piece + rest) == done + piece + rest;
  }

  /** The loop of KeyBuilder.escape, writing into a builder. */
  method EscapeInto(separator: Bytes, value: Bytes) returns (result: Bytes)
    ensures result == Escape(separator, value)
  {
    result := [];
    var i := 0;
    while i < |value|
      invariant 0 <= i <= |value|
      invariant result + Escape(separator, value[i..]) == Escape(separator, value)
    {
      var c := value[i];
      EscapeStep(separator, result, value, i);
      if Special(separator, c) {
        result := result + [PERCENT, HexDigit(c / 16), HexDigit(c % 16)];
      } else {
        result := result + [c];
      }
      i := i + 1;
    }
    assert value[i..] == [];
  }

  /** The upper-case hexadecimal numeral of n, without leading zeros. */
  function Hexadecimal(n: nat): Bytes {
    if n < 16 then [HexDigit(n)] else Hexadecimal(n / 16) + [HexDigit(n % 16)]
  }

  /** C's %02X: the numeral padded on the left with '0' to two characters. */
  function Format02X(n: nat): Bytes {
    var digits := Hexadecimal(n);
    if |digits| < 2 then [48] + digits else digits
  }

  /** The script's escape: string.gsub with a per-byte callback. */
  function LuaEscape(separator: Bytes, value: Bytes): Bytes {
    if value == [] then []
    else
      (if Special(separator, value[0]) then [PERCENT] + Format02X(value[0]) else [value[0]])
      + LuaEscape(separator, value[1..])
  }

  /** The reader's view: %HH stands for one byte, everything else for itself. */
  function Unescape(text: Bytes): Bytes {
    if text == [] then []
    else if text[0] == PERCENT && |text| >= 3 then
      var byte := HexValue(text[1]) * 16 + HexValue(text[2]);
      (if byte < 256 then [byte] else [0]) + Unescape(text[3..])
    else [text[0]] + Unescape(text[1..])
  }

  /** `escape` has an inverse, whatever the separator. */
  lemma {:induction false} EscapeHasInverse(separator: Bytes, value: Bytes)
    ensures Unescape(Escape(separator, value)) == value
  {
    if value != [] {
      EscapeHasInverse(separator, value[1..]);
      var rest := Escape(separator, value[1..]);
      var whole := Escape(separator, value);
      if Special(separator, value[0]) {
        assert whole[3..] == rest;
        assert HexValue(HexDigit(value[0] / 16)) * 16 + HexValue(HexDigit(value[0] % 16)) == value[0];
      } else {
        assert whole[1..] == rest;
      }
    }
  }

  /** An escaped segment contains no byte of a legal separator. */
  lemma {:induction false} EscapeAvoidsSeparator(separator: Bytes, value: Bytes)
    requires LegalSeparator(separator)
    ensures forall i :: 0 <= i < |Escape(separator, value)| ==> Escape(separator, value)[i] !in separator
  {
    if value != [] {
      EscapeAvoidsSeparator(separator, value[1..]);
      var c := value[0];
      assert forall d :: d in separator ==> SeparatorByte(d);
      assert Alphanumeric(HexDigit(c / 16)) && Alphanumeric(HexDigit(c % 16));
    }
  }

  /** "0123456789ABCDEF" */
  const HEX: Bytes := [48, 49, 50, 51, 52, 53, 54, 55, 56, 57, 65, 66, 67, 68, 69, 70]

  /** A byte that is not printable ASCII, one of % { } or in the separator becomes % and its two upper-case
      hexadecimal digits; every other byte stays. */
  lemma EscapeOneByte(separator: Bytes, c: Byte)
    ensures Escape(separator, [c])
         == if 33 <= c <= 126 && c !in [37, 123, 125] && c !in separator then [c] else [37, HEX[c / 16], HEX[c % 16]]
  {
    assert [c][1..] == [] && Escape(separator, []) == [];
  }

  lemma {:induction false} EscapeConcat(separator: Bytes, a: Bytes, b: Bytes)
    ensures Escape(separator, a + b) == Escape(separator, a) + Escape(separator, b)
  {
    hide EscapeByte;
    if a == [] {
      assert a + b == b;
    } else {
      var piece := EscapeByte(separator, a[0]);
      EscapeConcat(separator, a[1..], b);
      assert (a + b)[1..] == a[1..] + b;
      assert piece + (Escape(separator, a[1..]) + Escape(separator, b)) == piece + Escape(separator, a[1..]) + Escape(separator, b);
    }
  }

  lemma {:induction false} EscapeGrows(separator: Bytes, value: Bytes)
    ensures |Escape(separator, value)| >= |value|
    ensures |Escape(separator, value)| == |value| ==> Escape(separator, value) == value
  {
    if value != [] { EscapeGrows(separator, value[1..]); }
  }

  /** A value is its own escaped form exactly if it is printable ASCII without % { } and the separator's bytes. */
  lemma {:induction false} EscapeFixesExactly(separator: Bytes, value: Bytes)
    ensures Escape(separator, value) == value
       <==> forall i :: 0 <= i < |value| ==> 33 <= value[i] <= 126 && value[i] !in [37, 123, 125] && value[i] !in separator
  {
    if value != [] {
      EscapeFixesExactly(separator, value[1..]);
      EscapeGrows(separator, value[1..]);
      if Special(separator, value[0]) {
        assert |Escape(separator, value)| > |value|;
      } else {
        assert Escape(separator, value)[1..] == Escape(separator, value[1..]);
      }
    }
  }

  /** The script escapes every identifier exactly as the Go builder does. */
  lemma {:induction false} LuaEscapeAgrees(separator: Bytes, value: Bytes)
    ensures LuaEscape(separator, value) == Escape(separator, value)
  {
    if value != [] {
      LuaEscapeAgrees(separator, value[1..]);
      var c := value[0];
      if c >= 16 {
        assert Hexadecimal(c / 16) == [HexDigit(c / 16)];
      }
      assert Format02X(c) == [HexDigit(c / 16), HexDigit(c % 16)];
    }
  }

  function Prefix(separator: Bytes, scope: Bytes, kind: Kind): Bytes {
    Escape(separator, scope) + separator + KindName(kind) + separator
  }

  /** KeyBuilder.key: scope and identifier must not be empty. */
  function BuildKey(separator: Bytes, scope: Bytes, kind: Kind, id: Bytes): Result<Bytes> {
    if scope == [] || id == [] then Err
    else Ok(Prefix(separator, scope, kind) + Escape(separator, id))
  }

  /** Two texts that begin with separator-free segments followed by the separator agree segment by segment. */
  lemma SegmentsAgree(separator: Bytes, a: Bytes, b: Bytes, restA: Bytes, restB: Bytes)
    requires separator != []
    requires forall i :: 0 <= i < |a| ==> a[i] !in separator
    requires forall i :: 0 <= i < |b| ==> b[i] !in separator
    requires a + separator + restA == b + separator + restB
    ensures a == b && restA == restB
  {
    var left, right := a + separator + restA, b + separator + restB;
    assert separator[0] in separator;
    assert left[|a|] == separator[0] && right[|b|] == separator[0];
    if |a| < |b| {
      assert false;
    }
    if |b| < |a| {
      assert false;
    }
    assert a == left[..|a|] == right[..|b|] == b;
    assert restA == left[|a| + |separator|..] == right[|b| + |separator|..] == restB;
  }

  lemma EscapeInjective(separator: Bytes, a: Bytes, b: Bytes)
    requires Escape(separator, a) == Escape(separator, b)
    ensures a == b
  {
    EscapeHasInverse(separator, a);
    EscapeHasInverse(separator, b);
  }

  /** The kind is told by its first byte, and then the identifier is what remains. */
  lemma KindAndIdRecovered(separator: Bytes, kind: Kind, kind': Kind, tail: Bytes, tail': Bytes)
    requires KindName(kind) + separator + tail == KindName(kind') + separator + tail'
    ensures kind == kind' && tail == tail'
  {
    var left, right := KindName(kind) + separator + tail, KindName(kind') + separator + tail';
    assert left[0] == KindName(kind)[0] && right[0] == KindName(kind')[0];
    var skip := |KindName(kind)| + |separator|;
    assert tail == left[skip..] && tail' == right[skip..];
  }

  lemma ConcatRegroup(a: Bytes, s: Bytes, k: Bytes, e: Bytes)
    ensures a + s + k + s + e == a + s + (k + s + e)
  {
  }

  lemma KeyShape(separator: Bytes, scope: Bytes, kind: Kind, id: Bytes)
    requires BuildKey(separator, scope, kind, id).Ok?
    ensures BuildKey(separator, scope, kind, id).value
         == Escape(separator, scope) + separator + (KindName(kind) + separator + Escape(separator, id))
  {
    var a, k, e := Escape(separator, scope), KindName(kind), Escape(separator, id);
    ConcatRegroup(a, separator, k, e);
  }

  /** Keys never collide: scope, kind and identifier can all be read back from a key, so projects are
      disjoint and the two key kinds are disjoint, even when the separator occurs inside a kind name. */
  lemma KeysNeverCollide(separator: Bytes, scope: Bytes, kind: Kind, id: Bytes, scope': Bytes, kind': Kind, id': Bytes)
    requires LegalSeparator(separator)
    requires BuildKey(separator, scope, kind, id).Ok?
    requires BuildKey(separator, scope, kind, id) == BuildKey(separator, scope', kind', id')
    ensures scope == scope' && kind == kind' && id == id'
  {
    var a, b := Escape(separator, scope), Escape(separator, scope');
    var e, e' := Escape(separator, id), Escape(separator, id');
    KeyShape(separator, scope, kind, id);
    KeyShape(separator, scope', kind', id');
    EscapeAvoidsSeparator(separator, scope);
    EscapeAvoidsSeparator(separator, scope');
    SegmentsAgree(separator, a, b, KindName(kind) + separator + e, KindName(kind') + separator + e');
    EscapeInjective(separator, scope, scope');
    KindAndIdRecovered(separator, kind, kind', e, e');
    EscapeInjective(separator, id, id');
  }

  /** The key the script derives for a session or an index is the key the Go side passes as KEYS[1]. */
  lemma ScriptDerivesTheSameKey(separator: Bytes, scope: Bytes, kind: Kind, id: Bytes)
    requires scope != [] && id != []
    ensures BuildKey(separator, scope, kind, id) == Ok(Prefix(separator, scope, kind) + LuaEscape(separator, id))
  {
    LuaEscapeAgrees(separator, id);
  }
}
