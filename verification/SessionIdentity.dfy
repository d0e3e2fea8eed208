/** The identity of a session (sdk/go/gateway/authentication.go) as the Go side encodes it to JSON, and what the
    two decoders it later meets, the script's and Go's own, make of the text (sdk/go/gateway/sessionauth/store.go). */
module SessionIdentity {
  import opened Optional

  /** A JSON text by its structure. NoJson stands for a value json.Marshal refuses (a channel, a function, a number
      that is not finite) and, in a text, for a stretch that is no JSON. Numbers are kept as they are written. */
  datatype Json =
    | JsonNull
    | JsonBool(b: bool)
    | JsonNumber(literal: string)
    | JsonText(text: string)
    | JsonArray(items: seq<Json>)
    | JsonObject(fields: seq<JsonField>)
    | NoJson

  datatype JsonField = JsonField(name: string, value: Json)

  /** gateway.Identity; a nil slice or map is None. */
  datatype Identity = Identity(user: string, roles: Option<seq<string>>, attributes: Option<seq<JsonField>>)

  /** The nesting Redis's cjson decodes by default, and the nesting Go's encoding/json decodes. */
  const SCRIPT_DEPTH := 1000
  const GO_DEPTH := 10000

  function Max(a: nat, b: nat): nat { if a < b then b else a }

  /** How deeply arrays and objects are nested. */
  function Depth(j: Json): nat {
    match j
    case JsonArray(items) => 1 + ItemsDepth(items)
    case JsonObject(fields) => 1 + FieldsDepth(fields)
    case _ => 0
  }

  function ItemsDepth(items: seq<Json>): nat {
    if items == [] then 0 else Max(Depth(items[0]), ItemsDepth(items[1..]))
  }

  function FieldsDepth(fields: seq<JsonField>): nat {
    if fields == [] then 0 else Max(Depth(fields[0].value), FieldsDepth(fields[1..]))
  }

  predicate WellFormed(j: Json) {
    match j
    case NoJson => false
    case JsonArray(items) => forall i :: 0 <= i < |items| ==> WellFormed(items[i])
    case JsonObject(fields) => forall i :: 0 <= i < |fields| ==> WellFormed(fields[i].value)
    case _ => true
  }

  /** The field of that name; of several the last. */
  function Get(fields: seq<JsonField>, name: string): Option<Json> {
    if fields == [] then None
    else
      var rest := Get(fields[1..], name);
      if rest.None? && fields[0].name == name then Some(fields[0].value) else rest
  }

  // ----- encoding: json.Marshal -----

  function Texts(roles: seq<string>): (items: seq<Json>)
    ensures |items| == |roles| && forall i :: 0 <= i < |items| ==> items[i] == JsonText(roles[i])
  {
    seq(|roles|, i requires 0 <= i < |roles| => JsonText(roles[i]))
  }

  /** The text json.Marshal produces for an identity it accepts. */
  function Encoded(identity: Identity): Json {
    JsonObject([
      JsonField("UserID", JsonText(identity.user)),
      JsonField("Roles", if identity.roles.None? then JsonNull else JsonArray(Texts(identity.roles.value))),
      JsonField("Attributes", if identity.attributes.None? then JsonNull else JsonObject(identity.attributes.value))])
  }

  /** json.Marshal succeeds: no attribute holds anything that has no encoding. */
  predicate Encodable(identity: Identity) {
    identity.attributes.None? || WellFormed(JsonObject(identity.attributes.value))
  }

  // ----- decoding in the script -----

  predicate RolesPass(roles: Option<Json>) {
    match roles
    case None => true
    case Some(JsonNull) => true
    case Some(JsonArray(items)) => forall i :: 0 <= i < |items| ==> items[i].JsonText?
    case Some(JsonObject(fields)) => fields == []
    case _ => false
  }

  predicate AttributesPass(attributes: Option<Json>) {
    match attributes
    case None => true
    case Some(JsonNull) => true
    case Some(JsonObject(_)) => true
    case Some(JsonArray(items)) => items == []
    case _ => false
  }

  /** cjson decodes the identity text, and the script finds in it what it looks for. */
  predicate ScriptReads(j: Json, user: string) {
    && WellFormed(j) && Depth(j) <= SCRIPT_DEPTH
    && j.JsonObject? && Get(j.fields, "UserID") == Some(JsonText(user))
    && RolesPass(Get(j.fields, "Roles")) && AttributesPass(Get(j.fields, "Attributes"))
  }

  // ----- decoding in Go -----

  /** A JSON null leaves the zero value of its target. */
  function StringOf(j: Json): Option<string> {
    match j
    case JsonText(text) => Some(text)
    case JsonNull => Some("")
    case _ => None
  }

  function StringsOf(items: seq<Json>): (r: Option<seq<string>>)
    ensures r.Some? ==> |r.value| == |items|
  {
    if items == [] then Some([])
    else
      var first, rest := StringOf(items[0]), StringsOf(items[1..]);
      if first.Some? && rest.Some? then Some([first.value] + rest.value) else None
  }

  /** json.Unmarshal into a gateway.Identity. */
  function Decoded(j: Json): Option<Identity> {
    if !WellFormed(j) || Depth(j) > GO_DEPTH then None
    else match j
      case JsonNull => Some(Identity("", None, None))
      case JsonObject(fields) =>
        var user := StringOf(Get(fields, "UserID").GetOr(JsonNull));
        var roles := Get(fields, "Roles").GetOr(JsonNull);
        var attributes := Get(fields, "Attributes").GetOr(JsonNull);
        if user.None? || !(roles.JsonNull? || roles.JsonArray?) || !(attributes.JsonNull? || attributes.JsonObject?) then None
        else
          var names := if roles.JsonArray? then StringsOf(roles.items) else Some([]);
          if names.None? then None
          else Some(Identity(user.value, if roles.JsonArray? then names else None,
                             if attributes.JsonObject? then Some(attributes.fields) else None))
      case _ => None
  }

  // ----- encoding and decoding -----

  lemma {:induction false} StringsOfTexts(roles: seq<string>)
    ensures StringsOf(Texts(roles)) == Some(roles)
  {
    if roles != [] {
      assert Texts(roles)[1..] == Texts(roles[1..]);
      StringsOfTexts(roles[1..]);
      assert StringOf(Texts(roles)[0]) == Some(roles[0]) && [roles[0]] + roles[1..] == roles;
    }
  }

  lemma {:induction false} FlatItems(items: seq<Json>)
    requires forall i :: 0 <= i < |items| ==> items[i].JsonText?
    ensures ItemsDepth(items) == 0
  {
    if items != [] { FlatItems(items[1..]); }
  }

  lemma GetOfThree(a: JsonField, b: JsonField, c: JsonField, name: string)
    ensures Get([a, b, c], name)
         == if c.name == name then Some(c.value) else if b.name == name then Some(b.value)
            else if a.name == name then Some(a.value) else None
  {
    assert [a, b, c][1..] == [b, c] && [b, c][1..] == [c] && [c][1..] == [];
    assert Get([c], name) == if c.name == name then Some(c.value) else None;
    assert Get([b, c], name) == if c.name == name then Some(c.value) else if b.name == name then Some(b.value) else None;
  }

  lemma DepthOfThree(a: JsonField, b: JsonField, c: JsonField)
    ensures FieldsDepth([a, b, c]) == Max(Depth(a.value), Max(Depth(b.value), Depth(c.value)))
  {
    hide Depth;
    assert [a, b, c][1..] == [b, c] && [b, c][1..] == [c] && [c][1..] == [];
    assert FieldsDepth([c]) == Depth(c.value);
    assert FieldsDepth([b, c]) == Max(Depth(b.value), Depth(c.value));
  }

  lemma EncodedFields(identity: Identity)
    ensures var fields := Encoded(identity).fields;
            && Get(fields, "UserID") == Some(JsonText(identity.user))
            && Get(fields, "Roles") == Some(if identity.roles.None? then JsonNull else JsonArray(Texts(identity.roles.value)))
            && Get(fields, "Attributes")
               == Some(if identity.attributes.None? then JsonNull else JsonObject(identity.attributes.value))
  {
    var fields := Encoded(identity).fields;
    assert "UserID"[0] != "Roles"[0] && "UserID"[0] != "Attributes"[0] && "Roles"[0] != "Attributes"[0];
    GetOfThree(fields[0], fields[1], fields[2], "UserID");
    GetOfThree(fields[0], fields[1], fields[2], "Roles");
    GetOfThree(fields[0], fields[1], fields[2], "Attributes");
  }

  /** How deep the text of an identity is: its attributes decide, below the object and its Attributes field. */
  lemma EncodedDepth(identity: Identity)
    ensures WellFormed(Encoded(identity)) <==> Encodable(identity)
    ensures Depth(Encoded(identity))
         == 1 + Max(if identity.roles.Some? then 1 else 0,
                    if identity.attributes.Some? then 1 + FieldsDepth(identity.attributes.value) else 0)
  {
    var fields := Encoded(identity).fields;
    DepthOfThree(fields[0], fields[1], fields[2]);
    if identity.roles.Some? { FlatItems(Texts(identity.roles.value)); }
    assert WellFormed(fields[0].value) && WellFormed(fields[1].value);
    assert WellFormed(fields[2].value) <==> Encodable(identity);
  }

  /** Decoding gives back every identity that was encoded, up to Go's own nesting limit and not beyond it. */
  lemma RoundTrip(identity: Identity)
    requires Encodable(identity)
    ensures Decoded(Encoded(identity)) == if Depth(Encoded(identity)) <= GO_DEPTH then Some(identity) else None
  {
    EncodedFields(identity);
    EncodedDepth(identity);
    if identity.roles.Some? { StringsOfTexts(identity.roles.value); }
  }

  /** The script reads the text of an identity if and only if it is not nested too deeply. */
  lemma ScriptReadsByDepth(identity: Identity)
    requires Encodable(identity)
    ensures ScriptReads(Encoded(identity), identity.user) <==> Depth(Encoded(identity)) <= SCRIPT_DEPTH
  {
    EncodedFields(identity);
    EncodedDepth(identity);
  }

  lemma {:induction false} StringsOfTextItems(items: seq<Json>)
    requires forall i :: 0 <= i < |items| ==> items[i].JsonText?
    ensures StringsOf(items).Some?
  {
    if items != [] { StringsOfTextItems(items[1..]); }
  }

  /** Of any text at all: what passes the script's checks Go decodes to an identity of that user, except that the
      script cannot tell an empty object from an empty list and lets either pass for the other. */
  lemma ScriptReadsGoDecodes(j: Json, user: string)
    requires ScriptReads(j, user)
    ensures Decoded(j).Some? <==> !Get(j.fields, "Roles").GetOr(JsonNull).JsonObject?
                                  && !Get(j.fields, "Attributes").GetOr(JsonNull).JsonArray?
    ensures Decoded(j).Some? ==> Decoded(j).value.user == user
  {
    var roles := Get(j.fields, "Roles").GetOr(JsonNull);
    hide Get, WellFormed, Depth;
    if roles.JsonArray? { StringsOfTextItems(roles.items); }
  }

  // ----- identities at the limit -----

  /** n arrays in one another. */
  function Nest(n: nat): Json { if n == 0 then JsonNull else JsonArray([Nest(n - 1)]) }

  lemma ItemDepth(j: Json)
    ensures ItemsDepth([j]) == Depth(j)
  {
    assert [j][1..] == [];
  }

  lemma {:induction false} NestDepth(n: nat)
    ensures Depth(Nest(n)) == n
  {
    if n > 0 {
      NestDepth(n - 1);
      ItemDepth(Nest(n - 1));
    }
  }

  lemma {:induction false} NestWellFormed(n: nat)
    ensures WellFormed(Nest(n))
  {
    if n > 0 { NestWellFormed(n - 1); }
  }

  /** An identity with one attribute of that nesting. */
  function NestedIdentity(user: string, n: nat): Identity {
    Identity(user, None, Some([JsonField("a", Nest(n))]))
  }

  lemma NestedIdentityDepth(user: string, n: nat)
    ensures Encodable(NestedIdentity(user, n)) && Depth(Encoded(NestedIdentity(user, n))) == n + 2
  {
    NestDepth(n);
    NestWellFormed(n);
    EncodedDepth(NestedIdentity(user, n));
    var fields := [JsonField("a", Nest(n))];
    assert fields[1..] == [];
    assert FieldsDepth(fields) == n;
  }
}
