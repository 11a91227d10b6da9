/** The JSON Schema checker that every reasoning output passes: a recursive interpreter of the schema,
    against the meaning of the keywords it supports. */
module SchemaChecker {
  import opened Text
  import opened Graph

  datatype Json =
    | Null | Bool(b: bool) | Int(n: int) | Float(r: real) | Str(s: string)
    | Arr(items: seq<Json>) | Obj(members: map<string, Json>)

  predicate IsContainer(j: Json) {
    j.Arr? || j.Obj?
  }

  // ---------------------------------------------------------------------------------------------
  // References
  // ---------------------------------------------------------------------------------------------

  /** Every "~" followed by `code` becomes `plain`. */
  function ReplaceEscape(s: string, code: char, plain: char): string {
    if |s| >= 2 && s[0] == '~' && s[1] == code then [plain] + ReplaceEscape(s[2..], code, plain)
    else if s == "" then ""
    else [s[0]] + ReplaceEscape(s[1..], code, plain)
  }

  function Unescape(token: string): string {
    ReplaceEscape(ReplaceEscape(token, '1', '/'), '0', '~')
  }

  /** How section 3 of RFC 6901 writes a member name as a reference token. */
  function Escape(name: string): string {
    if name == "" then ""
    else (if name[0] == '~' then "~0" else if name[0] == '/' then "~1" else [name[0]]) + Escape(name[1..])
  }

  function EscapeTilde(name: string): string {
    if name == "" then "" else (if name[0] == '~' then "~0" else [name[0]]) + EscapeTilde(name[1..])
  }

  lemma {:induction false} ReplaceStep(c: char, s: string, code: char, plain: char)
    ensures c != '~' ==> ReplaceEscape([c] + s, code, plain) == [c] + ReplaceEscape(s, code, plain)
    ensures code != '~' ==> ReplaceEscape(['~', code] + s, code, plain) == [plain] + ReplaceEscape(s, code, plain)
    ensures c != code && c != '~' ==>
        ReplaceEscape(['~', c] + s, code, plain) == ['~', c] + ReplaceEscape(s, code, plain)
  {
    var one, two, three := [c] + s, ['~', code] + s, ['~', c] + s;
    assert one[1..] == s && two[2..] == s && three[1..] == one;
    if c != code && c != '~' {
      assert ReplaceEscape(three, code, plain) == ['~'] + ReplaceEscape(one, code, plain);
    }
  }

  lemma {:induction false} FirstPass(name: string)
    ensures ReplaceEscape(Escape(name), '1', '/') == EscapeTilde(name)
    ensures '/' !in Escape(name)
  {
    if name == "" {
    } else {
      FirstPass(name[1..]);
      ReplaceStep(if name[0] == '~' then '0' else name[0], Escape(name[1..]), '1', '/');
    }
  }

  lemma {:induction false} SecondPass(name: string)
    ensures ReplaceEscape(EscapeTilde(name), '0', '~') == name
  {
    if name == "" {
    } else {
      SecondPass(name[1..]);
      ReplaceStep(name[0], EscapeTilde(name[1..]), '0', '~');
    }
  }

  /** Section 4 of RFC 6901: unescaping gives every member name back. */
  lemma {:induction false} UnescapeOfEscape(name: string)
    ensures Unescape(Escape(name)) == name && '/' !in Escape(name)
  {
    FirstPass(name);
    SecondPass(name);
  }

  /** Follows member names from `from`; None where a name is missing, which the checker answers with an error of
      another kind than a verdict. */
  function Follow(from: Json, names: seq<string>): Option<Json>
    decreases |names|
  {
    if names == [] then Some(from)
    else if !from.Obj? || names[0] !in from.members then None
    else Follow(from.members[names[0]], names[1..])
  }

  function Names(tokens: seq<string>): (names: seq<string>)
    ensures |names| == |tokens| && forall i | 0 <= i < |tokens| :: names[i] == Unescape(tokens[i])
  {
    if tokens == [] then [] else [Unescape(tokens[0])] + Names(tokens[1..])
  }

  /** The two readings of a schema: the one the checker implements, and the one of JSON Schema 2020-12. */
  datatype Reading = Coded | Standard

  /** References into the document; the checker does not take "#" for its root. */
  predicate IsLocal(reading: Reading, reference: string) {
    "#/" <= reference || (reading.Standard? && reference == "#")
  }

  function HexDigit(c: char): Option<nat> {
    if '0' <= c <= '9' then Some((c - '0') as nat)
    else if 'A' <= c <= 'F' then Some((c - 'A') as nat + 10)
    else if 'a' <= c <= 'f' then Some((c - 'a') as nat + 10)
    else None
  }

  /** A fragment with its percent-encoded ASCII characters decoded. */
  function Decoded(fragment: string): string {
    if fragment == "" then ""
    else if |fragment| >= 3 && fragment[0] == '%' && HexDigit(fragment[1]).Some? && HexDigit(fragment[2]).Some?
            && HexDigit(fragment[1]).value < 8
    then [(16 * HexDigit(fragment[1]).value + HexDigit(fragment[2]).value) as char] + Decoded(fragment[3..])
    else [fragment[0]] + Decoded(fragment[1..])
  }

  lemma {:induction false} DecodedPlain(fragment: string)
    requires '%' !in fragment
    ensures Decoded(fragment) == fragment
  {
    if fragment != "" {
      DecodedPlain(fragment[1..]);
    }
  }

  /** The pointer of a reference; section 6 of RFC 6901 has the fragment decoded first. */
  function Pointer(reading: Reading, reference: string): string
    requires IsLocal(reading, reference)
  {
    if reading.Standard? then Decoded(reference[1..]) else reference[1..]
  }

  function Resolve(reading: Reading, root: Json, reference: string): Option<Json>
    requires IsLocal(reading, reference)
  {
    var pointer := Pointer(reading, reference);
    if pointer == "" then Some(root)
    else if pointer[0] != '/' then None
    else Follow(root, Names(Split(pointer[1..], '/')))
  }

  lemma {:induction false} PlainReferencesResolveAlike(root: Json, reference: string)
    requires "#/" <= reference && '%' !in reference
    ensures Resolve(Coded, root, reference) == Resolve(Standard, root, reference)
  {
    DecodedPlain(reference[1..]);
  }

  function Tokens(names: seq<string>): (tokens: seq<string>)
    ensures |tokens| == |names| && forall i | 0 <= i < |names| :: tokens[i] == Escape(names[i])
  {
    if names == [] then [] else [Escape(names[0])] + Tokens(names[1..])
  }

  /** The reference that section 3 of RFC 6901 writes for a member path leads to that member, whatever
      slashes and tildes its names hold. */
  lemma {:induction false} ReferenceFindsMember(root: Json, names: seq<string>)
    requires names != []
    ensures var reference := "#/" + Join(Tokens(names), '/');
            IsLocal(Coded, reference) && Resolve(Coded, root, reference) == Follow(root, names)
  {
    var tokens := Tokens(names);
    var reference := "#/" + Join(tokens, '/');
    assert reference[1..][0] == '/' && reference[1..][1..] == Join(tokens, '/');
    forall i | 0 <= i < |tokens| ensures '/' !in tokens[i] && Unescape(tokens[i]) == names[i] {
      UnescapeOfEscape(names[i]);
    }
    SplitOfJoin(tokens, '/');
    assert Names(tokens) == names;
  }

  // ---------------------------------------------------------------------------------------------
  // Keywords
  // ---------------------------------------------------------------------------------------------

  function Keyword(schema: Json, key: string): Option<Json> {
    if schema.Obj? && key in schema.members then Some(schema.members[key]) else None
  }

  function Reference(schema: Json): Option<string> {
    var r := Keyword(schema, "$ref");
    if r.Some? && r.value.Str? then Some(r.value.s) else None
  }

  datatype Combinator = OneOf | AnyOf | AllOf

  /** The options of a combinator, when the keyword holds a list. */
  function Options(schema: Json, key: Combinator): Option<seq<Json>> {
    var o := Keyword(schema, match key case OneOf => "oneOf" case AnyOf => "anyOf" case AllOf => "allOf");
    if o.Some? && o.value.Arr? then Some(o.value.items) else None
  }

  /** `int` of a number or truth value. */
  function ToInt(j: Json): int
    requires j.Int? || j.Bool? || j.Float?
  {
    match j
    case Int(n) => n
    case Bool(b) => if b then 1 else 0
    case Float(r) => if r >= 0.0 then r.Floor else -((-r).Floor)
  }

  predicate IsBound(o: Option<Json>) {
    o.None? || o.value.Int? || o.value.Bool? || o.value.Float?
  }

  /** What the checker takes for granted of a schema object: beyond this it raises errors that are not
      verdicts. */
  predicate WellTyped(schema: Json) {
    && schema.Obj?
    && IsBound(Keyword(schema, "minLength")) && IsBound(Keyword(schema, "minItems"))
    && IsBound(Keyword(schema, "maxItems"))
    && (var t := Keyword(schema, "type");
        t.Some? && t.value.Arr? ==> forall i | 0 <= i < |t.value.items| :: !IsContainer(t.value.items[i]))
    && (var e := Keyword(schema, "enum"); e.None? || e.value.Arr?)
    && (var r := Keyword(schema, "required");
        r.None? || (r.value.Arr? && forall i | 0 <= i < |r.value.items| :: !IsContainer(r.value.items[i])))
    && (var p := Keyword(schema, "properties"); p.None? || p.value.Obj?)
  }

  /** Python's `==`: a truth value equals 0 or 1, and a number equals a number of the same value. */
  function Numeric(j: Json): Option<real> {
    match j
    case Bool(b) => Some(if b then 1.0 else 0.0)
    case Int(n) => Some(n as real)
    case Float(r) => Some(r)
    case _ => None
  }

  predicate PythonEqual(a: Json, b: Json) {
    match a
    case Arr(x) => b.Arr? && |x| == |b.items| && forall i | 0 <= i < |x| :: PythonEqual(x[i], b.items[i])
    case Obj(x) => b.Obj? && x.Keys == b.members.Keys && forall k | k in x :: PythonEqual(x[k], b.members[k])
    case _ => if Numeric(a).Some? then Numeric(a) == Numeric(b) else a == b
  }

  /** Equality of JSON values in section 4.2.2 of JSON Schema Core 2020-12: numbers by value, and a truth
      value is not a number. */
  predicate SchemaEqual(a: Json, b: Json) {
    match a
    case Arr(x) => b.Arr? && |x| == |b.items| && forall i | 0 <= i < |x| :: SchemaEqual(x[i], b.items[i])
    case Obj(x) => b.Obj? && x.Keys == b.members.Keys && forall k | k in x :: SchemaEqual(x[k], b.members[k])
    case _ => if a.Int? || a.Float? then !b.Bool? && Numeric(a) == Numeric(b) else a == b
  }

  predicate Same(reading: Reading, a: Json, b: Json) {
    match reading case Coded => PythonEqual(a, b) case Standard => SchemaEqual(a, b)
  }

  /** The checker compares the texts of the items, which are the same exactly for the same item. */
  ghost predicate Unique(reading: Reading, items: seq<Json>) {
    match reading
    case Coded => Distinct(items)
    case Standard => forall i, j | 0 <= i < j < |items| :: !SchemaEqual(items[i], items[j])
  }

  predicate Integral(j: Json) {
    j.Float? && j.r == j.r.Floor as real
  }

  /** The checker's table of types. */
  predicate Tests(name: string, value: Json) {
    match name {
      case "object" => value.Obj?
      case "array" => value.Arr?
      case "string" => value.Str?
      case "integer" => value.Int?
      case "number" => value.Int? || value.Float?
      case "boolean" => value.Bool?
      case "null" => value.Null?
      case _ => false
    }
  }

  /** The types of section 6.1.1 of JSON Schema Validation 2020-12, which takes every number without a
      fraction for an integer. */
  predicate IsOfType(value: Json, name: string) {
    match value
    case Null => name == "null"
    case Bool(_) => name == "boolean"
    case Int(_) => name in {"integer", "number"}
    case Float(_) => name == "number" || (name == "integer" && Integral(value))
    case Str(_) => name == "string"
    case Arr(_) => name == "array"
    case Obj(_) => name == "object"
  }

  predicate HasType(reading: Reading, name: Json, value: Json) {
    name.Str? && match reading case Coded => Tests(name.s, value) case Standard => IsOfType(value, name.s)
  }

  function AllowedTypes(schema: Json): seq<Json> {
    var t := Keyword(schema, "type");
    if t.None? then [] else match t.value case Str(_) => [t.value] case Arr(names) => names case _ => []
  }

  // The keywords that say nothing about the parts of a value, as the checker takes them: those it looks at
  // before the combined schemas, and those it looks at after them.

  ghost predicate AcceptsShape(matches: (string, string) -> bool, value: Json, schema: Json)
    requires WellTyped(schema)
  {
    && LengthsFit(value, schema)
    && (value.Arr? && Keyword(schema, "uniqueItems") == Some(Bool(true)) ==> Unique(Coded, value.items))
    && (value.Str? && Keyword(schema, "pattern").Some? && Keyword(schema, "pattern").value.Str? ==>
          matches(Keyword(schema, "pattern").value.s, value.s))
  }

  ghost predicate AcceptsKind(value: Json, schema: Json)
    requires WellTyped(schema)
  {
    && (AllowedTypes(schema) != [] ==> OfSomeType(Coded, value, AllowedTypes(schema)))
    && Chosen(value, schema)
    && (value.Obj? && Keyword(schema, "required").Some? ==> HasMembers(value, Keyword(schema, "required").value.items))
  }

  ghost predicate OfSomeType(reading: Reading, value: Json, names: seq<Json>) {
    exists i :: 0 <= i < |names| && HasType(reading, names[i], value)
  }

  ghost predicate Chosen(value: Json, schema: Json)
    requires WellTyped(schema)
  {
    && (Keyword(schema, "enum").Some? ==> OneOfThese(Coded, value, Keyword(schema, "enum").value.items))
    && (Keyword(schema, "const").Some? ==> PythonEqual(value, Keyword(schema, "const").value))
  }

  ghost predicate OneOfThese(reading: Reading, value: Json, allowed: seq<Json>) {
    exists i :: 0 <= i < |allowed| && Same(reading, value, allowed[i])
  }

  ghost predicate HasMembers(value: Json, keys: seq<Json>)
    requires value.Obj?
  {
    forall i | 0 <= i < |keys| :: HasMember(value, keys[i])
  }

  predicate HasMember(value: Json, key: Json)
    requires value.Obj?
  {
    key.Str? && key.s in value.members
  }

  predicate LengthsFit(value: Json, schema: Json)
    requires WellTyped(schema)
  {
    && (value.Str? && Keyword(schema, "minLength").Some? ==> |value.s| >= ToInt(Keyword(schema, "minLength").value))
    && (value.Arr? && Keyword(schema, "minItems").Some? ==> |value.items| >= ToInt(Keyword(schema, "minItems").value))
    && (value.Arr? && Keyword(schema, "maxItems").Some? ==> |value.items| <= ToInt(Keyword(schema, "maxItems").value))
  }

  // The same keywords in section 6 of JSON Schema Validation 2020-12, said of the members of the schema.

  predicate AtLeast(size: nat, bound: Json) {
    Numeric(bound).Some? ==> size as real >= Numeric(bound).value
  }

  predicate AtMost(size: nat, bound: Json) {
    Numeric(bound).Some? ==> size as real <= Numeric(bound).value
  }

  /** Sections 6.3 and 6.4. */
  ghost predicate ConformsShape(matches: (string, string) -> bool, value: Json, m: map<string, Json>) {
    match value
    case Str(s) =>
      && ("minLength" in m ==> AtLeast(|s|, m["minLength"]))
      && ("pattern" in m && m["pattern"].Str? ==> matches(m["pattern"].s, s))
    case Arr(items) =>
      && ("minItems" in m ==> AtLeast(|items|, m["minItems"])) && ("maxItems" in m ==> AtMost(|items|, m["maxItems"]))
      && ("uniqueItems" in m && m["uniqueItems"] == Bool(true) ==> Unique(Standard, items))
    case _ => true
  }

  /** Section 6.1.1. */
  ghost predicate ConformsType(value: Json, m: map<string, Json>) {
    "type" in m ==>
      match m["type"]
      case Str(name) => IsOfType(value, name)
      case Arr(names) => exists i :: 0 <= i < |names| && names[i].Str? && IsOfType(value, names[i].s)
      case _ => true
  }

  /** Sections 6.1.2, 6.1.3 and 6.5.3. */
  ghost predicate ConformsKind(value: Json, m: map<string, Json>) {
    && ConformsType(value, m)
    && ("enum" in m && m["enum"].Arr? ==> exists c :: c in m["enum"].items && SchemaEqual(value, c))
    && ("const" in m ==> SchemaEqual(value, m["const"]))
    && (value.Obj? && "required" in m && m["required"].Arr? ==>
          forall name | name in m["required"].items :: name.Str? && name.s in value.members.Keys)
  }

  /** What a schema says about one member of an object. */
  datatype MemberRule = MustFit(schema: Json) | Forbidden | Unchecked

  function RuleFor(schema: Json, key: string): MemberRule
    requires WellTyped(schema)
  {
    var properties, additional := Keyword(schema, "properties"), Keyword(schema, "additionalProperties");
    if properties.Some? && key in properties.value.members then MustFit(properties.value.members[key])
    else if additional == Some(Bool(false)) then Forbidden
    else if additional.Some? && additional.value.Obj? then MustFit(additional.value)
    else Unchecked
  }

  function ItemRule(schema: Json): Option<Json> {
    var items := Keyword(schema, "items");
    if items.Some? && items.value.Obj? then items else None
  }

  predicate ForbidsItems(schema: Json) {
    Keyword(schema, "items") == Some(Bool(false))
  }

  // ---------------------------------------------------------------------------------------------
  // The meaning of a schema
  // ---------------------------------------------------------------------------------------------

  /** A schema document: how it is read, its root, its regular-expression search, the schemas reachable in it,
      and a rank that falls whenever the reading goes on with the same value. */
  datatype Document = Document(
    reading: Reading, root: Json, matches: (string, string) -> bool, schemas: set<Json>, rank: Json -> nat)

  /** The keywords beside a reference. The checker passes over them; section 8.2.3.1 of JSON Schema Core
      2020-12 applies them too. */
  function Siblings(schema: Json): Json
    requires schema.Obj?
  {
    Obj(schema.members - {"$ref"})
  }

  /** The schemas that are tried on the very value at hand. */
  function TriedInPlace(reading: Reading, root: Json, schema: Json): seq<Json> {
    var reference := Reference(schema);
    if reference.Some? then
      (if !IsLocal(reading, reference.value) then []
       else match Resolve(reading, root, reference.value) case Some(target) => [target] case None => [])
      + (if reading.Standard? then [Siblings(schema)] else [])
    else OptionsOrNone(schema, OneOf) + OptionsOrNone(schema, AnyOf) + OptionsOrNone(schema, AllOf)
  }

  function OptionsOrNone(schema: Json, key: Combinator): seq<Json> {
    var options := Options(schema, key);
    if options.Some? then options.value else []
  }

  /** The schemas that are tried on the members and items of the value. */
  ghost predicate TriedBelow(schema: Json, next: Json)
    requires WellTyped(schema)
  {
    var m := schema.members;
    && Reference(schema).None?
    && (|| ("properties" in m && next in m["properties"].members.Values)
        || ("additionalProperties" in m && next == m["additionalProperties"] && next.Obj?)
        || ("items" in m && next == m["items"] && next.Obj?))
  }

  ghost predicate SchemaOk(reading: Reading, root: Json, schemas: set<Json>, schema: Json) {
    && schema.Obj?
    && (Reference(schema).None? ==> WellTyped(schema) && forall next | TriedBelow(schema, next) :: next in schemas)
    && (Reference(schema).Some? && IsLocal(reading, Reference(schema).value) ==>
          Resolve(reading, root, Reference(schema).value).Some?)
    && (forall next | next in TriedInPlace(reading, root, schema) :: next in schemas)
  }

  /** All the schemas that can come up are sound, and references resolve. */
  ghost predicate WellFormed(reading: Reading, root: Json, schemas: set<Json>) {
    root in schemas && forall schema | schema in schemas :: SchemaOk(reading, root, schemas, schema)
  }

  ghost predicate Ranked(d: Document) {
    && WellFormed(d.reading, d.root, d.schemas)
    && forall schema, next | schema in d.schemas && next in TriedInPlace(d.reading, d.root, schema) ::
       d.rank(next) < d.rank(schema)
  }

  lemma {:induction false} OptionIsTried(d: Document, schema: Json, key: Combinator, i: int)
    requires Ranked(d) && schema in d.schemas && Reference(schema).None?
    requires Options(schema, key).Some? && 0 <= i < |Options(schema, key).value|
    ensures Options(schema, key).value[i] in d.schemas && d.rank(Options(schema, key).value[i]) < d.rank(schema)
  {
    assert Options(schema, key).value[i] in TriedInPlace(d.reading, d.root, schema);
  }

  /** What the keywords that the checker supports mean, in either reading, each with definitions of its own:
      the standard one is section 6 of JSON Schema Validation 2020-12 and sections 8.2.3.1 and 10 of JSON
      Schema Core 2020-12. A reference that is not local is refused in both. */
  ghost predicate Accepts(d: Document, value: Json, schema: Json)
    requires Ranked(d) && schema in d.schemas
    decreases value, d.rank(schema)
  {
    var reference := Reference(schema);
    if reference.Some? then
      IsLocal(d.reading, reference.value) &&
      assert Resolve(d.reading, d.root, reference.value).value in TriedInPlace(d.reading, d.root, schema);
      && Accepts(d, value, Resolve(d.reading, d.root, reference.value).value)
      && (d.reading.Standard? ==> Accepts(d, value, Siblings(schema)))
    else if d.reading.Coded? then
      && AcceptsShape(d.matches, value, schema)
      && AcceptsCombined(d, value, schema)
      && AcceptsKind(value, schema)
      && AcceptsParts(d, value, schema)
    else
      && ConformsShape(d.matches, value, schema.members)
      && ConformsKind(value, schema.members)
      && ConformsCombined(d, value, schema)
      && ConformsParts(d, value, schema)
  }

  // The standard's keywords that apply schemas: sections 10.2.1, 10.3.1.2, 10.3.2.1 and 10.3.2.3 of JSON
  // Schema Core 2020-12.

  function ListIn(schema: Json, name: string): seq<Json> {
    if schema.Obj? && name in schema.members && schema.members[name].Arr? then schema.members[name].items else []
  }

  predicate HasList(schema: Json, name: string) {
    schema.Obj? && name in schema.members && schema.members[name].Arr?
  }

  lemma {:induction false} ListsAreTried(reading: Reading, root: Json, schema: Json, name: string)
    requires Reference(schema).None? && name in {"oneOf", "anyOf", "allOf"}
    ensures forall next | next in ListIn(schema, name) :: next in TriedInPlace(reading, root, schema)
  {
  }

  ghost predicate Takes(d: Document, value: Json, schema: Json, name: string, i: int)
    requires Ranked(d) && schema in d.schemas && Reference(schema).None?
    requires name in {"oneOf", "anyOf", "allOf"} && 0 <= i < |ListIn(schema, name)|
    decreases value, d.rank(schema), 0
  {
    ListsAreTried(d.reading, d.root, schema, name);
    assert ListIn(schema, name)[i] in TriedInPlace(d.reading, d.root, schema);
    Accepts(d, value, ListIn(schema, name)[i])
  }

  ghost predicate ConformsCombined(d: Document, value: Json, schema: Json)
    requires Ranked(d) && schema in d.schemas && Reference(schema).None?
    decreases value, d.rank(schema), 2
  {
    && (HasList(schema, "oneOf") ==> TakesOne(d, value, schema))
    && (HasList(schema, "anyOf") ==> TakesSome(d, value, schema))
    && (HasList(schema, "allOf") ==> TakesAll(d, value, schema))
  }

  ghost predicate TakesSome(d: Document, value: Json, schema: Json)
    requires Ranked(d) && schema in d.schemas && Reference(schema).None?
    decreases value, d.rank(schema), 1
  {
    exists i :: 0 <= i < |ListIn(schema, "anyOf")| && Takes(d, value, schema, "anyOf", i)
  }

  ghost predicate TakesAll(d: Document, value: Json, schema: Json)
    requires Ranked(d) && schema in d.schemas && Reference(schema).None?
    decreases value, d.rank(schema), 1
  {
    forall i | 0 <= i < |ListIn(schema, "allOf")| :: Takes(d, value, schema, "allOf", i)
  }

  ghost predicate TakesOne(d: Document, value: Json, schema: Json)
    requires Ranked(d) && schema in d.schemas && Reference(schema).None?
    decreases value, d.rank(schema), 1
  {
    exists i :: 0 <= i < |ListIn(schema, "oneOf")| && Takes(d, value, schema, "oneOf", i)
                && forall j | 0 <= j < |ListIn(schema, "oneOf")| && j != i :: !Takes(d, value, schema, "oneOf", j)
  }

  ghost predicate ConformsParts(d: Document, value: Json, schema: Json)
    requires Ranked(d) && schema in d.schemas && Reference(schema).None?
    decreases value, d.rank(schema), 1
  {
    match value
    case Obj(members) => forall name | name in members :: ConformsMember(d, value, schema, name)
    case Arr(items) =>
      "items" in schema.members ==>
        match schema.members["items"] {
          case Bool(allowed) => allowed || items == []
          case Obj(_) => forall i | 0 <= i < |items| :: ConformsItem(d, value, schema, i)
          case _ => true
        }
    case _ => true
  }

  ghost predicate ConformsItem(d: Document, value: Json, schema: Json, i: int)
    requires Ranked(d) && schema in d.schemas && Reference(schema).None?
    requires value.Arr? && 0 <= i < |value.items| && "items" in schema.members && schema.members["items"].Obj?
    decreases value, d.rank(schema), 0
  {
    assert TriedBelow(schema, schema.members["items"]);
    Accepts(d, value.items[i], schema.members["items"])
  }

  /** The schema names the member among its properties. */
  predicate NamesProperty(schema: Json, name: string)
    requires WellTyped(schema)
  {
    "properties" in schema.members && name in schema.members["properties"].members
  }

  ghost predicate ConformsMember(d: Document, value: Json, schema: Json, name: string)
    requires Ranked(d) && schema in d.schemas && Reference(schema).None?
    requires value.Obj? && name in value.members
    decreases value, d.rank(schema), 0
  {
    && (NamesProperty(schema, name) ==>
          assert TriedBelow(schema, schema.members["properties"].members[name]);
          Accepts(d, value.members[name], schema.members["properties"].members[name]))
    && (!NamesProperty(schema, name) && "additionalProperties" in schema.members ==>
          match schema.members["additionalProperties"] {
            case Bool(allowed) => allowed
            case Obj(_) =>
              assert TriedBelow(schema, schema.members["additionalProperties"]);
              Accepts(d, value.members[name], schema.members["additionalProperties"])
            case _ => true
          })
  }

  ghost predicate AcceptsParts(d: Document, value: Json, schema: Json)
    requires Ranked(d) && schema in d.schemas && Reference(schema).None?
    decreases value, d.rank(schema), 1
  {
    && (value.Obj? ==> forall key | key in value.members :: AcceptsMember(d, value, schema, key))
    && (value.Arr? && ItemRule(schema).Some? ==>
          forall i | 0 <= i < |value.items| :: AcceptsItem(d, value, schema, i))
  }

  ghost predicate AcceptsCombined(d: Document, value: Json, schema: Json)
    requires Ranked(d) && schema in d.schemas && Reference(schema).None?
    decreases value, d.rank(schema), 2
  {
    && (Options(schema, OneOf).Some? ==>
          && SomeOption(d, value, schema, OneOf, |Options(schema, OneOf).value|)
          && !TwoOptions(d, value, schema, OneOf, |Options(schema, OneOf).value|))
    && (Options(schema, AnyOf).Some? ==> SomeOption(d, value, schema, AnyOf, |Options(schema, AnyOf).value|))
    && (Options(schema, AllOf).Some? ==> EveryOption(d, value, schema, AllOf, |Options(schema, AllOf).value|))
  }

  // Of the first `n` options.

  ghost predicate SomeOption(d: Document, value: Json, schema: Json, key: Combinator, n: int)
    requires Ranked(d) && schema in d.schemas && Reference(schema).None? && Options(schema, key).Some?
        && 0 <= n <= |Options(schema, key).value|
    decreases value, d.rank(schema), 1
  {
    exists i :: 0 <= i < n && AcceptsOption(d, value, schema, key, i)
  }

  ghost predicate TwoOptions(d: Document, value: Json, schema: Json, key: Combinator, n: int)
    requires Ranked(d) && schema in d.schemas && Reference(schema).None? && Options(schema, key).Some?
        && 0 <= n <= |Options(schema, key).value|
    decreases value, d.rank(schema), 1
  {
    exists i, j :: 0 <= i < j < n
                   && AcceptsOption(d, value, schema, key, i) && AcceptsOption(d, value, schema, key, j)
  }

  ghost predicate EveryOption(d: Document, value: Json, schema: Json, key: Combinator, n: int)
    requires Ranked(d) && schema in d.schemas && Reference(schema).None? && Options(schema, key).Some?
        && 0 <= n <= |Options(schema, key).value|
    decreases value, d.rank(schema), 1
  {
    forall i | 0 <= i < n :: AcceptsOption(d, value, schema, key, i)
  }

  ghost predicate AcceptsItem(d: Document, value: Json, schema: Json, i: int)
    requires Ranked(d) && schema in d.schemas && Reference(schema).None?
    requires value.Arr? && 0 <= i < |value.items| && ItemRule(schema).Some?
    decreases value, d.rank(schema), 0
  {
    assert TriedBelow(schema, ItemRule(schema).value);
    Accepts(d, value.items[i], ItemRule(schema).value)
  }

  ghost predicate AcceptsOption(d: Document, value: Json, schema: Json, key: Combinator, i: int)
    requires Ranked(d) && schema in d.schemas && Reference(schema).None?
    requires Options(schema, key).Some? && 0 <= i < |Options(schema, key).value|
    decreases value, d.rank(schema), 0
  {
    OptionIsTried(d, schema, key, i);
    Accepts(d, value, Options(schema, key).value[i])
  }

  ghost predicate AcceptsMember(d: Document, value: Json, schema: Json, key: string)
    requires Ranked(d) && schema in d.schemas && Reference(schema).None?
    requires value.Obj? && key in value.members
    decreases value, d.rank(schema), 0
  {
    match RuleFor(schema, key)
    case MustFit(rule) =>
      assert TriedBelow(schema, rule);
      Accepts(d, value.members[key], rule)
    case Forbidden => false
    case Unchecked => true
  }

  // ---------------------------------------------------------------------------------------------
  // The checker
  // ---------------------------------------------------------------------------------------------

  method HasDuplicates(items: seq<Json>) returns (found: bool)
    ensures found <==> !Distinct(items)
  {
    var seen := {};
    for i := 0 to |items|
      invariant seen == Elements(items[..i]) && Distinct(items[..i])
    {
      assert items[..i + 1] == items[..i] + [items[i]];
      SnocDistinct(items[..i], items[i]);
      if items[i] in seen {
        var k :| 0 <= k < i && items[k] == items[i];
        return true;
      }
      seen := seen + {items[i]};
    }
    assert items[..|items|] == items;
    found := false;
  }

  method CheckLengths(value: Json, schema: Json) returns (ok: bool)
    requires WellTyped(schema)
    ensures ok <==> LengthsFit(value, schema)
  {
    var least := if value.Str? then Keyword(schema, "minLength")
                 else if value.Arr? then Keyword(schema, "minItems")
                 else None;
    var size := if value.Str? then |value.s| else if value.Arr? then |value.items| else 0;
    if least.Some? && size < ToInt(least.value) {
      return false;
    }
    var most := Keyword(schema, "maxItems");
    ok := !(value.Arr? && most.Some? && size > ToInt(most.value));
  }

  method CheckShape(matches: (string, string) -> bool, value: Json, schema: Json) returns (ok: bool)
    requires WellTyped(schema)
    ensures ok <==> AcceptsShape(matches, value, schema)
  {
    ok := CheckLengths(value, schema);
    if ok && value.Arr? && Keyword(schema, "uniqueItems") == Some(Bool(true)) {
      var duplicates := HasDuplicates(value.items);
      ok := !duplicates;
    }
    if ok && value.Str? {
      var pattern := Keyword(schema, "pattern");
      ok := pattern.None? || !pattern.value.Str? || matches(pattern.value.s, value.s);
    }
  }

  method CheckType(value: Json, schema: Json) returns (ok: bool)
    ensures ok <==> (AllowedTypes(schema) != [] ==> OfSomeType(Coded, value, AllowedTypes(schema)))
  {
    var names := AllowedTypes(schema);
    for i := 0 to |names|
      invariant forall j | 0 <= j < i :: !HasType(Coded, names[j], value)
    {
      if HasType(Coded, names[i], value) {
        return true;
      }
    }
    ok := names == [];
  }

  method CheckChoice(value: Json, schema: Json) returns (ok: bool)
    requires WellTyped(schema)
    ensures ok <==> Chosen(value, schema)
  {
    var constant := Keyword(schema, "const");
    ok := constant.None? || PythonEqual(value, constant.value);
    if Keyword(schema, "enum").Some? {
      var allowed := Keyword(schema, "enum").value.items;
      for i := 0 to |allowed|
        invariant forall j | 0 <= j < i :: !PythonEqual(value, allowed[j])
      {
        if PythonEqual(value, allowed[i]) {
          return;
        }
      }
      ok := false;
    }
  }

  method CheckKind(value: Json, schema: Json) returns (ok: bool)
    requires WellTyped(schema)
    ensures ok <==> AcceptsKind(value, schema)
  {
    ok := CheckType(value, schema);
    if ok {
      ok := CheckChoice(value, schema);
    }
    if ok && value.Obj? && Keyword(schema, "required").Some? {
      var keys := Keyword(schema, "required").value.items;
      for i := 0 to |keys|
        invariant forall j | 0 <= j < i :: HasMember(value, keys[j])
      {
        if !HasMember(value, keys[i]) {
          return false;
        }
      }
    }
  }

  /** `count` is right about the first `n` options, as far as it matters. */
  ghost predicate Counts(count: int, d: Document, value: Json, schema: Json, key: Combinator, n: int)
    requires Ranked(d) && schema in d.schemas && Reference(schema).None?
    requires Options(schema, key).Some? && 0 <= n <= |Options(schema, key).value|
  {
    && (count >= 1 <==> SomeOption(d, value, schema, key, n))
    && (count >= 2 <==> TwoOptions(d, value, schema, key, n))
  }

  lemma {:induction false} OneMoreOption(d: Document, value: Json, schema: Json, key: Combinator, n: int, count: nat)
    requires Ranked(d) && schema in d.schemas && Reference(schema).None?
    requires Options(schema, key).Some? && 0 <= n < |Options(schema, key).value|
    requires Counts(count, d, value, schema, key, n)
    ensures Counts(if AcceptsOption(d, value, schema, key, n) then count + 1 else count, d, value, schema, key, n + 1)
  {
  }

  /** A schema object without a reference that allows no members but its properties. */
  predicate ClosesObjects(schema: Json) {
    && WellTyped(schema) && Reference(schema).None?
    && "additionalProperties" in schema.members && schema.members["additionalProperties"] == Bool(false)
  }

  /** A document as the checker reads it. */
  ghost predicate Describes(d: Document, root: Json, matches: (string, string) -> bool) {
    Ranked(d) && d.reading.Coded? && d.root == root && d.matches == matches
  }

  /** A raised error is the verdict false. */
  method Check(root: Json, matches: (string, string) -> bool, value: Json, schema: Json, ghost d: Document)
    returns (ok: bool)
    requires Describes(d, root, matches) && schema in d.schemas
    ensures ok <==> Accepts(d, value, schema)
    ensures ok && ClosesObjects(schema) && value.Obj? ==>
              forall name | name in value.members :: NamesProperty(schema, name)
    decreases value, d.rank(schema)
  {
    var reference := Reference(schema);
    if reference.Some? {
      if !IsLocal(Coded, reference.value) {
        return false;
      }
      var target := Resolve(Coded, root, reference.value);
      assert target.value in TriedInPlace(Coded, root, schema);
      ok := Check(root, matches, value, target.value, d);
      return;
    }
    ok := CheckKeywords(root, matches, value, schema, d);
    if ok && ClosesObjects(schema) && value.Obj? {
      forall name | name in value.members ensures NamesProperty(schema, name) {
        MemberVerdict(d, value, schema, name);
      }
    }
  }

  method CheckKeywords(root: Json, matches: (string, string) -> bool, value: Json, schema: Json, ghost d: Document)
    returns (ok: bool)
    requires Describes(d, root, matches) && schema in d.schemas && Reference(schema).None?
    ensures ok <==> Accepts(d, value, schema)
    decreases value, d.rank(schema), 3
  {
    ok := CheckShape(matches, value, schema);
    if ok {
      ok := CheckCombined(root, matches, value, schema, d);
    }
    if ok {
      ok := CheckKind(value, schema);
    }
    if ok {
      ok := CheckParts(root, matches, value, schema, d);
    }
  }

  method CheckParts(root: Json, matches: (string, string) -> bool, value: Json, schema: Json, ghost d: Document)
    returns (ok: bool)
    requires Describes(d, root, matches) && schema in d.schemas && Reference(schema).None?
    ensures ok <==> AcceptsParts(d, value, schema)
    decreases value, d.rank(schema), 1
  {
    ok := true;
    if value.Obj? {
      ok := CheckMembers(root, matches, value, schema, d);
    }
    if value.Arr? && ItemRule(schema).Some? {
      ok := CheckItems(root, matches, value, schema, d);
    }
    assert ok && value.Obj? ==> forall key | key in value.members :: AcceptsMember(d, value, schema, key);
    assert ok && value.Arr? && ItemRule(schema).Some? ==>
        forall i | 0 <= i < |value.items| :: AcceptsItem(d, value, schema, i);
  }

  method CheckItems(root: Json, matches: (string, string) -> bool, value: Json, schema: Json, ghost d: Document)
    returns (ok: bool)
    requires Describes(d, root, matches) && schema in d.schemas && Reference(schema).None?
    requires value.Arr? && ItemRule(schema).Some?
    ensures ok <==> forall i | 0 <= i < |value.items| :: AcceptsItem(d, value, schema, i)
    decreases value, d.rank(schema), 0
  {
    for i := 0 to |value.items|
      invariant forall j | 0 <= j < i :: AcceptsItem(d, value, schema, j)
    {
      assert TriedBelow(schema, ItemRule(schema).value);
      ok := Check(root, matches, value.items[i], ItemRule(schema).value, d);
      if !ok {
        assert !AcceptsItem(d, value, schema, i);
        return;
      }
    }
    ok := true;
  }

  method CheckCombined(root: Json, matches: (string, string) -> bool, value: Json, schema: Json, ghost d: Document)
    returns (ok: bool)
    requires Describes(d, root, matches) && schema in d.schemas && Reference(schema).None?
    ensures ok <==> AcceptsCombined(d, value, schema)
    decreases value, d.rank(schema), 2
  {
    if Options(schema, OneOf).Some? {
      var count := CountMatches(root, matches, value, schema, OneOf, d);
      if count != 1 {
        return false;
      }
    }
    if Options(schema, AnyOf).Some? {
      var count := CountMatches(root, matches, value, schema, AnyOf, d);
      if count < 1 {
        return false;
      }
    }
    ok := true;
    if Options(schema, AllOf).Some? {
      ok := CheckAll(root, matches, value, schema, d);
    }
  }

  method CheckAll(root: Json, matches: (string, string) -> bool, value: Json, schema: Json, ghost d: Document)
    returns (ok: bool)
    requires Describes(d, root, matches) && schema in d.schemas && Reference(schema).None?
    requires Options(schema, AllOf).Some?
    ensures ok <==> EveryOption(d, value, schema, AllOf, |Options(schema, AllOf).value|)
    decreases value, d.rank(schema), 1
  {
    var n := |Options(schema, AllOf).value|;
    for i := 0 to n
      invariant forall j | 0 <= j < i :: AcceptsOption(d, value, schema, AllOf, j)
    {
      ok := CheckOption(root, matches, value, schema, AllOf, i, d);
      if !ok {
        return;
      }
    }
    ok := true;
  }

  /** A failing option is skipped, a passing one counted. */
  method CountMatches(root: Json, matches: (string, string) -> bool, value: Json, schema: Json, key: Combinator,
      ghost d: Document)
    returns (count: nat)
    requires Describes(d, root, matches) && schema in d.schemas && Reference(schema).None?
    requires Options(schema, key).Some?
    ensures count >= 1 <==> SomeOption(d, value, schema, key, |Options(schema, key).value|)
    ensures count >= 2 <==> TwoOptions(d, value, schema, key, |Options(schema, key).value|)
    decreases value, d.rank(schema), 1
  {
    count := 0;
    var n := |Options(schema, key).value|;
    for i := 0 to n
      invariant Counts(count, d, value, schema, key, i)
    {
      var passes := CheckOption(root, matches, value, schema, key, i, d);
      OneMoreOption(d, value, schema, key, i, count);
      if passes {
        count := count + 1;
      }
    }
  }

  method CheckOption(root: Json, matches: (string, string) -> bool, value: Json, schema: Json, key: Combinator, i: int,
      ghost d: Document)
    returns (passes: bool)
    requires Describes(d, root, matches) && schema in d.schemas && Reference(schema).None?
    requires Options(schema, key).Some? && 0 <= i < |Options(schema, key).value|
    ensures passes <==> AcceptsOption(d, value, schema, key, i)
    decreases value, d.rank(schema), 0
  {
    OptionIsTried(d, schema, key, i);
    passes := Check(root, matches, value, Options(schema, key).value[i], d);
  }

  method CheckMembers(root: Json, matches: (string, string) -> bool, value: Json, schema: Json, ghost d: Document)
    returns (ok: bool)
    requires Describes(d, root, matches) && schema in d.schemas && Reference(schema).None? && value.Obj?
    ensures ok <==> forall key | key in value.members :: AcceptsMember(d, value, schema, key)
    decreases value, d.rank(schema), 0
  {
    var left := value.members.Keys;
    while left != {}
      invariant left <= value.members.Keys
      invariant forall key | key in value.members.Keys - left :: AcceptsMember(d, value, schema, key)
      decreases |left|
    {
      var key :| key in left;
      left := left - {key};
      var rule := RuleFor(schema, key);
      if rule.MustFit? {
        assert TriedBelow(schema, rule.schema);
        ok := Check(root, matches, value.members[key], rule.schema, d);
        if !ok {
          assert !AcceptsMember(d, value, schema, key);
          return;
        }
      } else if rule.Forbidden? {
        assert !AcceptsMember(d, value, schema, key);
        return false;
      }
    }
    ok := true;
  }

  // ---------------------------------------------------------------------------------------------
  // Which documents are fit to be checked with
  // ---------------------------------------------------------------------------------------------

  /** Which schemas lead to which without a step into the value. */
  function InPlace(reading: Reading, root: Json, schemas: set<Json>): Graph<Json> {
    map schema | schema in schemas :: TriedInPlace(reading, root, schema)
  }

  lemma {:induction false} RankFalls(d: Document, w: seq<Json>)
    requires Ranked(d) && IsWalk(InPlace(d.reading, d.root, d.schemas), w)
    ensures d.rank(w[|w| - 1]) + |w| - 1 <= d.rank(w[0])
  {
    if |w| == 1 {
    } else {
      var front := w[..|w| - 1];
      RankFalls(d, front);
      assert Edge(InPlace(d.reading, d.root, d.schemas), w[|w| - 2], w[|w| - 1]);
    }
  }

  function IndexOf(order: seq<Json>, x: Json): nat {
    if order == [] || order[0] == x then 0 else 1 + IndexOf(order[1..], x)
  }

  lemma {:induction false} IndexOfFinds(order: seq<Json>, x: Json, i: nat)
    requires Distinct(order) && i < |order| && order[i] == x
    ensures IndexOf(order, x) == i
  {
    if i > 0 {
      assert order[0] != order[i];
      assert Distinct(order[1..]) by {
        forall j, k | 0 <= j < k < |order[1..]| ensures order[1..][j] != order[1..][k] {
          assert order[j + 1] != order[k + 1];
        }
      }
      IndexOfFinds(order[1..], x, i - 1);
    }
  }

  lemma {:induction false} OrderGivesRank(
    reading: Reading, root: Json, matches: (string, string) -> bool, schemas: set<Json>,
      order: seq<Json>)
    requires WellFormed(reading, root, schemas) && IsOrderOf(InPlace(reading, root, schemas), order)
    ensures Ranked(Document(reading, root, matches, schemas, x => IndexOf(order, x)))
  {
    var g := InPlace(reading, root, schemas);
    forall schema, next | schema in schemas && next in TriedInPlace(reading, root, schema)
      ensures IndexOf(order, next) < IndexOf(order, schema)
    {
      assert schema in g && next in g && Edge(g, schema, next);
      var i :| 0 <= i < |order| && order[i] == schema;
      var j :| 0 <= j < i && order[..i][j] == next;
      IndexOfFinds(order, schema, i);
      IndexOfFinds(order, next, j);
    }
  }

  /** The checker ends on every value, with the verdict of the meaning, for every well-formed document in
      which each cycle of references passes through properties, additionalProperties or items: such
      documents, and no others, have a rank. */
  lemma {:induction false} RankedExactlyWithoutInPlaceCycle(
    reading: Reading, root: Json, matches: (string, string) -> bool,
      schemas: set<Json>)
    requires WellFormed(reading, root, schemas)
    ensures (exists rank :: Ranked(Document(reading, root, matches, schemas, rank)))
        <==> !HasCycle(InPlace(reading, root, schemas))
  {
    var g := InPlace(reading, root, schemas);
    AcyclicMeansOrderable(g);
    if exists order :: IsOrderOf(g, order) {
      var order :| IsOrderOf(g, order);
      OrderGivesRank(reading, root, matches, schemas, order);
    }
    forall rank, w | Ranked(Document(reading, root, matches, schemas, rank)) ensures !IsCycle(g, w) {
      if IsCycle(g, w) {
        RankFalls(Document(reading, root, matches, schemas, rank), w);
      }
    }
  }

  // ---------------------------------------------------------------------------------------------
  // Where its equality is not that of the standard
  // ---------------------------------------------------------------------------------------------

  /** Truth values stand in the same places. */
  predicate TruthsAlign(a: Json, b: Json) {
    if a.Arr? && b.Arr? && |a.items| == |b.items| then
      forall i | 0 <= i < |a.items| :: TruthsAlign(a.items[i], b.items[i])
    else if a.Obj? && b.Obj? && a.members.Keys == b.members.Keys then
      forall k | k in a.members :: TruthsAlign(a.members[k], b.members[k])
    else a.Bool? == b.Bool?
  }

  /** enum and const take a truth value for the number 0 or 1, anywhere inside a value, and differ from the
      standard in nothing else. */
  lemma {:induction false} EqualityConfusesOnlyTruths(a: Json, b: Json)
    ensures SchemaEqual(a, b) <==> PythonEqual(a, b) && TruthsAlign(a, b)
  {
    if a.Arr? && b.Arr? && |a.items| == |b.items| {
      forall i | 0 <= i < |a.items|
        ensures SchemaEqual(a.items[i], b.items[i])
                <==> PythonEqual(a.items[i], b.items[i]) && TruthsAlign(a.items[i], b.items[i])
      {
        EqualityConfusesOnlyTruths(a.items[i], b.items[i]);
      }
    } else if a.Obj? && b.Obj? && a.members.Keys == b.members.Keys {
      forall k | k in a.members
        ensures SchemaEqual(a.members[k], b.members[k])
                <==> PythonEqual(a.members[k], b.members[k]) && TruthsAlign(a.members[k], b.members[k])
      {
        EqualityConfusesOnlyTruths(a.members[k], b.members[k]);
      }
    }
  }

  /** Numbers written as floats stand in the same places. */
  predicate NumbersAlign(a: Json, b: Json) {
    if a.Arr? && b.Arr? && |a.items| == |b.items| then
      forall i | 0 <= i < |a.items| :: NumbersAlign(a.items[i], b.items[i])
    else if a.Obj? && b.Obj? && a.members.Keys == b.members.Keys then
      forall k | k in a.members :: NumbersAlign(a.members[k], b.members[k])
    else a.Float? == b.Float?
  }

  /** Two items have one text exactly when the standard holds them equal and writes floats in the same
      places. */
  lemma {:induction false} TextSeparatesOnlyNumbers(a: Json, b: Json)
    ensures a == b <==> SchemaEqual(a, b) && NumbersAlign(a, b)
  {
    if a.Arr? && b.Arr? && |a.items| == |b.items| {
      forall i | 0 <= i < |a.items|
        ensures a.items[i] == b.items[i]
            <==> SchemaEqual(a.items[i], b.items[i]) && NumbersAlign(a.items[i], b.items[i])
      {
        TextSeparatesOnlyNumbers(a.items[i], b.items[i]);
      }
    } else if a.Obj? && b.Obj? && a.members.Keys == b.members.Keys {
      forall k | k in a.members
        ensures a.members[k] == b.members[k]
                <==> SchemaEqual(a.members[k], b.members[k]) && NumbersAlign(a.members[k], b.members[k])
      {
        TextSeparatesOnlyNumbers(a.members[k], b.members[k]);
      }
      assert SchemaEqual(a, b) && NumbersAlign(a, b) ==> a.members == b.members;
    }
  }

  /** uniqueItems takes too much exactly where two items that the standard holds equal, such as 1 and 1.0,
      are written differently. */
  lemma {:induction false} UniqueItemsIsRightExactly(items: seq<Json>)
    ensures Unique(Standard, items)
            <==> Unique(Coded, items)
                 && forall i, j | 0 <= i < j < |items| ::
                      SchemaEqual(items[i], items[j]) ==> NumbersAlign(items[i], items[j])
  {
    forall i, j | 0 <= i < j < |items|
      ensures items[i] == items[j] <==> SchemaEqual(items[i], items[j]) && NumbersAlign(items[i], items[j])
    {
      TextSeparatesOnlyNumbers(items[i], items[j]);
    }
  }

  /** type refuses too much exactly where a whole number written as a float would have to pass as an integer. */
  lemma {:induction false} TypeIsRightExactly(value: Json, names: seq<Json>)
    ensures OfSomeType(Coded, value, names)
            <==> OfSomeType(Standard, value, names)
                 && !(Integral(value) && Str("integer") in names && Str("number") !in names)
  {
    if Str("number") in names && Integral(value) {
      var i :| 0 <= i < |names| && names[i] == Str("number");
      assert HasType(Coded, names[i], value);
    }
    forall i | 0 <= i < |names| && names[i] != Str("integer")
      ensures HasType(Coded, names[i], value) == HasType(Standard, names[i], value)
    {
    }
  }

  /** Each departure, once: equality, uniqueness, integers, the reference to the root and the encoded one. */
  lemma {:induction false} EachKeywordDeparts()
    ensures Same(Coded, Bool(true), Int(1)) && !Same(Standard, Bool(true), Int(1))
    ensures Unique(Coded, [Int(1), Float(1.0)]) && !Unique(Standard, [Int(1), Float(1.0)])
    ensures !HasType(Coded, Str("integer"), Float(1.0)) && HasType(Standard, Str("integer"), Float(1.0))
    ensures !IsLocal(Coded, "#") && forall root :: Resolve(Standard, root, "#") == Some(root)
    ensures Pointer(Coded, "#/%61") == "/%61" && Pointer(Standard, "#/%61") == "/a"
  {
    assert Float(1.0).r == Float(1.0).r.Floor as real;
    var items := [Int(1), Float(1.0)];
    assert SchemaEqual(items[0], items[1]);
    assert "#/%61"[1..] == "/%61" && "#"[1..] == "";
    assert "/%61"[1..] == "%61" && "%61"[3..] == "";
    assert Decoded("%61") == ['a'] + Decoded("");
    assert Decoded("/%61") == ['/'] + Decoded("%61");
  }

  // ---------------------------------------------------------------------------------------------
  // Where its verdicts are those of the standard
  // ---------------------------------------------------------------------------------------------

  /** No part of a value is a whole number written as a float. */
  predicate FractionsOnly(j: Json) {
    match j
    case Float(_) => !Integral(j)
    case Arr(items) => forall i | 0 <= i < |items| :: FractionsOnly(items[i])
    case Obj(members) => forall k | k in members :: FractionsOnly(members[k])
    case _ => true
  }

  predicate IsConstant(schema: Json, c: Json) {
    var e := Keyword(schema, "enum");
    (e.Some? && e.value.Arr? && c in e.value.items) || Keyword(schema, "const") == Some(c)
  }

  /** No part of a value passes for a constant of the schemas only because a truth value is taken for a
      number. */
  ghost predicate Clear(value: Json, schemas: set<Json>) {
    && (forall schema, c | schema in schemas && IsConstant(schema, c) && PythonEqual(value, c) :: TruthsAlign(value, c))
    && match value
       case Arr(items) => forall i | 0 <= i < |items| :: Clear(items[i], schemas)
       case Obj(members) => forall k | k in members :: Clear(members[k], schemas)
       case _ => true
  }

  /** As the standard demands, bounds are whole numbers and the list of types is not empty. */
  predicate Legal(schema: Json) {
    && IsWhole(Keyword(schema, "minLength")) && IsWhole(Keyword(schema, "minItems"))
    && IsWhole(Keyword(schema, "maxItems")) && Keyword(schema, "type") != Some(Arr([]))
  }

  predicate IsWhole(bound: Option<Json>) {
    bound.None? || bound.value.Int? || Integral(bound.value)
  }

  /** A legal schema in which a reference stands alone, points below the root and encodes nothing, and items
      are not forbidden with `false`. */
  predicate Plain(schema: Json) {
    && Legal(schema)
    && (schema.Obj? && Reference(schema).Some? ==>
          schema.members.Keys == {"$ref"} && "#/" <= Reference(schema).value && '%' !in Reference(schema).value)
    && !ForbidsItems(schema)
  }

  /** Two documents agree on a value: they are read alike, or nothing in the value and the schemas is read
      differently. */
  ghost predicate Alike(d: Document, e: Document, value: Json) {
    && Ranked(d) && Ranked(e) && d.root == e.root && d.matches == e.matches
    && (d.reading != e.reading ==>
          d.reading.Coded? && FractionsOnly(value) && Clear(value, d.schemas) && forall s | s in d.schemas :: Plain(s))
  }

  lemma {:induction false} FractionsAlign(a: Json, b: Json)
    requires FractionsOnly(a) && FractionsOnly(b) && SchemaEqual(a, b)
    ensures NumbersAlign(a, b)
  {
    if a.Arr? && b.Arr? {
      forall i | 0 <= i < |a.items| ensures NumbersAlign(a.items[i], b.items[i]) {
        FractionsAlign(a.items[i], b.items[i]);
      }
    } else if a.Obj? && b.Obj? {
      forall k | k in a.members ensures NumbersAlign(a.members[k], b.members[k]) {
        FractionsAlign(a.members[k], b.members[k]);
      }
    }
  }

  lemma {:induction false} BoundsAgree(size: nat, bound: Json)
    requires bound.Int? || Integral(bound)
    ensures (size >= ToInt(bound) <==> AtLeast(size, bound)) && (size <= ToInt(bound) <==> AtMost(size, bound))
  {
    if bound.Float? && bound.r < 0.0 {
      assert bound.r == bound.r.Floor as real;
      assert -bound.r == (-bound.r.Floor) as real;
      assert (-bound.r).Floor == -bound.r.Floor;
    }
  }

  lemma {:induction false} LengthsMeet(value: Json, schema: Json)
    requires WellTyped(schema) && Legal(schema)
    ensures value.Str? ==>
              (LengthsFit(value, schema)
               <==> ("minLength" in schema.members ==> AtLeast(|value.s|, schema.members["minLength"])))
    ensures value.Arr? ==>
              (LengthsFit(value, schema)
               <==> && ("minItems" in schema.members ==> AtLeast(|value.items|, schema.members["minItems"]))
                    && ("maxItems" in schema.members ==> AtMost(|value.items|, schema.members["maxItems"])))
    ensures !value.Str? && !value.Arr? ==> LengthsFit(value, schema)
  {
    if value.Str? && "minLength" in schema.members {
      BoundsAgree(|value.s|, schema.members["minLength"]);
    }
    if value.Arr? && "minItems" in schema.members {
      BoundsAgree(|value.items|, schema.members["minItems"]);
    }
    if value.Arr? && "maxItems" in schema.members {
      BoundsAgree(|value.items|, schema.members["maxItems"]);
    }
  }

  lemma {:induction false} ShapesMeet(matches: (string, string) -> bool, value: Json, schema: Json)
    requires WellTyped(schema) && Legal(schema) && FractionsOnly(value)
    ensures AcceptsShape(matches, value, schema) <==> ConformsShape(matches, value, schema.members)
  {
    LengthsMeet(value, schema);
    if value.Arr? {
      UniqueItemsIsRightExactly(value.items);
      forall i, j | 0 <= i < j < |value.items| && SchemaEqual(value.items[i], value.items[j])
        ensures NumbersAlign(value.items[i], value.items[j])
      {
        FractionsAlign(value.items[i], value.items[j]);
      }
    }
  }

  lemma {:induction false} ConstantsAgree(value: Json, c: Json, schema: Json, schemas: set<Json>)
    requires Clear(value, schemas) && schema in schemas && IsConstant(schema, c)
    ensures PythonEqual(value, c) <==> SchemaEqual(value, c)
  {
    EqualityConfusesOnlyTruths(value, c);
  }

  lemma {:induction false} KindsMeet(value: Json, schema: Json, schemas: set<Json>)
    requires WellTyped(schema) && Legal(schema) && FractionsOnly(value) && Clear(value, schemas) && schema in schemas
    ensures AcceptsKind(value, schema) <==> ConformsKind(value, schema.members)
  {
    TypesMeet(value, schema);
    forall c | IsConstant(schema, c) ensures PythonEqual(value, c) <==> SchemaEqual(value, c) {
      ConstantsAgree(value, c, schema, schemas);
    }
    ChoicesMeet(value, schema);
    if value.Obj? && "required" in schema.members {
      RequiredMeet(value, schema.members["required"].items);
    }
  }

  lemma {:induction false} TypesMeet(value: Json, schema: Json)
    requires WellTyped(schema) && Legal(schema) && FractionsOnly(value)
    ensures (AllowedTypes(schema) != [] ==> OfSomeType(Coded, value, AllowedTypes(schema)))
            <==> ConformsType(value, schema.members)
  {
    var names := AllowedTypes(schema);
    TypeIsRightExactly(value, names);
    if Keyword(schema, "type").Some? && Keyword(schema, "type").value.Str? {
      assert OfSomeType(Standard, value, names) <==> HasType(Standard, names[0], value);
    }
  }

  lemma {:induction false} ChoicesMeet(value: Json, schema: Json)
    requires WellTyped(schema)
    requires forall c | IsConstant(schema, c) :: PythonEqual(value, c) <==> SchemaEqual(value, c)
    ensures Chosen(value, schema)
            <==> && ("enum" in schema.members ==>
                       exists c :: c in schema.members["enum"].items && SchemaEqual(value, c))
                 && ("const" in schema.members ==> SchemaEqual(value, schema.members["const"]))
  {
    if "enum" in schema.members {
      var allowed := schema.members["enum"].items;
      assert forall i | 0 <= i < |allowed| :: IsConstant(schema, allowed[i]);
      if c :| c in allowed && SchemaEqual(value, c) {
        var i :| 0 <= i < |allowed| && allowed[i] == c;
        assert Same(Coded, value, allowed[i]);
      }
    }
    if "const" in schema.members {
      assert IsConstant(schema, schema.members["const"]);
    }
  }

  lemma {:induction false} RequiredMeet(value: Json, keys: seq<Json>)
    requires value.Obj?
    ensures HasMembers(value, keys) <==> forall name | name in keys :: name.Str? && name.s in value.members.Keys
  {
    if HasMembers(value, keys) {
      forall name | name in keys ensures name.Str? && name.s in value.members.Keys {
        var i :| 0 <= i < |keys| && keys[i] == name;
        assert HasMember(value, keys[i]);
      }
    }
  }

  /** The verdicts on the same value for all schemas that are tried on it. */
  ghost predicate SameInPlace(d: Document, e: Document, value: Json, schema: Json)
    requires Ranked(d) && Ranked(e) && schema in d.schemas && schema in e.schemas && Reference(schema).None?
  {
    forall next | next in TriedInPlace(d.reading, d.root, schema) :: AgreeOn(d, e, value, next)
  }

  ghost predicate AgreeOn(d: Document, e: Document, value: Json, schema: Json)
    requires Ranked(d) && Ranked(e)
  {
    schema in d.schemas && schema in e.schemas && (Accepts(d, value, schema) <==> Accepts(e, value, schema))
  }

  /** The verdicts on the parts of the value for all schemas that are tried on them. */
  ghost predicate SameBelow(d: Document, e: Document, value: Json, schema: Json)
    requires Ranked(d) && Ranked(e) && schema in d.schemas && schema in e.schemas && Reference(schema).None?
  {
    && (value.Obj? ==>
          forall name, next | name in value.members && TriedBelow(schema, next) ::
            AgreeOn(d, e, value.members[name], next))
    && (value.Arr? ==>
          forall i, next | 0 <= i < |value.items| && TriedBelow(schema, next) :: AgreeOn(d, e, value.items[i], next))
  }

  lemma {:induction false} VerdictsAgree(d: Document, e: Document, value: Json, schema: Json)
    requires Alike(d, e, value) && schema in d.schemas && schema in e.schemas
    ensures Accepts(d, value, schema) <==> Accepts(e, value, schema)
    decreases value, d.rank(schema), 1
  {
    if Reference(schema).Some? {
      ReferencesAgree(d, e, value, schema);
    } else {
      AgreeInPlace(d, e, value, schema);
      AgreeBelow(d, e, value, schema);
      KeywordsAgree(d, e, value, schema);
    }
  }

  lemma {:induction false} ReferencesAgree(d: Document, e: Document, value: Json, schema: Json)
    requires Alike(d, e, value) && schema in d.schemas && schema in e.schemas && Reference(schema).Some?
    ensures Accepts(d, value, schema) <==> Accepts(e, value, schema)
    decreases value, d.rank(schema), 0
  {
    if d.reading != e.reading {
      PlainReferencesResolveAlike(d.root, Reference(schema).value);
    }
    if IsLocal(d.reading, Reference(schema).value) {
      var target := Resolve(d.reading, d.root, Reference(schema).value).value;
      assert target in TriedInPlace(d.reading, d.root, schema) && target in TriedInPlace(e.reading, e.root, schema);
      VerdictsAgree(d, e, value, target);
      if e.reading.Standard? {
        assert Siblings(schema) in TriedInPlace(e.reading, e.root, schema);
        if d.reading.Standard? {
          assert Siblings(schema) in TriedInPlace(d.reading, d.root, schema);
          VerdictsAgree(d, e, value, Siblings(schema));
        } else {
          assert Siblings(schema) == Obj(map[]);
          NothingAcceptsAll(e, value);
        }
      }
    }
  }

  lemma {:induction false} NothingAcceptsAll(d: Document, value: Json)
    requires Ranked(d) && Obj(map[]) in d.schemas
    ensures Accepts(d, value, Obj(map[]))
  {
  }

  lemma {:induction false} AgreeInPlace(d: Document, e: Document, value: Json, schema: Json)
    requires Alike(d, e, value) && schema in d.schemas && schema in e.schemas && Reference(schema).None?
    ensures SameInPlace(d, e, value, schema)
    decreases value, d.rank(schema), 0
  {
    forall next | next in TriedInPlace(d.reading, d.root, schema) ensures AgreeOn(d, e, value, next) {
      assert next in TriedInPlace(e.reading, e.root, schema);
      VerdictsAgree(d, e, value, next);
    }
  }

  lemma {:induction false} AgreeBelow(d: Document, e: Document, value: Json, schema: Json)
    requires Alike(d, e, value) && schema in d.schemas && schema in e.schemas && Reference(schema).None?
    ensures SameBelow(d, e, value, schema)
    decreases value, d.rank(schema), 0
  {
    if value.Obj? {
      forall name, next | name in value.members && TriedBelow(schema, next)
        ensures AgreeOn(d, e, value.members[name], next)
      {
        VerdictsAgree(d, e, value.members[name], next);
      }
    } else if value.Arr? {
      forall i, next | 0 <= i < |value.items| && TriedBelow(schema, next)
        ensures AgreeOn(d, e, value.items[i], next)
      {
        VerdictsAgree(d, e, value.items[i], next);
      }
    }
  }

  /** With the same verdicts on what is tried, every keyword says the same. */
  lemma {:induction false} KeywordsAgree(d: Document, e: Document, value: Json, schema: Json)
    requires Alike(d, e, value) && schema in d.schemas && schema in e.schemas && Reference(schema).None?
    requires SameInPlace(d, e, value, schema) && SameBelow(d, e, value, schema)
    ensures Accepts(d, value, schema) <==> Accepts(e, value, schema)
  {
    if d.reading != e.reading {
      ShapesMeet(d.matches, value, schema);
      KindsMeet(value, schema, d.schemas);
      CombinedMeet(d, e, value, schema);
      PartsMeet(d, e, value, schema);
    } else if d.reading.Coded? {
      CodedKeywordsAgree(d, e, value, schema);
    } else {
      StandardKeywordsAgree(d, e, value, schema);
    }
  }

  lemma {:induction false} OptionAgrees(d: Document, e: Document, value: Json, schema: Json, key: Combinator, i: int)
    requires Ranked(d) && Ranked(e) && schema in d.schemas && schema in e.schemas && Reference(schema).None?
    requires SameInPlace(d, e, value, schema)
    requires Options(schema, key).Some? && 0 <= i < |Options(schema, key).value|
    ensures AcceptsOption(d, value, schema, key, i) <==> AcceptsOption(e, value, schema, key, i)
  {
    OptionIsTried(d, schema, key, i);
    assert AgreeOn(d, e, value, Options(schema, key).value[i]);
  }

  lemma {:induction false} CodedKeywordsAgree(d: Document, e: Document, value: Json, schema: Json)
    requires Alike(d, e, value) && schema in d.schemas && schema in e.schemas && Reference(schema).None?
    requires SameInPlace(d, e, value, schema) && SameBelow(d, e, value, schema)
    requires d.reading.Coded? && e.reading.Coded?
    ensures Accepts(d, value, schema) <==> Accepts(e, value, schema)
  {
    CodedCombinedAgree(d, e, value, schema);
    CodedPartsAgree(d, e, value, schema);
  }

  lemma {:induction false} CodedCombinedAgree(d: Document, e: Document, value: Json, schema: Json)
    requires Ranked(d) && Ranked(e) && schema in d.schemas && schema in e.schemas && Reference(schema).None?
    requires SameInPlace(d, e, value, schema)
    ensures AcceptsCombined(d, value, schema) <==> AcceptsCombined(e, value, schema)
  {
    forall key: Combinator | Options(schema, key).Some?
      ensures SameVerdicts(d, e, value, schema, key)
    {
      forall i | 0 <= i < |Options(schema, key).value|
        ensures AcceptsOption(d, value, schema, key, i) <==> AcceptsOption(e, value, schema, key, i)
      {
        OptionAgrees(d, e, value, schema, key, i);
      }
      OptionsAgree(d, e, value, schema, key);
    }
    assert Options(schema, OneOf).Some? ==> SameVerdicts(d, e, value, schema, OneOf);
    assert Options(schema, AnyOf).Some? ==> SameVerdicts(d, e, value, schema, AnyOf);
    assert Options(schema, AllOf).Some? ==> SameVerdicts(d, e, value, schema, AllOf);
  }

  ghost predicate SameVerdicts(d: Document, e: Document, value: Json, schema: Json, key: Combinator)
    requires Ranked(d) && Ranked(e) && schema in d.schemas && schema in e.schemas && Reference(schema).None?
    requires Options(schema, key).Some?
  {
    var n := |Options(schema, key).value|;
    && (SomeOption(d, value, schema, key, n) <==> SomeOption(e, value, schema, key, n))
    && (TwoOptions(d, value, schema, key, n) <==> TwoOptions(e, value, schema, key, n))
    && (EveryOption(d, value, schema, key, n) <==> EveryOption(e, value, schema, key, n))
  }

  lemma {:induction false} OptionsAgree(d: Document, e: Document, value: Json, schema: Json, key: Combinator)
    requires Ranked(d) && Ranked(e) && schema in d.schemas && schema in e.schemas && Reference(schema).None?
    requires Options(schema, key).Some?
    requires forall i | 0 <= i < |Options(schema, key).value| ::
               AcceptsOption(d, value, schema, key, i) <==> AcceptsOption(e, value, schema, key, i)
    ensures SameVerdicts(d, e, value, schema, key)
  {
    var n := |Options(schema, key).value|;
    assert TwoOptions(d, value, schema, key, n) <==> TwoOptions(e, value, schema, key, n) by {
      TwoOptionsAgree(d, e, value, schema, key);
    }
  }

  lemma {:induction false} TwoOptionsAgree(d: Document, e: Document, value: Json, schema: Json, key: Combinator)
    requires Ranked(d) && Ranked(e) && schema in d.schemas && schema in e.schemas && Reference(schema).None?
    requires Options(schema, key).Some?
    requires forall i | 0 <= i < |Options(schema, key).value| ::
               AcceptsOption(d, value, schema, key, i) <==> AcceptsOption(e, value, schema, key, i)
    ensures TwoOptions(d, value, schema, key, |Options(schema, key).value|)
            <==> TwoOptions(e, value, schema, key, |Options(schema, key).value|)
  {
  }

  lemma {:induction false} CodedPartsAgree(d: Document, e: Document, value: Json, schema: Json)
    requires Ranked(d) && Ranked(e) && schema in d.schemas && schema in e.schemas && Reference(schema).None?
    requires SameBelow(d, e, value, schema)
    ensures AcceptsParts(d, value, schema) <==> AcceptsParts(e, value, schema)
  {
    if value.Obj? {
      forall key | key in value.members
        ensures AcceptsMember(d, value, schema, key) <==> AcceptsMember(e, value, schema, key)
      {
        var rule := RuleFor(schema, key);
        if rule.MustFit? {
          assert TriedBelow(schema, rule.schema);
          assert AgreeOn(d, e, value.members[key], rule.schema);
        }
      }
    } else if value.Arr? && ItemRule(schema).Some? {
      forall i | 0 <= i < |value.items|
        ensures AcceptsItem(d, value, schema, i) <==> AcceptsItem(e, value, schema, i)
      {
        assert TriedBelow(schema, ItemRule(schema).value);
        assert AgreeOn(d, e, value.items[i], ItemRule(schema).value);
      }
    }
  }

  lemma {:induction false} TakesAgree(d: Document, e: Document, value: Json, schema: Json, name: string)
    requires Ranked(d) && Ranked(e) && schema in d.schemas && schema in e.schemas && Reference(schema).None?
    requires SameInPlace(d, e, value, schema) && name in {"oneOf", "anyOf", "allOf"}
    ensures forall i | 0 <= i < |ListIn(schema, name)| ::
              Takes(d, value, schema, name, i) <==> Takes(e, value, schema, name, i)
  {
    ListsAreTried(d.reading, d.root, schema, name);
    forall i | 0 <= i < |ListIn(schema, name)|
      ensures Takes(d, value, schema, name, i) <==> Takes(e, value, schema, name, i)
    {
      assert AgreeOn(d, e, value, ListIn(schema, name)[i]);
    }
  }

  lemma {:induction false} StandardKeywordsAgree(d: Document, e: Document, value: Json, schema: Json)
    requires Alike(d, e, value) && schema in d.schemas && schema in e.schemas && Reference(schema).None?
    requires SameInPlace(d, e, value, schema) && SameBelow(d, e, value, schema)
    requires d.reading.Standard? && e.reading.Standard?
    ensures Accepts(d, value, schema) <==> Accepts(e, value, schema)
  {
    StandardCombinedAgree(d, e, value, schema);
    StandardPartsAgree(d, e, value, schema);
  }

  lemma {:induction false} StandardCombinedAgree(d: Document, e: Document, value: Json, schema: Json)
    requires Ranked(d) && Ranked(e) && schema in d.schemas && schema in e.schemas && Reference(schema).None?
    requires SameInPlace(d, e, value, schema)
    ensures ConformsCombined(d, value, schema) <==> ConformsCombined(e, value, schema)
  {
    TakesAgree(d, e, value, schema, "oneOf");
    OneAgrees(d, e, value, schema);
    SomeAgrees(d, e, value, schema);
    AllAgree(d, e, value, schema);
  }

  lemma {:induction false} OneAgrees(d: Document, e: Document, value: Json, schema: Json)
    requires Ranked(d) && Ranked(e) && schema in d.schemas && schema in e.schemas && Reference(schema).None?
    requires forall i | 0 <= i < |ListIn(schema, "oneOf")| ::
               Takes(d, value, schema, "oneOf", i) <==> Takes(e, value, schema, "oneOf", i)
    ensures TakesOne(d, value, schema) <==> TakesOne(e, value, schema)
  {
  }

  lemma {:induction false} SomeAgrees(d: Document, e: Document, value: Json, schema: Json)
    requires Ranked(d) && Ranked(e) && schema in d.schemas && schema in e.schemas && Reference(schema).None?
    requires SameInPlace(d, e, value, schema)
    ensures TakesSome(d, value, schema) <==> TakesSome(e, value, schema)
  {
    TakesAgree(d, e, value, schema, "anyOf");
  }

  lemma {:induction false} AllAgree(d: Document, e: Document, value: Json, schema: Json)
    requires Ranked(d) && Ranked(e) && schema in d.schemas && schema in e.schemas && Reference(schema).None?
    requires SameInPlace(d, e, value, schema)
    ensures TakesAll(d, value, schema) <==> TakesAll(e, value, schema)
  {
    TakesAgree(d, e, value, schema, "allOf");
  }

  lemma {:induction false} StandardPartsAgree(d: Document, e: Document, value: Json, schema: Json)
    requires Ranked(d) && Ranked(e) && schema in d.schemas && schema in e.schemas && Reference(schema).None?
    requires SameBelow(d, e, value, schema)
    ensures ConformsParts(d, value, schema) <==> ConformsParts(e, value, schema)
  {
    if value.Obj? {
      forall name | name in value.members
        ensures ConformsMember(d, value, schema, name) <==> ConformsMember(e, value, schema, name)
      {
        MemberAgrees(d, e, value, schema, name);
      }
    } else if value.Arr? && "items" in schema.members && schema.members["items"].Obj? {
      forall i | 0 <= i < |value.items|
        ensures ConformsItem(d, value, schema, i) <==> ConformsItem(e, value, schema, i)
      {
        ItemAgrees(d, e, value, schema, i);
      }
    }
  }

  lemma {:induction false} ItemAgrees(d: Document, e: Document, value: Json, schema: Json, i: int)
    requires Ranked(d) && Ranked(e) && schema in d.schemas && schema in e.schemas && Reference(schema).None?
    requires SameBelow(d, e, value, schema) && value.Arr? && 0 <= i < |value.items|
    requires "items" in schema.members && schema.members["items"].Obj?
    ensures ConformsItem(d, value, schema, i) <==> ConformsItem(e, value, schema, i)
    ensures AcceptsItem(d, value, schema, i) <==> ConformsItem(e, value, schema, i)
  {
    assert TriedBelow(schema, schema.members["items"]);
    assert AgreeOn(d, e, value.items[i], schema.members["items"]);
  }

  lemma {:induction false} MemberAgrees(d: Document, e: Document, value: Json, schema: Json, name: string)
    requires Ranked(d) && Ranked(e) && schema in d.schemas && schema in e.schemas && Reference(schema).None?
    requires SameBelow(d, e, value, schema) && value.Obj? && name in value.members
    ensures ConformsMember(d, value, schema, name) <==> ConformsMember(e, value, schema, name)
  {
    var m := schema.members;
    if NamesProperty(schema, name) {
      assert TriedBelow(schema, m["properties"].members[name]);
      assert AgreeOn(d, e, value.members[name], m["properties"].members[name]);
    } else if "additionalProperties" in m && m["additionalProperties"].Obj? {
      assert TriedBelow(schema, m["additionalProperties"]);
      assert AgreeOn(d, e, value.members[name], m["additionalProperties"]);
    }
  }

  // What the checker makes of the keywords is what the standard says of them.

  lemma {:induction false} OptionMeets(
    d: Document, e: Document, value: Json, schema: Json, key: Combinator, name: string)
    requires Ranked(d) && Ranked(e) && schema in d.schemas && schema in e.schemas && Reference(schema).None?
    requires SameInPlace(d, e, value, schema)
    requires (key == OneOf && name == "oneOf") || (key == AnyOf && name == "anyOf") || (key == AllOf && name == "allOf")
    ensures Options(schema, key) == if HasList(schema, name) then Some(ListIn(schema, name)) else None
    ensures forall i | 0 <= i < |ListIn(schema, name)| ::
              AcceptsOption(d, value, schema, key, i) <==> Takes(e, value, schema, name, i)
  {
    ListsAreTried(d.reading, d.root, schema, name);
    forall i | 0 <= i < |ListIn(schema, name)|
      ensures AcceptsOption(d, value, schema, key, i) <==> Takes(e, value, schema, name, i)
    {
      OptionIsTried(d, schema, key, i);
      assert AgreeOn(d, e, value, ListIn(schema, name)[i]);
    }
  }

  lemma {:induction false} CombinedMeet(d: Document, e: Document, value: Json, schema: Json)
    requires Ranked(d) && Ranked(e) && schema in d.schemas && schema in e.schemas && Reference(schema).None?
    requires SameInPlace(d, e, value, schema)
    ensures AcceptsCombined(d, value, schema) <==> ConformsCombined(e, value, schema)
  {
    OptionMeets(d, e, value, schema, OneOf, "oneOf");
    OptionMeets(d, e, value, schema, AnyOf, "anyOf");
    OptionMeets(d, e, value, schema, AllOf, "allOf");
    if HasList(schema, "oneOf") {
      OneMeets(d, e, value, schema);
    }
    if HasList(schema, "anyOf") {
      SomeMeets(d, e, value, schema);
    }
    if HasList(schema, "allOf") {
      AllMeet(d, e, value, schema);
    }
  }

  lemma {:induction false} OneMeets(d: Document, e: Document, value: Json, schema: Json)
    requires Ranked(d) && Ranked(e) && schema in d.schemas && schema in e.schemas && Reference(schema).None?
    requires Options(schema, OneOf) == Some(ListIn(schema, "oneOf"))
    requires forall i | 0 <= i < |ListIn(schema, "oneOf")| ::
               AcceptsOption(d, value, schema, OneOf, i) <==> Takes(e, value, schema, "oneOf", i)
    ensures (var n := |ListIn(schema, "oneOf")|;
             SomeOption(d, value, schema, OneOf, n) && !TwoOptions(d, value, schema, OneOf, n))
            <==> TakesOne(e, value, schema)
  {
  }

  lemma {:induction false} SomeMeets(d: Document, e: Document, value: Json, schema: Json)
    requires Ranked(d) && Ranked(e) && schema in d.schemas && schema in e.schemas && Reference(schema).None?
    requires Options(schema, AnyOf) == Some(ListIn(schema, "anyOf"))
    requires forall i | 0 <= i < |ListIn(schema, "anyOf")| ::
               AcceptsOption(d, value, schema, AnyOf, i) <==> Takes(e, value, schema, "anyOf", i)
    ensures SomeOption(d, value, schema, AnyOf, |ListIn(schema, "anyOf")|) <==> TakesSome(e, value, schema)
  {
  }

  lemma {:induction false} AllMeet(d: Document, e: Document, value: Json, schema: Json)
    requires Ranked(d) && Ranked(e) && schema in d.schemas && schema in e.schemas && Reference(schema).None?
    requires Options(schema, AllOf) == Some(ListIn(schema, "allOf"))
    requires forall i | 0 <= i < |ListIn(schema, "allOf")| ::
               AcceptsOption(d, value, schema, AllOf, i) <==> Takes(e, value, schema, "allOf", i)
    ensures EveryOption(d, value, schema, AllOf, |ListIn(schema, "allOf")|) <==> TakesAll(e, value, schema)
  {
  }

  /** What the checker decides about a member, said of the members of the schema: a property decides by its
      schema; any other member decides nothing unless additionalProperties forbids it or has a schema. */
  lemma {:induction false} MemberVerdict(d: Document, value: Json, schema: Json, name: string)
    requires Ranked(d) && schema in d.schemas && Reference(schema).None? && value.Obj? && name in value.members
    ensures AcceptsMember(d, value, schema, name) <==> ConformsMember(d, value, schema, name)
  {
  }

  lemma {:induction false} PartsMeet(d: Document, e: Document, value: Json, schema: Json)
    requires Ranked(d) && Ranked(e) && schema in d.schemas && schema in e.schemas && Reference(schema).None?
    requires SameBelow(d, e, value, schema) && !ForbidsItems(schema)
    ensures AcceptsParts(d, value, schema) <==> ConformsParts(e, value, schema)
  {
    if value.Obj? {
      forall name | name in value.members
        ensures AcceptsMember(d, value, schema, name) <==> ConformsMember(e, value, schema, name)
      {
        MemberVerdict(d, value, schema, name);
        MemberAgrees(d, e, value, schema, name);
      }
    } else if value.Arr? && "items" in schema.members && schema.members["items"].Obj? {
      forall i | 0 <= i < |value.items|
        ensures AcceptsItem(d, value, schema, i) <==> ConformsItem(e, value, schema, i)
      {
        ItemAgrees(d, e, value, schema, i);
      }
    }
  }

  /** The meaning does not depend on the rank, nor on the set of schemas it was shown sound for. */
  lemma {:induction false} MeaningNeedsNoRank(d: Document, e: Document, value: Json, schema: Json)
    requires Ranked(d) && Ranked(e) && d.reading == e.reading && d.root == e.root && d.matches == e.matches
    requires schema in d.schemas && schema in e.schemas
    ensures Accepts(d, value, schema) <==> Accepts(e, value, schema)
  {
    VerdictsAgree(d, e, value, schema);
  }

  /** The checker accepts exactly what the standard accepts, for every value in which no whole number is
      written as a float and no truth value passes for a number of an enum or const, and every document in
      which references stand alone, point below the root and encode nothing, and no items are forbidden with
      `false`. */
  lemma {:induction false} CheckerMeetsTheStandard(d: Document, e: Document, value: Json, schema: Json)
    requires Describes(d, e.root, e.matches) && Ranked(e) && e.reading.Standard?
    requires schema in d.schemas && schema in e.schemas
    requires FractionsOnly(value) && Clear(value, d.schemas) && forall s | s in d.schemas :: Plain(s)
    ensures Accepts(d, value, schema) <==> Accepts(e, value, schema)
  {
    VerdictsAgree(d, e, value, schema);
  }
}
