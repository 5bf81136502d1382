/** The closed JSON-schema subset for contribution calls (json_schema.rs). */
module JsonSchema {
  import opened Basics

  const MAX_CONTRIBUTION_SCHEMA_BYTES: nat := 64 * 1024
  const MAX_CONTRIBUTION_SCHEMA_DEPTH: nat := 8
  const MAX_CONTRIBUTION_SCHEMA_PROPERTIES: nat := 128
  const MAX_CONTRIBUTION_SCHEMA_ENUM_VALUES: nat := 128
  const MAX_IDENTIFIER_BYTES: nat := 128
  const MAX_U64: int := 0xffff_ffff_ffff_ffff

  /** A JSON number: its value as a float, and exactly when it is a whole number of 64 bits. */
  datatype Num = Num(float: real, whole: Option<int>)

  /** A JSON string, with the words of the schema language told apart from any other text. */
  datatype Word =
    | TypeKey | RequiredKey | PropertiesKey | ItemsKey | EnumKey | MinimumKey | MaximumKey | MinLengthKey | MaxLengthKey
    | MinItemsKey | MaxItemsKey
    | ObjectWord | ArrayWord | StringWord | NumberWord | IntegerWord | BooleanWord | NullWord
    | Text(s: string)

  function Spelling(w: Word): string {
    match w
    case TypeKey => "type" case RequiredKey => "required" case PropertiesKey => "properties" case ItemsKey => "items"
    case EnumKey => "enum" case MinimumKey => "minimum" case MaximumKey => "maximum" case MinLengthKey => "minLength"
    case MaxLengthKey => "maxLength" case MinItemsKey => "minItems" case MaxItemsKey => "maxItems"
    case ObjectWord => "object" case ArrayWord => "array" case StringWord => "string" case NumberWord => "number"
    case IntegerWord => "integer" case BooleanWord => "boolean" case NullWord => "null"
    case Text(s) => s
  }

  datatype Value = Null | Bool(b: bool) | Number(n: Num) | Str(s: Word) | Array(items: seq<Value>) | Object(fields: seq<Field>)

  datatype Field = Field(name: Word, value: Value)

  /** The one word that stands for a string. */
  function WordOf(s: string): (w: Word)
    ensures Spelling(w) == s
  {
    if s == "type" then TypeKey else if s == "required" then RequiredKey else if s == "properties" then PropertiesKey
    else if s == "items" then ItemsKey else if s == "enum" then EnumKey else if s == "minimum" then MinimumKey
    else if s == "maximum" then MaximumKey else if s == "minLength" then MinLengthKey else if s == "maxLength" then MaxLengthKey
    else if s == "minItems" then MinItemsKey else if s == "maxItems" then MaxItemsKey else if s == "object" then ObjectWord
    else if s == "array" then ArrayWord else if s == "string" then StringWord else if s == "number" then NumberWord
    else if s == "integer" then IntegerWord else if s == "boolean" then BooleanWord else if s == "null" then NullWord
    else Text(s)
  }

  predicate IsCanonical(w: Word) { w == WordOf(Spelling(w)) }

  /** Canonical words stand for their strings: two of them are the same word exactly when they are spelled the same. */
  lemma WordsAreStrings(a: Word, b: Word)
    requires IsCanonical(a) && IsCanonical(b)
    ensures a == b <==> Spelling(a) == Spelling(b)
  {
  }

  lemma KeywordsAreCanonical(w: Word)
    requires !w.Text?
    ensures IsCanonical(w)
  {
  }

  /** The values that JSON text can have: one word for each string, and no name twice in an object. */
  predicate IsJson(v: Value) {
    match v
    case Str(s) => IsCanonical(s)
    case Array(items) => forall i :: 0 <= i < |items| ==> IsJson(items[i])
    case Object(fields) =>
      && (forall i :: 0 <= i < |fields| ==> IsCanonical(fields[i].name) && assert fields[i].value < fields[i]; IsJson(fields[i].value))
      && forall i, j :: 0 <= i < j < |fields| ==> fields[i].name != fields[j].name
    case _ => true
  }

  /** The first field of that name stands here. */
  predicate FirstAt(fields: seq<Field>, name: Word, i: int) {
    0 <= i < |fields| && fields[i].name == name && forall j :: 0 <= j < i ==> fields[j].name != name
  }

  /** Where the first field of that name stands, or the length when there is none. */
  function IndexOf(fields: seq<Field>, name: Word): (i: nat)
    ensures i == |fields| || FirstAt(fields, name, i)
  {
    if exists i :: 0 <= i < |fields| && FirstAt(fields, name, i) then
      var i :| 0 <= i < |fields| && FirstAt(fields, name, i); i
    else |fields|
  }

  /** The value of the first field of that name. */
  function Get(fields: seq<Field>, name: Word): (r: Option<Value>)
    ensures r.Some? ==> r.value < Object(fields)
  {
    var i := IndexOf(fields, name);
    if i < |fields| then Some(fields[i].value) else None
  }

  /** In a value that JSON text can have, looking a string up finds the one field that is spelled so. */
  lemma LookupBySpelling(fields: seq<Field>, s: string, i: nat)
    requires IsJson(Object(fields)) && i < |fields| && Spelling(fields[i].name) == s
    ensures Get(fields, WordOf(s)) == Some(fields[i].value)
  {
    var name := fields[i].name;
    assert FirstAt(fields, name, i) && name == WordOf(s);
  }

  function AsU64(v: Value): Option<nat> {
    if v.Number? && v.n.whole.Some? && 0 <= v.n.whole.value <= MAX_U64 then Some(v.n.whole.value) else None
  }

  predicate HasType(v: Value, t: Word) {
    (t == ObjectWord && v.Object?) || (t == ArrayWord && v.Array?) || (t == StringWord && v.Str?) || (t == NumberWord && v.Number?)
    || (t == IntegerWord && v.Number? && v.n.whole.Some?) || (t == BooleanWord && v.Bool?) || (t == NullWord && v.Null?)
  }

  predicate IsType(t: Word) {
    t == ObjectWord || t == ArrayWord || t == StringWord || t == NumberWord || t == IntegerWord || t == BooleanWord || t == NullWord
  }

  predicate IsKeyword(k: Word) {
    k == TypeKey || k == RequiredKey || k == PropertiesKey || k == ItemsKey || k == EnumKey || k == MinimumKey || k == MaximumKey
    || k == MinLengthKey || k == MaxLengthKey || k == MinItemsKey || k == MaxItemsKey
  }

  function Utf8Bytes(s: string): nat {
    if s == [] then 0 else Utf8Bytes(s[1..]) + Utf8Width(s[0])
  }

  function Utf8Width(c: char): nat {
    if c <= '\U{7f}' then 1 else if c <= '\U{7ff}' then 2 else if c <= '\U{ffff}' then 3 else 4
  }

  predicate IsControl(c: char) { c <= '\U{1f}' || '\U{7f}' <= c <= '\U{9f}' }

  predicate IsBidi(c: char) {
    c == '\U{061c}' || c == '\U{200e}' || c == '\U{200f}' || '\U{202a}' <= c <= '\U{202e}' || '\U{2066}' <= c <= '\U{2069}'
  }

  predicate SafeName(s: string) {
    s != "" && Utf8Bytes(s) <= MAX_IDENTIFIER_BYTES && forall i :: 0 <= i < |s| ==> !IsControl(s[i]) && !IsBidi(s[i])
  }

  // ---------------------------------------------------------------- which schemas are accepted

  predicate Owned(fields: seq<Field>, t: Word) {
    && (Get(fields, RequiredKey).Some? || Get(fields, PropertiesKey).Some? ==> t == ObjectWord)
    && (Get(fields, ItemsKey).Some? || Get(fields, MinItemsKey).Some? || Get(fields, MaxItemsKey).Some? ==> t == ArrayWord)
    && (Get(fields, MinLengthKey).Some? || Get(fields, MaxLengthKey).Some? ==> t == StringWord)
    && (Get(fields, MinimumKey).Some? || Get(fields, MaximumKey).Some? ==> t == NumberWord || t == IntegerWord)
  }

  predicate UnsignedBounds(fields: seq<Field>, low: Word, high: Word) {
    var l, h := Get(fields, low), Get(fields, high);
    && (l.Some? ==> AsU64(l.value).Some?) && (h.Some? ==> AsU64(h.value).Some?)
    && (l.Some? && h.Some? ==> AsU64(l.value).value <= AsU64(h.value).value)
  }

  predicate NumericBounds(fields: seq<Field>) {
    var l, h := Get(fields, MinimumKey), Get(fields, MaximumKey);
    && (l.Some? ==> l.value.Number?) && (h.Some? ==> h.value.Number?)
    && (l.Some? && h.Some? ==> l.value.n.float <= h.value.n.float)
  }

  predicate EnumFits(fields: seq<Field>, t: Word) {
    var e := Get(fields, EnumKey);
    e.Some? ==> e.value.Array? && e.value.items != [] && forall i :: 0 <= i < |e.value.items| ==> HasType(e.value.items[i], t)
  }

  predicate RequiredFits(fields: seq<Field>, properties: seq<Field>) {
    var r := Get(fields, RequiredKey);
    r.Some? ==>
      && r.value.Array?
      && (forall i :: 0 <= i < |r.value.items| ==> r.value.items[i].Str? && Get(properties, r.value.items[i].s).Some?)
      && (forall i, j :: 0 <= i < j < |r.value.items| ==> r.value.items[i] != r.value.items[j])
  }

  predicate IsNode(v: Value) {
    v.Object? && Get(v.fields, TypeKey).Some? && Get(v.fields, TypeKey).value.Str? && IsType(Get(v.fields, TypeKey).value.s)
  }

  function TypeOf(v: Value): Word
    requires IsNode(v)
  {
    Get(v.fields, TypeKey).value.s
  }

  /** What every node needs, whatever its type. */
  predicate Header(v: Value, depth: nat) {
    && depth <= MAX_CONTRIBUTION_SCHEMA_DEPTH && IsNode(v)
    && (forall i :: 0 <= i < |v.fields| ==> IsKeyword(v.fields[i].name)) && Owned(v.fields, TypeOf(v))
  }

  /** The grammar, one node at a time; depth counts from one. */
  predicate WellFormed(v: Value, depth: nat)
    decreases v, 2
  {
    Header(v, depth) && TypeFits(v, depth) && EnumFits(v.fields, TypeOf(v))
  }

  /** What the type of a node asks of it. */
  predicate TypeFits(v: Value, depth: nat)
    requires IsNode(v)
    decreases v, 1
  {
    match TypeOf(v)
    case ObjectWord =>
      var properties := Get(v.fields, PropertiesKey);
      && properties.Some? && properties.value.Object?
      && ChildrenFit(properties.value.fields, depth) && RequiredFits(v.fields, properties.value.fields)
    case ArrayWord =>
      var items := Get(v.fields, ItemsKey);
      items.Some? && WellFormed(items.value, depth + 1) && UnsignedBounds(v.fields, MinItemsKey, MaxItemsKey)
    case StringWord => UnsignedBounds(v.fields, MinLengthKey, MaxLengthKey)
    case NumberWord => NumericBounds(v.fields)
    case IntegerWord => NumericBounds(v.fields)
    case _ => true
  }

  predicate ChildrenFit(properties: seq<Field>, depth: nat)
    decreases properties, 0
  {
    properties == [] ||
    var n := |properties| - 1;
    assert properties[n].value < properties[n];
    ChildrenFit(properties[..n], depth) && SafeName(Spelling(properties[n].name)) && WellFormed(properties[n].value, depth + 1)
  }

  function EnumSize(fields: seq<Field>): nat {
    var e := Get(fields, EnumKey);
    if e.Some? && e.value.Array? then |e.value.items| else 0
  }

  /** Properties declared anywhere in the schema. */
  function PropertyCount(v: Value): nat
    decreases v, 1
  {
    if !IsNode(v) then 0
    else match TypeOf(v)
      case ObjectWord =>
        var properties := Get(v.fields, PropertiesKey);
        if properties.Some? && properties.value.Object?
        then |properties.value.fields| + PropertyTotal(properties.value.fields)
        else 0
      case ArrayWord =>
        var items := Get(v.fields, ItemsKey);
        if items.Some? then PropertyCount(items.value) else 0
      case _ => 0
  }

  function PropertyTotal(properties: seq<Field>): nat
    decreases properties, 0
  {
    if properties == [] then 0
    else
      var last := properties[|properties|-1];
      assert last.value < last;
      PropertyTotal(properties[..|properties|-1]) + PropertyCount(last.value)
  }

  /** Enum values listed anywhere in the schema. */
  function EnumCount(v: Value): nat
    decreases v, 2
  {
    if IsNode(v) then EnumSize(v.fields) + ChildEnumCount(v) else 0
  }

  function ChildEnumCount(v: Value): nat
    requires IsNode(v)
    decreases v, 1
  {
    match TypeOf(v)
    case ObjectWord =>
      var properties := Get(v.fields, PropertiesKey);
      if properties.Some? && properties.value.Object? then EnumTotal(properties.value.fields) else 0
    case ArrayWord =>
      var items := Get(v.fields, ItemsKey);
      if items.Some? then EnumCount(items.value) else 0
    case _ => 0
  }

  function EnumTotal(properties: seq<Field>): nat
    decreases properties, 0
  {
    if properties == [] then 0
    else
      var last := properties[|properties|-1];
      assert last.value < last;
      EnumTotal(properties[..|properties|-1]) + EnumCount(last.value)
  }

  /** Leading properties alone ask for no more than all of them. */
  lemma {:induction false} PrefixNeedsLess(properties: seq<Field>, n: nat, depth: nat)
    requires n <= |properties|
    ensures PropertyTotal(properties[..n]) <= PropertyTotal(properties) && EnumTotal(properties[..n]) <= EnumTotal(properties)
    ensures ChildrenFit(properties, depth) ==> ChildrenFit(properties[..n], depth)
    decreases |properties|
  {
    if n < |properties| {
      assert properties[..|properties|-1][..n] == properties[..n];
      PrefixNeedsLess(properties[..|properties|-1], n, depth);
    } else {
      assert properties[..n] == properties;
    }
  }

  lemma OneMoreProperty(properties: seq<Field>, i: nat, depth: nat)
    requires i < |properties|
    ensures var next, child := properties[..i+1], properties[i];
      && (ChildrenFit(next, depth) <==>
            ChildrenFit(properties[..i], depth) && SafeName(Spelling(child.name)) && WellFormed(child.value, depth + 1))
      && (ChildrenFit(properties, depth) ==> ChildrenFit(next, depth))
      && PropertyTotal(next) == PropertyTotal(properties[..i]) + PropertyCount(child.value) <= PropertyTotal(properties)
      && EnumTotal(next) == EnumTotal(properties[..i]) + EnumCount(child.value) <= EnumTotal(properties)
  {
    PrefixNeedsLess(properties, i + 1, depth);
    assert properties[..i+1][..i] == properties[..i];
  }

  // ---------------------------------------------------------------- the validator

  class SchemaBudget {
    var properties: nat
    var enumValues: nat

    constructor ()
      ensures properties == 0 && enumValues == 0
    {
      properties, enumValues := 0, 0;
    }

    ghost predicate Valid()
      reads this
    {
      properties <= MAX_CONTRIBUTION_SCHEMA_PROPERTIES && enumValues <= MAX_CONTRIBUTION_SCHEMA_ENUM_VALUES
    }

    /** Room for this many more. */
    ghost predicate Fits(p: nat, e: nat)
      reads this
    {
      properties + p <= MAX_CONTRIBUTION_SCHEMA_PROPERTIES && enumValues + e <= MAX_CONTRIBUTION_SCHEMA_ENUM_VALUES
    }
  }

  /**
   * Accepts exactly the schemas of the grammar whose properties and enum values, summed over the whole tree, fit
   * into what is left of the budget.
   */
  method ValidateSchemaNode(v: Value, depth: nat, budget: SchemaBudget) returns (ok: bool)
    requires budget.Valid()
    modifies budget
    ensures ok <==> WellFormed(v, depth) && old(budget.Fits(PropertyCount(v), EnumCount(v)))
    ensures ok ==> budget.Valid()
    ensures ok ==> budget.properties == old(budget.properties) + PropertyCount(v)
    ensures ok ==> budget.enumValues == old(budget.enumValues) + EnumCount(v)
    decreases v, 2
  {
    if depth > MAX_CONTRIBUTION_SCHEMA_DEPTH || !IsNode(v) || exists i :: 0 <= i < |v.fields| && !IsKeyword(v.fields[i].name) {
      return false;
    }
    if !Owned(v.fields, TypeOf(v)) {
      return false;
    }
    ok := ValidateByType(v, depth, budget);
    if ok {
      ok := ValidateEnum(v, budget);
    }
  }

  method ValidateByType(v: Value, depth: nat, budget: SchemaBudget) returns (ok: bool)
    requires budget.Valid() && IsNode(v)
    modifies budget
    ensures ok <==> TypeFits(v, depth) && old(budget.Fits(PropertyCount(v), ChildEnumCount(v)))
    ensures ok ==> budget.Valid()
    ensures ok ==> budget.properties == old(budget.properties) + PropertyCount(v)
    ensures ok ==> budget.enumValues == old(budget.enumValues) + ChildEnumCount(v)
    decreases v, 1
  {
    match TypeOf(v) {
      case ObjectWord =>
        var properties := Get(v.fields, PropertiesKey);
        if properties.None? || !properties.value.Object? {
          return false;
        }
        var declared := properties.value.fields;
        budget.properties := budget.properties + |declared|;
        ok := budget.properties <= MAX_CONTRIBUTION_SCHEMA_PROPERTIES;
        if ok {
          ok := ValidateChildren(declared, depth, budget);
        }
        if ok {
          ok := ValidateRequired(v.fields, declared);
        }
      case ArrayWord =>
        var items := Get(v.fields, ItemsKey);
        if items.None? {
          return false;
        }
        ok := ValidateSchemaNode(items.value, depth + 1, budget);
        ok := ok && UnsignedBounds(v.fields, MinItemsKey, MaxItemsKey);
      case StringWord => ok := UnsignedBounds(v.fields, MinLengthKey, MaxLengthKey);
      case NumberWord => ok := NumericBounds(v.fields);
      case IntegerWord => ok := NumericBounds(v.fields);
      case _ => ok := true;
    }
  }

  method ValidateEnum(v: Value, budget: SchemaBudget) returns (ok: bool)
    requires budget.Valid() && IsNode(v)
    modifies budget
    ensures ok <==> EnumFits(v.fields, TypeOf(v)) && old(budget.Fits(0, EnumSize(v.fields)))
    ensures ok ==> budget.Valid()
    ensures budget.properties == old(budget.properties)
    ensures ok ==> budget.enumValues == old(budget.enumValues) + EnumSize(v.fields)
  {
    var e := Get(v.fields, EnumKey);
    if e.None? {
      return true;
    }
    if !e.value.Array? || e.value.items == [] {
      return false;
    }
    budget.enumValues := budget.enumValues + |e.value.items|;
    ok := budget.enumValues <= MAX_CONTRIBUTION_SCHEMA_ENUM_VALUES
      && forall i :: 0 <= i < |e.value.items| ==> HasType(e.value.items[i], TypeOf(v));
  }

  /** The child schemas one by one. */
  method ValidateChildren(properties: seq<Field>, depth: nat, budget: SchemaBudget) returns (ok: bool)
    requires budget.Valid()
    modifies budget
    ensures ok <==> ChildrenFit(properties, depth) && old(budget.Fits(PropertyTotal(properties), EnumTotal(properties)))
    ensures ok ==> budget.Valid()
    ensures ok ==> budget.properties == old(budget.properties) + PropertyTotal(properties)
    ensures ok ==> budget.enumValues == old(budget.enumValues) + EnumTotal(properties)
    decreases properties, 0
  {
    ok := true;
    var i := 0;
    while i < |properties| && ok
      invariant i <= |properties|
      invariant ok ==> budget.Valid() && ChildrenFit(properties[..i], depth)
      invariant ok ==> budget.properties == old(budget.properties) + PropertyTotal(properties[..i])
      invariant ok ==> budget.enumValues == old(budget.enumValues) + EnumTotal(properties[..i])
      invariant !ok ==> !(ChildrenFit(properties, depth) && old(budget.Fits(PropertyTotal(properties), EnumTotal(properties))))
      decreases |properties| - i, ok
    {
      OneMoreProperty(properties, i, depth);
      ok := SafeName(Spelling(properties[i].name));
      if ok {
        assert properties[i].value < properties[i];
        ok := ValidateSchemaNode(properties[i].value, depth + 1, budget);
      }
      i := i + 1;
    }
    assert ok ==> properties[..i] == properties;
  }

  method ValidateRequired(fields: seq<Field>, properties: seq<Field>) returns (ok: bool)
    ensures ok <==> RequiredFits(fields, properties)
  {
    var r := Get(fields, RequiredKey);
    if r.None? {
      return true;
    }
    if !r.value.Array? {
      return false;
    }
    var items := r.value.items;
    var seen: set<Value> := {};
    for i := 0 to |items|
      invariant forall x :: x in seen <==> x in items[..i]
      invariant forall j :: 0 <= j < i ==> items[j].Str? && Get(properties, items[j].s).Some?
      invariant forall j, k :: 0 <= j < k < i ==> items[j] != items[k]
    {
      if !items[i].Str? || Get(properties, items[i].s).None? {
        return false;
      }
      if items[i] in seen {
        return false;
      }
      seen := seen + {items[i]};
      assert items[..i+1] == items[..i] + [items[i]];
    }
    return true;
  }

  /** `BoundedJsonSchema::new`; `encodedBytes` is the size of the schema's encoding. */
  method NewSchema(v: Value, encodedBytes: nat) returns (ok: bool)
    ensures ok <==> encodedBytes <= MAX_CONTRIBUTION_SCHEMA_BYTES && Accepted(v)
  {
    if encodedBytes > MAX_CONTRIBUTION_SCHEMA_BYTES {
      return false;
    }
    var budget := new SchemaBudget();
    ok := ValidateSchemaNode(v, 1, budget);
  }

  ghost predicate Accepted(v: Value) {
    && WellFormed(v, 1)
    && PropertyCount(v) <= MAX_CONTRIBUTION_SCHEMA_PROPERTIES && EnumCount(v) <= MAX_CONTRIBUTION_SCHEMA_ENUM_VALUES
  }

  lemma NullSchemaIsAccepted()
    ensures Accepted(Object([Field(TypeKey, Str(NullWord))]))
  {
    var v := Object([Field(TypeKey, Str(NullWord))]);
    assert FirstAt(v.fields, TypeKey, 0);
    assert Header(v, 1);
  }

  /** A schema that has been accepted; no other can be had. */
  type BoundedSchema = v: Value | Accepted(v)
    ghost witness (NullSchemaIsAccepted(); Object([Field(TypeKey, Str(NullWord))]))

  // ---------------------------------------------------------------- what an accepted schema means

  /** A schema read as a type: objects are closed, everything else is bounded. */
  datatype Shape =
    | AnObject(among: Option<seq<Value>>, properties: seq<Prop>, required: set<Word>)
    | AnArray(among: Option<seq<Value>>, items: Shape, least: Option<nat>, most: Option<nat>)
    | AString(among: Option<seq<Value>>, least: Option<nat>, most: Option<nat>)
    | ANumber(among: Option<seq<Value>>, whole: bool, minimum: Option<real>, maximum: Option<real>)
    | ABoolean(among: Option<seq<Value>>)
    | ANull(among: Option<seq<Value>>)

  datatype Prop = Prop(name: Word, shape: Shape)

  predicate InRange(n: nat, least: Option<nat>, most: Option<nat>) {
    (least.Some? ==> least.value <= n) && (most.Some? ==> n <= most.value)
  }

  predicate IsKind(v: Value, shape: Shape) {
    match shape
    case AnObject(_, _, _) => v.Object?
    case AnArray(_, _, _, _) => v.Array?
    case AString(_, _, _) => v.Str?
    case ANumber(_, whole, _, _) => v.Number? && (whole ==> v.n.whole.Some?)
    case ABoolean(_) => v.Bool?
    case ANull(_) => v.Null?
  }

  /** Which values the shape stands for. */
  ghost predicate Satisfies(v: Value, shape: Shape)
    decreases shape, 0
  {
    && IsKind(v, shape) && (shape.among.Some? ==> v in shape.among.value)
    && match shape
       case AnObject(_, properties, required) =>
         HasAll(v.fields, required) && forall i :: 0 <= i < |v.fields| ==> FieldFits(v.fields[i], properties)
       case AnArray(_, items, least, most) => InRange(|v.items|, least, most) && AllSatisfy(v.items, items)
       case AString(_, least, most) => InRange(|Spelling(v.s)|, least, most)
       case ANumber(_, _, minimum, maximum) =>
         (minimum.Some? ==> minimum.value <= v.n.float) && (maximum.Some? ==> v.n.float <= maximum.value)
       case _ => true
  }

  ghost predicate AllSatisfy(items: seq<Value>, shape: Shape)
    decreases shape, 1, |items|
  {
    items == [] || (AllSatisfy(items[..|items|-1], shape) && Satisfies(items[|items|-1], shape))
  }

  ghost predicate HasAll(fields: seq<Field>, names: set<Word>) {
    forall r :: r in names ==> exists f :: f in fields && f.name == r
  }

  /** One field of an instance against the closed set of declarations. */
  ghost predicate FieldFits(field: Field, props: seq<Prop>)
    decreases props
  {
    exists k :: 0 <= k < |props| && Declares(props, k, field.name) && (assert props[k].shape < props[k]; Satisfies(field.value, props[k].shape))
  }

  /** Entry `k` is the declaration of this name. */
  ghost predicate Declares(properties: seq<Prop>, k: nat, name: Word)
    requires k < |properties|
  {
    properties[k].name == name && forall j :: 0 <= j < k ==> properties[j].name != name
  }

  function Among(fields: seq<Field>): Option<seq<Value>> {
    var e := Get(fields, EnumKey);
    if e.Some? && e.value.Array? then Some(e.value.items) else None
  }

  function Bound(fields: seq<Field>, key: Word): Option<nat> {
    if Get(fields, key).Some? then AsU64(Get(fields, key).value) else None
  }

  function Limit(fields: seq<Field>, key: Word): Option<real> {
    var l := Get(fields, key);
    if l.Some? && l.value.Number? then Some(l.value.n.float) else None
  }

  function RequiredNames(fields: seq<Field>): set<Word> {
    var r := Get(fields, RequiredKey);
    if r.Some? && r.value.Array? then set i | 0 <= i < |r.value.items| && r.value.items[i].Str? :: r.value.items[i].s else {}
  }

  lemma NodeParts(v: Value, depth: nat)
    requires WellFormed(v, depth)
    ensures Header(v, depth) && TypeFits(v, depth)
    ensures TypeOf(v).ObjectWord? ==>
      && Get(v.fields, PropertiesKey).Some? && Get(v.fields, PropertiesKey).value.Object?
      && ChildrenFit(Get(v.fields, PropertiesKey).value.fields, depth)
    ensures TypeOf(v).ArrayWord? ==> Get(v.fields, ItemsKey).Some? && WellFormed(Get(v.fields, ItemsKey).value, depth + 1)
  {
    assert TypeFits(v, depth);
  }

  /** The shape an accepted schema declares. */
  ghost function ShapeOf(v: Value, depth: nat): Shape
    requires WellFormed(v, depth)
    decreases v, 1
  {
    NodeParts(v, depth);
    var f := v.fields;
    match TypeOf(v)
    case ObjectWord => AnObject(Among(f), PropsOf(Get(f, PropertiesKey).value.fields, depth), RequiredNames(f))
    case ArrayWord => AnArray(Among(f), ShapeOf(Get(f, ItemsKey).value, depth + 1), Bound(f, MinItemsKey), Bound(f, MaxItemsKey))
    case StringWord => AString(Among(f), Bound(f, MinLengthKey), Bound(f, MaxLengthKey))
    case NumberWord => ANumber(Among(f), false, Limit(f, MinimumKey), Limit(f, MaximumKey))
    case IntegerWord => ANumber(Among(f), true, Limit(f, MinimumKey), Limit(f, MaximumKey))
    case BooleanWord => ABoolean(Among(f))
    case _ => ANull(Among(f))
  }

  ghost function PropsOf(properties: seq<Field>, depth: nat): (r: seq<Prop>)
    requires ChildrenFit(properties, depth)
    ensures |r| == |properties|
    decreases properties, 0
  {
    if properties == [] then []
    else
      var last := properties[|properties|-1];
      assert last.value < last;
      PropsOf(properties[..|properties|-1], depth) + [Prop(last.name, ShapeOf(last.value, depth + 1))]
  }

  // ---------------------------------------------------------------- checking an instance

  datatype Fault = DepthExceeded | TypeMismatch | NotInEnum | Undeclared | MissingRequired | OutsideLength | OutsideNumeric

  /** Against an accepted schema; what the code expects of it is what these look-ups rely on. */
  function ValidateInstanceNode(schema: Value, v: Value, depth: nat): Option<Fault>
    requires WellFormed(schema, depth)
    decreases v, 1
  {
    NodeParts(schema, depth);
    var f := schema.fields;
    var t := TypeOf(schema);
    if depth > MAX_CONTRIBUTION_SCHEMA_DEPTH then Some(DepthExceeded)
    else if !HasType(v, t) then Some(TypeMismatch)
    else if Among(f).Some? && v !in Among(f).value then Some(NotInEnum)
    else match t
      case ObjectWord =>
        var properties := Get(f, PropertiesKey).value.fields;
        if !AllDeclared(v.fields, properties) then Some(Undeclared)
        else if exists r :: r in RequiredNames(f) && Get(v.fields, r).None? then Some(MissingRequired)
        else ValidateFields(v.fields, properties, depth)
      case ArrayWord =>
        if !InRange(|v.items|, Bound(f, MinItemsKey), Bound(f, MaxItemsKey)) then Some(OutsideLength)
        else ValidateItems(v.items, Get(f, ItemsKey).value, depth + 1)
      case StringWord =>
        if !InRange(|Spelling(v.s)|, Bound(f, MinLengthKey), Bound(f, MaxLengthKey)) then Some(OutsideLength) else None
      case NumberWord => NumericFault(f, v.n.float)
      case IntegerWord => NumericFault(f, v.n.float)
      case _ => None
  }

  function NumericFault(fields: seq<Field>, number: real): Option<Fault> {
    var l, h := Limit(fields, MinimumKey), Limit(fields, MaximumKey);
    if (l.Some? && number < l.value) || (h.Some? && number > h.value) then Some(OutsideNumeric) else None
  }

  predicate AllDeclared(fields: seq<Field>, properties: seq<Field>) {
    forall i :: 0 <= i < |fields| ==> Get(properties, fields[i].name).Some?
  }

  function ValidateFields(fields: seq<Field>, properties: seq<Field>, depth: nat): Option<Fault>
    requires ChildrenFit(properties, depth) && AllDeclared(fields, properties)
    decreases fields, 0
  {
    if fields == [] then None
    else
      var n := |fields| - 1;
      assert fields[n].value < fields[n];
      DeclaredIsFit(properties, depth, fields[n].name);
      var earlier := ValidateFields(fields[..n], properties, depth);
      if earlier.Some? then earlier
      else ValidateInstanceNode(Get(properties, fields[n].name).value, fields[n].value, depth + 1)
  }

  function ValidateItems(items: seq<Value>, schema: Value, depth: nat): Option<Fault>
    requires WellFormed(schema, depth)
    decreases items, 0
  {
    if items == [] then None
    else
      var n := |items| - 1;
      var earlier := ValidateItems(items[..n], schema, depth);
      if earlier.Some? then earlier else ValidateInstanceNode(schema, items[n], depth)
  }

  lemma {:induction false} ChildIsFit(properties: seq<Field>, depth: nat, i: nat)
    requires ChildrenFit(properties, depth) && i < |properties|
    ensures WellFormed(properties[i].value, depth + 1)
    ensures PropsOf(properties, depth)[i] == Prop(properties[i].name, ShapeOf(properties[i].value, depth + 1))
    decreases |properties|
  {
    if i < |properties| - 1 { ChildIsFit(properties[..|properties|-1], depth, i); }
  }

  lemma DeclaredIsFit(properties: seq<Field>, depth: nat, name: Word)
    requires ChildrenFit(properties, depth) && Get(properties, name).Some?
    ensures WellFormed(Get(properties, name).value, depth + 1)
  {
    ChildIsFit(properties, depth, IndexOf(properties, name));
  }

  // ---------------------------------------------------------------- the checker means the shape

  lemma LookupDeclares(properties: seq<Field>, depth: nat, name: Word)
    requires ChildrenFit(properties, depth)
    ensures var props := PropsOf(properties, depth); var k := IndexOf(properties, name);
      && (Get(properties, name).None? ==> forall j :: 0 <= j < |props| ==> props[j].name != name)
      && (Get(properties, name).Some? ==> k < |props| && Declares(props, k, name))
  {
    IndexIsFirst(properties, name);
    forall j | 0 <= j < |properties| ensures PropsOf(properties, depth)[j].name == properties[j].name {
      ChildIsFit(properties, depth, j);
    }
  }

  lemma IndexIsFirst(fields: seq<Field>, name: Word)
    ensures forall j :: 0 <= j < IndexOf(fields, name) ==> fields[j].name != name
  {
    if IndexOf(fields, name) == |fields| && fields != [] {
      NoFirstMeansNone(fields, name, |fields| - 1);
    }
  }

  lemma {:induction false} NoFirstMeansNone(fields: seq<Field>, name: Word, k: nat)
    requires k < |fields| && IndexOf(fields, name) == |fields|
    ensures forall j :: 0 <= j <= k ==> fields[j].name != name
  {
    if k > 0 { NoFirstMeansNone(fields, name, k - 1); }
    assert !FirstAt(fields, name, k);
  }

  lemma DeclarationIsUnique(props: seq<Prop>, j: nat, k: nat, name: Word)
    requires j < |props| && k < |props| && Declares(props, j, name) && Declares(props, k, name)
    ensures j == k
  {
  }

  lemma {:induction false} AllSatisfyMeans(items: seq<Value>, shape: Shape)
    ensures AllSatisfy(items, shape) <==> forall i :: 0 <= i < |items| ==> Satisfies(items[i], shape)
  {
    if items != [] {
      AllSatisfyMeans(items[..|items|-1], shape);
      assert forall i :: 0 <= i < |items| - 1 ==> items[..|items|-1][i] == items[i];
    }
  }

  /** All fields fit the declarations. */
  ghost predicate AllFit(fields: seq<Field>, props: seq<Prop>) {
    forall i :: 0 <= i < |fields| ==> FieldFits(fields[i], props)
  }

  lemma AllFitExtended(fields: seq<Field>, props: seq<Prop>)
    requires fields != []
    ensures AllFit(fields, props) <==> AllFit(fields[..|fields|-1], props) && FieldFits(fields[|fields|-1], props)
  {
    var n := |fields| - 1;
    assert forall i :: 0 <= i < n ==> fields[..n][i] == fields[i];
  }

  lemma {:induction false} FieldsMean(fields: seq<Field>, properties: seq<Field>, depth: nat)
    requires ChildrenFit(properties, depth) && AllDeclared(fields, properties)
    ensures ValidateFields(fields, properties, depth).None? <==> AllFit(fields, PropsOf(properties, depth))
    ensures ValidateFields(fields, properties, depth) != Some(DepthExceeded)
    decreases fields, 0
  {
    if fields != [] {
      var n := |fields| - 1;
      assert fields[n].value < fields[n];
      FieldsMean(fields[..n], properties, depth);
      AllFitExtended(fields, PropsOf(properties, depth));
      DeclaredFieldMeans(fields[n], properties, depth);
    }
  }

  lemma DeclaredFieldMeans(field: Field, properties: seq<Field>, depth: nat)
    requires ChildrenFit(properties, depth) && Get(properties, field.name).Some?
    ensures WellFormed(Get(properties, field.name).value, depth + 1)
    ensures ValidateInstanceNode(Get(properties, field.name).value, field.value, depth + 1).None? <==>
      FieldFits(field, PropsOf(properties, depth))
    ensures ValidateInstanceNode(Get(properties, field.name).value, field.value, depth + 1) != Some(DepthExceeded)
    decreases field, 2
  {
    DeclaredIsFit(properties, depth, field.name);
    assert field.value < field;
    InstanceMeans(Get(properties, field.name).value, field.value, depth + 1);
    FieldMeans(field, properties, depth);
  }

  lemma FieldMeans(field: Field, properties: seq<Field>, depth: nat)
    requires ChildrenFit(properties, depth) && Get(properties, field.name).Some?
    requires WellFormed(Get(properties, field.name).value, depth + 1)
    ensures FieldFits(field, PropsOf(properties, depth)) <==>
      Satisfies(field.value, ShapeOf(Get(properties, field.name).value, depth + 1))
  {
    var props, k := PropsOf(properties, depth), IndexOf(properties, field.name);
    LookupDeclares(properties, depth, field.name);
    ChildIsFit(properties, depth, k);
    if FieldFits(field, props) {
      var j :| 0 <= j < |props| && Declares(props, j, field.name) && Satisfies(field.value, props[j].shape);
      DeclarationIsUnique(props, j, k, field.name);
    }
  }

  lemma UndeclaredDoesNotFit(field: Field, properties: seq<Field>, depth: nat)
    requires ChildrenFit(properties, depth) && Get(properties, field.name).None?
    ensures !FieldFits(field, PropsOf(properties, depth))
  {
    LookupDeclares(properties, depth, field.name);
    forall k | 0 <= k < |PropsOf(properties, depth)| ensures !Declares(PropsOf(properties, depth), k, field.name) {}
  }

  lemma {:induction false} ItemsMean(items: seq<Value>, schema: Value, depth: nat, shape: Shape)
    requires WellFormed(schema, depth) && shape == ShapeOf(schema, depth)
    ensures ValidateItems(items, schema, depth).None? <==> AllSatisfy(items, shape)
    ensures ValidateItems(items, schema, depth) != Some(DepthExceeded)
    decreases items, 0
  {
    if items != [] {
      var n := |items| - 1;
      ItemsMean(items[..n], schema, depth, shape);
      InstanceMeans(schema, items[n], depth);
    }
  }

  /** Against an accepted schema the checker accepts exactly what the shape stands for, and depth is never the reason. */
  lemma {:induction false} InstanceMeans(schema: Value, v: Value, depth: nat)
    requires WellFormed(schema, depth)
    ensures ValidateInstanceNode(schema, v, depth).None? <==> Satisfies(v, ShapeOf(schema, depth))
    ensures ValidateInstanceNode(schema, v, depth) != Some(DepthExceeded)
    decreases v, 1
  {
    NodeParts(schema, depth);
    if !HasType(v, TypeOf(schema)) {
      MismatchMeans(schema, v, depth);
    } else if TypeOf(schema).ObjectWord? {
      ObjectMeans(schema, v, depth);
    } else if TypeOf(schema).ArrayWord? {
      ArrayMeans(schema, v, depth);
    } else if TypeOf(schema).NumberWord? || TypeOf(schema).IntegerWord? {
      NumberMeans(schema, v, depth);
    } else {
      ScalarMeans(schema, v, depth);
    }
  }

  lemma ShapeHasKind(schema: Value, v: Value, depth: nat)
    requires WellFormed(schema, depth)
    ensures IsKind(v, ShapeOf(schema, depth)) <==> HasType(v, TypeOf(schema))
  {
  }

  lemma MismatchMeans(schema: Value, v: Value, depth: nat)
    requires WellFormed(schema, depth) && !HasType(v, TypeOf(schema))
    ensures ValidateInstanceNode(schema, v, depth) == Some(TypeMismatch) && !Satisfies(v, ShapeOf(schema, depth))
  {
    ShapeHasKind(schema, v, depth);
    AcceptedIsShallow(schema, depth);
  }

  lemma AcceptedIsShallow(schema: Value, depth: nat)
    requires WellFormed(schema, depth)
    ensures depth <= MAX_CONTRIBUTION_SCHEMA_DEPTH
  {
  }

  lemma NumberMeans(schema: Value, v: Value, depth: nat)
    requires WellFormed(schema, depth) && (TypeOf(schema).NumberWord? || TypeOf(schema).IntegerWord?) && HasType(v, TypeOf(schema))
    ensures ValidateInstanceNode(schema, v, depth).None? <==> Satisfies(v, ShapeOf(schema, depth))
    ensures ValidateInstanceNode(schema, v, depth) != Some(DepthExceeded)
  {
    AcceptedIsShallow(schema, depth);
  }

  lemma ScalarMeans(schema: Value, v: Value, depth: nat)
    requires WellFormed(schema, depth) && !TypeOf(schema).ObjectWord? && !TypeOf(schema).ArrayWord?
    requires !TypeOf(schema).NumberWord? && !TypeOf(schema).IntegerWord? && HasType(v, TypeOf(schema))
    ensures ValidateInstanceNode(schema, v, depth).None? <==> Satisfies(v, ShapeOf(schema, depth))
    ensures ValidateInstanceNode(schema, v, depth) != Some(DepthExceeded)
  {
    AcceptedIsShallow(schema, depth);
  }

  lemma ArrayMeans(schema: Value, v: Value, depth: nat)
    requires WellFormed(schema, depth) && TypeOf(schema).ArrayWord? && v.Array?
    ensures ValidateInstanceNode(schema, v, depth).None? <==> Satisfies(v, ShapeOf(schema, depth))
    ensures ValidateInstanceNode(schema, v, depth) != Some(DepthExceeded)
    decreases v, 0
  {
    NodeParts(schema, depth);
    var items := Get(schema.fields, ItemsKey).value;
    ItemsMean(v.items, items, depth + 1, ShapeOf(items, depth + 1));
  }

  lemma ObjectMeans(schema: Value, v: Value, depth: nat)
    requires WellFormed(schema, depth) && TypeOf(schema).ObjectWord? && v.Object?
    ensures ValidateInstanceNode(schema, v, depth).None? <==> Satisfies(v, ShapeOf(schema, depth))
    ensures ValidateInstanceNode(schema, v, depth) != Some(DepthExceeded)
    decreases v, 0
  {
    NodeParts(schema, depth);
    var properties := Get(schema.fields, PropertiesKey).value.fields;
    var props := PropsOf(properties, depth);
    if AllDeclared(v.fields, properties) {
      FieldsMean(v.fields, properties, depth);
    } else {
      var i :| 0 <= i < |v.fields| && Get(properties, v.fields[i].name).None?;
      UndeclaredDoesNotFit(v.fields[i], properties, depth);
    }
    RequiredMeans(v.fields, RequiredNames(schema.fields));
  }

  lemma RequiredMeans(fields: seq<Field>, names: set<Word>)
    ensures (exists r :: r in names && Get(fields, r).None?) <==> !HasAll(fields, names)
  {
    forall r ensures Get(fields, r).Some? <==> exists f :: f in fields && f.name == r { Contains(fields, r); }
  }

  lemma Contains(fields: seq<Field>, name: Word)
    ensures Get(fields, name).Some? <==> exists f :: f in fields && f.name == name
  {
    IndexIsFirst(fields, name);
    if Get(fields, name).Some? { assert fields[IndexOf(fields, name)] in fields; }
  }

  // ---------------------------------------------------------------- what is written in a schema is what is asked for

  /** A whole number written under `key` is a lower bound. */
  predicate AtLeast(schema: seq<Field>, key: Word, n: nat) {
    Get(schema, key).Some? ==> Get(schema, key).value.Number? && Get(schema, key).value.n.whole.Some? && Get(schema, key).value.n.whole.value <= n
  }

  predicate AtMost(schema: seq<Field>, key: Word, n: nat) {
    Get(schema, key).Some? ==> Get(schema, key).value.Number? && Get(schema, key).value.n.whole.Some? && n <= Get(schema, key).value.n.whole.value
  }

  ghost predicate IsField(fields: seq<Field>, name: Word) { exists i :: 0 <= i < |fields| && fields[i].name == name }

  /** Every string listed under `required` names a field. */
  ghost predicate RequiredPresent(schema: seq<Field>, fields: seq<Field>) {
    var r := Get(schema, RequiredKey);
    r.Some? && r.value.Array? ==> forall i :: 0 <= i < |r.value.items| && r.value.items[i].Str? ==> IsField(fields, r.value.items[i].s)
  }

  /** The value is one of those listed under `enum`. */
  predicate Listed(schema: seq<Field>, v: Value) {
    var e := Get(schema, EnumKey);
    e.Some? && e.value.Array? ==> v in e.value.items
  }

  /** The number lies between those written under `minimum` and `maximum`. */
  predicate BetweenLimits(schema: seq<Field>, x: real) {
    var l, h := Get(schema, MinimumKey), Get(schema, MaximumKey);
    (l.Some? && l.value.Number? ==> l.value.n.float <= x) && (h.Some? && h.value.Number? ==> x <= h.value.n.float)
  }

  /** The reading of the schema text itself: nothing else is asked of a value, and nothing less. */
  ghost predicate Allows(schema: Value, v: Value)
    decreases v, 1
  {
    && schema.Object? && Listed(schema.fields, v)
    && var t := Get(schema.fields, TypeKey);
    && t.Some? && t.value.Str?
    && match v
       case Null => t.value.s == NullWord
       case Bool(_) => t.value.s == BooleanWord
       case Number(n) => (t.value.s == NumberWord || (t.value.s == IntegerWord && n.whole.Some?)) && BetweenLimits(schema.fields, n.float)
       case Str(w) =>
         t.value.s == StringWord
         && AtLeast(schema.fields, MinLengthKey, |Spelling(w)|) && AtMost(schema.fields, MaxLengthKey, |Spelling(w)|)
       case Array(items) =>
         t.value.s == ArrayWord && Get(schema.fields, ItemsKey).Some?
         && AtLeast(schema.fields, MinItemsKey, |items|) && AtMost(schema.fields, MaxItemsKey, |items|)
         && forall i :: 0 <= i < |items| ==> Allows(Get(schema.fields, ItemsKey).value, items[i])
       case Object(fields) =>
         t.value.s == ObjectWord && RequiredPresent(schema.fields, fields)
         && Get(schema.fields, PropertiesKey).Some? && Get(schema.fields, PropertiesKey).value.Object?
         && forall i :: 0 <= i < |fields| ==> AllowsField(Get(schema.fields, PropertiesKey).value.fields, fields[i])
  }

  /** The field is declared, and its value is allowed. */
  ghost predicate AllowsField(properties: seq<Field>, field: Field)
    decreases field, 0
  {
    Get(properties, field.name).Some? && Allows(Get(properties, field.name).value, field.value)
  }

  /** Against an accepted schema exactly the values that its text allows are accepted. */
  lemma {:induction false} AllowsExactly(schema: Value, v: Value, depth: nat)
    requires WellFormed(schema, depth)
    ensures ValidateInstanceNode(schema, v, depth).None? <==> Allows(schema, v)
    decreases v, 2
  {
    NodeParts(schema, depth);
    if HasType(v, TypeOf(schema)) {
      match v
      case Array(items) => AllowsArray(schema, v, depth);
      case Object(fields) => AllowsObject(schema, v, depth);
      case Number(_) => AllowsNumber(schema, v, depth);
      case Str(_) => AllowsString(schema, v, depth);
      case _ =>
    } else {
      MismatchMeans(schema, v, depth);
    }
  }

  lemma AllowsNumber(schema: Value, v: Value, depth: nat)
    requires WellFormed(schema, depth) && v.Number? && HasType(v, TypeOf(schema))
    ensures ValidateInstanceNode(schema, v, depth).None? <==> Allows(schema, v)
  {
    AcceptedIsShallow(schema, depth);
  }

  lemma AllowsString(schema: Value, v: Value, depth: nat)
    requires WellFormed(schema, depth) && v.Str? && HasType(v, TypeOf(schema))
    ensures ValidateInstanceNode(schema, v, depth).None? <==> Allows(schema, v)
  {
    AcceptedIsShallow(schema, depth);
  }

  lemma AllowsArray(schema: Value, v: Value, depth: nat)
    requires WellFormed(schema, depth) && v.Array? && HasType(v, TypeOf(schema))
    ensures ValidateInstanceNode(schema, v, depth).None? <==> Allows(schema, v)
    decreases v, 1
  {
    NodeParts(schema, depth);
    AllowsItems(v.items, Get(schema.fields, ItemsKey).value, depth + 1);
  }

  lemma {:induction false} AllowsItems(items: seq<Value>, schema: Value, depth: nat)
    requires WellFormed(schema, depth)
    ensures ValidateItems(items, schema, depth).None? <==> forall i :: 0 <= i < |items| ==> Allows(schema, items[i])
    decreases items, 0
  {
    if items != [] {
      var n := |items| - 1;
      AllowsItems(items[..n], schema, depth);
      AllowsExactly(schema, items[n], depth);
      assert items == items[..n] + [items[n]];
    }
  }

  lemma AllowsObject(schema: Value, v: Value, depth: nat)
    requires WellFormed(schema, depth) && v.Object? && HasType(v, TypeOf(schema))
    ensures ValidateInstanceNode(schema, v, depth).None? <==> Allows(schema, v)
    decreases v, 1
  {
    NodeParts(schema, depth);
    var properties := Get(schema.fields, PropertiesKey).value.fields;
    if AllDeclared(v.fields, properties) {
      AllowsFields(v.fields, properties, depth);
    } else {
      var i :| 0 <= i < |v.fields| && Get(properties, v.fields[i].name).None?;
      assert !AllowsField(properties, v.fields[i]);
    }
    RequiredIsPresent(schema.fields, v.fields);
  }

  lemma RequiredIsPresent(schema: seq<Field>, fields: seq<Field>)
    ensures (exists r :: r in RequiredNames(schema) && Get(fields, r).None?) <==> !RequiredPresent(schema, fields)
  {
    forall name ensures Get(fields, name).Some? <==> IsField(fields, name) { Contains(fields, name); }
  }

  lemma {:induction false} AllowsFields(fields: seq<Field>, properties: seq<Field>, depth: nat)
    requires ChildrenFit(properties, depth) && AllDeclared(fields, properties)
    ensures ValidateFields(fields, properties, depth).None? <==> AllAllowed(properties, fields)
    decreases fields, 0
  {
    if fields != [] {
      var n := |fields| - 1;
      assert fields[n].value < fields[n];
      AllowsFields(fields[..n], properties, depth);
      DeclaredIsFit(properties, depth, fields[n].name);
      AllowsExactly(Get(properties, fields[n].name).value, fields[n].value, depth + 1);
      AllAllowedExtended(properties, fields);
    }
  }

  ghost predicate AllAllowed(properties: seq<Field>, fields: seq<Field>) {
    forall i :: 0 <= i < |fields| ==> AllowsField(properties, fields[i])
  }

  lemma AllAllowedExtended(properties: seq<Field>, fields: seq<Field>)
    requires fields != []
    ensures AllAllowed(properties, fields) <==> AllAllowed(properties, fields[..|fields|-1]) && AllowsField(properties, fields[|fields|-1])
  {
    var n := |fields| - 1;
    assert forall i :: 0 <= i < n ==> fields[..n][i] == fields[i];
  }

  // ---------------------------------------------------------------- values that are passed on a call

  /** A JSON value and the size of its encoding. */
  datatype Payload = Payload(bytes: nat, value: Value)

  /** The value is of the type that the schema describes. */
  ghost predicate Conforms(schema: BoundedSchema, v: Value) {
    Satisfies(v, ShapeOf(schema, 1))
  }

  /** Being of the type of a schema is being allowed by its text. */
  lemma ConformsExactly(schema: BoundedSchema, v: Value)
    ensures Conforms(schema, v) <==> Allows(schema, v)
  {
    InstanceMeans(schema, v, 1);
    AllowsExactly(schema, v, 1);
  }

  method ValidateInstance(schema: BoundedSchema, v: Value) returns (ok: bool)
    ensures ok <==> Conforms(schema, v)
    ensures ok <==> Allows(schema, v)
  {
    InstanceMeans(schema, v, 1);
    ConformsExactly(schema, v);
    return ValidateInstanceNode(schema, v, 1).None?;
  }
}
