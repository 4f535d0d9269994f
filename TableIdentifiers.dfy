/**
 * `TableIdentifier` of the reverse-engineering tool: the full name of a
 * table as catalog, schema and name, each of which may be null. Its fields
 * are final, so it is a value here.
 */
module TableIdentifiers {
  import opened JavaLang

  datatype TableIdentifier = TableIdentifier(
    catalog: Option<string>,
    schema: Option<string>,
    name: Option<string>)

  /** What `equals(Object)` can be handed. */
  datatype JavaObject = NullReference | AnIdentifier(id: TableIdentifier) | OtherObject

  /**
   * `create(catalog, schema, name)`. The constructor interns each non-null
   * component, which gives an equal string, so the getters return exactly
   * what was supplied.
   */
  function Create(catalog: Option<string>, schema: Option<string>, name: Option<string>): (t: TableIdentifier)
    ensures t.catalog == catalog && t.schema == schema && t.name == name
  {
    TableIdentifier(catalog, schema, name)
  }

  /**
   * The private null-safe `equals(String, String)`: the same reference
   * (both null included) is equal, one null is not, otherwise `String.equals`.
   */
  function ComponentEquals(left: Option<string>, right: Option<string>): (r: bool)
    ensures r <==> left == right
  {
    match (left, right)
    case (None, None) => true
    case (Some(l), Some(rt)) => l == rt
    case _ => false
  }

  /**
   * `equals(TableIdentifier)`: false for null, otherwise name, schema and
   * catalog compared in that order. The `this == other` shortcut gives the
   * same answer as the component comparison, so it is not a separate case.
   */
  function Equals(t: TableIdentifier, other: Option<TableIdentifier>): (r: bool)
    ensures r <==> other == Some(t)
    ensures r <==> other.Some? && t.name == other.value.name
                   && t.schema == other.value.schema && t.catalog == other.value.catalog
  {
    match other
    case None => false
    case Some(o) =>
      if ComponentEquals(t.name, o.name) then
        if ComponentEquals(t.schema, o.schema) then ComponentEquals(t.catalog, o.catalog)
        else false
      else false
  }

  /** `equals(Object)`: only a `TableIdentifier` can be equal. */
  function EqualsObject(t: TableIdentifier, obj: JavaObject): (r: bool)
    ensures obj.NullReference? || obj.OtherObject? ==> !r
    ensures r <==> obj == AnIdentifier(t)
  {
    obj.AnIdentifier? && Equals(t, Some(obj.id))
  }

  lemma EqualsIsEquivalence(a: TableIdentifier, b: TableIdentifier, c: TableIdentifier)
    ensures Equals(a, Some(a))
    ensures Equals(a, Some(b)) <==> Equals(b, Some(a))
    ensures Equals(a, Some(b)) && Equals(b, Some(c)) ==> Equals(a, Some(c))
  {
  }

  /** A component's contribution to the hash: `String.hashCode`, or 0 for null. */
  function ComponentHash(s: Option<string>, stringHash: string -> Int32): Int32
  {
    match s
    case None => 0
    case Some(v) => stringHash(v)
  }

  /**
   * `hashCode()`: start at 13 and fold `37 * result + hash(component)` over
   * name, schema and catalog, in Java `int` arithmetic. `String.hashCode`
   * is the parameter `stringHash`.
   */
  function HashCode(t: TableIdentifier, stringHash: string -> Int32): Int32
  {
    var h0 := 13;
    var h1 := Wrap32(37 * h0 + ComponentHash(t.name, stringHash));
    var h2 := Wrap32(37 * h1 + ComponentHash(t.schema, stringHash));
    Wrap32(37 * h2 + ComponentHash(t.catalog, stringHash))
  }

  /** The step-by-step wrapping fold is the polynomial 13·37³ + 37²·n + 37·s + c, wrapped once. */
  lemma HashCodeIsPolynomial(t: TableIdentifier, stringHash: string -> Int32)
    ensures HashCode(t, stringHash)
         == Wrap32(13 * 37 * 37 * 37
                   + 37 * 37 * ComponentHash(t.name, stringHash)
                   + 37 * ComponentHash(t.schema, stringHash)
                   + ComponentHash(t.catalog, stringHash))
  {
    FoldIsPolynomial(ComponentHash(t.name, stringHash), ComponentHash(t.schema, stringHash),
                     ComponentHash(t.catalog, stringHash));
  }

  /** The fold of three component hashes from 13, wrapped at every step. */
  lemma FoldIsPolynomial(n: int, s: int, c: int)
    ensures Wrap32(37 * Wrap32(37 * Wrap32(37 * 13 + n) + s) + c)
         == Wrap32(13 * 37 * 37 * 37 + 37 * 37 * n + 37 * s + c)
  {
    WrapTwoSteps(37 * 13 + n, s, c);
    WrapOfExpanded(n, s, c);
  }

  /** Two wrapped steps of the fold wrap like the unwrapped fold. */
  lemma WrapTwoSteps(h: int, s: int, c: int)
    ensures Wrap32(37 * Wrap32(37 * Wrap32(h) + s) + c) == Wrap32(37 * (37 * h + s) + c)
  {
    WrapLinearStep(37, h, s);
    WrapLinearStep(37, 37 * h + s, c);
  }

  lemma WrapOfExpanded(n: int, s: int, c: int)
    ensures Wrap32(37 * (37 * (37 * 13 + n) + s) + c) == Wrap32(13 * 37 * 37 * 37 + 37 * 37 * n + 37 * s + c)
  {
  }

  /** `hashCode` is consistent with `equals`, whatever `String.hashCode` is. */
  lemma EqualIdentifiersHashEqually(a: TableIdentifier, b: TableIdentifier, stringHash: string -> Int32)
    requires Equals(a, Some(b))
    ensures HashCode(a, stringHash) == HashCode(b, stringHash)
  {
  }

  /** How `toString` renders a catalog or schema: the value and a dot, nothing for null. */
  function QualifierText(s: Option<string>): string
  {
    match s
    case None => ""
    case Some(v) => v + "."
  }

  /** How `StringBuffer.append` renders a possibly-null name. */
  function NameText(s: Option<string>): string
  {
    match s
    case None => "null"
    case Some(v) => v
  }

  const ToStringPrefix: string := "TableIdentifier("

  /** `toString()`: `TableIdentifier(` + [catalog.] + [schema.] + name + `)`. */
  function ToString(t: TableIdentifier): (s: string)
    ensures |s| == |ToStringPrefix| + |QualifierText(t.catalog)| + |QualifierText(t.schema)| + |NameText(t.name)| + 1
    ensures s[..|ToStringPrefix|] == ToStringPrefix && s[|s| - 1] == ')'
    ensures t.catalog == None && t.schema == None ==> s[|ToStringPrefix|..|s| - 1] == NameText(t.name)
    ensures t.catalog.Some? ==>
              s[|ToStringPrefix|..|ToStringPrefix| + |t.catalog.value| + 1] == t.catalog.value + "."
    // the schema segment follows the catalog segment
    ensures s[|ToStringPrefix| + |QualifierText(t.catalog)|..][..|QualifierText(t.schema)|] == QualifierText(t.schema)
    // the name comes last, just before the closing parenthesis
    ensures s[|s| - 1 - |NameText(t.name)|..|s| - 1] == NameText(t.name)
  {
    ToStringPrefix + QualifierText(t.catalog) + QualifierText(t.schema) + NameText(t.name) + ")"
  }

  /**
   * `toString` is not a key: a catalog-qualified and a schema-qualified
   * identifier can print alike although they are not `equals`.
   */
  lemma ToStringIsNotInjective()
    ensures var a := Create(Some("app"), None, Some("orders"));
            var b := Create(None, Some("app"), Some("orders"));
            ToString(a) == ToString(b) && !Equals(a, Some(b))
  {
    var a := Create(Some("app"), None, Some("orders"));
    var b := Create(None, Some("app"), Some("orders"));
    assert ToString(a) == ToStringPrefix + "app." + "orders" + ")";
    assert ToString(b) == ToStringPrefix + "app." + "orders" + ")";
  }
}
