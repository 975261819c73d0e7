/**
 * The parsed TOML tree the configuration sanitiser rewrites, and a
 * declarative statement of what sanitising one section against a schema
 * yields. The tree is `toml::Value`, cut down to the distinctions the
 * sanitiser draws: strings, integers, booleans, tables, and everything else
 * (floats, datetimes, arrays) as `Other`.
 */
module TomlValue {

  datatype Value =
    | Str(s: string)
    | Int(i: int)
    | Bool(b: bool)
    | Table(t: map<string, Value>)
    | Other

  /** A section schema: each known field with its default; the default's kind is the field's type. */
  type Schema = map<string, Value>

  /** `is_str()` when the default is a string, `is_integer()` when it is an integer. */
  predicate HasKindOf(v: Value, default: Value) {
    match default
    case Str(_) => v.Str?
    case Int(_) => v.Int?
    case Bool(_) => v.Bool?
    case Table(_) => v.Table?
    case Other => v.Other?
  }

  /** `retain(|k, _| known.contains(k))`. */
  function Retain(t: map<string, Value>, known: set<string>): map<string, Value>
  {
    map k | k in t && k in known :: t[k]
  }

  /** One field after sanitising: kept when present with the default's kind, the default otherwise. */
  function Fix(t: map<string, Value>, k: string, default: Value): Value {
    if k in t && HasKindOf(t[k], default) then t[k] else default
  }

  /**
   * A sanitised table, field by field: exactly the schema's fields, each
   * keeping its value when it has the right type and taking the default
   * when it is missing or has another type.
   */
  function SanitizedFields(t: map<string, Value>, schema: Schema): map<string, Value>
  {
    map k | k in schema :: Fix(t, k, schema[k])
  }

  /** `if !t.contains_key(k) { t.insert(k, default) }`. */
  function InsertMissing(t: map<string, Value>, k: string, default: Value): map<string, Value>
  {
    if k in t then t else t[k := default]
  }

  /** `if let Some(v) = t.get_mut(k) { if !v.is_<kind>() { *v = default } }`. */
  function ReplaceIfNotKind(t: map<string, Value>, k: string, default: Value): map<string, Value>
  {
    if k in t && !HasKindOf(t[k], default) then t[k := default] else t
  }

  /** A section that is a table is sanitised; a section of any other kind is left as it is. */
  function SanitizedSection(v: Value, schema: Schema): Value
  {
    if v.Table? then Table(SanitizedFields(v.t, schema)) else v
  }

  /** `t.entry(name).or_insert_with(empty table)`, read back. */
  function SectionOrEmpty(t: map<string, Value>, name: string): Value {
    if name in t then t[name] else Table(map[])
  }

  /** The known sections, each sanitised against its schema; a missing one starts as an empty table. */
  function SanitizedRoot(t: map<string, Value>, schemas: map<string, Schema>): map<string, Value>
  {
    map k | k in schemas :: SanitizedSection(SectionOrEmpty(t, k), schemas[k])
  }

  /** Sanitising a table keeps exactly the schema's fields, each of the schema's type. */
  lemma SanitizedFieldsShape(t: map<string, Value>, schema: Schema)
    ensures SanitizedFields(t, schema).Keys == schema.Keys
    ensures forall k :: k in schema ==> HasKindOf(SanitizedFields(t, schema)[k], schema[k])
  {
    forall k | k in schema
      ensures HasKindOf(SanitizedFields(t, schema)[k], schema[k])
    {
      DefaultHasItsKind(schema[k]);
    }
  }

  /** A fixed field always has the kind of its default. */
  lemma FixHasKind(t: map<string, Value>, k: string, d: Value)
    ensures HasKindOf(Fix(t, k, d), d)
  {
    DefaultHasItsKind(d);
  }

  lemma DefaultHasItsKind(d: Value)
    ensures HasKindOf(d, d)
  {
  }

  /** What sanitising does to one field: well-typed values survive, the rest become the default. */
  lemma SanitizedField(t: map<string, Value>, schema: Schema, k: string)
    requires k in schema
    ensures k in t && HasKindOf(t[k], schema[k]) ==> SanitizedFields(t, schema)[k] == t[k]
    ensures k !in t ==> SanitizedFields(t, schema)[k] == schema[k]
    ensures k in t && !HasKindOf(t[k], schema[k]) ==> SanitizedFields(t, schema)[k] == schema[k]
  {
  }

  /** Sanitising a sanitised table changes nothing. */
  lemma SanitizedFieldsIdempotent(t: map<string, Value>, schema: Schema)
    ensures SanitizedFields(SanitizedFields(t, schema), schema) == SanitizedFields(t, schema)
  {
    var once := SanitizedFields(t, schema);
    SanitizedFieldsShape(t, schema);
    assert SanitizedFields(once, schema) == once;
  }

  /** Sanitising a sanitised section changes nothing. */
  lemma SanitizedSectionIdempotent(v: Value, schema: Schema)
    ensures SanitizedSection(SanitizedSection(v, schema), schema) == SanitizedSection(v, schema)
  {
    if v.Table? {
      SanitizedFieldsIdempotent(v.t, schema);
    }
  }

  /** Sanitising the root of a sanitised tree changes nothing. */
  lemma SanitizedRootIdempotent(t: map<string, Value>, schemas: map<string, Schema>)
    ensures SanitizedRoot(SanitizedRoot(t, schemas), schemas) == SanitizedRoot(t, schemas)
  {
    var once := SanitizedRoot(t, schemas);
    forall k | k in schemas
      ensures SanitizedRoot(once, schemas)[k] == once[k]
    {
      SanitizedSectionIdempotent(SectionOrEmpty(t, k), schemas[k]);
    }
  }

  /** A schema of one field, sanitised: the field alone, fixed. */
  lemma SanitizedFields1(t: map<string, Value>, k1: string, d1: Value)
    ensures SanitizedFields(t, map[k1 := d1]) == map[k1 := Fix(t, k1, d1)]
  {
  }

  /** A schema of two fields, sanitised: both fields, fixed. */
  lemma SanitizedFields2(t: map<string, Value>, k1: string, d1: Value, k2: string, d2: Value)
    requires k1 != k2
    ensures SanitizedFields(t, map[k1 := d1, k2 := d2]) == map[k1 := Fix(t, k1, d1), k2 := Fix(t, k2, d2)]
  {
    var schema := map[k1 := d1, k2 := d2];
    assert schema.Keys == {k1, k2};
  }

  /** A schema of three fields, sanitised: all three fields, fixed. */
  lemma SanitizedFields3(t: map<string, Value>, k1: string, d1: Value, k2: string, d2: Value, k3: string, d3: Value)
    requires k1 != k2 && k1 != k3 && k2 != k3
    ensures SanitizedFields(t, map[k1 := d1, k2 := d2, k3 := d3]) ==
            map[k1 := Fix(t, k1, d1), k2 := Fix(t, k2, d2), k3 := Fix(t, k3, d3)]
  {
    var schema := map[k1 := d1, k2 := d2, k3 := d3];
    assert schema.Keys == {k1, k2, k3};
  }

  /** Inserting a field when missing and then fixing its type leaves the fixed field. */
  lemma InsertThenReplace(t: map<string, Value>, k: string, d: Value)
    ensures ReplaceIfNotKind(InsertMissing(t, k, d), k, d) == t[k := Fix(t, k, d)]
  {
  }

  /** Steps on two different fields commute. */
  lemma ReplaceInsertCommute(t: map<string, Value>, k1: string, d1: Value, k2: string, d2: Value)
    requires k1 != k2
    ensures ReplaceIfNotKind(InsertMissing(t, k2, d2), k1, d1) == InsertMissing(ReplaceIfNotKind(t, k1, d1), k2, d2)
  {
  }

  /** Fixing one field does not look at the others. */
  lemma FixOther(t: map<string, Value>, k1: string, v: Value, k2: string, d2: Value)
    requires k1 != k2
    ensures Fix(t[k1 := v], k2, d2) == Fix(t, k2, d2)
  {
  }

  /** Retaining a field does not change how it is fixed. */
  lemma FixRetained(t: map<string, Value>, known: set<string>, k: string, d: Value)
    requires k in known
    ensures Fix(Retain(t, known), k, d) == Fix(t, k, d)
  {
  }

  /** Retaining one field, inserting it when missing, then fixing its type. */
  lemma Steps1(t: map<string, Value>, k1: string, d1: Value)
    ensures ReplaceIfNotKind(InsertMissing(Retain(t, {k1}), k1, d1), k1, d1) == map[k1 := Fix(t, k1, d1)]
  {
    var r := Retain(t, {k1});
    InsertThenReplace(r, k1, d1);
    FixRetained(t, {k1}, k1, d1);
    assert r.Keys <= {k1};
  }

  /** Retaining two fields, inserting each when missing, then fixing each one's type. */
  lemma Steps2(t: map<string, Value>, k1: string, d1: Value, k2: string, d2: Value)
    requires k1 != k2
    ensures ReplaceIfNotKind(ReplaceIfNotKind(
              InsertMissing(InsertMissing(Retain(t, {k1, k2}), k1, d1), k2, d2), k1, d1), k2, d2)
            == map[k1 := Fix(t, k1, d1), k2 := Fix(t, k2, d2)]
  {
    var r := Retain(t, {k1, k2});
    ReplaceInsertCommute(InsertMissing(r, k1, d1), k1, d1, k2, d2);
    InsertThenReplace(r, k1, d1);
    var b1 := r[k1 := Fix(r, k1, d1)];
    InsertThenReplace(b1, k2, d2);
    FixOther(r, k1, Fix(r, k1, d1), k2, d2);
    FixRetained(t, {k1, k2}, k1, d1);
    FixRetained(t, {k1, k2}, k2, d2);
    assert r.Keys <= {k1, k2};
    assert b1[k2 := Fix(b1, k2, d2)] == map[k1 := Fix(t, k1, d1), k2 := Fix(t, k2, d2)];
  }

  /** Three insertions then three replacements, reordered so that each replacement follows its insertion. */
  lemma Interleave3(r: map<string, Value>, k1: string, d1: Value, k2: string, d2: Value, k3: string, d3: Value)
    requires k1 != k2 && k1 != k3 && k2 != k3
    ensures ReplaceIfNotKind(ReplaceIfNotKind(ReplaceIfNotKind(
              InsertMissing(InsertMissing(InsertMissing(r, k1, d1), k2, d2), k3, d3), k1, d1), k2, d2), k3, d3)
            == ReplaceIfNotKind(InsertMissing(ReplaceIfNotKind(InsertMissing(
                 ReplaceIfNotKind(InsertMissing(r, k1, d1), k1, d1), k2, d2), k2, d2), k3, d3), k3, d3)
  {
    var i1 := InsertMissing(r, k1, d1);
    var i2 := InsertMissing(i1, k2, d2);
    ReplaceInsertCommute(i2, k1, d1, k3, d3);
    ReplaceInsertCommute(i1, k1, d1, k2, d2);
    var j1 := ReplaceIfNotKind(i1, k1, d1);
    ReplaceInsertCommute(InsertMissing(j1, k2, d2), k2, d2, k3, d3);
  }

  /** Three fields, each inserted when missing and then fixed, on a table holding no other key. */
  lemma FixEach3(r: map<string, Value>, k1: string, d1: Value, k2: string, d2: Value, k3: string, d3: Value)
    requires k1 != k2 && k1 != k3 && k2 != k3
    requires r.Keys <= {k1, k2, k3}
    ensures ReplaceIfNotKind(InsertMissing(ReplaceIfNotKind(InsertMissing(
              ReplaceIfNotKind(InsertMissing(r, k1, d1), k1, d1), k2, d2), k2, d2), k3, d3), k3, d3)
            == map[k1 := Fix(r, k1, d1), k2 := Fix(r, k2, d2), k3 := Fix(r, k3, d3)]
  {
    InsertThenReplace(r, k1, d1);
    var b1 := r[k1 := Fix(r, k1, d1)];
    InsertThenReplace(b1, k2, d2);
    var b2 := b1[k2 := Fix(b1, k2, d2)];
    InsertThenReplace(b2, k3, d3);
    FixOther(r, k1, Fix(r, k1, d1), k2, d2);
    FixOther(r, k1, Fix(r, k1, d1), k3, d3);
    FixOther(b1, k2, Fix(b1, k2, d2), k3, d3);
    assert b2[k3 := Fix(b2, k3, d3)] == map[k1 := Fix(r, k1, d1), k2 := Fix(r, k2, d2), k3 := Fix(r, k3, d3)];
  }

  /** Retaining three fields, inserting each when missing, then fixing each one's type. */
  lemma Steps3(t: map<string, Value>, k1: string, d1: Value, k2: string, d2: Value, k3: string, d3: Value)
    requires k1 != k2 && k1 != k3 && k2 != k3
    ensures ReplaceIfNotKind(ReplaceIfNotKind(ReplaceIfNotKind(
              InsertMissing(InsertMissing(InsertMissing(Retain(t, {k1, k2, k3}), k1, d1), k2, d2), k3, d3),
              k1, d1), k2, d2), k3, d3)
            == map[k1 := Fix(t, k1, d1), k2 := Fix(t, k2, d2), k3 := Fix(t, k3, d3)]
  {
    var r := Retain(t, {k1, k2, k3});
    Interleave3(r, k1, d1, k2, d2, k3, d3);
    assert r.Keys <= {k1, k2, k3};
    FixEach3(r, k1, d1, k2, d2, k3, d3);
    FixRetained(t, {k1, k2, k3}, k1, d1);
    FixRetained(t, {k1, k2, k3}, k2, d2);
    FixRetained(t, {k1, k2, k3}, k3, d3);
  }

  /** Three known sections: the sanitised root, spelt out section by section. */
  lemma SanitizedRoot3(t: map<string, Value>, n1: string, s1: Schema, n2: string, s2: Schema, n3: string, s3: Schema)
    requires n1 != n2 && n1 != n3 && n2 != n3
    ensures SanitizedRoot(t, map[n1 := s1, n2 := s2, n3 := s3]) ==
            map[n1 := SanitizedSection(SectionOrEmpty(t, n1), s1),
                n2 := SanitizedSection(SectionOrEmpty(t, n2), s2),
                n3 := SanitizedSection(SectionOrEmpty(t, n3), s3)]
  {
    var schemas := map[n1 := s1, n2 := s2, n3 := s3];
    var m := map[n1 := SanitizedSection(SectionOrEmpty(t, n1), s1),
                 n2 := SanitizedSection(SectionOrEmpty(t, n2), s2),
                 n3 := SanitizedSection(SectionOrEmpty(t, n3), s3)];
    var r := SanitizedRoot(t, schemas);
    assert schemas.Keys == {n1, n2, n3} == m.Keys;
    assert r[n1] == m[n1] && r[n2] == m[n2] && r[n3] == m[n3];
  }

  /** A table that already has exactly the schema's fields, each of its type, is left as it is. */
  lemma SanitizedFieldsWellTyped(t: map<string, Value>, schema: Schema)
    requires t.Keys == schema.Keys
    requires forall k :: k in schema ==> HasKindOf(t[k], schema[k])
    ensures SanitizedFields(t, schema) == t
  {
  }

  /** Retaining keeps only known keys. */
  lemma RetainedKeys(t: map<string, Value>, known: set<string>)
    ensures Retain(t, known).Keys <= known
    ensures forall k :: k in known ==> SectionOrEmpty(Retain(t, known), k) == SectionOrEmpty(t, k)
  {
  }

  /** Three updates that cover every key of a map give the same map as the display. */
  lemma Overwrite3(r: map<string, Value>, n1: string, v1: Value, n2: string, v2: Value, n3: string, v3: Value)
    requires r.Keys <= {n1, n2, n3}
    ensures r[n1 := v1][n2 := v2][n3 := v3] == map[n1 := v1, n2 := v2, n3 := v3]
  {
  }

  /** One known section: the sanitised root, spelt out. */
  lemma SanitizedRoot1(t: map<string, Value>, n1: string, s1: Schema)
    ensures SanitizedRoot(t, map[n1 := s1]) == map[n1 := SanitizedSection(SectionOrEmpty(t, n1), s1)]
  {
  }
}
