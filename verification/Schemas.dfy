/** Schemas: comparison that ignores the order of fields, and hashing over a sorted copy. */
module Schemas {
  import opened Basics
  import opened Digests
  import opened Sorting

  datatype FieldType = IntField | StringField | FloatField | BoolField | BytesField | ReferenceField

  datatype ObjectField = ObjectField(name: string, fieldType: FieldType, refType: string)

  datatype Schema =
    | ObjectSchema(name: string, fields: seq<ObjectField>, primaryKey: seq<string>)
    | SetSchema(name: string, elementType: string)
    | ListSchema(name: string, elementType: string)
    | MapSchema(name: string, keyType: string, valueType: string, hashKey: string)

  // ----- equality -----

  /** Fields by name; a repeated name keeps its last field. */
  function FieldMap(fields: seq<ObjectField>): map<string, ObjectField> {
    if fields == [] then map[] else FieldMap(fields[..|fields| - 1])[fields[|fields| - 1].name := fields[|fields| - 1]]
  }

  predicate Within<T(==)>(a: map<string, T>, b: map<string, T>) {
    forall n :: n in a ==> n in b && a[n] == b[n]
  }

  predicate EqualObjects(a: Schema, b: Schema)
    requires a.ObjectSchema? && b.ObjectSchema?
  {
    a.name == b.name && |a.fields| == |b.fields| && Within(FieldMap(a.fields), FieldMap(b.fields))
  }

  predicate Equal(a: Schema, b: Schema) {
    match (a, b)
    case (ObjectSchema(_, _, _), ObjectSchema(_, _, _)) => EqualObjects(a, b)
    case (ObjectSchema(_, _, _), _) => false
    case (_, ObjectSchema(_, _, _)) => false
    case _ => a == b
  }

  method BuildFieldMap(fields: seq<ObjectField>) returns (m: map<string, ObjectField>)
    ensures m == FieldMap(fields)
  {
    m := map[];
    for i := 0 to |fields|
      invariant m == FieldMap(fields[..i])
    {
      assert fields[..i + 1][..i] == fields[..i];
      m := m[fields[i].name := fields[i]];
    }
    assert fields[..|fields|] == fields;
  }

  method CompareObjects(a: Schema, b: Schema) returns (equal: bool)
    requires a.ObjectSchema? && b.ObjectSchema?
    ensures equal == EqualObjects(a, b)
  {
    if a.name != b.name { return false; }
    if |a.fields| != |b.fields| { return false; }
    var thisFields := BuildFieldMap(a.fields);
    var otherFields := BuildFieldMap(b.fields);
    var names := InSomeOrder(thisFields.Keys);
    for i := 0 to |names|
      invariant forall k :: 0 <= k < i ==> names[k] in otherFields && thisFields[names[k]] == otherFields[names[k]]
    {
      if names[i] !in otherFields || thisFields[names[i]] != otherFields[names[i]] { return false; }
    }
    return true;
  }

  method Equals(a: Schema, b: Schema) returns (equal: bool)
    ensures equal == Equal(a, b)
  {
    match a {
      case ObjectSchema(_, _, _) =>
        if !b.ObjectSchema? { return false; }
        equal := CompareObjects(a, b);
      case SetSchema(name, elementType) =>
        equal := b.SetSchema? && name == b.name && elementType == b.elementType;
      case ListSchema(name, elementType) =>
        equal := b.ListSchema? && name == b.name && elementType == b.elementType;
      case MapSchema(name, keyType, valueType, hashKey) =>
        equal := b.MapSchema? && name == b.name && keyType == b.keyType && valueType == b.valueType &&
          hashKey == b.hashKey;
    }
  }

  // ----- what the comparison means -----

  function FieldNames(fields: seq<ObjectField>): (names: seq<string>)
    ensures |names| == |fields| && forall i :: 0 <= i < |fields| ==> names[i] == fields[i].name
  {
    if fields == [] then [] else FieldNames(fields[..|fields| - 1]) + [fields[|fields| - 1].name]
  }

  predicate DistinctFields(s: Schema) {
    s.ObjectSchema? ==> Distinct(FieldNames(s.fields))
  }

  lemma {:induction false} FieldMapKeys(fields: seq<ObjectField>)
    ensures FieldMap(fields).Keys == Members(FieldNames(fields))
    ensures forall n :: n in FieldMap(fields) ==> FieldMap(fields)[n] in fields && FieldMap(fields)[n].name == n
  {
    if fields != [] {
      var front, last := fields[..|fields| - 1], fields[|fields| - 1];
      FieldMapKeys(front);
      assert fields == front + [last];
      assert Members(FieldNames(fields)) == Members(FieldNames(front)) + {last.name};
    }
  }

  lemma {:induction false} FieldMapAt(fields: seq<ObjectField>, i: nat)
    requires Distinct(FieldNames(fields)) && i < |fields|
    ensures fields[i].name in FieldMap(fields) && FieldMap(fields)[fields[i].name] == fields[i]
  {
    var front := fields[..|fields| - 1];
    if i < |front| {
      assert Distinct(FieldNames(front)) by {
        assert forall k :: 0 <= k < |front| ==> FieldNames(front)[k] == FieldNames(fields)[k];
      }
      FieldMapAt(front, i);
      assert FieldNames(fields)[i] != FieldNames(fields)[|front|];
    }
  }

  /** Distinct names on one side carry over to the other, and the two field maps are the same. */
  lemma EqualDistinct(a: Schema, b: Schema)
    requires a.ObjectSchema? && b.ObjectSchema? && EqualObjects(a, b) && DistinctFields(a)
    ensures DistinctFields(b) && FieldMap(a.fields) == FieldMap(b.fields)
  {
    FieldMapKeys(a.fields);
    FieldMapKeys(b.fields);
    MemberCount(FieldNames(a.fields));
    MemberCount(FieldNames(b.fields));
    FullPart(FieldMap(a.fields).Keys, FieldMap(b.fields).Keys);
  }

  lemma DistinctMembers(fields: seq<ObjectField>, f: ObjectField)
    requires Distinct(FieldNames(fields))
    ensures f in fields <==> f.name in FieldMap(fields) && FieldMap(fields)[f.name] == f
  {
    FieldMapKeys(fields);
    if f in fields {
      var i :| 0 <= i < |fields| && fields[i] == f;
      FieldMapAt(fields, i);
    }
  }

  lemma DistinctByName(fields: seq<ObjectField>)
    requires Distinct(FieldNames(fields))
    ensures Distinct(fields)
  {
    forall i, j | 0 <= i < j < |fields| ensures fields[i] != fields[j] {
      assert FieldNames(fields)[i] != FieldNames(fields)[j];
    }
  }

  lemma SameFields(a: seq<ObjectField>, b: seq<ObjectField>)
    requires Distinct(FieldNames(a)) && Distinct(FieldNames(b)) && FieldMap(a) == FieldMap(b)
    ensures multiset(a) == multiset(b)
  {
    DistinctByName(a);
    DistinctByName(b);
    forall f ensures f in a <==> f in b {
      DistinctMembers(a, f);
      DistinctMembers(b, f);
    }
    SameMembers(a, b);
  }

  lemma NamesWithin(a: seq<ObjectField>, b: seq<ObjectField>)
    requires Members(a) <= Members(b)
    ensures Members(FieldNames(a)) <= Members(FieldNames(b))
  {
    forall n | n in FieldNames(a) ensures n in FieldNames(b) {
      var i :| 0 <= i < |a| && FieldNames(a)[i] == n;
      assert a[i] in Members(b);
      var j :| 0 <= j < |b| && b[j] == a[i];
      assert FieldNames(b)[j] == n;
    }
  }

  lemma PermutedDistinct(a: seq<ObjectField>, b: seq<ObjectField>)
    requires Distinct(FieldNames(a)) && |a| == |b| && Members(a) == Members(b)
    ensures Distinct(FieldNames(b))
  {
    NamesWithin(a, b);
    NamesWithin(b, a);
    DistinctByMembers(FieldNames(a), FieldNames(b));
  }

  lemma PermutedFields(a: seq<ObjectField>, b: seq<ObjectField>)
    requires Distinct(FieldNames(a)) && multiset(a) == multiset(b)
    ensures |a| == |b| && Within(FieldMap(a), FieldMap(b))
  {
    assert |multiset(a)| == |a| && |multiset(b)| == |b|;
    forall f ensures f in a <==> f in b {
      assert f in a <==> f in multiset(a);
      assert f in b <==> f in multiset(b);
    }
    PermutedDistinct(a, b);
    forall n | n in FieldMap(a) ensures n in FieldMap(b) && FieldMap(a)[n] == FieldMap(b)[n] {
      FieldMapKeys(a);
      DistinctMembers(b, FieldMap(a)[n]);
    }
  }

  /** With distinct field names, equality means: the same name and a permutation of the same fields. */
  lemma EqualMeaning(a: Schema, b: Schema)
    requires a.ObjectSchema? && b.ObjectSchema? && DistinctFields(a)
    ensures Equal(a, b) <==> a.name == b.name && multiset(a.fields) == multiset(b.fields)
  {
    if EqualObjects(a, b) {
      EqualDistinct(a, b);
      SameFields(a.fields, b.fields);
    }
    if multiset(a.fields) == multiset(b.fields) {
      PermutedFields(a.fields, b.fields);
    }
  }

  /** No later field has the name. */
  predicate LastNamed(fields: seq<ObjectField>, i: nat) {
    i < |fields| && forall k :: i < k < |fields| ==> fields[k].name != fields[i].name
  }

  lemma {:induction false} FieldMapLast(fields: seq<ObjectField>, i: nat)
    requires LastNamed(fields, i)
    ensures fields[i].name in FieldMap(fields) && FieldMap(fields)[fields[i].name] == fields[i]
  {
    var front := fields[..|fields| - 1];
    if i < |front| {
      assert LastNamed(front, i);
      FieldMapLast(front, i);
    }
  }

  lemma {:induction false} LastField(fields: seq<ObjectField>, n: string) returns (i: nat)
    requires n in FieldMap(fields)
    ensures LastNamed(fields, i) && fields[i].name == n && fields[i] == FieldMap(fields)[n]
  {
    if fields[|fields| - 1].name == n {
      i := |fields| - 1;
    } else {
      i := LastField(fields[..|fields| - 1], n);
    }
  }

  /** The field is the last one of its name. */
  ghost predicate HasLast(fields: seq<ObjectField>, f: ObjectField) {
    exists i: nat :: LastNamed(fields, i) && fields[i] == f
  }

  ghost predicate LastsWithin(a: seq<ObjectField>, b: seq<ObjectField>) {
    forall f :: HasLast(a, f) ==> HasLast(b, f)
  }

  lemma LastIsMapped(fields: seq<ObjectField>, f: ObjectField)
    ensures HasLast(fields, f) <==> f.name in FieldMap(fields) && FieldMap(fields)[f.name] == f
  {
    if i: nat :| LastNamed(fields, i) && fields[i] == f { FieldMapLast(fields, i); }
    if f.name in FieldMap(fields) { var _ := LastField(fields, f.name); }
  }

  lemma LastsByMap(a: seq<ObjectField>, b: seq<ObjectField>)
    ensures LastsWithin(a, b) <==> Within(FieldMap(a), FieldMap(b))
  {
    FieldMapKeys(a);
    forall f
      ensures HasLast(a, f) <==> f.name in FieldMap(a) && FieldMap(a)[f.name] == f
      ensures HasLast(b, f) <==> f.name in FieldMap(b) && FieldMap(b)[f.name] == f
    {
      LastIsMapped(a, f);
      LastIsMapped(b, f);
    }
    if LastsWithin(a, b) {
      forall n | n in FieldMap(a) ensures n in FieldMap(b) && FieldMap(a)[n] == FieldMap(b)[n] {
        assert HasLast(a, FieldMap(a)[n]);
      }
    }
  }

  /**
   What is compared.  Objects: the names, the number of fields, and of each field name
   in `a` the last field.  Anything else: the kind and every part; nothing but an
   object equals an object.
   */
  lemma EqualByCases(a: Schema, b: Schema)
    ensures a.SetSchema? ==>
      (Equal(a, b) <==> b.SetSchema? && a.name == b.name && a.elementType == b.elementType)
    ensures a.ListSchema? ==>
      (Equal(a, b) <==> b.ListSchema? && a.name == b.name && a.elementType == b.elementType)
    ensures a.MapSchema? ==>
      (Equal(a, b) <==>
        b.MapSchema? && a.name == b.name && a.hashKey == b.hashKey &&
        a.keyType == b.keyType && a.valueType == b.valueType)
    ensures a.ObjectSchema? ==>
      (Equal(a, b) <==>
        b.ObjectSchema? && a.name == b.name && |a.fields| == |b.fields| && LastsWithin(a.fields, b.fields))
  {
    if a.ObjectSchema? && b.ObjectSchema? { LastsByMap(a.fields, b.fields); }
  }

  lemma EqualReflexive(a: Schema)
    ensures Equal(a, a)
  {
  }

  lemma EqualTransitive(a: Schema, b: Schema, c: Schema)
    requires Equal(a, b) && Equal(b, c)
    ensures Equal(a, c)
  {
  }

  /** An equality found one way holds the other way exactly when both sides name equally many fields. */
  lemma EqualSymmetric(a: Schema, b: Schema)
    requires Equal(a, b)
    ensures Equal(b, a) <==> (a.ObjectSchema? ==> |FieldMap(a.fields)| == |FieldMap(b.fields)|)
  {
    if a.ObjectSchema? {
      var m, n := FieldMap(a.fields), FieldMap(b.fields);
      FullPart(m.Keys, n.Keys);
      if Within(n, m) { assert m.Keys == n.Keys; }
    }
  }

  /** So one schema with distinct field names is enough. */
  lemma EqualSymmetricDistinct(a: Schema, b: Schema)
    requires Equal(a, b) && DistinctFields(a)
    ensures Equal(b, a) && DistinctFields(b)
  {
    if a.ObjectSchema? { EqualDistinct(a, b); }
  }

  // ----- hashing -----

  function HashBytes(hash: nat, bytes: seq<nat>): nat {
    if bytes == [] then hash else (HashBytes(hash, bytes[..|bytes| - 1]) * 31 + bytes[|bytes| - 1]) % TWO_64
  }

  function HashNames(hash: nat, names: seq<string>): nat {
    if names == [] then hash else HashBytes(HashNames(hash, names[..|names| - 1]), Utf8(names[|names| - 1]))
  }

  function HashOf(s: Schema): nat {
    match s
    case ObjectSchema(name, fields, _) => HashNames(HashBytes(0, Utf8(name)), Arrange(StringLess, FieldNames(fields)))
    case SetSchema(name, elementType) => HashBytes(0, Utf8(name + elementType))
    case ListSchema(name, elementType) => HashBytes(0, Utf8(name + elementType))
    case MapSchema(name, keyType, valueType, hashKey) => HashBytes(0, Utf8(name + keyType + valueType + hashKey))
  }

  method AddBytes(start: nat, bytes: seq<nat>) returns (hash: nat)
    ensures hash == HashBytes(start, bytes)
  {
    hash := start;
    for i := 0 to |bytes|
      invariant hash == HashBytes(start, bytes[..i])
    {
      assert bytes[..i + 1][..i] == bytes[..i];
      hash := (hash * 31 + bytes[i]) % TWO_64;
    }
    assert bytes[..|bytes|] == bytes;
  }

  method AddNames(start: nat, names: seq<string>) returns (hash: nat)
    ensures hash == HashNames(start, names)
  {
    hash := start;
    for i := 0 to |names|
      invariant hash == HashNames(start, names[..i])
    {
      assert names[..i + 1][..i] == names[..i];
      hash := AddBytes(hash, Utf8(names[i]));
    }
    assert names[..|names|] == names;
  }

  method SortNames(names: seq<string>) returns (sorted: seq<string>)
    ensures sorted == Arrange(StringLess, names)
  {
    var fieldNames := new string[|names|](i requires 0 <= i < |names| => names[i]);
    assert fieldNames[..] == names;
    StringOrder();
    ExchangeSort(fieldNames, StringLess);
    sorted := fieldNames[..];
  }

  method HashObject(s: Schema) returns (hash: nat)
    requires s.ObjectSchema?
    ensures hash == HashOf(s)
  {
    hash := AddBytes(0, Utf8(s.name));
    var fieldNames := SortNames(FieldNames(s.fields));
    hash := AddNames(hash, fieldNames);
  }

  method HashCode(s: Schema) returns (hash: nat)
    ensures hash == HashOf(s)
  {
    match s {
      case ObjectSchema(_, _, _) => hash := HashObject(s);
      case SetSchema(name, elementType) => hash := AddBytes(0, Utf8(name + elementType));
      case ListSchema(name, elementType) => hash := AddBytes(0, Utf8(name + elementType));
      case MapSchema(name, keyType, valueType, hashKey) =>
        hash := AddBytes(0, Utf8(name + keyType + valueType + hashKey));
    }
  }

  /** The bytes as a polynomial in 31, the first byte with the highest power. */
  function Polynomial(bytes: seq<nat>): nat {
    if bytes == [] then 0 else bytes[0] * Power(31, |bytes| - 1) + Polynomial(bytes[1..])
  }

  lemma TimesNext(b: nat, n: nat)
    ensures b * Power(31, n + 1) == b * Power(31, n) * 31
  {
  }

  lemma {:induction false} PolynomialSnoc(bytes: seq<nat>, b: nat)
    ensures Polynomial(bytes + [b]) == Polynomial(bytes) * 31 + b
  {
    if bytes == [] {
      assert [] + [b] == [b] && [b][1..] == [];
      assert Power(31, 0) == 1;
    } else {
      assert (bytes + [b])[1..] == bytes[1..] + [b];
      PolynomialSnoc(bytes[1..], b);
      TimesNext(bytes[0], |bytes| - 1);
    }
  }

  lemma WrapsOnce(x: nat, b: nat)
    ensures (x % TWO_64 * 31 + b) % TWO_64 == (x * 31 + b) % TWO_64
  {
    var q := x / TWO_64;
    assert x * 31 + b == x % TWO_64 * 31 + b + q * 31 * TWO_64;
  }

  lemma {:induction false} HashIsPolynomial(bytes: seq<nat>)
    ensures HashBytes(0, bytes) == Polynomial(bytes) % TWO_64
  {
    if bytes != [] {
      var front, last := bytes[..|bytes| - 1], bytes[|bytes| - 1];
      assert bytes == front + [last];
      HashIsPolynomial(front);
      PolynomialSnoc(front, last);
      WrapsOnce(Polynomial(front), last);
    }
  }

  lemma {:induction false} HashGoesOn(hash: nat, a: seq<nat>, b: seq<nat>)
    ensures HashBytes(HashBytes(hash, a), b) == HashBytes(hash, a + b)
  {
    if b == [] {
      assert a + b == a;
    } else {
      assert (a + b)[..|a + b| - 1] == a + b[..|b| - 1];
      HashGoesOn(hash, a, b[..|b| - 1]);
    }
  }

  function RunTogether(names: seq<string>): string {
    if names == [] then "" else names[0] + RunTogether(names[1..])
  }

  lemma {:induction false} RunTogetherSnoc(names: seq<string>, n: string)
    ensures RunTogether(names + [n]) == RunTogether(names) + n
  {
    if names == [] {
      assert [] + [n] == [n] && [n][1..] == [];
    } else {
      assert (names + [n])[1..] == names[1..] + [n];
      RunTogetherSnoc(names[1..], n);
    }
  }

  lemma HashNamesSnoc(hash: nat, names: seq<string>, n: string)
    ensures HashNames(hash, names + [n]) == HashBytes(HashNames(hash, names), Utf8(n))
  {
    assert (names + [n])[..|names|] == names;
  }

  lemma HashText(a: string, b: string)
    ensures HashBytes(HashBytes(0, Utf8(a)), Utf8(b)) == HashBytes(0, Utf8(a + b))
  {
    HashGoesOn(0, Utf8(a), Utf8(b));
    Utf8Concat(a, b);
  }

  lemma RunOn(text: string, names: seq<string>, n: string)
    ensures text + RunTogether(names + [n]) == text + RunTogether(names) + n
  {
    RunTogetherSnoc(names, n);
  }

  lemma {:induction false} HashNamesText(text: string, names: seq<string>)
    ensures HashNames(HashBytes(0, Utf8(text)), names) == HashBytes(0, Utf8(text + RunTogether(names)))
  {
    if names == [] {
      assert text + "" == text;
    } else {
      var front, last := names[..|names| - 1], names[|names| - 1];
      assert names == front + [last];
      HashNamesText(text, front);
      HashNamesSnoc(HashBytes(0, Utf8(text)), front, last);
      HashText(text + RunTogether(front), last);
      RunOn(text, front, last);
    }
  }

  /** The text a schema is hashed by; `names` are its field names in order. */
  function HashedText(s: Schema, names: seq<string>): string {
    match s
    case ObjectSchema(name, _, _) => name + RunTogether(names)
    case SetSchema(name, elementType) => name + elementType
    case ListSchema(name, elementType) => name + elementType
    case MapSchema(name, keyType, valueType, hashKey) => name + keyType + valueType + hashKey
  }

  /** The hash is the polynomial of that text's bytes, modulo 2^64, however the field names were put in order. */
  lemma HashMeaning(s: Schema, names: seq<string>)
    requires s.ObjectSchema? ==> Sorted(StringLess, names) && multiset(names) == multiset(FieldNames(s.fields))
    ensures HashOf(s) == Polynomial(Utf8(HashedText(s, names))) % TWO_64
  {
    HashIsPolynomial(Utf8(HashedText(s, names)));
    if s.ObjectSchema? {
      StringOrder();
      ArrangeSorts(StringLess, FieldNames(s.fields));
      SortedUnique(StringLess, Arrange(StringLess, FieldNames(s.fields)), names);
      HashNamesText(s.name, names);
    }
  }

  lemma SameNames(a: Schema, b: Schema)
    requires a.ObjectSchema? && b.ObjectSchema? && EqualObjects(a, b) && DistinctFields(a)
    ensures multiset(FieldNames(a.fields)) == multiset(FieldNames(b.fields))
  {
    EqualDistinct(a, b);
    FieldMapKeys(a.fields);
    FieldMapKeys(b.fields);
    forall n ensures n in FieldNames(a.fields) <==> n in FieldNames(b.fields) {
      assert n in Members(FieldNames(a.fields)) <==> n in Members(FieldNames(b.fields));
    }
    SameMembers(FieldNames(a.fields), FieldNames(b.fields));
  }

  /** Both objects name the same fields equally often. */
  predicate SameFieldNames(a: Schema, b: Schema) {
    a.ObjectSchema? && b.ObjectSchema? ==> multiset(FieldNames(a.fields)) == multiset(FieldNames(b.fields))
  }

  /** Equal schemas that name the same fields hash alike, because those names have one sorted order. */
  lemma EqualHashes(a: Schema, b: Schema)
    requires Equal(a, b) && SameFieldNames(a, b)
    ensures HashOf(a) == HashOf(b)
  {
    if a.ObjectSchema? {
      StringOrder();
      ArrangeCanonical(StringLess, FieldNames(a.fields), FieldNames(b.fields));
    }
  }

  /** In particular equal schemas with distinct field names hash alike. */
  lemma EqualHashesDistinct(a: Schema, b: Schema)
    requires Equal(a, b) && DistinctFields(a)
    ensures HashOf(a) == HashOf(b)
  {
    if a.ObjectSchema? { SameNames(a, b); }
    EqualHashes(a, b);
  }

  lemma FieldMapPair(x: ObjectField, y: ObjectField)
    ensures FieldMap([x, y]) == map[x.name := x][y.name := y]
  {
    assert [x, y][..1] == [x] && [x][..0] == [];
    assert FieldMap([x]) == map[][x.name := x];
  }

  lemma ArrangePair(x: string, y: string)
    requires !StringLess(y, x)
    ensures Arrange(StringLess, [x, y]) == [x, y]
  {
    assert [x, y][1..] == [y] && [y][1..] == [];
    assert Arrange(StringLess, [y]) == [y];
  }

  lemma HashOne(hash: nat, c: char)
    requires c < 128 as char
    ensures HashBytes(hash, Utf8([c])) == (hash * 31 + c as int) % TWO_64
  {
    assert [c][..0] == "" && Utf8([c]) == [c as int] && [c as int][..0] == [];
  }

  lemma HashPair(hash: nat, x: char, y: char)
    requires x < 128 as char && y < 128 as char
    ensures HashNames(hash, [[x], [y]]) == ((hash * 31 + x as int) % TWO_64 * 31 + y as int) % TWO_64
  {
    assert [[x], [y]][..1] == [[x]] && [[x]][..0] == [];
    assert HashNames(hash, [[x]]) == HashBytes(HashNames(hash, []), Utf8([x]));
    HashOne(hash, x);
    HashOne((hash * 31 + x as int) % TWO_64, y);
  }

  lemma RepeatedHash(p: ObjectField, q: ObjectField)
    requires p.name == "p" && q.name == "q"
    ensures HashOf(ObjectSchema("T", [p, p], [])) != HashOf(ObjectSchema("T", [p, q], []))
  {
    assert FieldNames([p, p]) == ["p", "p"] && FieldNames([p, q]) == ["p", "q"];
    ArrangePair("p", "p");
    ArrangePair("p", "q");
    HashOne(0, 'T');
    HashPair(84, 'p', 'p');
    HashPair(84, 'p', 'q');
  }

  /** With a repeated field name both laws fail. */
  lemma RepeatedFieldName()
    ensures var p, q := ObjectField("p", IntField, ""), ObjectField("q", IntField, "");
      var a, b := ObjectSchema("T", [p, p], []), ObjectSchema("T", [p, q], []);
      Equal(a, b) && !Equal(b, a) && HashOf(a) != HashOf(b)
  {
    var p, q := ObjectField("p", IntField, ""), ObjectField("q", IntField, "");
    FieldMapPair(p, p);
    FieldMapPair(p, q);
    assert "q" in FieldMap([p, q]) && "q" !in FieldMap([p, p]);
    RepeatedHash(p, q);
  }

  // ----- datasets -----

  function SchemaMap(schemas: seq<Schema>): map<string, Schema> {
    if schemas == [] then map[]
      else SchemaMap(schemas[..|schemas| - 1])[schemas[|schemas| - 1].name := schemas[|schemas| - 1]]
  }

  predicate Covers(a: map<string, Schema>, b: map<string, Schema>) {
    forall n :: n in a ==> n in b && Equal(a[n], b[n])
  }

  predicate Identical(a: seq<Schema>, b: seq<Schema>) {
    |a| == |b| && Covers(SchemaMap(a), SchemaMap(b))
  }

  method BuildSchemaMap(schemas: seq<Schema>) returns (m: map<string, Schema>)
    ensures m == SchemaMap(schemas)
  {
    m := map[];
    for i := 0 to |schemas|
      invariant m == SchemaMap(schemas[..i])
    {
      assert schemas[..i + 1][..i] == schemas[..i];
      m := m[schemas[i].name := schemas[i]];
    }
    assert schemas[..|schemas|] == schemas;
  }

  method HasIdenticalSchemas(a: seq<Schema>, b: seq<Schema>) returns (identical: bool)
    ensures identical == Identical(a, b)
  {
    if |a| != |b| { return false; }
    var thisSchemas := BuildSchemaMap(a);
    var otherSchemas := BuildSchemaMap(b);
    var names := InSomeOrder(thisSchemas.Keys);
    for i := 0 to |names|
      invariant forall k :: 0 <= k < i ==>
        names[k] in otherSchemas && Equal(thisSchemas[names[k]], otherSchemas[names[k]])
    {
      if names[i] !in otherSchemas { return false; }
      var equal := Equals(thisSchemas[names[i]], otherSchemas[names[i]]);
      if !equal { return false; }
    }
    return true;
  }

  function SchemaNames(schemas: seq<Schema>): (names: seq<string>)
    ensures |names| == |schemas| && forall i :: 0 <= i < |schemas| ==> names[i] == schemas[i].name
  {
    if schemas == [] then [] else SchemaNames(schemas[..|schemas| - 1]) + [schemas[|schemas| - 1].name]
  }

  lemma {:induction false} SchemaMapKeys(schemas: seq<Schema>)
    ensures SchemaMap(schemas).Keys == Members(SchemaNames(schemas))
    ensures forall n :: n in SchemaMap(schemas) ==> SchemaMap(schemas)[n] in schemas && SchemaMap(schemas)[n].name == n
  {
    if schemas != [] {
      var front, last := schemas[..|schemas| - 1], schemas[|schemas| - 1];
      SchemaMapKeys(front);
      assert schemas == front + [last];
      assert Members(SchemaNames(schemas)) == Members(SchemaNames(front)) + {last.name};
    }
  }

  lemma {:induction false} SchemaMapAt(schemas: seq<Schema>, i: nat)
    requires Distinct(SchemaNames(schemas)) && i < |schemas|
    ensures schemas[i].name in SchemaMap(schemas) && SchemaMap(schemas)[schemas[i].name] == schemas[i]
  {
    var front := schemas[..|schemas| - 1];
    if i < |front| {
      assert Distinct(SchemaNames(front)) by {
        assert forall k :: 0 <= k < |front| ==> SchemaNames(front)[k] == SchemaNames(schemas)[k];
      }
      SchemaMapAt(front, i);
      assert SchemaNames(schemas)[i] != SchemaNames(schemas)[|front|];
    }
  }

  /** The names of one dataset are distinct, and so are the field names of each of its schemas. */
  predicate WellNamed(schemas: seq<Schema>) {
    Distinct(SchemaNames(schemas)) && forall s :: s in schemas ==> DistinctFields(s)
  }

  lemma IdenticalNames(a: seq<Schema>, b: seq<Schema>)
    requires Identical(a, b) && Distinct(SchemaNames(a))
    ensures SchemaMap(a).Keys == SchemaMap(b).Keys && Distinct(SchemaNames(b))
  {
    SchemaMapKeys(a);
    SchemaMapKeys(b);
    MemberCount(SchemaNames(a));
    MemberCount(SchemaNames(b));
    FullPart(SchemaMap(a).Keys, SchemaMap(b).Keys);
  }

  /** Where `a` and `b` both have a schema, they name equally many fields. */
  predicate SameFieldCounts(a: map<string, Schema>, b: map<string, Schema>) {
    forall n :: n in a && n in b && a[n].ObjectSchema? && b[n].ObjectSchema? ==>
      |FieldMap(a[n].fields)| == |FieldMap(b[n].fields)|
  }

  lemma CoversBack(m: map<string, Schema>, n: map<string, Schema>)
    requires Covers(m, n)
    ensures Covers(n, m) <==> |m| == |n| && SameFieldCounts(m, n)
  {
    FullPart(m.Keys, n.Keys);
    forall k | k in m
      ensures Equal(n[k], m[k]) <==> (m[k].ObjectSchema? ==> |FieldMap(m[k].fields)| == |FieldMap(n[k].fields)|)
    {
      EqualSymmetric(m[k], n[k]);
    }
    if Covers(n, m) {
      assert m.Keys == n.Keys;
    }
    if |m| == |n| {
      assert m.Keys == n.Keys;
    }
  }

  /** A match found one way holds the other way exactly when equally many schemas and fields are named. */
  lemma IdenticalSymmetric(a: seq<Schema>, b: seq<Schema>)
    requires Identical(a, b)
    ensures Identical(b, a) <==>
      |SchemaMap(a)| == |SchemaMap(b)| && SameFieldCounts(SchemaMap(a), SchemaMap(b))
  {
    CoversBack(SchemaMap(a), SchemaMap(b));
  }

  lemma IdenticalSymmetricDistinct(a: seq<Schema>, b: seq<Schema>)
    requires Identical(a, b) && WellNamed(a)
    ensures Identical(b, a) && Distinct(SchemaNames(b))
  {
    IdenticalNames(a, b);
    SchemaMapKeys(a);
    forall n | n in SchemaMap(b) ensures n in SchemaMap(a) && Equal(SchemaMap(b)[n], SchemaMap(a)[n]) {
      EqualSymmetricDistinct(SchemaMap(a)[n], SchemaMap(b)[n]);
    }
  }

  lemma IdenticalReflexive(a: seq<Schema>)
    ensures Identical(a, a)
  {
    forall n | n in SchemaMap(a) ensures Equal(SchemaMap(a)[n], SchemaMap(a)[n]) { EqualReflexive(SchemaMap(a)[n]); }
  }

  lemma IdenticalTransitive(a: seq<Schema>, b: seq<Schema>, c: seq<Schema>)
    requires Identical(a, b) && Identical(b, c)
    ensures Identical(a, c)
  {
    forall n | n in SchemaMap(a) ensures n in SchemaMap(c) && Equal(SchemaMap(a)[n], SchemaMap(c)[n]) {
      EqualTransitive(SchemaMap(a)[n], SchemaMap(b)[n], SchemaMap(c)[n]);
    }
  }

  /** No later schema has the name. */
  predicate LastSchema(schemas: seq<Schema>, i: nat) {
    i < |schemas| && forall k :: i < k < |schemas| ==> schemas[k].name != schemas[i].name
  }

  lemma {:induction false} SchemaMapLast(schemas: seq<Schema>, i: nat)
    requires LastSchema(schemas, i)
    ensures schemas[i].name in SchemaMap(schemas) && SchemaMap(schemas)[schemas[i].name] == schemas[i]
  {
    var front := schemas[..|schemas| - 1];
    if i < |front| {
      assert LastSchema(front, i);
      SchemaMapLast(front, i);
    }
  }

  lemma {:induction false} LastOfName(schemas: seq<Schema>, n: string) returns (i: nat)
    requires n in SchemaMap(schemas)
    ensures LastSchema(schemas, i) && schemas[i].name == n && schemas[i] == SchemaMap(schemas)[n]
  {
    if schemas[|schemas| - 1].name == n {
      i := |schemas| - 1;
    } else {
      i := LastOfName(schemas[..|schemas| - 1], n);
    }
  }

  /** Of the schemas with the name of `s`, the last one equals it. */
  ghost predicate Matched(s: Schema, schemas: seq<Schema>) {
    exists j: nat :: LastSchema(schemas, j) && schemas[j].name == s.name && Equal(s, schemas[j])
  }

  lemma MatchedByMap(s: Schema, schemas: seq<Schema>)
    ensures Matched(s, schemas) <==> s.name in SchemaMap(schemas) && Equal(s, SchemaMap(schemas)[s.name])
  {
    if j: nat :| LastSchema(schemas, j) && schemas[j].name == s.name && Equal(s, schemas[j]) {
      SchemaMapLast(schemas, j);
    }
    if s.name in SchemaMap(schemas) { var _ := LastOfName(schemas, s.name); }
  }

  /** What is compared of two datasets: the number of schemas, and for each name in `a` the last of that name. */
  lemma IdenticalExactly(a: seq<Schema>, b: seq<Schema>)
    ensures Identical(a, b) <==> |a| == |b| && forall i: nat :: LastSchema(a, i) ==> Matched(a[i], b)
  {
    forall i: nat | LastSchema(a, i)
      ensures a[i].name in SchemaMap(a) && SchemaMap(a)[a[i].name] == a[i]
      ensures Matched(a[i], b) <==> a[i].name in SchemaMap(b) && Equal(a[i], SchemaMap(b)[a[i].name])
    {
      SchemaMapLast(a, i);
      MatchedByMap(a[i], b);
    }
    if forall i: nat :: LastSchema(a, i) ==> Matched(a[i], b) {
      forall n | n in SchemaMap(a) ensures n in SchemaMap(b) && Equal(SchemaMap(a)[n], SchemaMap(b)[n]) {
        var i := LastOfName(a, n);
      }
    }
  }

  /** Schema `j` equals `s`, and no other has its name. */
  predicate Partner(s: Schema, schemas: seq<Schema>, j: nat)
    requires j < |schemas|
  {
    Equal(s, schemas[j]) && forall k :: 0 <= k < |schemas| && schemas[k].name == s.name ==> k == j
  }

  lemma NamedOnce(schemas: seq<Schema>, j: nat, k: nat)
    requires Distinct(SchemaNames(schemas)) && j < |schemas| && k < |schemas| && schemas[j].name == schemas[k].name
    ensures j == k
  {
    DistinctAt(SchemaNames(schemas), j, k);
  }

  lemma NamedIn(schemas: seq<Schema>, n: string) returns (j: nat)
    requires n in SchemaMap(schemas)
    ensures j < |schemas| && schemas[j] == SchemaMap(schemas)[n] && schemas[j].name == n
  {
    SchemaMapKeys(schemas);
    j :| 0 <= j < |schemas| && schemas[j] == SchemaMap(schemas)[n];
  }

  /** Identical datasets match their schemas up one to one: equal ones, wherever they stand. */
  lemma IdenticalMatches(a: seq<Schema>, b: seq<Schema>, i: nat)
    requires Identical(a, b) && Distinct(SchemaNames(a)) && i < |a|
    ensures exists j :: 0 <= j < |b| && Partner(a[i], b, j)
  {
    IdenticalNames(a, b);
    SchemaMapAt(a, i);
    var j := NamedIn(b, a[i].name);
    forall k: nat | k < |b| && b[k].name == a[i].name ensures k == j { NamedOnce(b, j, k); }
    assert Partner(a[i], b, j);
  }
}
