/** The canonical form behind a block's content hash. */
module BlockHash {
  import opened Text
  import opened Wrappers

  /** Key types of Go maps: json.Marshal writes those with string or integer
      keys and refuses the rest. */
  datatype KeyKind = Strings | Integers | Others

  /** Decoded values. Str is a string; Scalar is any other value JSON writes as
      one token; Unwritable is one JSON has no form for, such as a float that
      is not a number. Maps are under the printed form of their keys. */
  datatype GoValue =
    | Nil
    | Str(text: string)
    | Scalar(token: string)
    | Unwritable(token: string)
    | Map(keys: KeyKind, entries: map<string, GoValue>)
    | List(items: seq<GoValue>)

  datatype Json =
    | Null
    | Text(text: string)
    | Token(token: string)
    | Object(members: map<string, Json>)
    | Array(elements: seq<Json>)

  /** A map[string]any. */
  type Fields = map<string, GoValue>

  /** normalizeJSONValue. */
  function Normalize(v: GoValue): GoValue {
    match v
    case Map(_, entries) => Map(Strings, map k | k in entries :: Normalize(entries[k]))
    case List(items) => List(seq(|items|, i requires 0 <= i < |items| => Normalize(items[i])))
    case _ => v
  }

  function NormalizeFields(fields: Fields): Fields {
    map k | k in fields :: Normalize(fields[k])
  }

  /** json.Marshal succeeds. */
  predicate Encodable(v: GoValue) {
    match v
    case Unwritable(_) => false
    case Map(keys, entries) => keys != Others && forall k | k in entries :: Encodable(entries[k])
    case List(items) => forall i | 0 <= i < |items| :: Encodable(items[i])
    case _ => true
  }

  function Encode(v: GoValue): Json
    requires Encodable(v)
  {
    match v
    case Nil => Null
    case Str(text) => Text(text)
    case Scalar(token) => Token(token)
    case Map(_, entries) => Object(map k | k in entries :: Encode(entries[k]))
    case List(items) => Array(seq(|items|, i requires 0 <= i < |items| => Encode(items[i])))
  }

  predicate EncodableFields(fields: Fields) {
    forall k | k in fields :: Encodable(fields[k])
  }

  function EncodeFields(fields: Fields): map<string, Json>
    requires EncodableFields(fields)
  {
    map k | k in fields :: Encode(fields[k])
  }

  /** No part of the value is unwritable. */
  predicate Writable(v: GoValue) {
    match v
    case Unwritable(_) => false
    case Map(_, entries) => forall k | k in entries :: Writable(entries[k])
    case List(items) => forall i | 0 <= i < |items| :: Writable(items[i])
    case _ => true
  }

  predicate WritableFields(fields: Fields) {
    forall k | k in fields :: Writable(fields[k])
  }

  // ----- Parts of a value -----

  /** One step into a map or a list. */
  datatype PathStep = Field(key: string) | Element(index: nat)

  function PartAt(v: GoValue, path: seq<PathStep>): Option<GoValue> {
    if path == [] then Some(v)
    else match path[0]
      case Field(k) => if v.Map? && k in v.entries then PartAt(v.entries[k], path[1..]) else None
      case Element(i) => if v.List? && i < |v.items| then PartAt(v.items[i], path[1..]) else None
  }

  function JsonAt(j: Json, path: seq<PathStep>): Option<Json> {
    if path == [] then Some(j)
    else match path[0]
      case Field(k) => if j.Object? && k in j.members then JsonAt(j.members[k], path[1..]) else None
      case Element(i) => if j.Array? && i < |j.elements| then JsonAt(j.elements[i], path[1..]) else None
  }

  /** A part that json.Marshal refuses. */
  predicate Refused(part: GoValue) {
    part.Unwritable? || (part.Map? && part.keys == Others)
  }

  lemma {:induction false} PartsEncodable(v: GoValue, path: seq<PathStep>)
    requires PartAt(v, path).Some?
    ensures Encodable(v) ==> !Refused(PartAt(v, path).value)
    ensures Writable(v) ==> !PartAt(v, path).value.Unwritable?
    decreases |path|
  {
    if path != [] {
      match path[0]
      case Field(k) => PartsEncodable(v.entries[k], path[1..]);
      case Element(i) => PartsEncodable(v.items[i], path[1..]);
    }
  }

  lemma {:induction false} RefusedPart(v: GoValue) returns (path: seq<PathStep>)
    requires !Encodable(v)
    ensures PartAt(v, path).Some? && Refused(PartAt(v, path).value)
  {
    if Refused(v) {
      path := [];
    } else if v.Map? {
      var k :| k in v.entries && !Encodable(v.entries[k]);
      var rest := RefusedPart(v.entries[k]);
      path := [Field(k)] + rest;
      assert path[1..] == rest;
    } else {
      var i: nat :| i < |v.items| && !Encodable(v.items[i]);
      var rest := RefusedPart(v.items[i]);
      path := [Element(i)] + rest;
      assert path[1..] == rest;
    }
  }

  lemma {:induction false} UnwritablePart(v: GoValue) returns (path: seq<PathStep>)
    requires !Writable(v)
    ensures PartAt(v, path).Some? && PartAt(v, path).value.Unwritable?
  {
    if v.Unwritable? {
      path := [];
    } else if v.Map? {
      var k :| k in v.entries && !Writable(v.entries[k]);
      var rest := UnwritablePart(v.entries[k]);
      path := [Field(k)] + rest;
      assert path[1..] == rest;
    } else {
      var i: nat :| i < |v.items| && !Writable(v.items[i]);
      var rest := UnwritablePart(v.items[i]);
      path := [Element(i)] + rest;
      assert path[1..] == rest;
    }
  }

  /** A value encodes exactly when, wherever one looks, no part is refused; it
      is writable exactly when no part lacks a form in JSON. */
  lemma EncodableExactly(v: GoValue)
    ensures Encodable(v) <==> forall path | PartAt(v, path).Some? :: !Refused(PartAt(v, path).value)
    ensures Writable(v) <==> forall path | PartAt(v, path).Some? :: !PartAt(v, path).value.Unwritable?
  {
    forall path | PartAt(v, path).Some?
      ensures Encodable(v) ==> !Refused(PartAt(v, path).value)
      ensures Writable(v) ==> !PartAt(v, path).value.Unwritable?
    {
      PartsEncodable(v, path);
    }
    if !Encodable(v) {
      var path := RefusedPart(v);
    }
    if !Writable(v) {
      var path := UnwritablePart(v);
    }
  }

  /** One value is the other with all its maps keyed by strings. */
  predicate NormalOf(normal: Option<GoValue>, part: Option<GoValue>) {
    if part.None? then normal.None?
    else
      && normal.Some?
      && match part.value
         case Map(_, entries) =>
           normal.value.Map? && normal.value.keys == Strings && normal.value.entries.Keys == entries.Keys
         case List(items) => normal.value.List? && |normal.value.items| == |items|
         case _ => normal == part
  }

  /** Wherever one looks, normalizing changes the key type of a map and nothing
      else. */
  lemma {:induction false} NormalizeKeepsParts(v: GoValue, path: seq<PathStep>)
    ensures NormalOf(PartAt(Normalize(v), path), PartAt(v, path))
    decreases |path|
  {
    if path != [] {
      match path[0]
      case Field(k) => if v.Map? && k in v.entries { NormalizeKeepsParts(v.entries[k], path[1..]); }
      case Element(i) => if v.List? && i < |v.items| { NormalizeKeepsParts(v.items[i], path[1..]); }
    }
  }

  /** The JSON of a part: same text, same token, same names, same length. */
  predicate JsonOf(json: Option<Json>, part: Option<GoValue>) {
    if part.None? then json.None?
    else
      && json.Some?
      && match part.value
         case Nil => json.value == Null
         case Str(text) => json.value == Text(text)
         case Scalar(token) => json.value == Token(token)
         case Unwritable(_) => false
         case Map(_, entries) => json.value.Object? && json.value.members.Keys == entries.Keys
         case List(items) => json.value.Array? && |json.value.elements| == |items|
  }

  /** Wherever one looks, an encoding has the JSON of what the value has there. */
  lemma {:induction false} EncodeKeepsParts(v: GoValue, path: seq<PathStep>)
    requires Encodable(v)
    ensures JsonOf(JsonAt(Encode(v), path), PartAt(v, path))
    decreases |path|
  {
    if path != [] {
      match path[0]
      case Field(k) => if v.Map? && k in v.entries { EncodeKeepsParts(v.entries[k], path[1..]); }
      case Element(i) => if v.List? && i < |v.items| { EncodeKeepsParts(v.items[i], path[1..]); }
    }
  }

  lemma {:induction false} NormalizeTwice(v: GoValue)
    ensures Normalize(Normalize(v)) == Normalize(v)
  {
    match v
    case Map(_, entries) =>
      forall k | k in entries ensures Normalize(Normalize(entries[k])) == Normalize(entries[k]) {
        NormalizeTwice(entries[k]);
      }
    case List(items) =>
      forall i | 0 <= i < |items| ensures Normalize(Normalize(items[i])) == Normalize(items[i]) {
        NormalizeTwice(items[i]);
      }
    case _ =>
  }

  /** Normalizing makes exactly the writable values encodable: it mends map
      keys and nothing else. */
  lemma {:induction false} NormalEncodes(v: GoValue)
    ensures Encodable(Normalize(v)) <==> Writable(v)
    ensures Encodable(v) ==> Writable(v)
  {
    match v
    case Map(_, entries) =>
      forall k | k in entries
        ensures Encodable(Normalize(entries[k])) <==> Writable(entries[k])
        ensures Encodable(entries[k]) ==> Writable(entries[k])
      {
        NormalEncodes(entries[k]);
      }
      var normal := Normalize(v);
      assert forall k | k in entries :: k in normal.entries && normal.entries[k] == Normalize(entries[k]);
    case List(items) =>
      forall i | 0 <= i < |items|
        ensures Encodable(Normalize(items[i])) <==> Writable(items[i])
        ensures Encodable(items[i]) ==> Writable(items[i])
      {
        NormalEncodes(items[i]);
      }
      var normal := Normalize(v);
      assert forall i | 0 <= i < |items| :: normal.items[i] == Normalize(items[i]);
    case _ =>
  }

  /** Normalizing first does not change an encoding. */
  lemma {:induction false} NormalEncodesAlike(v: GoValue)
    requires Encodable(v)
    ensures Encodable(Normalize(v)) && Encode(Normalize(v)) == Encode(v)
  {
    match v
    case Map(_, entries) =>
      forall k | k in entries
        ensures Encodable(Normalize(entries[k])) && Encode(Normalize(entries[k])) == Encode(entries[k])
      {
        NormalEncodesAlike(entries[k]);
      }
    case List(items) =>
      forall i | 0 <= i < |items|
        ensures Encodable(Normalize(items[i])) && Encode(Normalize(items[i])) == Encode(items[i])
      {
        NormalEncodesAlike(items[i]);
      }
    case _ =>
  }

  /** Encodings tell values apart up to the key types of their maps. */
  lemma {:induction false} EncodeInjective(v: GoValue, w: GoValue)
    requires Encodable(v) && Encodable(w)
    ensures Encode(v) == Encode(w) <==> Normalize(v) == Normalize(w)
  {
    if Encode(v) == Encode(w) {
      SameEncoding(v, w);
    }
    NormalEncodesAlike(v);
    NormalEncodesAlike(w);
  }

  lemma NormalLists(a: seq<GoValue>, b: seq<GoValue>)
    requires |a| == |b| && forall i | 0 <= i < |a| :: Normalize(a[i]) == Normalize(b[i])
    ensures Normalize(List(a)) == Normalize(List(b))
  {
  }

  lemma NormalMaps(p: KeyKind, a: map<string, GoValue>, q: KeyKind, b: map<string, GoValue>)
    requires a.Keys == b.Keys && forall k | k in a :: Normalize(a[k]) == Normalize(b[k])
    ensures Normalize(Map(p, a)) == Normalize(Map(q, b))
  {
  }

  lemma {:induction false} SameEncoding(v: GoValue, w: GoValue)
    requires Encodable(v) && Encodable(w) && Encode(v) == Encode(w)
    ensures Normalize(v) == Normalize(w)
  {
    match v
    case Map(_, entries) =>
      assert entries.Keys == Encode(v).members.Keys == Encode(w).members.Keys == w.entries.Keys;
      forall k | k in entries ensures Normalize(entries[k]) == Normalize(w.entries[k]) {
        assert Encode(v).members[k] == Encode(w).members[k];
        SameEncoding(entries[k], w.entries[k]);
      }
      NormalMaps(v.keys, entries, w.keys, w.entries);
    case List(items) =>
      assert |items| == |Encode(v).elements| == |w.items|;
      forall i | 0 <= i < |items| ensures Normalize(items[i]) == Normalize(w.items[i]) {
        assert Encode(v).elements[i] == Encode(w).elements[i];
        SameEncoding(items[i], w.items[i]);
      }
      NormalLists(items, w.items);
    case _ =>
  }

  /** The material that is hashed. */
  datatype Content = Content(kind: string, role: string, payload: map<string, Json>, metadata: map<string, Json>)

  type Hash = Content -> string

  ghost predicate Injective(hash: Hash) {
    forall a, b :: hash(a) == hash(b) ==> a == b
  }

  lemma NormalFieldsEncode(fields: Fields)
    ensures EncodableFields(NormalizeFields(fields)) <==> WritableFields(fields)
    ensures EncodableFields(fields) ==>
              WritableFields(fields) && EncodeFields(NormalizeFields(fields)) == EncodeFields(fields)
  {
    var normal := NormalizeFields(fields);
    forall k | k in fields
      ensures Encodable(normal[k]) <==> Writable(fields[k])
      ensures Encodable(fields[k]) ==> Writable(fields[k]) && Encode(normal[k]) == Encode(fields[k])
    {
      NormalEncodes(fields[k]);
      if Encodable(fields[k]) {
        NormalEncodesAlike(fields[k]);
      }
    }
    if EncodableFields(normal) {
      forall k | k in fields ensures Writable(fields[k]) {
        assert k in normal;
      }
    }
  }

  /** CanonicalBlockMaterialJSON. */
  function Canonical(kind: string, role: string, payload: Fields, metadata: Fields): Option<Content> {
    if !EncodableFields(NormalizeFields(payload)) || !EncodableFields(NormalizeFields(metadata)) then None
    else Some(Content(TrimSpace(kind), TrimSpace(role),
                      EncodeFields(NormalizeFields(payload)), EncodeFields(NormalizeFields(metadata))))
  }

  /** ComputeBlockContentHash. */
  function ContentHash(hash: Hash, kind: string, role: string, payload: Fields, metadata: Fields): Option<string> {
    var material := Canonical(kind, role, payload, metadata);
    if material.None? then None else Some(hash(material.value))
  }

  /** A block can be hashed exactly when all its values are writable, and two
      such blocks share a hash exactly when they agree up to trimming and up to
      the key types of their maps. */
  lemma HashTellsContentApart(hash: Hash, kind: string, role: string, payload: Fields, metadata: Fields,
                              kind': string, role': string, payload': Fields, metadata': Fields)
    requires Injective(hash)
    ensures var a, b := ContentHash(hash, kind, role, payload, metadata), ContentHash(hash, kind', role', payload', metadata');
      && (a.Some? <==> WritableFields(payload) && WritableFields(metadata))
      && (a.Some? && b.Some? ==>
            (a == b <==> TrimSpace(kind) == TrimSpace(kind') && TrimSpace(role) == TrimSpace(role')
                         && NormalizeFields(payload) == NormalizeFields(payload')
                         && NormalizeFields(metadata) == NormalizeFields(metadata')))
  {
    NormalFieldsEncode(payload);
    NormalFieldsEncode(metadata);
    if ContentHash(hash, kind, role, payload, metadata).Some?
       && ContentHash(hash, kind', role', payload', metadata').Some? {
      EncodedFieldsInjective(payload, payload');
      EncodedFieldsInjective(metadata, metadata');
    }
  }

  lemma EncodedFieldsInjective(a: Fields, b: Fields)
    requires EncodableFields(NormalizeFields(a)) && EncodableFields(NormalizeFields(b))
    ensures EncodeFields(NormalizeFields(a)) == EncodeFields(NormalizeFields(b)) <==>
              NormalizeFields(a) == NormalizeFields(b)
  {
    var x, y := NormalizeFields(a), NormalizeFields(b);
    if EncodeFields(x) == EncodeFields(y) {
      assert x.Keys == EncodeFields(x).Keys == y.Keys;
      forall k | k in x ensures x[k] == y[k] {
        assert EncodeFields(x)[k] == EncodeFields(y)[k];
        SameEncoding(x[k], y[k]);
        NormalizeTwice(a[k]);
        NormalizeTwice(b[k]);
      }
    }
  }
}
