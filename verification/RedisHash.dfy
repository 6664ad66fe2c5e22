/** Structs stored as hashes of strings, field by field, and read back. */
module RedisHash {
  import opened Decimal

  // ----- structs -----

  datatype Kind = StringKind | IntKind | BoolKind | DeletedAtKind | OtherKind

  datatype Field = Field(name: string, pointer: bool, kind: Kind)

  datatype Scalar = Str(text: string) | Int(number: int) | Bool(truth: bool) | DeletedAt(time: string)
                  | Other(printed: string)

  /** A field's value; a pointer field holds nil or a reference. */
  datatype Value = Plain(scalar: Scalar) | Nil | Ref(scalar: Scalar)

  type Schema = seq<Field>
  type Struct = seq<Value>
  type Hash = map<string, string>

  /** Which texts are read as a time; left open. */
  type TimeParser = string -> bool

  /** Field names are distinct. */
  ghost predicate Distinct(schema: Schema) {
    forall i, j | 0 <= i < j < |schema| :: schema[i].name != schema[j].name
  }

  predicate ScalarFits(kind: Kind, s: Scalar) {
    match kind
    case StringKind => s.Str?
    case IntKind => s.Int? && IsInt64(s.number)
    case BoolKind => s.Bool?
    case DeletedAtKind => s.DeletedAt?
    case OtherKind => s.Other?
  }

  predicate Fits(f: Field, v: Value) {
    if f.pointer then v.Nil? || (v.Ref? && ScalarFits(f.kind, v.scalar)) else v.Plain? && ScalarFits(f.kind, v.scalar)
  }

  ghost predicate Typed(schema: Schema, obj: Struct) {
    |obj| == |schema| && forall i | 0 <= i < |schema| :: Fits(schema[i], obj[i])
  }

  /** The field types that can be read back, or are never written. */
  predicate Readable(f: Field) {
    f.kind != OtherKind && (f.kind == DeletedAtKind ==> !f.pointer)
  }

  function ZeroScalar(kind: Kind): Scalar {
    match kind
    case StringKind => Str("")
    case IntKind => Int(0)
    case BoolKind => Bool(false)
    case DeletedAtKind => DeletedAt("")
    case OtherKind => Other("")
  }

  function ZeroValue(f: Field): Value {
    if f.pointer then Nil else Plain(ZeroScalar(f.kind))
  }

  function Zero(schema: Schema): Struct {
    seq(|schema|, i requires 0 <= i < |schema| => ZeroValue(schema[i]))
  }

  // ----- writing -----

  /** The soft-deletion time is not written. */
  predicate Skipped(f: Field) {
    f.kind == DeletedAtKind && !f.pointer
  }

  function EncodeScalar(s: Scalar): string {
    match s
    case Str(text) => text
    case Int(number) => Format(number)
    case Bool(truth) => if truth then "true" else "false"
    case DeletedAt(time) => time
    case Other(printed) => printed
  }

  function Encode(v: Value): string {
    if v.Nil? then "" else EncodeScalar(v.scalar)
  }

  function Encoded(schema: Schema, obj: Struct, n: nat): Hash
    requires |obj| == |schema| && n <= |schema|
  {
    if n == 0 then map[]
    else
      var front := Encoded(schema, obj, n - 1);
      if Skipped(schema[n - 1]) then front else front[schema[n - 1].name := Encode(obj[n - 1])]
  }

  // ----- reading -----

  function ParseBool(s: string): Value {
    if s in ["1", "t", "T", "TRUE", "true", "True"] then Plain(Bool(true))
    else if s in ["0", "f", "F", "FALSE", "false", "False"] then Plain(Bool(false))
    else Nil
  }

  datatype ReadResult = Ok(value: Value) | Failed

  function Wrap(f: Field, s: Scalar): ReadResult {
    Ok(if f.pointer then Ref(s) else Plain(s))
  }

  /** One field from the text found for it; `current` is what the target holds. */
  function ReadField(f: Field, text: string, current: Value, isTime: TimeParser): ReadResult {
    if f.pointer && text == "" then Ok(current)
    else match f.kind
         case StringKind => Wrap(f, Str(text))
         case IntKind => if ParseInt(text).Number? then Wrap(f, Int(ParseInt(text).value)) else Failed
         case BoolKind => if ParseBool(text).Plain? then Wrap(f, ParseBool(text).scalar) else Failed
         case DeletedAtKind =>
           if text == "" then Ok(current) else if isTime(text) then Wrap(f, DeletedAt(text)) else Failed
         case OtherKind => Failed
  }

  /** The target after its first `n` fields, and whether reading stopped at one of them. */
  function ReadUpto(schema: Schema, hash: Hash, target: Struct, n: nat, isTime: TimeParser): (r: (Struct, bool))
    requires |target| == |schema| && n <= |schema|
    ensures |r.0| == |schema| && forall i | n <= i < |schema| :: r.0[i] == target[i]
  {
    if n == 0 then (target, false)
    else
      var (obj, failed) := ReadUpto(schema, hash, target, n - 1, isTime);
      var f := schema[n - 1];
      if failed || f.name !in hash then (obj, failed)
      else match ReadField(f, hash[f.name], obj[n - 1], isTime)
           case Ok(value) => (obj[n - 1 := value], false)
           case Failed => (obj, true)
  }

  // ----- the server -----

  /** A hash and the seconds it has left to live; 0 or less when it does not expire. */
  datatype Entry = Entry(hash: Hash, ttl: int)

  datatype Outcome = Done | NotFound | BadField | NotAnInteger | NothingToWrite

  function HashOf(entries: map<string, Entry>, key: string): Hash {
    if key in entries then entries[key].hash else map[]
  }

  function TtlOf(entries: map<string, Entry>, key: string): int {
    if key in entries then entries[key].ttl else -2
  }

  function SetObj(entries: map<string, Entry>, key: string, data: Hash, expiration: int): map<string, Entry> {
    if data == map[] then entries
    else entries[key := Entry(HashOf(entries, key) + data, if expiration > 0 then expiration
                                                           else if key in entries then entries[key].ttl else -1)]
  }

  /** The server increments only canonical 64-bit integers and refuses to overflow; a missing field counts as 0. */
  function Incremented(hash: Hash, field: string, delta: int): Number {
    var n := if field in hash then ParseInt(hash[field]) else Number(0);
    if n.NotANumber? || (field in hash && Format(n.value) != hash[field]) || !IsInt64(n.value + delta) then NotANumber
    else Number(n.value + delta)
  }

  function IncrBy(entries: map<string, Entry>, key: string, field: string, delta: int): map<string, Entry> {
    if TtlOf(entries, key) <= 0 || Incremented(HashOf(entries, key), field, delta).NotANumber? then entries
    else
      var hash := entries[key].hash;
      entries[key := entries[key].(hash := hash[field := Format(Incremented(hash, field, delta).value)])]
  }

  class Redis {
    var entries: map<string, Entry>

    constructor ()
      ensures entries == map[]
    {
      entries := map[];
    }

    method HSetObj(key: string, schema: Schema, obj: Struct, expiration: int) returns (outcome: Outcome)
      requires |obj| == |schema|
      modifies this
      ensures entries == SetObj(old(entries), key, Encoded(schema, obj, |schema|), expiration)
      ensures outcome == if Encoded(schema, obj, |schema|) == map[] then NothingToWrite else Done
    {
      var data: Hash := map[];
      for i := 0 to |schema|
        invariant data == Encoded(schema, obj, i) && entries == old(entries)
      {
        var field, value := schema[i], obj[i];
        if field.kind == DeletedAtKind && !field.pointer {
          continue;
        }
        if value.Nil? {
          data := data[field.name := ""];
          continue;
        }
        var text := EncodeScalar(value.scalar);
        data := data[field.name := text];
      }
      if data == map[] {
        return NothingToWrite;
      }
      var ttl := if key in entries then entries[key].ttl else -1;
      if expiration > 0 {
        ttl := expiration;
      }
      entries := entries[key := Entry(HashOf(entries, key) + data, ttl)];
      return Done;
    }

    method HGetObj(key: string, schema: Schema, target: Struct, isTime: TimeParser)
      returns (obj: Struct, outcome: Outcome)
      requires |target| == |schema|
      ensures var hash := HashOf(entries, key);
              if hash == map[] then obj == target && outcome == NotFound
              else (obj, outcome) == (ReadUpto(schema, hash, target, |schema|, isTime).0,
                                      if ReadUpto(schema, hash, target, |schema|, isTime).1 then BadField else Done)
    {
      obj := target;
      var result := HashOf(entries, key);
      if result == map[] {
        return obj, NotFound;
      }
      for i := 0 to |schema|
        invariant |obj| == |schema| && (obj, false) == ReadUpto(schema, result, target, i, isTime)
      {
        var field := schema[i];
        if field.name in result {
          var read := ReadField(field, result[field.name], obj[i], isTime);
          if read.Failed? {
            ReadStopped(schema, result, target, i + 1, |schema|, isTime);
            return obj, BadField;
          }
          obj := obj[i := read.value];
        }
      }
      return obj, Done;
    }

    method HIncrBy(key: string, field: string, delta: int) returns (outcome: Outcome)
      modifies this
      ensures entries == IncrBy(old(entries), key, field, delta)
      ensures outcome
           == if TtlOf(old(entries), key) > 0 && Incremented(HashOf(old(entries), key), field, delta).NotANumber?
              then NotAnInteger else Done
    {
      var ttl := TtlOf(entries, key);
      if ttl > 0 {
        var next := Incremented(entries[key].hash, field, delta);
        if next.NotANumber? {
          return NotAnInteger;
        }
        entries := entries[key := Entry(entries[key].hash[field := Format(next.value)], ttl)];
      }
      return Done;
    }
  }

  lemma {:induction false} ReadStopped(schema: Schema, hash: Hash, target: Struct, n: nat, m: nat, isTime: TimeParser)
    requires |target| == |schema| && n <= m <= |schema| && ReadUpto(schema, hash, target, n, isTime).1
    ensures ReadUpto(schema, hash, target, m, isTime) == ReadUpto(schema, hash, target, n, isTime)
    decreases m
  {
    if n < m {
      ReadStopped(schema, hash, target, n, m - 1, isTime);
    }
  }

  // ----- what comes back -----

  /** What a stored value reads back as: a pointer to an empty string becomes nil, the deletion time is lost. */
  function Restored(f: Field, v: Value): Value {
    if v == Ref(Str("")) then Nil else if Skipped(f) then ZeroValue(f) else v
  }

  function RestoredAll(schema: Schema, obj: Struct): Struct
    requires |obj| == |schema|
  {
    seq(|schema|, i requires 0 <= i < |schema| => Restored(schema[i], obj[i]))
  }

  /** The hash never holds a deletion time: no write brings one. */
  ghost predicate NoDeletionTime(schema: Schema, hash: Hash) {
    forall f | f in schema && Skipped(f) :: f.name !in hash
  }

  lemma FieldReadsBack(f: Field, v: Value, isTime: TimeParser)
    requires Readable(f) && !Skipped(f) && Fits(f, v)
    ensures ReadField(f, Encode(v), ZeroValue(f), isTime) == Ok(Restored(f, v))
  {
    if f.kind == IntKind && !v.Nil? {
      IntReadsBack(v.scalar.number);
    }
  }

  lemma {:induction false} EncodedLookup(schema: Schema, obj: Struct, n: nat, i: nat)
    requires |obj| == |schema| && i < |schema| && n <= |schema| && Distinct(schema)
    ensures schema[i].name in Encoded(schema, obj, n) <==> i < n && !Skipped(schema[i])
    ensures i < n && !Skipped(schema[i]) ==> Encoded(schema, obj, n)[schema[i].name] == Encode(obj[i])
  {
    if n > 0 {
      EncodedLookup(schema, obj, n - 1, i);
      if i != n - 1 {
        assert schema[i].name != schema[n - 1].name;
      }
    }
  }

  lemma {:induction false} ReadsBackUpto(schema: Schema, hash: Hash, obj: Struct, n: nat, isTime: TimeParser)
    requires Distinct(schema) && Typed(schema, obj) && n <= |schema|
    requires forall f | f in schema :: Readable(f)
    requires forall i | 0 <= i < |schema| ::
               if Skipped(schema[i]) then schema[i].name !in hash
               else schema[i].name in hash && hash[schema[i].name] == Encode(obj[i])
    ensures var (r, failed) := ReadUpto(schema, hash, Zero(schema), n, isTime);
            !failed && forall i | 0 <= i < n :: r[i] == Restored(schema[i], obj[i])
  {
    hide Encode;
    if n > 0 {
      ReadsBackUpto(schema, hash, obj, n - 1, isTime);
      var f := schema[n - 1];
      assert f in schema && Fits(f, obj[n - 1]);
      if !Skipped(f) {
        FieldReadsBack(f, obj[n - 1], isTime);
      }
    }
  }

  /** Whatever hash was stored before, a struct written over it is restored into a zeroed one. */
  lemma StoredObjectReadsBack(schema: Schema, before: Hash, obj: Struct, isTime: TimeParser)
    requires Distinct(schema) && Typed(schema, obj) && forall f | f in schema :: Readable(f)
    requires NoDeletionTime(schema, before)
    ensures var hash := before + Encoded(schema, obj, |schema|);
            && NoDeletionTime(schema, hash)
            && ReadUpto(schema, hash, Zero(schema), |schema|, isTime) == (RestoredAll(schema, obj), false)
  {
    var hash := before + Encoded(schema, obj, |schema|);
    forall i | 0 <= i < |schema|
      ensures if Skipped(schema[i]) then schema[i].name !in hash
              else schema[i].name in hash && hash[schema[i].name] == Encode(obj[i])
    {
      EncodedLookup(schema, obj, |schema|, i);
      assert schema[i] in schema;
    }
    ReadsBackUpto(schema, hash, obj, |schema|, isTime);
    assert ReadUpto(schema, hash, Zero(schema), |schema|, isTime).0 == RestoredAll(schema, obj);
  }

  /** The struct itself comes back exactly when it has no pointer to an empty string and no deletion time. */
  lemma RestoredIsSame(schema: Schema, obj: Struct)
    requires Typed(schema, obj)
    ensures RestoredAll(schema, obj) == obj
       <==> forall i | 0 <= i < |schema| ::
              obj[i] != Ref(Str("")) && (Skipped(schema[i]) ==> obj[i] == Plain(DeletedAt("")))
  {
    if RestoredAll(schema, obj) == obj {
      forall i | 0 <= i < |schema|
        ensures obj[i] != Ref(Str("")) && (Skipped(schema[i]) ==> obj[i] == Plain(DeletedAt("")))
      {
        assert RestoredAll(schema, obj)[i] == obj[i];
      }
    }
  }

  // ----- increments -----

  lemma {:induction false} EncodedUpdate(schema: Schema, obj: Struct, i: nat, v: Value, n: nat)
    requires |obj| == |schema| && i < |schema| && n <= |schema| && Distinct(schema) && !Skipped(schema[i])
    ensures Encoded(schema, obj[i := v], n)
         == if i < n then Encoded(schema, obj, n)[schema[i].name := Encode(v)] else Encoded(schema, obj, n)
  {
    if n > 0 {
      EncodedUpdate(schema, obj, i, v, n - 1);
      if i < n - 1 {
        assert schema[i].name != schema[n - 1].name;
      }
    }
  }

  /** The struct with an integer field increased. */
  function Increased(obj: Struct, i: nat, delta: int): Struct
    requires i < |obj| && !obj[i].Nil? && obj[i].scalar.Int?
  {
    obj[i := obj[i].(scalar := Int(obj[i].scalar.number + delta))]
  }

  ghost predicate CanIncrease(schema: Schema, obj: Struct, i: nat, delta: int) {
    && Distinct(schema) && Typed(schema, obj) && i < |schema|
    && schema[i].kind == IntKind && Fits(schema[i], obj[i]) && !obj[i].Nil? && IsInt64(obj[i].scalar.number + delta)
  }

  lemma IncreasedIsTyped(schema: Schema, obj: Struct, i: nat, delta: int)
    requires CanIncrease(schema, obj, i, delta)
    ensures Typed(schema, Increased(obj, i, delta))
  {
    forall j | 0 <= j < |schema| ensures Fits(schema[j], Increased(obj, i, delta)[j]) {
      assert Fits(schema[j], obj[j]);
    }
  }

  lemma OverlayUpdate(before: Hash, over: Hash, name: string, text: string)
    ensures (before + over)[name := text] == before + over[name := text]
  {
  }

  lemma IncrementsNumber(hash: Hash, field: string, n: int, delta: int)
    requires field in hash && hash[field] == Format(n) && IsInt64(n) && IsInt64(n + delta)
    ensures Incremented(hash, field, delta) == Number(n + delta)
  {
    IntReadsBack(n);
    hide Format, ParseInt;
  }

  /** The stored text of the field is increased to the text of the increased field. */
  lemma StoredNumberIncreases(schema: Schema, before: Hash, obj: Struct, i: nat, delta: int)
    requires CanIncrease(schema, obj, i, delta)
    ensures var hash := before + Encoded(schema, obj, |schema|);
            && Incremented(hash, schema[i].name, delta) == Number(obj[i].scalar.number + delta)
            && hash[schema[i].name := Format(obj[i].scalar.number + delta)]
            == before + Encoded(schema, Increased(obj, i, delta), |schema|)
  {
    var n, more := obj[i].scalar.number, Increased(obj, i, delta)[i];
    EncodedLookup(schema, obj, |schema|, i);
    EncodedUpdate(schema, obj, i, more, |schema|);
    assert Encode(obj[i]) == Format(n) && Encode(more) == Format(n + delta);
    hide Encoded, Encode, Distinct, Typed, Format, Incremented;
    IncrementsNumber(before + Encoded(schema, obj, |schema|), schema[i].name, n, delta);
    OverlayUpdate(before, Encoded(schema, obj, |schema|), schema[i].name, Format(n + delta));
  }

  /** With a live expiry, incrementing a stored integer field is storing the struct with that field increased. */
  lemma IncrementIsUpdate(entries: map<string, Entry>, key: string, schema: Schema, before: Hash, obj: Struct, i: nat,
                          delta: int)
    requires CanIncrease(schema, obj, i, delta)
    requires key in entries && entries[key].ttl > 0 && entries[key].hash == before + Encoded(schema, obj, |schema|)
    ensures IncrBy(entries, key, schema[i].name, delta)
         == entries[key := entries[key].(hash := before + Encoded(schema, Increased(obj, i, delta), |schema|))]
  {
    StoredNumberIncreases(schema, before, obj, i, delta);
    hide Encoded, Incremented, Format;
  }

  /** Reading after an increment gives the struct with the field increased by the same amount. */
  lemma IncrementReadsBack(entries: map<string, Entry>, key: string, schema: Schema, before: Hash, obj: Struct, i: nat,
                           delta: int, isTime: TimeParser)
    requires CanIncrease(schema, obj, i, delta) && forall f | f in schema :: Readable(f)
    requires NoDeletionTime(schema, before)
    requires key in entries && entries[key].ttl > 0 && entries[key].hash == before + Encoded(schema, obj, |schema|)
    ensures ReadUpto(schema, HashOf(IncrBy(entries, key, schema[i].name, delta), key), Zero(schema), |schema|, isTime)
         == (RestoredAll(schema, Increased(obj, i, delta)), false)
  {
    IncreasedIsTyped(schema, obj, i, delta);
    IncrementIsUpdate(entries, key, schema, before, obj, i, delta);
    StoredObjectReadsBack(schema, before, Increased(obj, i, delta), isTime);
  }

  /** Without a live expiry an increment is silently dropped. */
  lemma IncrementNeedsExpiry(entries: map<string, Entry>, key: string, field: string, delta: int)
    requires delta != 0
    ensures IncrBy(entries, key, field, delta) == entries
       <==> TtlOf(entries, key) <= 0 || Incremented(HashOf(entries, key), field, delta).NotANumber?
  {
    if TtlOf(entries, key) > 0 && Incremented(HashOf(entries, key), field, delta).Number? {
      var hash := entries[key].hash;
      var n := Incremented(hash, field, delta).value;
      if field in hash {
        FormatIsInjective(n, n - delta);
      }
      assert IncrBy(entries, key, field, delta)[key].hash[field] == Format(n);
    }
  }
}
