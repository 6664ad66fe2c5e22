/** A stored struct over runs of writes, increments and passing time. */
module RedisRuns {
  import opened Decimal
  import opened RedisHash

  // ----- one write -----

  /** A write sets exactly the struct's fields and leaves the others, starts the time to live anew if one is given, and
      touches no other key. */
  lemma SetObjWrites(entries: map<string, Entry>, key: string, data: Hash, expiration: int)
    requires data != map[]
    ensures var after := SetObj(entries, key, data, expiration);
            && after.Keys == entries.Keys + {key}
            && (forall k | k in entries && k != key :: after[k] == entries[k])
            && (forall f | f in data :: f in after[key].hash && after[key].hash[f] == data[f])
            && (forall f | f !in data ::
                  && (f in after[key].hash <==> key in entries && f in entries[key].hash)
                  && (f in after[key].hash ==> after[key].hash[f] == entries[key].hash[f]))
            && after[key].ttl == if expiration > 0 then expiration else if key in entries then entries[key].ttl else -1
  {
  }

  /** Whatever was stored under the key, and however long it had to live: a struct that is written is read back. */
  lemma WriteReadsBack(entries: map<string, Entry>, key: string, schema: Schema, obj: Struct, expiration: int,
                       isTime: TimeParser)
    requires Distinct(schema) && Typed(schema, obj) && forall f | f in schema :: Readable(f)
    requires NoDeletionTime(schema, HashOf(entries, key)) && Encoded(schema, obj, |schema|) != map[]
    ensures var after := SetObj(entries, key, Encoded(schema, obj, |schema|), expiration);
            && HashOf(after, key) != map[]
            && ReadUpto(schema, HashOf(after, key), Zero(schema), |schema|, isTime) == (RestoredAll(schema, obj), false)
  {
    var data := Encoded(schema, obj, |schema|);
    var after := SetObj(entries, key, data, expiration);
    SetObjWrites(entries, key, data, expiration);
    assert HashOf(after, key) == HashOf(entries, key) + data;
    StoredObjectReadsBack(schema, HashOf(entries, key), obj, isTime);
    var f :| f in data;
    assert f in HashOf(after, key);
  }

  // ----- runs -----

  datatype Op = Store(obj: Struct, expiration: int) | Add(field: nat, delta: int) | Wait(seconds: nat)

  /** Time passes: what has no longer to live is gone. */
  function Elapse(entries: map<string, Entry>, seconds: nat): map<string, Entry> {
    map key | key in entries && !(0 < entries[key].ttl <= seconds) ::
      if entries[key].ttl > 0 then entries[key].(ttl := entries[key].ttl - seconds) else entries[key]
  }

  function Next(entries: map<string, Entry>, key: string, schema: Schema, op: Op): map<string, Entry> {
    match op
    case Store(obj, expiration) =>
      if |obj| == |schema| then SetObj(entries, key, Encoded(schema, obj, |schema|), expiration) else entries
    case Add(i, delta) => if i < |schema| then IncrBy(entries, key, schema[i].name, delta) else entries
    case Wait(seconds) => Elapse(entries, seconds)
  }

  function Run(entries: map<string, Entry>, key: string, schema: Schema, ops: seq<Op>): map<string, Entry>
    decreases |ops|
  {
    if ops == [] then entries else Run(Next(entries, key, schema, ops[0]), key, schema, ops[1..])
  }

  datatype Option<T> = None | Some(value: T)

  /** The object that the key stands for, once one was written, and the seconds it has to live: -1 for ever, -2 when
      there is none. */
  datatype Latest = Latest(obj: Option<Struct>, ttl: int)

  /** The object with the field increased, if that is a number that stays within 64 bits. */
  function Added(obj: Struct, i: nat, delta: int): Struct {
    if i < |obj| && !obj[i].Nil? && obj[i].scalar.Int? && IsInt64(obj[i].scalar.number + delta)
    then obj[i := obj[i].(scalar := Int(obj[i].scalar.number + delta))] else obj
  }

  /** What an operation means for the object: a write replaces it, an increment counts only while the key has a time to
      live, and waiting that long loses it. */
  function After(l: Latest, op: Op): Latest {
    match op
    case Store(obj, expiration) =>
      Latest(Some(obj), if expiration > 0 then expiration else if l.ttl == -2 then -1 else l.ttl)
    case Add(i, delta) => if l.ttl > 0 && l.obj.Some? then l.(obj := Some(Added(l.obj.value, i, delta))) else l
    case Wait(seconds) =>
      if 0 < l.ttl <= seconds then Latest(None, -2) else if l.ttl > 0 then l.(ttl := l.ttl - seconds) else l
  }

  function AfterAll(l: Latest, ops: seq<Op>): Latest
    decreases |ops|
  {
    if ops == [] then l else AfterAll(After(l, ops[0]), ops[1..])
  }

  /** Typed objects are written, and increments are of integer fields. */
  ghost predicate Proper(schema: Schema, op: Op) {
    match op
    case Store(obj, _) => Typed(schema, obj)
    case Add(i, _) => i < |schema| && schema[i].kind == IntKind
    case Wait(_) => true
  }

  ghost predicate GoodSchema(schema: Schema) {
    && Distinct(schema) && (forall f | f in schema :: Readable(f))
    && exists i :: 0 <= i < |schema| && !Skipped(schema[i])
  }

  ghost predicate Holds(schema: Schema, hash: Hash, obj: Struct) {
    && Typed(schema, obj)
    && exists before :: NoDeletionTime(schema, before) && hash == before + Encoded(schema, obj, |schema|)
  }

  /** The key stands for the object, with its time to live. */
  ghost predicate Stands(schema: Schema, entries: map<string, Entry>, key: string, l: Latest) {
    && l.ttl == TtlOf(entries, key) && (key in entries ==> l.ttl > 0 || l.ttl == -1)
    && NoDeletionTime(schema, HashOf(entries, key))
    && (l.obj.Some? ==> key in entries && Holds(schema, entries[key].hash, l.obj.value))
  }

  lemma EncodedIsWritten(schema: Schema, obj: Struct)
    requires GoodSchema(schema) && |obj| == |schema|
    ensures Encoded(schema, obj, |schema|) != map[]
  {
    var i :| 0 <= i < |schema| && !Skipped(schema[i]);
    EncodedLookup(schema, obj, |schema|, i);
  }

  lemma EncodedHasNoDeletionTime(schema: Schema, before: Hash, obj: Struct)
    requires Distinct(schema) && |obj| == |schema| && NoDeletionTime(schema, before)
    ensures NoDeletionTime(schema, before + Encoded(schema, obj, |schema|))
  {
    forall f | f in schema && Skipped(f) ensures f.name !in before + Encoded(schema, obj, |schema|) {
      var i :| 0 <= i < |schema| && schema[i] == f;
      EncodedLookup(schema, obj, |schema|, i);
    }
  }

  lemma StoreStands(schema: Schema, entries: map<string, Entry>, key: string, l: Latest, obj: Struct, expiration: int)
    requires GoodSchema(schema) && Stands(schema, entries, key, l) && Typed(schema, obj)
    ensures Stands(schema, Next(entries, key, schema, Store(obj, expiration)), key, After(l, Store(obj, expiration)))
  {
    var data := Encoded(schema, obj, |schema|);
    EncodedIsWritten(schema, obj);
    SetObjWrites(entries, key, data, expiration);
    EncodedHasNoDeletionTime(schema, HashOf(entries, key), obj);
    hide Encoded, Typed, GoodSchema, NoDeletionTime;
    assert Holds(schema, HashOf(entries, key) + data, obj);
  }

  /** An increment of a field that holds no number changes nothing: nil is stored as an empty text. */
  lemma NilIsNotIncreased(hash: Hash, field: string, delta: int)
    requires field in hash && hash[field] == ""
    ensures Incremented(hash, field, delta).NotANumber?
  {
  }

  lemma OverflowIsRefused(hash: Hash, field: string, n: int, delta: int)
    requires field in hash && hash[field] == Format(n) && IsInt64(n) && !IsInt64(n + delta)
    ensures Incremented(hash, field, delta).NotANumber?
  {
    IntReadsBack(n);
    hide Format, ParseInt;
  }

  /** The hash after an increment of an integer field of the stored object. */
  lemma AddHolds(schema: Schema, hash: Hash, obj: Struct, i: nat, delta: int)
    requires GoodSchema(schema) && Holds(schema, hash, obj) && i < |schema| && schema[i].kind == IntKind
    ensures var name, n := schema[i].name, Incremented(hash, schema[i].name, delta);
            Holds(schema, if n.Number? then hash[name := Format(n.value)] else hash, Added(obj, i, delta))
  {
    var before :| NoDeletionTime(schema, before) && hash == before + Encoded(schema, obj, |schema|);
    EncodedLookup(schema, obj, |schema|, i);
    assert Fits(schema[i], obj[i]);
    if obj[i].Nil? {
      NilIsNotIncreased(hash, schema[i].name, delta);
    } else if !IsInt64(obj[i].scalar.number + delta) {
      OverflowIsRefused(hash, schema[i].name, obj[i].scalar.number, delta);
    } else {
      StoredNumberIncreases(schema, before, obj, i, delta);
      IncreasedIsTyped(schema, obj, i, delta);
      assert Added(obj, i, delta) == Increased(obj, i, delta);
      hide Encoded, Incremented, Typed, GoodSchema, Fits, Format;
    }
  }

  lemma NumberFieldIsNoTime(schema: Schema, hash: Hash, i: nat, text: string)
    requires Distinct(schema) && NoDeletionTime(schema, hash) && i < |schema| && schema[i].kind == IntKind
    ensures NoDeletionTime(schema, hash[schema[i].name := text])
  {
    forall f | f in schema && Skipped(f) ensures f.name !in hash[schema[i].name := text] {
      var j :| 0 <= j < |schema| && schema[j] == f;
      assert j != i;
    }
  }

  lemma AddStands(schema: Schema, entries: map<string, Entry>, key: string, l: Latest, i: nat, delta: int)
    requires GoodSchema(schema) && Stands(schema, entries, key, l) && i < |schema| && schema[i].kind == IntKind
    ensures Stands(schema, Next(entries, key, schema, Add(i, delta)), key, After(l, Add(i, delta)))
  {
    if l.ttl > 0 {
      var hash := HashOf(entries, key);
      var n := Incremented(hash, schema[i].name, delta);
      if n.Number? {
        NumberFieldIsNoTime(schema, hash, i, Format(n.value));
      }
      if l.obj.Some? {
        AddHolds(schema, hash, l.obj.value, i, delta);
      }
      hide Holds, NoDeletionTime, GoodSchema, Incremented, Format, Added;
    }
  }

  lemma WaitStands(schema: Schema, entries: map<string, Entry>, key: string, l: Latest, seconds: nat)
    requires Stands(schema, entries, key, l)
    ensures Stands(schema, Next(entries, key, schema, Wait(seconds)), key, After(l, Wait(seconds)))
  {
    hide Holds;
  }

  lemma NextStands(schema: Schema, entries: map<string, Entry>, key: string, l: Latest, op: Op)
    requires GoodSchema(schema) && Stands(schema, entries, key, l) && Proper(schema, op)
    ensures Stands(schema, Next(entries, key, schema, op), key, After(l, op))
  {
    hide Next, After, Stands, GoodSchema;
    match op
    case Store(obj, expiration) => StoreStands(schema, entries, key, l, obj, expiration);
    case Add(i, delta) => AddStands(schema, entries, key, l, i, delta);
    case Wait(seconds) => WaitStands(schema, entries, key, l, seconds);
  }

  lemma {:induction false} RunStands(schema: Schema, entries: map<string, Entry>, key: string, l: Latest, ops: seq<Op>)
    requires GoodSchema(schema) && Stands(schema, entries, key, l)
    requires forall i | 0 <= i < |ops| :: Proper(schema, ops[i])
    ensures Stands(schema, Run(entries, key, schema, ops), key, AfterAll(l, ops))
    decreases |ops|
  {
    hide GoodSchema, Stands, Proper, Next, After;
    if ops != [] {
      NextStands(schema, entries, key, l, ops[0]);
      RunStands(schema, Next(entries, key, schema, ops[0]), key, After(l, ops[0]), ops[1..]);
    }
  }

  lemma HeldReadsBack(schema: Schema, hash: Hash, obj: Struct, isTime: TimeParser)
    requires GoodSchema(schema) && Holds(schema, hash, obj)
    ensures hash != map[]
    ensures ReadUpto(schema, hash, Zero(schema), |schema|, isTime) == (RestoredAll(schema, obj), false)
  {
    var before :| NoDeletionTime(schema, before) && hash == before + Encoded(schema, obj, |schema|);
    StoredObjectReadsBack(schema, before, obj, isTime);
    EncodedIsWritten(schema, obj);
    var f :| f in Encoded(schema, obj, |schema|);
    assert f in hash;
  }

  /** After any run of writes, increments and waiting: if an object was written and has not expired since, a read gives
      the last one written with all later increments that found a time to live; if it has expired there is nothing. */
  lemma RunReadsLatest(schema: Schema, entries: map<string, Entry>, key: string, ops: seq<Op>, isTime: TimeParser)
    requires GoodSchema(schema) && forall i | 0 <= i < |ops| :: Proper(schema, ops[i])
    requires NoDeletionTime(schema, HashOf(entries, key))
    requires key in entries ==> entries[key].ttl > 0 || entries[key].ttl == -1
    ensures var hash := HashOf(Run(entries, key, schema, ops), key);
            var latest := AfterAll(Latest(None, TtlOf(entries, key)), ops);
            && TtlOf(Run(entries, key, schema, ops), key) == latest.ttl
            && (latest.ttl == -2 ==> hash == map[])
            && (latest.obj.Some? ==>
                  && |latest.obj.value| == |schema| && hash != map[]
                  && ReadUpto(schema, hash, Zero(schema), |schema|, isTime)
                  == (RestoredAll(schema, latest.obj.value), false))
  {
    var l := Latest(None, TtlOf(entries, key));
    assert Stands(schema, entries, key, l);
    hide Run, AfterAll, GoodSchema, Proper;
    RunStands(schema, entries, key, l, ops);
    var latest := AfterAll(l, ops);
    if latest.obj.Some? {
      HeldReadsBack(schema, HashOf(Run(entries, key, schema, ops), key), latest.obj.value, isTime);
    }
  }

  // ----- what cannot be read -----

  /** The text is not one for this kind of field. */
  ghost predicate BadText(f: Field, text: string, isTime: TimeParser) {
    !(f.pointer && text == "")
    && match f.kind
       case StringKind => false
       case IntKind => ParseInt(text).NotANumber?
       case BoolKind => text !in {"1", "t", "T", "TRUE", "true", "True", "0", "f", "F", "FALSE", "false", "False"}
       case DeletedAtKind => text != "" && !isTime(text)
       case OtherKind => true
  }

  /** The value that a text stands for; an empty one leaves a pointer or a time as it was. */
  ghost predicate StandsForText(f: Field, text: string, current: Value, value: Value) {
    if text == "" && (f.pointer || f.kind == DeletedAtKind) then value == current
    else
      && (if f.pointer then value.Ref? else value.Plain?)
      && match f.kind
         case StringKind => value.scalar == Str(text)
         case IntKind => value.scalar.Int? && ParseInt(text) == Number(value.scalar.number)
         case BoolKind => value.scalar == Bool(text in {"1", "t", "T", "TRUE", "true", "True"})
         case DeletedAtKind => value.scalar == DeletedAt(text)
         case OtherKind => false
  }

  lemma FieldIsRead(f: Field, text: string, current: Value, isTime: TimeParser)
    ensures ReadField(f, text, current, isTime).Failed? <==> BadText(f, text, isTime)
    ensures ReadField(f, text, current, isTime).Ok? ==>
              StandsForText(f, text, current, ReadField(f, text, current, isTime).value)
  {
    hide ParseInt;
  }

  ghost predicate BadAt(schema: Schema, hash: Hash, i: nat, isTime: TimeParser)
    requires i < |schema|
  {
    schema[i].name in hash && BadText(schema[i], hash[schema[i].name], isTime)
  }

  /** A read stops at the first field whose text is not one for it, if there is one. The fields before have their
      values, that one and those behind it are left as they were, and so are fields that are not stored. */
  lemma {:induction false} ReadStopsAtFirstBad(schema: Schema, hash: Hash, target: Struct, n: nat, isTime: TimeParser)
    requires |target| == |schema| && n <= |schema|
    ensures var (obj, failed) := ReadUpto(schema, hash, target, n, isTime);
            && (failed <==> exists i | 0 <= i < n :: BadAt(schema, hash, i, isTime))
            && forall i | 0 <= i < n ::
                 if schema[i].name !in hash || exists j | 0 <= j <= i :: BadAt(schema, hash, j, isTime)
                 then obj[i] == target[i] else StandsForText(schema[i], hash[schema[i].name], target[i], obj[i])
  {
    hide BadText, StandsForText, ReadField;
    if n > 0 {
      ReadStopsAtFirstBad(schema, hash, target, n - 1, isTime);
      var f := schema[n - 1];
      assert BadAt(schema, hash, n - 1, isTime) <==> f.name in hash && BadText(f, hash[f.name], isTime);
      hide BadAt;
      if f.name in hash {
        FieldIsRead(f, hash[f.name], target[n - 1], isTime);
      }
    }
  }

  /** A struct that is read into is zeroed: empty texts, zeros, false, and nil for pointers. */
  lemma ZeroIs(schema: Schema, i: nat)
    requires i < |schema|
    ensures |Zero(schema)| == |schema|
    ensures Zero(schema)[i] == if schema[i].pointer then Nil
                               else match schema[i].kind
                                    case StringKind => Plain(Str(""))
                                    case IntKind => Plain(Int(0))
                                    case BoolKind => Plain(Bool(false))
                                    case DeletedAtKind => Plain(DeletedAt(""))
                                    case OtherKind => Plain(Other(""))
  {
  }

  /** A field that is not stored counts as zero, and a text that is no canonical 64-bit integer is left alone, as is one
      that would overflow. */
  lemma IncrementOf(hash: Hash, field: string, delta: int)
    ensures field !in hash && -9223372036854775808 <= delta <= 9223372036854775807 ==>
              Incremented(hash, field, delta) == Number(delta)
    ensures forall n | field in hash && hash[field] == Format(n) && -9223372036854775808 <= n <= 9223372036854775807 ::
              Incremented(hash, field, delta)
              == if -9223372036854775808 <= n + delta <= 9223372036854775807 then Number(n + delta) else NotANumber
    ensures field in hash
            && (forall n | -9223372036854775808 <= n <= 9223372036854775807 :: hash[field] != Format(n)) ==>
              Incremented(hash, field, delta).NotANumber?
  {
    forall n | field in hash && hash[field] == Format(n) && -9223372036854775808 <= n <= 9223372036854775807
      ensures Incremented(hash, field, delta)
           == if -9223372036854775808 <= n + delta <= 9223372036854775807 then Number(n + delta) else NotANumber {
      IntReadsBack(n);
    }
    hide Format, ParseSigned;
  }
}
