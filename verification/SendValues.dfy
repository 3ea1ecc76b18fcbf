/**
 Values that cross threads (`src/value.rs`): what can be sent, what arrives, and
 what the equality of values on the way says.

 The entries of a map, the elements of a set and the fields of a struct are
 lists here: their order stands for the order of iteration.
 */
module SendValues {

  /** What stays on its thread. `id` stands for the identity that equality compares. */
  datatype Kind = Actor | Function | Closure | Native | Shared | Module | Resource | LazyImport | Task

  datatype Entry = Entry(key: Value, value: Value)
  datatype Field = Field(name: string, value: Value)

  datatype Value =
    | Int(n: int)
    | Decimal(d: real)
    | Str(s: string)
    | Bytes(bytes: seq<bv8>)
    | Bool(b: bool)
    | Nil
    | Vec(items: seq<Value>)
    | Map(entries: seq<Entry>)
    | Set(items: seq<Value>)
    | Variant(name: string, items: seq<Value>)
    | Struct(name: string, fields: seq<Field>)
    | Local(kind: Kind, id: nat)

  datatype SendEntry = SendEntry(key: SendValue, value: SendValue)
  datatype SendField = SendField(name: string, value: SendValue)

  datatype SendValue =
    | SendInt(n: int)
    | SendDecimal(d: real)
    | SendStr(s: string)
    | SendBytes(bytes: seq<bv8>)
    | SendBool(b: bool)
    | SendNil
    | SendVec(items: seq<SendValue>)
    | SendMap(entries: seq<SendEntry>)
    | SendSet(items: seq<SendValue>)
    | SendVariant(name: string, items: seq<SendValue>)
    | SendStruct(name: string, fields: seq<SendField>)
    | SendPid(pid: nat)

  /** A converted value, or the kind of thing that cannot be sent. */
  datatype Sent<T> = Ok(value: T) | Err(kind: Kind)

  // ----- equality, arm by arm -----

  predicate Equal(a: Value, b: Value)
    decreases a, 0
  {
    match (a, b)
    case (Int(m), Int(n)) => m == n
    case (Decimal(m), Decimal(n)) => m == n
    case (Str(m), Str(n)) => m == n
    case (Bytes(m), Bytes(n)) => m == n
    case (Bool(m), Bool(n)) => m == n
    case (Nil, Nil) => true
    case (Vec(m), Vec(n)) => EqualItems(m, n)
    case (Map(m), Map(n)) => EqualMaps(m, n)
    case (Set(m), Set(n)) => EqualSets(m, n)
    case (Variant(an, m), Variant(bn, n)) => an == bn && EqualItems(m, n)
    case (Struct(an, m), Struct(bn, n)) => an == bn && EqualFields(m, n)
    case (Local(ak, ai), Local(bk, bi)) => ak == bk && ai == bi
    case _ => false
  }

  predicate EqualItems(m: seq<Value>, n: seq<Value>)
    decreases m, 1
  {
    |m| == |n| && forall i :: 0 <= i < |m| ==> Equal(m[i], n[i])
  }

  predicate EqualSets(m: seq<Value>, n: seq<Value>)
    decreases m, 1
  {
    |m| == |n| && forall i :: 0 <= i < |m| ==> EqualSome(m[i], n)
  }

  predicate EqualMaps(m: seq<Entry>, n: seq<Entry>)
    decreases m, 1
  {
    |m| == |n| && forall i :: 0 <= i < |m| ==> EqualSomeEntry(m[i], n)
  }

  predicate EqualFields(m: seq<Field>, n: seq<Field>)
    decreases m, 1
  {
    |m| == |n| && forall i :: 0 <= i < |m| ==> EqualSomeField(m[i], n)
  }

  predicate EqualSome(x: Value, n: seq<Value>)
    decreases x, 1
  {
    exists j :: 0 <= j < |n| && Equal(x, n[j])
  }

  predicate EqualSomeEntry(e: Entry, n: seq<Entry>)
    decreases e, 2
  {
    exists j :: 0 <= j < |n| && EqualEntry(e, n[j])
  }

  predicate EqualSomeField(f: Field, n: seq<Field>)
    decreases f, 2
  {
    exists j :: 0 <= j < |n| && EqualField(f, n[j])
  }

  predicate EqualEntry(d: Entry, e: Entry)
    decreases d, 1
  {
    Equal(d.key, e.key) && Equal(d.value, e.value)
  }

  predicate EqualField(f: Field, g: Field)
    decreases f, 1
  {
    f.name == g.name && Equal(f.value, g.value)
  }

  /** The same arms, but none for bytes. */
  predicate SendEqual(a: SendValue, b: SendValue)
    decreases a, 0
  {
    match (a, b)
    case (SendInt(m), SendInt(n)) => m == n
    case (SendDecimal(m), SendDecimal(n)) => m == n
    case (SendStr(m), SendStr(n)) => m == n
    case (SendBool(m), SendBool(n)) => m == n
    case (SendNil, SendNil) => true
    case (SendVec(m), SendVec(n)) => SendEqualItems(m, n)
    case (SendMap(m), SendMap(n)) => SendEqualMaps(m, n)
    case (SendSet(m), SendSet(n)) => SendEqualSets(m, n)
    case (SendVariant(an, m), SendVariant(bn, n)) => an == bn && SendEqualItems(m, n)
    case (SendStruct(an, m), SendStruct(bn, n)) => an == bn && SendEqualFields(m, n)
    case (SendPid(m), SendPid(n)) => m == n
    case _ => false
  }

  predicate SendEqualItems(m: seq<SendValue>, n: seq<SendValue>)
    decreases m, 1
  {
    |m| == |n| && forall i :: 0 <= i < |m| ==> SendEqual(m[i], n[i])
  }

  predicate SendEqualSets(m: seq<SendValue>, n: seq<SendValue>)
    decreases m, 1
  {
    |m| == |n| && forall i :: 0 <= i < |m| ==> SendEqualSome(m[i], n)
  }

  predicate SendEqualMaps(m: seq<SendEntry>, n: seq<SendEntry>)
    decreases m, 1
  {
    |m| == |n| && forall i :: 0 <= i < |m| ==> SendEqualSomeEntry(m[i], n)
  }

  predicate SendEqualFields(m: seq<SendField>, n: seq<SendField>)
    decreases m, 1
  {
    |m| == |n| && forall i :: 0 <= i < |m| ==> SendEqualSomeField(m[i], n)
  }

  predicate SendEqualSome(x: SendValue, n: seq<SendValue>)
    decreases x, 1
  {
    exists j :: 0 <= j < |n| && SendEqual(x, n[j])
  }

  predicate SendEqualSomeEntry(e: SendEntry, n: seq<SendEntry>)
    decreases e, 2
  {
    exists j :: 0 <= j < |n| && SendEqualEntry(e, n[j])
  }

  predicate SendEqualSomeField(f: SendField, n: seq<SendField>)
    decreases f, 2
  {
    exists j :: 0 <= j < |n| && SendEqualField(f, n[j])
  }

  predicate SendEqualEntry(d: SendEntry, e: SendEntry)
    decreases d, 1
  {
    SendEqual(d.key, e.key) && SendEqual(d.value, e.value)
  }

  predicate SendEqualField(f: SendField, g: SendField)
    decreases f, 1
  {
    f.name == g.name && SendEqual(f.value, g.value)
  }

  // ----- insertion into hash collections -----

  /** `x` in a set of values on the way: an equal element is replaced. */
  function Add(xs: seq<SendValue>, x: SendValue): seq<SendValue> {
    if xs == [] then [x]
    else if SendEqual(xs[0], x) then [x] + xs[1..]
    else [xs[0]] + Add(xs[1..], x)
  }

  function Put(es: seq<SendEntry>, e: SendEntry): seq<SendEntry> {
    if es == [] then [e]
    else if SendEqual(es[0].key, e.key) then [e] + es[1..]
    else [es[0]] + Put(es[1..], e)
  }

  function PutField(fs: seq<SendField>, f: SendField): seq<SendField> {
    if fs == [] then [f]
    else if fs[0].name == f.name then [f] + fs[1..]
    else [fs[0]] + PutField(fs[1..], f)
  }

  /** The same on arrival, with the equality of values. */
  function AddBack(xs: seq<Value>, x: Value): seq<Value> {
    if xs == [] then [x]
    else if Equal(xs[0], x) then [x] + xs[1..]
    else [xs[0]] + AddBack(xs[1..], x)
  }

  function PutBack(es: seq<Entry>, e: Entry): seq<Entry> {
    if es == [] then [e]
    else if Equal(es[0].key, e.key) then [e] + es[1..]
    else [es[0]] + PutBack(es[1..], e)
  }

  function PutFieldBack(fs: seq<Field>, f: Field): seq<Field> {
    if fs == [] then [f]
    else if fs[0].name == f.name then [f] + fs[1..]
    else [fs[0]] + PutFieldBack(fs[1..], f)
  }

  // ----- conversion -----

  function FromValue(v: Value): Sent<SendValue>
    decreases v
  {
    match v
    case Int(n) => Ok(SendInt(n))
    case Decimal(d) => Ok(SendDecimal(d))
    case Str(s) => Ok(SendStr(s))
    case Bytes(b) => Ok(SendBytes(b))
    case Bool(b) => Ok(SendBool(b))
    case Nil => Ok(SendNil)
    case Vec(items) =>
      (match FromItems(items) case Err(k) => Err(k) case Ok(xs) => Ok(SendVec(xs)))
    case Map(entries) =>
      (match FromEntries(entries) case Err(k) => Err(k) case Ok(es) => Ok(SendMap(es)))
    case Set(items) =>
      (match FromSet(items) case Err(k) => Err(k) case Ok(xs) => Ok(SendSet(xs)))
    case Variant(name, items) =>
      (match FromItems(items) case Err(k) => Err(k) case Ok(xs) => Ok(SendVariant(name, xs)))
    case Struct(name, fields) =>
      (match FromFields(fields) case Err(k) => Err(k) case Ok(fs) => Ok(SendStruct(name, fs)))
    case Local(kind, _) => Err(kind)
  }

  /** The items one after the other, to the first that cannot be sent. */
  function FromItems(vs: seq<Value>): Sent<seq<SendValue>>
    decreases vs
  {
    if vs == [] then Ok([])
    else
      var n := |vs| - 1;
      match FromItems(vs[..n])
      case Err(k) => Err(k)
      case Ok(xs) => match FromValue(vs[n]) case Err(k) => Err(k) case Ok(x) => Ok(xs + [x])
  }

  function FromSet(vs: seq<Value>): Sent<seq<SendValue>>
    decreases vs
  {
    if vs == [] then Ok([])
    else
      var n := |vs| - 1;
      match FromSet(vs[..n])
      case Err(k) => Err(k)
      case Ok(xs) => match FromValue(vs[n]) case Err(k) => Err(k) case Ok(x) => Ok(Add(xs, x))
  }

  function FromEntries(es: seq<Entry>): Sent<seq<SendEntry>>
    decreases es
  {
    if es == [] then Ok([])
    else
      var n := |es| - 1;
      match FromEntries(es[..n])
      case Err(k) => Err(k)
      case Ok(xs) => match FromEntry(es[n]) case Err(k) => Err(k) case Ok(e) => Ok(Put(xs, e))
  }

  function FromEntry(e: Entry): Sent<SendEntry>
    decreases e
  {
    match FromValue(e.key)
    case Err(k) => Err(k)
    case Ok(key) => match FromValue(e.value) case Err(k) => Err(k) case Ok(value) => Ok(SendEntry(key, value))
  }

  function FromFields(fs: seq<Field>): Sent<seq<SendField>>
    decreases fs
  {
    if fs == [] then Ok([])
    else
      var n := |fs| - 1;
      match FromFields(fs[..n])
      case Err(k) => Err(k)
      case Ok(xs) =>
        match FromValue(fs[n].value)
        case Err(k) => Err(k)
        case Ok(value) => Ok(PutField(xs, SendField(fs[n].name, value)))
  }

  function IntoValue(s: SendValue): Value
    decreases s
  {
    match s
    case SendInt(n) => Int(n)
    case SendDecimal(d) => Decimal(d)
    case SendStr(t) => Str(t)
    case SendBytes(b) => Bytes(b)
    case SendBool(b) => Bool(b)
    case SendNil => Nil
    case SendVec(items) => Vec(IntoItems(items))
    case SendMap(entries) => Map(IntoEntries(entries))
    case SendSet(items) => Set(IntoSet(items))
    case SendVariant(name, items) => Variant(name, IntoItems(items))
    case SendStruct(name, fields) => Struct(name, IntoFields(fields))
    case SendPid(_) => Nil
  }

  function IntoItems(xs: seq<SendValue>): seq<Value>
    decreases xs
  {
    seq(|xs|, i requires 0 <= i < |xs| => IntoValue(xs[i]))
  }

  function IntoSet(xs: seq<SendValue>): seq<Value>
    decreases xs
  {
    if xs == [] then [] else AddBack(IntoSet(xs[..|xs| - 1]), IntoValue(xs[|xs| - 1]))
  }

  function IntoEntries(es: seq<SendEntry>): seq<Entry>
    decreases es
  {
    if es == [] then []
    else PutBack(IntoEntries(es[..|es| - 1]), IntoEntry(es[|es| - 1]))
  }

  function IntoEntry(e: SendEntry): Entry
    decreases e
  {
    Entry(IntoValue(e.key), IntoValue(e.value))
  }

  function IntoFields(fs: seq<SendField>): seq<Field>
    decreases fs
  {
    if fs == [] then []
    else
      var f := fs[|fs| - 1];
      PutFieldBack(IntoFields(fs[..|fs| - 1]), Field(f.name, IntoValue(f.value)))
  }

  // ----- what the conversion should be -----

  /** The values directly inside `v`. */
  function Inside(v: Value): seq<Value> {
    match v
    case Vec(items) => items
    case Set(items) => items
    case Variant(_, items) => items
    case Map(entries) => Keys(entries) + Contents(entries)
    case Struct(_, fields) => seq(|fields|, i requires 0 <= i < |fields| => fields[i].value)
    case _ => []
  }

  function Keys(es: seq<Entry>): seq<Value> {
    seq(|es|, i requires 0 <= i < |es| => es[i].key)
  }

  function Contents(es: seq<Entry>): seq<Value> {
    seq(|es|, i requires 0 <= i < |es| => es[i].value)
  }

  /** `part` is `v` or occurs in it, at the end of the path. */
  ghost predicate PartAt(part: Value, v: Value, path: seq<nat>)
    decreases |path|
  {
    if path == [] then part == v
    else path[0] < |Inside(v)| && PartAt(part, Inside(v)[path[0]], path[1..])
  }

  ghost predicate Part(part: Value, v: Value) {
    exists path :: PartAt(part, v, path)
  }

  /** Nothing inside `v`, at any depth, is bound to its thread. */
  predicate Sendable(v: Value)
    decreases v, 0
  {
    match v
    case Local(_, _) => false
    case Vec(items) => SendableItems(items)
    case Set(items) => SendableItems(items)
    case Variant(_, items) => SendableItems(items)
    case Map(entries) => SendableEntries(entries)
    case Struct(_, fields) => SendableFields(fields)
    case _ => true
  }

  predicate SendableItems(vs: seq<Value>)
    decreases vs, 1
  {
    forall i :: 0 <= i < |vs| ==> Sendable(vs[i])
  }

  predicate SendableEntries(es: seq<Entry>)
    decreases es, 1
  {
    forall i :: 0 <= i < |es| ==> SendableEntry(es[i])
  }

  predicate SendableEntry(e: Entry)
    decreases e, 1
  {
    Sendable(e.key) && Sendable(e.value)
  }

  predicate SendableFields(fs: seq<Field>)
    decreases fs, 1
  {
    forall i :: 0 <= i < |fs| ==> Sendable(fs[i].value)
  }

  /** The collections in `v` hold no key twice. */
  predicate Proper(v: Value)
    decreases v, 0
  {
    match v
    case Vec(items) => ProperItems(items)
    case Variant(_, items) => ProperItems(items)
    case Set(items) => ProperItems(items) && DistinctItems(items)
    case Map(entries) => ProperEntries(entries) && DistinctKeys(entries)
    case Struct(_, fields) => ProperFields(fields) && DistinctNames(fields)
    case _ => true
  }

  predicate DistinctItems(vs: seq<Value>) {
    forall i, j :: 0 <= i < j < |vs| ==> !Equal(vs[i], vs[j])
  }

  predicate DistinctKeys(es: seq<Entry>) {
    forall i, j :: 0 <= i < j < |es| ==> !Equal(es[i].key, es[j].key)
  }

  predicate DistinctNames(fs: seq<Field>) {
    forall i, j :: 0 <= i < j < |fs| ==> fs[i].name != fs[j].name
  }

  predicate ProperItems(vs: seq<Value>)
    decreases vs, 1
  {
    forall i :: 0 <= i < |vs| ==> Proper(vs[i])
  }

  predicate ProperEntries(es: seq<Entry>)
    decreases es, 1
  {
    forall i :: 0 <= i < |es| ==> ProperEntry(es[i])
  }

  predicate ProperEntry(e: Entry)
    decreases e, 1
  {
    Proper(e.key) && Proper(e.value)
  }

  predicate ProperFields(fs: seq<Field>)
    decreases fs, 1
  {
    forall i :: 0 <= i < |fs| ==> Proper(fs[i].value)
  }

  predicate HasBytes(v: Value)
    decreases v, 0
  {
    match v
    case Bytes(_) => true
    case Vec(items) => ItemsHaveBytes(items)
    case Set(items) => ItemsHaveBytes(items)
    case Variant(_, items) => ItemsHaveBytes(items)
    case Map(entries) => EntriesHaveBytes(entries)
    case Struct(_, fields) => FieldsHaveBytes(fields)
    case _ => false
  }

  predicate ItemsHaveBytes(vs: seq<Value>)
    decreases vs, 1
  {
    exists i :: 0 <= i < |vs| && HasBytes(vs[i])
  }

  predicate EntriesHaveBytes(es: seq<Entry>)
    decreases es, 1
  {
    exists i :: 0 <= i < |es| && EntryHasBytes(es[i])
  }

  predicate FieldsHaveBytes(fs: seq<Field>)
    decreases fs, 1
  {
    exists i :: 0 <= i < |fs| && HasBytes(fs[i].value)
  }

  predicate EntryHasBytes(e: Entry)
    decreases e, 1
  {
    HasBytes(e.key) || HasBytes(e.value)
  }

  /** `v` with every value replaced by its counterpart, each where it was. */
  function Image(v: Value): SendValue
    requires Sendable(v)
    decreases v, 0
  {
    match v
    case Int(n) => SendInt(n)
    case Decimal(d) => SendDecimal(d)
    case Str(s) => SendStr(s)
    case Bytes(b) => SendBytes(b)
    case Bool(b) => SendBool(b)
    case Nil => SendNil
    case Vec(items) => SendVec(ItemImages(items))
    case Map(entries) => SendMap(EntryImages(entries))
    case Set(items) => SendSet(ItemImages(items))
    case Variant(name, items) => SendVariant(name, ItemImages(items))
    case Struct(name, fields) => SendStruct(name, FieldImages(fields))
  }

  function ItemImages(vs: seq<Value>): seq<SendValue>
    requires SendableItems(vs)
    decreases vs, 1
  {
    seq(|vs|, i requires 0 <= i < |vs| => Image(vs[i]))
  }

  function EntryImages(es: seq<Entry>): seq<SendEntry>
    requires SendableEntries(es)
    decreases es, 1
  {
    seq(|es|, i requires 0 <= i < |es| => EntryImage(es[i]))
  }

  function EntryImage(e: Entry): SendEntry
    requires SendableEntry(e)
    decreases e, 1
  {
    SendEntry(Image(e.key), Image(e.value))
  }

  function FieldImages(fs: seq<Field>): seq<SendField>
    requires SendableFields(fs)
    decreases fs, 1
  {
    seq(|fs|, i requires 0 <= i < |fs| => SendField(fs[i].name, Image(fs[i].value)))
  }

  // ----- equality on the way -----

  lemma {:induction false} EqualItself(v: Value)
    ensures Equal(v, v)
    decreases v, 0
  {
    match v
    case Vec(items) => ItemsEqualThemselves(items);
    case Set(items) => ItemsEqualThemselves(items);
    case Variant(_, items) => ItemsEqualThemselves(items);
    case Map(entries) =>
      forall i | 0 <= i < |entries| ensures EqualEntry(entries[i], entries[i]) { EntryEqualsItself(entries[i]); }
    case Struct(_, fields) =>
      forall i | 0 <= i < |fields| ensures EqualField(fields[i], fields[i]) { EqualItself(fields[i].value); }
    case _ =>
  }

  lemma {:induction false} ItemsEqualThemselves(vs: seq<Value>)
    ensures EqualItems(vs, vs) && EqualSets(vs, vs)
    decreases vs, 1
  {
    forall i | 0 <= i < |vs| ensures Equal(vs[i], vs[i]) { EqualItself(vs[i]); }
  }

  lemma {:induction false} EntryEqualsItself(e: Entry)
    ensures EqualEntry(e, e)
    decreases e, 1
  {
    EqualItself(e.key);
    EqualItself(e.value);
  }

  /**
   On the way, equality is that of the values, except that nothing in which
   bytes occur equals anything, not even itself.
   */
  lemma {:induction false} EqualOnTheWay(v: Value, w: Value)
    requires Sendable(v) && Sendable(w)
    ensures SendEqual(Image(v), Image(w)) <==> Equal(v, w) && !HasBytes(v)
    decreases v, 1
  {
    hide *;
    if v.Vec? || v.Variant? {
      ListOnTheWay(v, w);
    } else if v.Set? || v.Map? || v.Struct? {
      TableOnTheWay(v, w);
    } else {
      ScalarOnTheWay(v, w);
    }
  }

  lemma ScalarOnTheWay(v: Value, w: Value)
    requires Sendable(v) && Sendable(w) && !v.Vec? && !v.Variant? && !v.Set? && !v.Map? && !v.Struct?
    ensures SendEqual(Image(v), Image(w)) <==> Equal(v, w) && !HasBytes(v)
  {
  }

  lemma {:induction false} ListOnTheWay(v: Value, w: Value)
    requires Sendable(v) && Sendable(w) && (v.Vec? || v.Variant?)
    ensures SendEqual(Image(v), Image(w)) <==> Equal(v, w) && !HasBytes(v)
    decreases v, 0
  {
    hide EqualItems, SendEqualItems, ItemImages, ItemsHaveBytes, SendableItems;
    if w.Vec? || w.Variant? {
      ItemsOnTheWay(v.items, w.items);
    }
  }

  lemma {:induction false} TableOnTheWay(v: Value, w: Value)
    requires Sendable(v) && Sendable(w) && (v.Set? || v.Map? || v.Struct?)
    ensures SendEqual(Image(v), Image(w)) <==> Equal(v, w) && !HasBytes(v)
    decreases v, 0
  {
    hide EqualSets, EqualMaps, EqualFields, SendEqualSets, SendEqualMaps, SendEqualFields;
    hide ItemImages, EntryImages, FieldImages, ItemsHaveBytes, EntriesHaveBytes, FieldsHaveBytes;
    hide SendableItems, SendableEntries, SendableFields;
    match v
    case Set(m) => if w.Set? { SetsOnTheWay(m, w.items); }
    case Map(m) => if w.Map? { MapsOnTheWay(m, w.entries); }
    case Struct(_, m) => if w.Struct? { FieldsOnTheWay(m, w.fields); }
  }

  lemma {:induction false} ItemsOnTheWay(m: seq<Value>, n: seq<Value>)
    requires SendableItems(m) && SendableItems(n)
    ensures SendEqualItems(ItemImages(m), ItemImages(n)) <==> EqualItems(m, n) && !ItemsHaveBytes(m)
    decreases m, 1
  {
    hide Equal, SendEqual, HasBytes, Sendable, Image;
    if |m| == |n| {
      forall i | 0 <= i < |m|
        ensures SendEqual(ItemImages(m)[i], ItemImages(n)[i]) <==> Equal(m[i], n[i]) && !HasBytes(m[i])
      {
        EqualOnTheWay(m[i], n[i]);
      }
    }
  }

  lemma {:induction false} SetsOnTheWay(m: seq<Value>, n: seq<Value>)
    requires SendableItems(m) && SendableItems(n)
    ensures SendEqualSets(ItemImages(m), ItemImages(n)) <==> EqualSets(m, n) && !ItemsHaveBytes(m)
    decreases m, 1
  {
    hide EqualSome, SendEqualSome, HasBytes, Sendable, Image;
    forall i | 0 <= i < |m|
      ensures SendEqualSome(ItemImages(m)[i], ItemImages(n)) <==> EqualSome(m[i], n) && !HasBytes(m[i])
    {
      SomeOnTheWay(m[i], n);
    }
  }

  lemma {:induction false} SomeOnTheWay(x: Value, n: seq<Value>)
    requires Sendable(x) && SendableItems(n)
    ensures SendEqualSome(Image(x), ItemImages(n)) <==> EqualSome(x, n) && !HasBytes(x)
    decreases x, 2
  {
    hide Equal, SendEqual, HasBytes, Sendable, Image;
    forall j | 0 <= j < |n| ensures SendEqual(Image(x), ItemImages(n)[j]) <==> Equal(x, n[j]) && !HasBytes(x) {
      EqualOnTheWay(x, n[j]);
    }
  }

  lemma {:induction false} MapsOnTheWay(m: seq<Entry>, n: seq<Entry>)
    requires SendableEntries(m) && SendableEntries(n)
    ensures SendEqualMaps(EntryImages(m), EntryImages(n)) <==> EqualMaps(m, n) && !EntriesHaveBytes(m)
    decreases m, 1
  {
    hide EqualSomeEntry, SendEqualSomeEntry, EntryHasBytes, SendableEntry, EntryImage;
    forall i | 0 <= i < |m|
      ensures SendEqualSomeEntry(EntryImages(m)[i], EntryImages(n)) <==> EqualSomeEntry(m[i], n) && !EntryHasBytes(m[i])
    {
      SomeEntryOnTheWay(m[i], n);
    }
  }

  lemma {:induction false} SomeEntryOnTheWay(e: Entry, n: seq<Entry>)
    requires SendableEntry(e) && SendableEntries(n)
    ensures SendEqualSomeEntry(EntryImage(e), EntryImages(n)) <==> EqualSomeEntry(e, n) && !EntryHasBytes(e)
    decreases e, 2
  {
    hide EqualEntry, SendEqualEntry, EntryHasBytes, SendableEntry, EntryImage;
    forall j | 0 <= j < |n|
      ensures SendEqualEntry(EntryImage(e), EntryImages(n)[j]) <==> EqualEntry(e, n[j]) && !EntryHasBytes(e)
    {
      EntryOnTheWay(e, n[j]);
    }
  }

  lemma {:induction false} EntryOnTheWay(d: Entry, e: Entry)
    requires SendableEntry(d) && SendableEntry(e)
    ensures SendEqualEntry(EntryImage(d), EntryImage(e)) <==> EqualEntry(d, e) && !EntryHasBytes(d)
    decreases d, 1
  {
    EqualOnTheWay(d.key, e.key);
    EqualOnTheWay(d.value, e.value);
    hide Equal, SendEqual, HasBytes, Image, Sendable;
  }

  lemma {:induction false} FieldsOnTheWay(m: seq<Field>, n: seq<Field>)
    requires SendableFields(m) && SendableFields(n)
    ensures SendEqualFields(FieldImages(m), FieldImages(n)) <==> EqualFields(m, n) && !FieldsHaveBytes(m)
    decreases m, 1
  {
    hide EqualSomeField, SendEqualSomeField, HasBytes, Sendable, Image;
    forall i | 0 <= i < |m|
      ensures SendEqualSomeField(FieldImages(m)[i], FieldImages(n)) <==>
                EqualSomeField(m[i], n) && !HasBytes(m[i].value)
    {
      SomeFieldOnTheWay(m[i], n);
    }
  }

  lemma {:induction false} SomeFieldOnTheWay(f: Field, n: seq<Field>)
    requires Sendable(f.value) && SendableFields(n)
    ensures SendEqualSomeField(SendField(f.name, Image(f.value)), FieldImages(n)) <==>
              EqualSomeField(f, n) && !HasBytes(f.value)
    decreases f, 2
  {
    hide Equal, SendEqual, HasBytes, Sendable, Image;
    forall j | 0 <= j < |n|
      ensures SendEqualField(SendField(f.name, Image(f.value)), FieldImages(n)[j]) <==>
                EqualField(f, n[j]) && !HasBytes(f.value)
    {
      EqualOnTheWay(f.value, n[j].value);
    }
  }

  // ----- what is sent -----

  lemma {:induction false} AddNew(xs: seq<SendValue>, x: SendValue)
    requires forall i :: 0 <= i < |xs| ==> !SendEqual(xs[i], x)
    ensures Add(xs, x) == xs + [x]
  {
    hide SendEqual;
    if xs != [] {
      AddNew(xs[1..], x);
    }
  }

  lemma {:induction false} PutNew(es: seq<SendEntry>, e: SendEntry)
    requires forall i :: 0 <= i < |es| ==> !SendEqual(es[i].key, e.key)
    ensures Put(es, e) == es + [e]
  {
    hide SendEqual;
    if es != [] {
      PutNew(es[1..], e);
    }
  }

  lemma {:induction false} PutFieldNew(fs: seq<SendField>, f: SendField)
    requires forall i :: 0 <= i < |fs| ==> fs[i].name != f.name
    ensures PutField(fs, f) == fs + [f]
  {
    if fs != [] {
      PutFieldNew(fs[1..], f);
    }
  }

  /** Nothing that is sent gets merged or moved: every value becomes its counterpart. */
  lemma {:induction false} SentAsImage(v: Value)
    requires Sendable(v) && Proper(v)
    ensures FromValue(v) == Ok(Image(v))
    decreases v, 1
  {
    hide ItemImages, EntryImages, FieldImages, SendableItems, SendableEntries, SendableFields;
    hide FromItems, FromSet, FromEntries, FromFields, ProperItems, ProperEntries, ProperFields;
    hide DistinctItems, DistinctKeys, DistinctNames;
    match v
    case Vec(items) => ItemsSent(items);
    case Variant(_, items) => ItemsSent(items);
    case Set(items) => SetSent(items);
    case Map(entries) => EntriesSent(entries);
    case Struct(_, fields) => FieldsSent(fields);
    case _ =>
  }

  lemma {:induction false} ItemsSent(vs: seq<Value>)
    requires SendableItems(vs) && ProperItems(vs)
    ensures FromItems(vs) == Ok(ItemImages(vs))
    decreases vs
  {
    hide Image, FromValue, Sendable, Proper;
    if vs == [] {
      assert ItemImages(vs) == [];
    } else {
      var n := |vs| - 1;
      ItemsSent(vs[..n]);
      SentAsImage(vs[n]);
      var before := ItemImages(vs[..n]);
      assert FromItems(vs) == Ok(before + [Image(vs[n])]);
      assert ItemImages(vs) == before + [Image(vs[n])];
    }
  }

  lemma {:induction false} SetSent(vs: seq<Value>)
    requires SendableItems(vs) && ProperItems(vs) && DistinctItems(vs)
    ensures FromSet(vs) == Ok(ItemImages(vs))
    decreases vs
  {
    hide Image, FromValue, Sendable, Proper, Equal, SendEqual, HasBytes, Add;
    if vs != [] {
      var n := |vs| - 1;
      SetSent(vs[..n]);
      SentAsImage(vs[n]);
      var before := ItemImages(vs[..n]);
      forall i | 0 <= i < n ensures !SendEqual(before[i], Image(vs[n])) {
        EqualOnTheWay(vs[i], vs[n]);
      }
      AddNew(before, Image(vs[n]));
      assert ItemImages(vs) == before + [Image(vs[n])];
    }
  }

  lemma {:induction false} EntriesSent(es: seq<Entry>)
    requires SendableEntries(es) && ProperEntries(es) && DistinctKeys(es)
    ensures FromEntries(es) == Ok(EntryImages(es))
    decreases es
  {
    hide Image, FromValue, Sendable, Proper, Equal, SendEqual, HasBytes, Put, FromEntry;
    if es != [] {
      var n := |es| - 1;
      EntriesSent(es[..n]);
      EntrySent(es[n]);
      var before := EntryImages(es[..n]);
      forall i | 0 <= i < n ensures !SendEqual(before[i].key, EntryImage(es[n]).key) {
        EqualOnTheWay(es[i].key, es[n].key);
      }
      PutNew(before, EntryImage(es[n]));
      assert EntryImages(es) == before + [EntryImage(es[n])];
    }
  }

  lemma {:induction false} EntrySent(e: Entry)
    requires SendableEntry(e) && ProperEntry(e)
    ensures FromEntry(e) == Ok(EntryImage(e))
    decreases e, 1
  {
    SentAsImage(e.key);
    SentAsImage(e.value);
    hide Image, FromValue, Sendable, Proper;
  }

  lemma {:induction false} FieldsSent(fs: seq<Field>)
    requires SendableFields(fs) && ProperFields(fs) && DistinctNames(fs)
    ensures FromFields(fs) == Ok(FieldImages(fs))
    decreases fs
  {
    hide Image, FromValue, Sendable, Proper, PutField;
    if fs != [] {
      var n := |fs| - 1;
      FieldsSent(fs[..n]);
      SentAsImage(fs[n].value);
      var before, f := FieldImages(fs[..n]), SendField(fs[n].name, Image(fs[n].value));
      PutFieldNew(before, f);
      assert FieldImages(fs) == before + [f];
    }
  }

  // ----- what arrives -----

  lemma {:induction false} AddBackNew(xs: seq<Value>, x: Value)
    requires forall i :: 0 <= i < |xs| ==> !Equal(xs[i], x)
    ensures AddBack(xs, x) == xs + [x]
  {
    hide Equal;
    if xs != [] {
      AddBackNew(xs[1..], x);
    }
  }

  lemma {:induction false} PutBackNew(es: seq<Entry>, e: Entry)
    requires forall i :: 0 <= i < |es| ==> !Equal(es[i].key, e.key)
    ensures PutBack(es, e) == es + [e]
  {
    hide Equal;
    if es != [] {
      PutBackNew(es[1..], e);
    }
  }

  lemma {:induction false} PutFieldBackNew(fs: seq<Field>, f: Field)
    requires forall i :: 0 <= i < |fs| ==> fs[i].name != f.name
    ensures PutFieldBack(fs, f) == fs + [f]
  {
    if fs != [] {
      PutFieldBackNew(fs[1..], f);
    }
  }

  lemma {:induction false} ImageArrives(v: Value)
    requires Sendable(v) && Proper(v)
    ensures IntoValue(Image(v)) == v
    decreases v, 1
  {
    hide ItemImages, EntryImages, FieldImages, SendableItems, SendableEntries, SendableFields;
    hide IntoItems, IntoSet, IntoEntries, IntoFields, ProperItems, ProperEntries, ProperFields;
    hide DistinctItems, DistinctKeys, DistinctNames;
    match v
    case Vec(items) => ItemsArrive(items);
    case Variant(_, items) => ItemsArrive(items);
    case Set(items) => SetArrives(items);
    case Map(entries) => EntriesArrive(entries);
    case Struct(_, fields) => FieldsArrive(fields);
    case _ =>
  }

  lemma {:induction false} ItemsArrive(vs: seq<Value>)
    requires SendableItems(vs) && ProperItems(vs)
    ensures IntoItems(ItemImages(vs)) == vs
    decreases vs
  {
    hide Image, IntoValue, Sendable, Proper;
    forall i | 0 <= i < |vs| ensures IntoValue(Image(vs[i])) == vs[i] {
      ImageArrives(vs[i]);
    }
  }

  lemma {:induction false} SetArrives(vs: seq<Value>)
    requires SendableItems(vs) && ProperItems(vs) && DistinctItems(vs)
    ensures IntoSet(ItemImages(vs)) == vs
    decreases vs
  {
    hide Image, IntoValue, Sendable, Proper, Equal, AddBack;
    if vs != [] {
      var n := |vs| - 1;
      SetArrives(vs[..n]);
      ImageArrives(vs[n]);
      assert ItemImages(vs)[..n] == ItemImages(vs[..n]);
      AddBackNew(vs[..n], vs[n]);
    }
  }

  lemma {:induction false} EntriesArrive(es: seq<Entry>)
    requires SendableEntries(es) && ProperEntries(es) && DistinctKeys(es)
    ensures IntoEntries(EntryImages(es)) == es
    decreases es
  {
    hide Image, IntoValue, Sendable, Proper, Equal, PutBack, IntoEntry;
    if es != [] {
      var n := |es| - 1;
      EntriesArrive(es[..n]);
      EntryArrives(es[n]);
      assert EntryImages(es)[..n] == EntryImages(es[..n]);
      PutBackNew(es[..n], es[n]);
    }
  }

  lemma {:induction false} EntryArrives(e: Entry)
    requires SendableEntry(e) && ProperEntry(e)
    ensures IntoEntry(EntryImage(e)) == e
    decreases e, 1
  {
    ImageArrives(e.key);
    ImageArrives(e.value);
    hide Image, IntoValue, Sendable, Proper;
  }

  lemma {:induction false} FieldsArrive(fs: seq<Field>)
    requires SendableFields(fs) && ProperFields(fs) && DistinctNames(fs)
    ensures IntoFields(FieldImages(fs)) == fs
    decreases fs
  {
    hide Image, IntoValue, Sendable, Proper, PutFieldBack;
    if fs != [] {
      var n := |fs| - 1;
      FieldsArrive(fs[..n]);
      ImageArrives(fs[n].value);
      assert FieldImages(fs)[..n] == FieldImages(fs[..n]);
      PutFieldBackNew(fs[..n], fs[n]);
    }
  }

  // ----- what cannot be sent -----

  lemma {:induction false} SentIsSendable(v: Value)
    requires FromValue(v).Ok?
    ensures Sendable(v)
    decreases v, 1
  {
    hide SendableItems, SendableEntries, SendableFields, FromItems, FromSet, FromEntries, FromFields;
    match v
    case Vec(items) => SentItemsSendable(items);
    case Variant(_, items) => SentItemsSendable(items);
    case Set(items) => SentSetSendable(items);
    case Map(entries) => SentEntriesSendable(entries);
    case Struct(_, fields) => SentFieldsSendable(fields);
    case _ =>
  }

  lemma {:induction false} SentItemsSendable(vs: seq<Value>)
    requires FromItems(vs).Ok?
    ensures SendableItems(vs)
    decreases vs
  {
    hide FromValue, Sendable;
    if vs != [] {
      SentItemsSendable(vs[..|vs| - 1]);
      SentIsSendable(vs[|vs| - 1]);
      assert forall i :: 0 <= i < |vs| - 1 ==> vs[i] == vs[..|vs| - 1][i];
    }
  }

  lemma {:induction false} SentSetSendable(vs: seq<Value>)
    requires FromSet(vs).Ok?
    ensures SendableItems(vs)
    decreases vs
  {
    hide FromValue, Sendable, Add;
    if vs != [] {
      SentSetSendable(vs[..|vs| - 1]);
      SentIsSendable(vs[|vs| - 1]);
      assert forall i :: 0 <= i < |vs| - 1 ==> vs[i] == vs[..|vs| - 1][i];
    }
  }

  lemma {:induction false} SentEntriesSendable(es: seq<Entry>)
    requires FromEntries(es).Ok?
    ensures SendableEntries(es)
    decreases es
  {
    hide FromValue, Sendable, Put;
    if es != [] {
      SentEntriesSendable(es[..|es| - 1]);
      SentEntrySendable(es[|es| - 1]);
      assert forall i :: 0 <= i < |es| - 1 ==> es[i] == es[..|es| - 1][i];
    }
  }

  lemma {:induction false} SentEntrySendable(e: Entry)
    requires FromEntry(e).Ok?
    ensures SendableEntry(e)
    decreases e, 1
  {
    hide FromValue, Sendable;
    SentIsSendable(e.key);
    SentIsSendable(e.value);
  }

  lemma {:induction false} SentFieldsSendable(fs: seq<Field>)
    requires FromFields(fs).Ok?
    ensures SendableFields(fs)
    decreases fs
  {
    hide FromValue, Sendable, PutField;
    if fs != [] {
      SentFieldsSendable(fs[..|fs| - 1]);
      SentIsSendable(fs[|fs| - 1].value);
      assert forall i :: 0 <= i < |fs| - 1 ==> fs[i] == fs[..|fs| - 1][i];
    }
  }

  /** Sendable values have sendable parts. */
  lemma {:induction false} SendableParts(v: Value, part: Value, path: seq<nat>)
    requires Sendable(v) && PartAt(part, v, path)
    ensures Sendable(part)
    decreases |path|
  {
    if path != [] {
      SendableInside(v, path[0]);
      hide Sendable, Inside;
      SendableParts(Inside(v)[path[0]], part, path[1..]);
    }
  }

  lemma SendableInside(v: Value, i: nat)
    requires Sendable(v) && i < |Inside(v)|
    ensures Sendable(Inside(v)[i])
  {
    if v.Map? {
      var e := v.entries[if i < |v.entries| then i else i - |v.entries|];
      assert SendableEntry(e);
    }
  }

  /** A refusal names something inside the value. */
  lemma {:induction false} RefusalNames(v: Value) returns (id: nat, path: seq<nat>)
    requires FromValue(v).Err?
    ensures PartAt(Local(FromValue(v).kind, id), v, path)
    decreases v, 1
  {
    if v.Local? {
      id, path := v.id, [];
    } else {
      var i := RefusedInside(v);
      assert Inside(v)[i] < v;
      hide FromValue, Inside;
      var more;
      id, more := RefusalNames(Inside(v)[i]);
      path := [i] + more;
      assert path[1..] == more;
    }
  }

  /** One of the values directly inside is refused, for the same reason. */
  lemma RefusedInside(v: Value) returns (i: nat)
    requires FromValue(v).Err? && !v.Local?
    ensures i < |Inside(v)| && Inside(v)[i] < v && FromValue(Inside(v)[i]) == FromValue(v)
  {
    hide FromItems, FromSet, FromEntries, FromFields;
    i := 0;
    match v
    case Vec(items) => i := RefusedItem(items);
    case Variant(_, items) => i := RefusedItem(items);
    case Set(items) => i := RefusedElement(items);
    case Map(entries) =>
      var j := RefusedEntry(entries);
      assert entries[j] < v;
      i := if FromValue(entries[j].key).Err? then j else |entries| + j;
    case Struct(_, fields) =>
      i := RefusedField(fields);
      assert fields[i] < v;
    case _ =>
  }

  lemma {:induction false} RefusedItem(vs: seq<Value>) returns (i: nat)
    requires FromItems(vs).Err?
    ensures i < |vs| && FromValue(vs[i]).Err? && FromValue(vs[i]).kind == FromItems(vs).kind
  {
    hide FromValue;
    i := |vs| - 1;
    if FromItems(vs[..i]).Err? {
      i := RefusedItem(vs[..i]);
    }
  }

  lemma {:induction false} RefusedElement(vs: seq<Value>) returns (i: nat)
    requires FromSet(vs).Err?
    ensures i < |vs| && FromValue(vs[i]).Err? && FromValue(vs[i]).kind == FromSet(vs).kind
  {
    hide FromValue, Add;
    i := |vs| - 1;
    if FromSet(vs[..i]).Err? {
      i := RefusedElement(vs[..i]);
    }
  }

  lemma {:induction false} RefusedEntry(es: seq<Entry>) returns (i: nat)
    requires FromEntries(es).Err?
    ensures i < |es| && FromEntry(es[i]).Err? && FromEntry(es[i]).kind == FromEntries(es).kind
  {
    hide FromValue, Put, FromEntry;
    i := |es| - 1;
    if FromEntries(es[..i]).Err? {
      i := RefusedEntry(es[..i]);
    }
  }

  lemma {:induction false} RefusedField(fs: seq<Field>) returns (i: nat)
    requires FromFields(fs).Err?
    ensures i < |fs| && FromValue(fs[i].value).Err? && FromValue(fs[i].value).kind == FromFields(fs).kind
  {
    hide FromValue, PutField;
    i := |fs| - 1;
    if FromFields(fs[..i]).Err? {
      i := RefusedField(fs[..i]);
    }
  }

  // ----- the promises -----

  /**
   A value can be sent exactly when nothing bound to its thread occurs in it, at
   any depth; a refusal names such a thing.
   */
  lemma SentExactly(v: Value)
    ensures FromValue(v).Ok? <==> forall part :: Part(part, v) ==> !part.Local?
    ensures FromValue(v).Err? ==> exists id :: Part(Local(FromValue(v).kind, id), v)
  {
    hide *;
    if FromValue(v).Ok? {
      SentIsSendable(v);
      forall part | Part(part, v) ensures !part.Local? {
        var path := PathTo(part, v);
        SendableParts(v, part, path);
        LocalStays(part);
      }
    } else {
      var id, path := RefusalNames(v);
      PathIsPart(Local(FromValue(v).kind, id), v, path);
    }
  }

  lemma PathTo(part: Value, v: Value) returns (path: seq<nat>)
    requires Part(part, v)
    ensures PartAt(part, v, path)
  {
    path :| PartAt(part, v, path);
  }

  lemma PathIsPart(part: Value, v: Value, path: seq<nat>)
    requires PartAt(part, v, path)
    ensures Part(part, v)
  {
  }

  lemma LocalStays(v: Value)
    requires Sendable(v)
    ensures !v.Local?
  {
  }

  /** What arrives is what was sent. */
  lemma RoundTrip(v: Value)
    requires Proper(v) && FromValue(v).Ok?
    ensures IntoValue(FromValue(v).value) == v
  {
    hide *;
    SentIsSendable(v);
    SentAsImage(v);
    ImageArrives(v);
  }

  /** Different values are different on the way, so no collection shrinks. */
  lemma SentInjective(v: Value, w: Value)
    requires Proper(v) && Proper(w) && FromValue(v).Ok? && FromValue(v) == FromValue(w)
    ensures v == w
  {
    hide *;
    RoundTrip(v);
    RoundTrip(w);
  }

  /** Equality on the way is equality of the values, unless bytes occur: then nothing is equal, not even to itself. */
  lemma EqualityOnTheWay(v: Value, w: Value)
    requires Proper(v) && Proper(w) && FromValue(v).Ok? && FromValue(w).Ok?
    ensures SendEqual(FromValue(v).value, FromValue(w).value) <==> Equal(v, w) && !HasBytes(v)
    ensures SendEqual(FromValue(v).value, FromValue(v).value) <==> !HasBytes(v)
  {
    hide *;
    SentIsSendable(v);
    SentIsSendable(w);
    SentAsImage(v);
    SentAsImage(w);
    EqualOnTheWay(v, w);
    EqualOnTheWay(v, v);
    EqualItself(v);
  }

  // ----- the conversion as it runs -----

  lemma {:induction false} RefusalStays(vs: seq<Value>, i: nat)
    requires i <= |vs|
    ensures FromItems(vs[..i]).Err? ==> FromItems(vs) == FromItems(vs[..i])
    ensures FromSet(vs[..i]).Err? ==> FromSet(vs) == FromSet(vs[..i])
    decreases |vs| - i
  {
    hide FromValue, Add;
    if i < |vs| {
      assert vs[..i + 1][..i] == vs[..i];
      RefusalStays(vs, i + 1);
    } else {
      assert vs[..i] == vs;
    }
  }

  lemma {:induction false} EntryRefusalStays(es: seq<Entry>, i: nat)
    requires i <= |es|
    ensures FromEntries(es[..i]).Err? ==> FromEntries(es) == FromEntries(es[..i])
    decreases |es| - i
  {
    hide FromEntry, Put;
    if i < |es| {
      assert es[..i + 1][..i] == es[..i];
      EntryRefusalStays(es, i + 1);
    } else {
      assert es[..i] == es;
    }
  }

  lemma {:induction false} FieldRefusalStays(fs: seq<Field>, i: nat)
    requires i <= |fs|
    ensures FromFields(fs[..i]).Err? ==> FromFields(fs) == FromFields(fs[..i])
    decreases |fs| - i
  {
    hide FromValue, PutField;
    if i < |fs| {
      assert fs[..i + 1][..i] == fs[..i];
      FieldRefusalStays(fs, i + 1);
    } else {
      assert fs[..i] == fs;
    }
  }

  /** Converts a value, filling the collections element by element. */
  method Convert(v: Value) returns (r: Sent<SendValue>)
    ensures r == FromValue(v)
    decreases v, 0
  {
    match v
    case Int(n) => r := Ok(SendInt(n));
    case Decimal(d) => r := Ok(SendDecimal(d));
    case Str(s) => r := Ok(SendStr(s));
    case Bytes(b) => r := Ok(SendBytes(b));
    case Bool(b) => r := Ok(SendBool(b));
    case Nil => r := Ok(SendNil);
    case Vec(items) =>
      var xs := ConvertItems(items);
      r := if xs.Ok? then Ok(SendVec(xs.value)) else Err(xs.kind);
    case Map(entries) =>
      var es := ConvertEntries(entries);
      r := if es.Ok? then Ok(SendMap(es.value)) else Err(es.kind);
    case Set(items) =>
      var xs := ConvertSet(items);
      r := if xs.Ok? then Ok(SendSet(xs.value)) else Err(xs.kind);
    case Variant(name, items) =>
      var xs := ConvertItems(items);
      r := if xs.Ok? then Ok(SendVariant(name, xs.value)) else Err(xs.kind);
    case Struct(name, fields) =>
      var fs := ConvertFields(fields);
      r := if fs.Ok? then Ok(SendStruct(name, fs.value)) else Err(fs.kind);
    case Local(kind, _) => r := Err(kind);
  }

  method ConvertItems(vs: seq<Value>) returns (r: Sent<seq<SendValue>>)
    ensures r == FromItems(vs)
    decreases vs, 1
  {
    hide FromValue;
    var xs := [];
    for i := 0 to |vs|
      invariant FromItems(vs[..i]) == Ok(xs)
    {
      var x := Convert(vs[i]);
      assert vs[..i + 1][..i] == vs[..i];
      if x.Err? {
        RefusalStays(vs, i + 1);
        return Err(x.kind);
      }
      xs := xs + [x.value];
    }
    assert vs[..|vs|] == vs;
    return Ok(xs);
  }

  method ConvertSet(vs: seq<Value>) returns (r: Sent<seq<SendValue>>)
    ensures r == FromSet(vs)
    decreases vs, 1
  {
    hide FromValue, Add;
    var xs := [];
    for i := 0 to |vs|
      invariant FromSet(vs[..i]) == Ok(xs)
    {
      var x := Convert(vs[i]);
      assert vs[..i + 1][..i] == vs[..i];
      if x.Err? {
        RefusalStays(vs, i + 1);
        return Err(x.kind);
      }
      xs := Add(xs, x.value);
    }
    assert vs[..|vs|] == vs;
    return Ok(xs);
  }

  method ConvertEntries(es: seq<Entry>) returns (r: Sent<seq<SendEntry>>)
    ensures r == FromEntries(es)
    decreases es, 1
  {
    hide FromValue, FromEntry, Put;
    var xs := [];
    for i := 0 to |es|
      invariant FromEntries(es[..i]) == Ok(xs)
    {
      var e := ConvertEntry(es[i]);
      assert es[..i + 1][..i] == es[..i];
      if e.Err? {
        EntryRefusalStays(es, i + 1);
        return Err(e.kind);
      }
      xs := Put(xs, e.value);
    }
    assert es[..|es|] == es;
    return Ok(xs);
  }

  method ConvertEntry(e: Entry) returns (r: Sent<SendEntry>)
    ensures r == FromEntry(e)
    decreases e, 1
  {
    hide FromValue;
    var key := Convert(e.key);
    if key.Err? { return Err(key.kind); }
    var value := Convert(e.value);
    r := if value.Ok? then Ok(SendEntry(key.value, value.value)) else Err(value.kind);
  }

  method ConvertFields(fs: seq<Field>) returns (r: Sent<seq<SendField>>)
    ensures r == FromFields(fs)
    decreases fs, 1
  {
    hide FromValue, PutField;
    var xs := [];
    for i := 0 to |fs|
      invariant FromFields(fs[..i]) == Ok(xs)
    {
      var value := Convert(fs[i].value);
      assert fs[..i + 1][..i] == fs[..i];
      if value.Err? {
        FieldRefusalStays(fs, i + 1);
        return Err(value.kind);
      }
      xs := PutField(xs, SendField(fs[i].name, value.value));
    }
    assert fs[..|fs|] == fs;
    return Ok(xs);
  }
}
