/** Answer citations, how the table stores them, and what reading them back yields. */
module Citations {
  import opened Text

  /** The Python values that can occur inside citation metadata. A finite float has the value it stands for and
      the decimal that str writes for it, which need not be equal; NonFinite is an infinity or a NaN. A dictionary
      is its entries in insertion order. */
  datatype Value =
    | Null
    | Bool(flag: bool)
    | Int(integer: int)
    | Float(binary: real, written: real)
    | NonFinite
    | Dec(number: real)
    | Str(text: string)
    | List(items: seq<Value>)
    | Tuple(items: seq<Value>)
    | Dict(entries: seq<Entry>)

  datatype Entry = Entry(key: Value, value: Value)

  datatype Source = Source(content: string, locationType: Option<string>, uri: Option<string>, metadata: seq<Entry>)

  datatype Citation = Citation(text: string, spanStart: Option<int>, spanEnd: Option<int>, sources: seq<Source>)

  /** Typed attribute values of the table. */
  datatype Attribute =
    | NULL
    | BOOL(flag: bool)
    | N(number: real)
    | S(text: string)
    | L(items: seq<Attribute>)
    | M(entries: seq<Member>)

  datatype Member = Member(name: string, value: Attribute)

  // ----- writing

  /** Floats become the decimals they are written as, tuples lists, and entries without a string key are dropped,
      at every depth. */
  function Compatible(v: Value): Value {
    match v
    case Float(_, x) => Dec(x)
    case List(items) => List(CompatibleItems(items))
    case Tuple(items) => List(CompatibleItems(items))
    case Dict(entries) => Dict(CompatibleEntries(entries))
    case _ => v
  }

  function CompatibleItems(vs: seq<Value>): seq<Value> {
    if vs == [] then [] else [Compatible(vs[0])] + CompatibleItems(vs[1..])
  }

  function CompatibleEntries(es: seq<Entry>): seq<Entry> {
    if es == [] then [] else CompatibleEntry(es[0]) + CompatibleEntries(es[1..])
  }

  function CompatibleEntry(e: Entry): seq<Entry> {
    if e.key.Str? then [Entry(e.key, Compatible(e.value))] else []
  }

  /** The serializer's answer; None where nothing is stored: it raises a type error for floats and tuples, and
      infinities and NaN are refused by it or by the table. */
  function Serialize(v: Value): Option<Attribute> {
    match v
    case Null => Some(NULL)
    case Bool(b) => Some(BOOL(b))
    case Int(i) => Some(N(i as real))
    case Dec(x) => Some(N(x))
    case Str(s) => Some(S(s))
    case List(items) => var r := SerializeItems(items); if r.Some? then Some(L(r.value)) else None
    case Dict(entries) => var r := SerializeEntries(entries); if r.Some? then Some(M(r.value)) else None
    case Float(_, _) => None
    case NonFinite => None
    case Tuple(_) => None
  }

  function SerializeItems(vs: seq<Value>): Option<seq<Attribute>> {
    if vs == [] then Some([])
    else
      var head, tail := Serialize(vs[0]), SerializeItems(vs[1..]);
      if head.Some? && tail.Some? then Some([head.value] + tail.value) else None
  }

  function SerializeEntries(es: seq<Entry>): Option<seq<Member>> {
    if es == [] then Some([])
    else
      var head, tail := SerializeEntry(es[0]), SerializeEntries(es[1..]);
      if head.Some? && tail.Some? then Some([head.value] + tail.value) else None
  }

  function SerializeEntry(e: Entry): Option<Member> {
    var v := Serialize(e.value);
    if e.key.Str? && v.Some? then Some(Member(e.key.text, v.value)) else None
  }

  // ----- reading

  function Deserialize(a: Attribute): Value {
    match a
    case NULL => Null
    case BOOL(b) => Bool(b)
    case N(x) => Dec(x)
    case S(s) => Str(s)
    case L(items) => List(DeserializeItems(items))
    case M(entries) => Dict(DeserializeEntries(entries))
  }

  function DeserializeItems(vs: seq<Attribute>): seq<Value> {
    if vs == [] then [] else [Deserialize(vs[0])] + DeserializeItems(vs[1..])
  }

  function DeserializeEntries(es: seq<Member>): seq<Entry> {
    if es == [] then [] else [DeserializeMember(es[0])] + DeserializeEntries(es[1..])
  }

  function DeserializeMember(m: Member): Entry {
    Entry(Str(m.name), Deserialize(m.value))
  }

  // ----- the normal form, defined on its own

  /** Every number a decimal, every sequence a list, every key a string. */
  function Normal(v: Value): Value {
    match v
    case Int(i) => Dec(i as real)
    case Float(_, x) => Dec(x)
    case List(items) => List(NormalItems(items))
    case Tuple(items) => List(NormalItems(items))
    case Dict(entries) => Dict(NormalEntries(entries))
    case _ => v
  }

  function NormalItems(vs: seq<Value>): seq<Value> {
    if vs == [] then [] else [Normal(vs[0])] + NormalItems(vs[1..])
  }

  function NormalEntries(es: seq<Entry>): seq<Entry> {
    if es == [] then [] else NormalEntry(es[0]) + NormalEntries(es[1..])
  }

  function NormalEntry(e: Entry): seq<Entry> {
    if e.key.Str? then [Entry(e.key, Normal(e.value))] else []
  }

  /** No infinity and no NaN where it would be stored: entries without a string key are dropped unseen. */
  predicate Storable(v: Value) {
    match v
    case NonFinite => false
    case List(items) => StorableItems(items)
    case Tuple(items) => StorableItems(items)
    case Dict(entries) => StorableEntries(entries)
    case _ => true
  }

  predicate StorableItems(vs: seq<Value>) {
    vs == [] || (Storable(vs[0]) && StorableItems(vs[1..]))
  }

  predicate StorableEntries(es: seq<Entry>) {
    es == [] || (StorableEntry(es[0]) && StorableEntries(es[1..]))
  }

  predicate StorableEntry(e: Entry) {
    e.key.Str? ==> Storable(e.value)
  }

  /** How the parts of a list are put together. */
  lemma ListParts(v: Value)
    requires v.List? || v.Tuple?
    ensures Compatible(v) == List(CompatibleItems(v.items)) && Normal(v) == List(NormalItems(v.items))
    ensures Storable(v) <==> StorableItems(v.items)
    ensures var r := SerializeItems(CompatibleItems(v.items));
            Serialize(Compatible(v)) == (if r.Some? then Some(L(r.value)) else None)
    ensures forall xs :: Deserialize(L(xs)) == List(DeserializeItems(xs))
  {
  }

  lemma DictParts(v: Value)
    requires v.Dict?
    ensures Compatible(v) == Dict(CompatibleEntries(v.entries)) && Normal(v) == Dict(NormalEntries(v.entries))
    ensures Storable(v) <==> StorableEntries(v.entries)
    ensures var r := SerializeEntries(CompatibleEntries(v.entries));
            Serialize(Compatible(v)) == (if r.Some? then Some(M(r.value)) else None)
    ensures forall xs :: Deserialize(M(xs)) == Dict(DeserializeEntries(xs))
  {
  }

  /** A metadata value can be stored exactly when it is storable, and reading back gives its normal form. */
  lemma {:induction false} StoredValue(v: Value)
    ensures Serialize(Compatible(v)).Some? <==> Storable(v)
    ensures Storable(v) ==> Deserialize(Serialize(Compatible(v)).value) == Normal(v)
  {
    if v.List? || v.Tuple? {
      ListParts(v);
      hide *;
      StoredItems(v.items);
    } else if v.Dict? {
      DictParts(v);
      hide *;
      StoredEntries(v.entries);
    }
  }

  lemma {:induction false} StoredItems(vs: seq<Value>)
    ensures SerializeItems(CompatibleItems(vs)).Some? <==> StorableItems(vs)
    ensures StorableItems(vs) ==> DeserializeItems(SerializeItems(CompatibleItems(vs)).value) == NormalItems(vs)
  {
    if vs != [] {
      StoredValue(vs[0]);
      StoredItems(vs[1..]);
      var c := CompatibleItems(vs);
      assert c[0] == Compatible(vs[0]) && c[1..] == CompatibleItems(vs[1..]);
      if StorableItems(vs) {
        var s := SerializeItems(c).value;
        assert s[1..] == SerializeItems(c[1..]).value;
      }
    }
  }

  lemma {:induction false} StoredEntries(es: seq<Entry>)
    ensures SerializeEntries(CompatibleEntries(es)).Some? <==> StorableEntries(es)
    ensures StorableEntries(es) ==>
              DeserializeEntries(SerializeEntries(CompatibleEntries(es)).value) == NormalEntries(es)
  {
    if es != [] {
      StoredEntry(es[0]);
      StoredEntries(es[1..]);
      var c, rest := CompatibleEntries(es), CompatibleEntries(es[1..]);
      assert c == CompatibleEntry(es[0]) + rest;
      if es[0].key.Str? {
        SerializeCons(Entry(es[0].key, Compatible(es[0].value)), rest);
      } else {
        assert c == rest;
        assert NormalEntries(es) == NormalEntries(es[1..]);
      }
    }
  }

  lemma SerializeCons(e: Entry, es: seq<Entry>)
    ensures var head, tail := SerializeEntry(e), SerializeEntries(es);
            && (SerializeEntries([e] + es).Some? <==> head.Some? && tail.Some?)
            && (head.Some? && tail.Some? ==> SerializeEntries([e] + es).value == [head.value] + tail.value)
    ensures var head, tail := SerializeEntry(e), SerializeEntries(es);
            head.Some? && tail.Some? ==>
              DeserializeEntries([head.value] + tail.value)
                == [DeserializeMember(head.value)] + DeserializeEntries(tail.value)
  {
    assert ([e] + es)[1..] == es;
    var head, tail := SerializeEntry(e), SerializeEntries(es);
    if head.Some? && tail.Some? {
      assert ([head.value] + tail.value)[1..] == tail.value;
    }
  }

  lemma {:induction false} StoredEntry(e: Entry)
    ensures Serialize(Compatible(e.value)).Some? <==> Storable(e.value)
    ensures Storable(e.value) ==> Deserialize(Serialize(Compatible(e.value)).value) == Normal(e.value)
  {
    StoredValue(e.value);
  }

  /** What the normal form is, kind by kind: entries keep their order. */
  lemma NormalForms(v: Value)
    ensures v.Null? || v.Bool? || v.Str? || v.Dec? || v.NonFinite? ==> Normal(v) == v
    ensures v.Int? ==> Normal(v) == Dec(v.integer as real)
    ensures v.Float? ==> Normal(v) == Dec(v.written)
    ensures v.List? || v.Tuple? ==>
              && Normal(v).List? && |Normal(v).items| == |v.items|
              && forall i | 0 <= i < |v.items| :: Normal(v).items[i] == Normal(v.items[i])
    ensures v.Dict? ==>
              && Normal(v).Dict? && |Normal(v).entries| == |StringKeyed(v.entries)|
              && forall i | 0 <= i < |StringKeyed(v.entries)| ::
                 Normal(v).entries[i] == Entry(StringKeyed(v.entries)[i].key, Normal(StringKeyed(v.entries)[i].value))
  {
    if v.List? || v.Tuple? {
      NormalEach(v.items);
    } else if v.Dict? {
      NormalKept(v.entries);
    }
  }

  /** The entries whose key is a string, in order. */
  function StringKeyed(es: seq<Entry>): seq<Entry> {
    if es == [] then [] else (if es[0].key.Str? then [es[0]] else []) + StringKeyed(es[1..])
  }

  lemma {:induction false} NormalEach(vs: seq<Value>)
    ensures |NormalItems(vs)| == |vs| && forall i | 0 <= i < |vs| :: NormalItems(vs)[i] == Normal(vs[i])
  {
    if vs != [] {
      NormalEach(vs[1..]);
      hide Normal;
      assert forall i | 0 < i < |vs| :: NormalItems(vs)[i] == NormalItems(vs[1..])[i - 1] && vs[i] == vs[1..][i - 1];
    }
  }

  lemma {:induction false} NormalKept(es: seq<Entry>)
    ensures |NormalEntries(es)| == |StringKeyed(es)|
    ensures forall i | 0 <= i < |StringKeyed(es)| ::
              NormalEntries(es)[i] == Entry(StringKeyed(es)[i].key, Normal(StringKeyed(es)[i].value))
  {
    if es != [] {
      NormalKept(es[1..]);
      if es[0].key.Str? {
        var n, k := NormalEntries(es), StringKeyed(es);
        assert NormalEntry(es[0]) == [Entry(es[0].key, Normal(es[0].value))];
        assert n == NormalEntry(es[0]) + NormalEntries(es[1..]);
        assert k == [es[0]] + StringKeyed(es[1..]);
      } else {
        assert NormalEntries(es) == NormalEntries(es[1..]) && StringKeyed(es) == StringKeyed(es[1..]);
      }
    }
  }

  /** What can be stored, kind by kind. */
  lemma StorableForms(v: Value)
    ensures v.Null? || v.Bool? || v.Int? || v.Float? || v.Dec? || v.Str? ==> Storable(v)
    ensures v.NonFinite? ==> !Storable(v)
    ensures v.List? || v.Tuple? ==> (Storable(v) <==> forall x | x in v.items :: Storable(x))
    ensures v.Dict? ==> (Storable(v) <==> forall e | e in v.entries && e.key.Str? :: Storable(e.value))
  {
    if v.List? || v.Tuple? {
      StorableEach(v.items);
    } else if v.Dict? {
      StorableKept(v.entries);
    }
  }

  lemma {:induction false} StorableEach(vs: seq<Value>)
    ensures StorableItems(vs) <==> forall x | x in vs :: Storable(x)
  {
    if vs != [] {
      StorableEach(vs[1..]);
      hide Storable;
      assert vs == [vs[0]] + vs[1..] && vs[0] in vs;
    }
  }

  lemma {:induction false} StorableKept(es: seq<Entry>)
    ensures StorableEntries(es) <==> forall e | e in es && e.key.Str? :: Storable(e.value)
  {
    if es != [] {
      StorableKept(es[1..]);
      hide Storable;
      assert es == [es[0]] + es[1..] && es[0] in es;
    }
  }

  // ----- normal forms are fixed points

  lemma {:induction false} NormalIdempotent(v: Value)
    ensures Normal(Normal(v)) == Normal(v)
  {
    match v
    case List(items) => NormalItemsIdempotent(items);
    case Tuple(items) => NormalItemsIdempotent(items);
    case Dict(entries) => NormalEntriesIdempotent(entries);
    case _ =>
  }

  lemma {:induction false} NormalItemsIdempotent(vs: seq<Value>)
    ensures NormalItems(NormalItems(vs)) == NormalItems(vs)
  {
    if vs != [] {
      NormalIdempotent(vs[0]);
      NormalItemsIdempotent(vs[1..]);
      assert NormalItems(vs)[1..] == NormalItems(vs[1..]);
    }
  }

  lemma {:induction false} NormalEntriesIdempotent(es: seq<Entry>)
    ensures NormalEntries(NormalEntries(es)) == NormalEntries(es)
  {
    if es != [] {
      NormalEntryIdempotent(es[0]);
      NormalEntriesIdempotent(es[1..]);
      assert NormalEntries(es) == NormalEntry(es[0]) + NormalEntries(es[1..]);
      if es[0].key.Str? {
        assert NormalEntry(es[0]) == [Entry(es[0].key, Normal(es[0].value))];
        assert NormalEntries(es)[1..] == NormalEntries(es[1..]);
      } else {
        assert NormalEntries(es) == NormalEntries(es[1..]);
      }
    }
  }

  lemma {:induction false} NormalEntryIdempotent(e: Entry)
    ensures Normal(Normal(e.value)) == Normal(e.value)
  {
    NormalIdempotent(e.value);
  }

  // ----- when nothing is lost

  predicate IsNumber(v: Value) {
    v.Bool? || v.Int? || v.Float? || v.Dec?
  }

  function NumberOf(v: Value): real
    requires IsNumber(v)
  {
    match v
    case Bool(flag) => if flag then 1.0 else 0.0
    case Int(i) => i as real
    case Float(x, _) => x
    case Dec(x) => x
  }

  /** Equal as Python compares them: numbers by the exact value they stand for, whatever their type, lists and
      tuples apart, dictionaries here entry by entry. */
  predicate Same(v: Value, w: Value) {
    if IsNumber(v) then IsNumber(w) && NumberOf(v) == NumberOf(w)
    else match v
      case List(items) => w.List? && SameItems(items, w.items)
      case Tuple(items) => w.Tuple? && SameItems(items, w.items)
      case Dict(entries) => w.Dict? && SameEntries(entries, w.entries)
      case _ => v == w
  }

  predicate SameItems(vs: seq<Value>, ws: seq<Value>) {
    |vs| == |ws| && (vs == [] || (Same(vs[0], ws[0]) && SameItems(vs[1..], ws[1..])))
  }

  predicate SameEntries(es: seq<Entry>, fs: seq<Entry>) {
    |es| == |fs| && (es == [] || (SameEntry(es[0], fs[0]) && SameEntries(es[1..], fs[1..])))
  }

  predicate SameEntry(e: Entry, f: Entry) {
    e.key == f.key && Same(e.value, f.value)
  }

  /** At every depth no tuple, no entry without a string key, and every float the decimal it is written as. */
  predicate Plain(v: Value) {
    match v
    case Tuple(_) => false
    case Float(binary, written) => binary == written
    case List(items) => PlainItems(items)
    case Dict(entries) => PlainEntries(entries)
    case _ => true
  }

  predicate PlainItems(vs: seq<Value>) {
    vs == [] || (Plain(vs[0]) && PlainItems(vs[1..]))
  }

  predicate PlainEntries(es: seq<Entry>) {
    es == [] || (PlainEntry(es[0]) && PlainEntries(es[1..]))
  }

  predicate PlainEntry(e: Entry) {
    e.key.Str? && Plain(e.value)
  }

  /** A value survives storage, up to equality, exactly when it has no tuple, no entry without a string key, and no
      float that differs from the decimal str writes for it: 0.5 survives, 0.1 does not. */
  lemma {:induction false} SurvivesStorage(v: Value)
    requires Storable(v)
    ensures Same(v, Normal(v)) <==> Plain(v)
  {
    match v
    case List(items) => ItemsSurvive(items);
    case Dict(entries) => EntriesSurvive(entries);
    case _ =>
  }

  lemma {:induction false} ItemsSurvive(vs: seq<Value>)
    requires StorableItems(vs)
    ensures |NormalItems(vs)| == |vs|
    ensures SameItems(vs, NormalItems(vs)) <==> PlainItems(vs)
  {
    if vs != [] {
      SurvivesStorage(vs[0]);
      ItemsSurvive(vs[1..]);
      assert NormalItems(vs)[1..] == NormalItems(vs[1..]);
    }
  }

  lemma {:induction false} EntriesSurvive(es: seq<Entry>)
    requires StorableEntries(es)
    ensures |NormalEntries(es)| <= |es|
    ensures SameEntries(es, NormalEntries(es)) <==> PlainEntries(es)
  {
    if es != [] {
      EntriesSurvive(es[1..]);
      if es[0].key.Str? {
        EntrySurvives(es[0]);
        assert NormalEntries(es)[1..] == NormalEntries(es[1..]);
      } else {
        assert NormalEntries(es) == NormalEntries(es[1..]);
      }
    }
  }

  lemma {:induction false} EntrySurvives(e: Entry)
    requires e.key.Str? && StorableEntry(e)
    ensures Same(e.value, Normal(e.value)) <==> Plain(e.value)
  {
    SurvivesStorage(e.value);
  }

  /** What 0.1 stands for in binary is not the decimal it is written as. */
  const TENTH := Float(3602879701896397.0 / 36028797018963968.0, 0.1)

  lemma TenthIsChanged()
    ensures Storable(TENTH) && !Same(TENTH, Normal(TENTH)) && Same(Float(0.5, 0.5), Normal(Float(0.5, 0.5)))
  {
    SurvivesStorage(TENTH);
    assert 3602879701896397.0 / 36028797018963968.0 != 0.1;
  }

  // ----- whole citations

  function OptionalInt(i: Option<int>): Value {
    if i.Some? then Int(i.value) else Null
  }

  function OptionalStr(s: Option<string>): Value {
    if s.Some? then Str(s.value) else Null
  }

  function SourceDict(s: Source): Value {
    Dict([Entry(Str("content"), Str(s.content)), Entry(Str("location_type"), OptionalStr(s.locationType)),
          Entry(Str("uri"), OptionalStr(s.uri)), Entry(Str("metadata"), Dict(s.metadata))])
  }

  function SourceDicts(ss: seq<Source>): seq<Value> {
    if ss == [] then [] else [SourceDict(ss[0])] + SourceDicts(ss[1..])
  }

  function CitationDict(c: Citation): Value {
    Dict([Entry(Str("text"), Str(c.text)), Entry(Str("span_start"), OptionalInt(c.spanStart)),
          Entry(Str("span_end"), OptionalInt(c.spanEnd)), Entry(Str("sources"), List(SourceDicts(c.sources)))])
  }

  function CitationDicts(cs: seq<Citation>): seq<Value> {
    if cs == [] then [] else [CitationDict(cs[0])] + CitationDicts(cs[1..])
  }

  /** The citations hold no infinity and no NaN that would have to be stored. */
  predicate StorableCitations(cs: seq<Citation>) {
    Storable(List(CitationDicts(cs)))
  }

  lemma NoCitationsStorable()
    ensures StorableCitations([])
  {
    assert CitationDicts([]) == [];
    assert StorableItems([]);
  }

  /** The attribute in which a message's citations are stored; None where serializing them fails. */
  function SerializedCitations(cs: seq<Citation>): (r: Option<Attribute>)
    ensures r.Some? <==> StorableCitations(cs)
  {
    StoredValue(List(CitationDicts(cs)));
    Serialize(Compatible(List(CitationDicts(cs))))
  }

  function Get(es: seq<Entry>, name: string, absent: Value): Value {
    if es == [] then absent else if es[0].key == Str(name) then es[0].value else Get(es[1..], name, absent)
  }

  predicate IsStrMapping(v: Value) {
    v.Dict? && forall i | 0 <= i < |v.entries| :: v.entries[i].key.Str?
  }

  function AsStr(v: Value): Option<string> {
    if v.Str? then Some(v.text) else None
  }

  /** int() of a Decimal drops the fraction towards zero; a bool is an int. */
  function AsInt(v: Value): Option<int> {
    match v
    case Int(i) => Some(i)
    case Bool(b) => Some(if b then 1 else 0)
    case Dec(x) => Some(if x >= 0.0 then x.Floor else -((-x).Floor))
    case _ => None
  }

  function ToSource(es: seq<Entry>): Source {
    var metadata := Get(es, "metadata", Dict([]));
    var content := AsStr(Get(es, "content", Null));
    Source(if content.Some? then content.value else "",
           AsStr(Get(es, "location_type", Null)), AsStr(Get(es, "uri", Null)),
           if metadata.Dict? then metadata.entries else [])
  }

  function ToSources(vs: seq<Value>): seq<Source> {
    if vs == [] then []
    else (if IsStrMapping(vs[0]) then [ToSource(vs[0].entries)] else []) + ToSources(vs[1..])
  }

  function ToCitation(es: seq<Entry>): Citation {
    var sources := Get(es, "sources", List([]));
    var text := AsStr(Get(es, "text", Null));
    Citation(if text.Some? then text.value else "",
             AsInt(Get(es, "span_start", Null)), AsInt(Get(es, "span_end", Null)),
             if sources.List? then ToSources(sources.items) else [])
  }

  function ToCitations(vs: seq<Value>): seq<Citation> {
    if vs == [] then []
    else (if IsStrMapping(vs[0]) then [ToCitation(vs[0].entries)] else []) + ToCitations(vs[1..])
  }

  /** The citations read from an attribute; none when it is not a list. */
  function LoadedCitations(a: Attribute): seq<Citation> {
    var v := Deserialize(a);
    if v.List? then ToCitations(v.items) else []
  }

  // ----- a citation read back

  function NormalSource(s: Source): Source {
    s.(metadata := NormalEntries(s.metadata))
  }

  function NormalCitation(c: Citation): Citation {
    c.(sources := NormalSources(c.sources))
  }

  function NormalCitations(cs: seq<Citation>): seq<Citation> {
    seq(|cs|, i requires 0 <= i < |cs| => NormalCitation(cs[i]))
  }

  lemma SourceReadBack(s: Source)
    ensures Normal(SourceDict(s)).Dict? && IsStrMapping(Normal(SourceDict(s)))
    ensures ToSource(Normal(SourceDict(s)).entries) == NormalSource(s)
  {
    var a, b := Entry(Str("content"), Str(s.content)), Entry(Str("location_type"), OptionalStr(s.locationType));
    var c, d := Entry(Str("uri"), OptionalStr(s.uri)), Entry(Str("metadata"), Dict(s.metadata));
    var m := Entry(Str("metadata"), Dict(NormalEntries(s.metadata)));
    FourEntries(a, b, c, d);
    assert Normal(SourceDict(s)).entries == [a, b, c, m];
    FourKeys(a, b, c, m, "content", Null);
    FourKeys(a, b, c, m, "location_type", Null);
    FourKeys(a, b, c, m, "uri", Null);
    FourKeys(a, b, c, m, "metadata", Dict([]));
  }

  lemma FourEntries(a: Entry, b: Entry, c: Entry, d: Entry)
    requires a.key.Str? && b.key.Str? && c.key.Str? && d.key.Str?
    ensures NormalEntries([a, b, c, d]) ==
            [Entry(a.key, Normal(a.value)), Entry(b.key, Normal(b.value)), Entry(c.key, Normal(c.value)),
             Entry(d.key, Normal(d.value))]
  {
    assert [a, b, c, d][1..] == [b, c, d] && [b, c, d][1..] == [c, d] && [c, d][1..] == [d] && [d][1..] == [];
    assert NormalEntries([]) == [];
    assert NormalEntries([d]) == [Entry(d.key, Normal(d.value))];
    assert NormalEntries([c, d]) == [Entry(c.key, Normal(c.value)), Entry(d.key, Normal(d.value))];
    assert NormalEntries([b, c, d]) == NormalEntry(b) + NormalEntries([c, d]);
  }

  lemma FourKeys(a: Entry, b: Entry, c: Entry, d: Entry, name: string, absent: Value)
    ensures Get([a, b, c, d], name, absent) ==
            if a.key == Str(name) then a.value else if b.key == Str(name) then b.value
            else if c.key == Str(name) then c.value else if d.key == Str(name) then d.value else absent
  {
    assert [a, b, c, d][1..] == [b, c, d] && [b, c, d][1..] == [c, d] && [c, d][1..] == [d] && [d][1..] == [];
    assert Get([d], name, absent) == if d.key == Str(name) then d.value else absent;
    assert Get([c, d], name, absent) == if c.key == Str(name) then c.value else Get([d], name, absent);
    assert Get([b, c, d], name, absent) == if b.key == Str(name) then b.value else Get([c, d], name, absent);
  }

  function NormalSources(ss: seq<Source>): seq<Source> {
    seq(|ss|, i requires 0 <= i < |ss| => NormalSource(ss[i]))
  }

  lemma ToSourcesCons(v: Value, vs: seq<Value>)
    requires IsStrMapping(v)
    ensures ToSources([v] + vs) == [ToSource(v.entries)] + ToSources(vs)
  {
    assert ([v] + vs)[1..] == vs;
  }

  lemma NormalItemsCons(v: Value, vs: seq<Value>)
    ensures NormalItems([v] + vs) == [Normal(v)] + NormalItems(vs)
  {
    assert ([v] + vs)[1..] == vs;
  }

  lemma SourceDictsStep(ss: seq<Source>)
    ensures ss != [] ==>
              && SourceDicts(ss) == [SourceDict(ss[0])] + SourceDicts(ss[1..])
              && NormalSources(ss) == [NormalSource(ss[0])] + NormalSources(ss[1..])
    ensures ss == [] ==> ToSources(NormalItems(SourceDicts(ss))) == NormalSources(ss) == []
  {
    hide SourceDict, NormalSource, ToSource, Normal;
  }

  lemma {:induction false} SourcesReadBack(ss: seq<Source>)
    ensures ToSources(NormalItems(SourceDicts(ss))) == NormalSources(ss)
  {
    SourceDictsStep(ss);
    if ss != [] {
      var d, ds := SourceDict(ss[0]), SourceDicts(ss[1..]);
      SourceReadBack(ss[0]);
      hide *;
      SourcesReadBack(ss[1..]);
      NormalItemsCons(d, ds);
      ToSourcesCons(Normal(d), NormalItems(ds));
    }
  }

  lemma CitationReadBack(c: Citation)
    ensures IsStrMapping(Normal(CitationDict(c)))
    ensures ToCitation(Normal(CitationDict(c)).entries) == NormalCitation(c)
  {
    var t, u := Entry(Str("text"), Str(c.text)), Entry(Str("span_start"), OptionalInt(c.spanStart));
    var v, w := Entry(Str("span_end"), OptionalInt(c.spanEnd)), Entry(Str("sources"), List(SourceDicts(c.sources)));
    FourEntries(t, u, v, w);
    var u', v', w' := Entry(u.key, Normal(u.value)), Entry(v.key, Normal(v.value)), Entry(w.key, Normal(w.value));
    assert Normal(CitationDict(c)).entries == [t, u', v', w'];
    FourKeys(t, u', v', w', "text", Null);
    FourKeys(t, u', v', w', "span_start", Null);
    FourKeys(t, u', v', w', "span_end", Null);
    FourKeys(t, u', v', w', "sources", List([]));
    SpanReadBack(c.spanStart);
    SpanReadBack(c.spanEnd);
    SourcesReadBack(c.sources);
  }

  lemma SpanReadBack(i: Option<int>)
    ensures AsInt(Normal(OptionalInt(i))) == i
  {
  }

  /** Storing and reading citations keeps every text, span, content, location type and uri, and puts
      the metadata into normal form. */
  lemma CitationsReadBack(cs: seq<Citation>)
    requires StorableCitations(cs)
    ensures LoadedCitations(SerializedCitations(cs).value) == NormalCitations(cs)
    ensures |NormalCitations(cs)| == |cs| && forall i | 0 <= i < |cs| :: ComesBack(cs[i], NormalCitations(cs)[i])
  {
    WrittenAndRead(cs);
    hide StorableCitations, LoadedCitations, SerializedCitations, ComesBack;
    forall i | 0 <= i < |cs| ensures ComesBack(cs[i], NormalCitations(cs)[i]) {
      NormalComesBack(cs[i]);
    }
  }

  lemma WrittenAndRead(cs: seq<Citation>)
    requires StorableCitations(cs)
    ensures LoadedCitations(SerializedCitations(cs).value) == NormalCitations(cs)
  {
    StoredValue(List(CitationDicts(cs)));
    DictsReadBack(cs);
    hide NormalCitations;
  }

  lemma NormalComesBack(c: Citation)
    ensures ComesBack(c, NormalCitation(c))
  {
    hide NormalEntries;
    forall i | 0 <= i < |c.sources|
      ensures NormalSources(c.sources)[i] == NormalSource(c.sources[i])
      ensures Dict(NormalSource(c.sources[i]).metadata) == Normal(Dict(c.sources[i].metadata))
    {
    }
  }

  /** What was written and what is read, field by field. */
  predicate ComesBack(c: Citation, r: Citation) {
    && r.text == c.text && r.spanStart == c.spanStart && r.spanEnd == c.spanEnd && |r.sources| == |c.sources|
    && forall i | 0 <= i < |c.sources| ::
       && r.sources[i].content == c.sources[i].content && r.sources[i].locationType == c.sources[i].locationType
       && r.sources[i].uri == c.sources[i].uri && Dict(r.sources[i].metadata) == Normal(Dict(c.sources[i].metadata))
  }

  /** Citations can be stored exactly when the metadata of each of their sources can. */
  lemma MetadataDecides(cs: seq<Citation>)
    ensures StorableCitations(cs) <==>
              forall c | c in cs :: forall s | s in c.sources :: Storable(Dict(s.metadata))
  {
    ListStorable(CitationDicts(cs));
    CitationsStorable(cs);
    hide Storable;
  }

  lemma {:induction false} CitationsStorable(cs: seq<Citation>)
    ensures StorableItems(CitationDicts(cs)) <==>
              forall c | c in cs :: forall s | s in c.sources :: Storable(Dict(s.metadata))
  {
    if cs != [] {
      CitationsStorable(cs[1..]);
      SourcesStorable(cs[0].sources);
      CitationStorable(cs[0]);
      hide Storable, CitationDict;
      assert cs == [cs[0]] + cs[1..] && cs[0] in cs;
      var ds := CitationDicts(cs);
      assert ds[0] == CitationDict(cs[0]) && ds[1..] == CitationDicts(cs[1..]);
    }
  }

  lemma CitationStorable(c: Citation)
    ensures Storable(CitationDict(c)) <==> StorableItems(SourceDicts(c.sources))
  {
    var t, u := Entry(Str("text"), Str(c.text)), Entry(Str("span_start"), OptionalInt(c.spanStart));
    var v, w := Entry(Str("span_end"), OptionalInt(c.spanEnd)), Entry(Str("sources"), List(SourceDicts(c.sources)));
    assert CitationDict(c) == Dict([t, u, v, w]);
    DictStorable([t, u, v, w]);
    FourStorable(t, u, v, w);
    ListStorable(SourceDicts(c.sources));
    StorableForms(t.value);
    StorableForms(u.value);
    StorableForms(v.value);
    hide Storable;
  }

  lemma FourStorable(a: Entry, b: Entry, c: Entry, d: Entry)
    ensures StorableEntries([a, b, c, d]) <==>
              StorableEntry(a) && StorableEntry(b) && StorableEntry(c) && StorableEntry(d)
  {
    assert [a, b, c, d][1..] == [b, c, d] && [b, c, d][1..] == [c, d] && [c, d][1..] == [d] && [d][1..] == [];
    assert StorableEntries([]);
    assert StorableEntries([d]) <==> StorableEntry(d);
    assert StorableEntries([c, d]) <==> StorableEntry(c) && StorableEntries([d]);
    assert StorableEntries([b, c, d]) <==> StorableEntry(b) && StorableEntries([c, d]);
  }

  lemma {:induction false} SourcesStorable(ss: seq<Source>)
    ensures StorableItems(SourceDicts(ss)) <==> forall s | s in ss :: Storable(Dict(s.metadata))
  {
    if ss != [] {
      SourcesStorable(ss[1..]);
      SourceStorable(ss[0]);
      hide Storable, SourceDict;
      assert ss == [ss[0]] + ss[1..] && ss[0] in ss;
      var ds := SourceDicts(ss);
      assert ds[0] == SourceDict(ss[0]) && ds[1..] == SourceDicts(ss[1..]);
    }
  }

  lemma SourceStorable(s: Source)
    ensures Storable(SourceDict(s)) <==> Storable(Dict(s.metadata))
  {
    var a, b := Entry(Str("content"), Str(s.content)), Entry(Str("location_type"), OptionalStr(s.locationType));
    var c, d := Entry(Str("uri"), OptionalStr(s.uri)), Entry(Str("metadata"), Dict(s.metadata));
    assert SourceDict(s) == Dict([a, b, c, d]);
    DictStorable([a, b, c, d]);
    FourStorable(a, b, c, d);
    StorableForms(a.value);
    StorableForms(b.value);
    StorableForms(c.value);
    hide Storable;
  }

  lemma DictStorable(es: seq<Entry>)
    ensures Storable(Dict(es)) <==> StorableEntries(es)
  {
  }

  lemma ListStorable(vs: seq<Value>)
    ensures Storable(List(vs)) <==> StorableItems(vs)
  {
  }

  lemma ToCitationsCons(v: Value, vs: seq<Value>)
    requires IsStrMapping(v)
    ensures ToCitations([v] + vs) == [ToCitation(v.entries)] + ToCitations(vs)
  {
    assert ([v] + vs)[1..] == vs;
  }

  lemma CitationDictsStep(cs: seq<Citation>)
    ensures cs != [] ==>
              && CitationDicts(cs) == [CitationDict(cs[0])] + CitationDicts(cs[1..])
              && NormalCitations(cs) == [NormalCitation(cs[0])] + NormalCitations(cs[1..])
    ensures cs == [] ==> ToCitations(NormalItems(CitationDicts(cs))) == NormalCitations(cs) == []
  {
    hide CitationDict, NormalCitation, ToCitation, Normal;
  }

  lemma {:induction false} DictsReadBack(cs: seq<Citation>)
    ensures ToCitations(NormalItems(CitationDicts(cs))) == NormalCitations(cs)
  {
    CitationDictsStep(cs);
    if cs != [] {
      var d, ds := CitationDict(cs[0]), CitationDicts(cs[1..]);
      CitationReadBack(cs[0]);
      hide *;
      DictsReadBack(cs[1..]);
      NormalItemsCons(d, ds);
      ToCitationsCons(Normal(d), NormalItems(ds));
    }
  }

  // ----- reading what is not of our writing

  /** The attribute of that name, if there is one. */
  function Field(ms: seq<Member>, name: string): Option<Attribute> {
    if ms == [] then None else if ms[0].name == name then Some(ms[0].value) else Field(ms[1..], name)
  }

  /** The maps of a list; anything else in it is passed over. */
  function Maps(items: seq<Attribute>): seq<seq<Member>> {
    if items == [] then [] else (if items[0].M? then [items[0].entries] else []) + Maps(items[1..])
  }

  /** A number loses its fraction towards zero. */
  predicate IsWholePart(i: int, x: real) {
    if x >= 0.0 then 0 <= i && i as real <= x < i as real + 1.0 else i <= 0 && i as real - 1.0 < x <= i as real
  }

  predicate ReadsInt(r: Option<int>, field: Option<Attribute>) {
    match field
    case Some(N(x)) => r.Some? && IsWholePart(r.value, x)
    case Some(BOOL(b)) => r == Some(if b then 1 else 0)
    case _ => r == None
  }

  predicate ReadsStr(r: Option<string>, field: Option<Attribute>) {
    match field
    case Some(S(s)) => r == Some(s)
    case _ => r == None
  }

  function TextOr(field: Option<Attribute>, default: string): string {
    if field.Some? && field.value.S? then field.value.text else default
  }

  predicate ReadsSource(s: Source, ms: seq<Member>) {
    && s.content == TextOr(Field(ms, "content"), "")
    && ReadsStr(s.locationType, Field(ms, "location_type")) && ReadsStr(s.uri, Field(ms, "uri"))
    && s.metadata == match Field(ms, "metadata") { case Some(M(entries)) => DeserializeEntries(entries) case _ => [] }
  }

  predicate ReadsSources(sources: seq<Source>, field: Option<Attribute>) {
    SourcesAre(sources, if field.Some? && field.value.L? then Maps(field.value.items) else [])
  }

  predicate ReadsCitation(c: Citation, ms: seq<Member>) {
    && c.text == TextOr(Field(ms, "text"), "")
    && ReadsInt(c.spanStart, Field(ms, "span_start")) && ReadsInt(c.spanEnd, Field(ms, "span_end"))
    && ReadsSources(c.sources, Field(ms, "sources"))
  }

  lemma {:induction false} GetField(ms: seq<Member>, name: string, absent: Value)
    ensures Get(DeserializeEntries(ms), name, absent) ==
            if Field(ms, name).Some? then Deserialize(Field(ms, name).value) else absent
  {
    if ms != [] {
      GetField(ms[1..], name, absent);
      hide Deserialize;
      assert DeserializeEntries(ms)[1..] == DeserializeEntries(ms[1..]);
    }
  }

  lemma {:induction false} NamesAreStrings(ms: seq<Member>)
    ensures IsStrMapping(Dict(DeserializeEntries(ms)))
  {
    if ms != [] {
      NamesAreStrings(ms[1..]);
      var es := DeserializeEntries(ms);
      assert forall i | 0 < i < |es| :: es[i] == DeserializeEntries(ms[1..])[i - 1];
    }
  }

  lemma SourceRead(ms: seq<Member>)
    ensures ReadsSource(ToSource(DeserializeEntries(ms)), ms)
  {
    GetField(ms, "metadata", Dict([]));
    GetField(ms, "content", Null);
    GetField(ms, "location_type", Null);
    GetField(ms, "uri", Null);
    hide DeserializeEntries, Field, Get;
  }

  /** The first of a list of attributes, and the rest. */
  lemma ItemsStep(items: seq<Attribute>)
    requires items != []
    ensures DeserializeItems(items) == [Deserialize(items[0])] + DeserializeItems(items[1..])
    ensures items[0].M? ==>
              && Maps(items) == [items[0].entries] + Maps(items[1..])
              && Deserialize(items[0]) == Dict(DeserializeEntries(items[0].entries))
    ensures !items[0].M? ==> Maps(items) == Maps(items[1..]) && !IsStrMapping(Deserialize(items[0]))
  {
  }

  lemma SourcesSkip(v: Value, vs: seq<Value>)
    requires !IsStrMapping(v)
    ensures ToSources([v] + vs) == ToSources(vs) && ToCitations([v] + vs) == ToCitations(vs)
  {
    assert ([v] + vs)[1..] == vs;
  }

  predicate SourcesAre(sources: seq<Source>, maps: seq<seq<Member>>) {
    |sources| == |maps| && forall i | 0 <= i < |maps| :: ReadsSource(sources[i], maps[i])
  }

  lemma SourcesAreMore(s: Source, sources: seq<Source>, m: seq<Member>, maps: seq<seq<Member>>)
    requires ReadsSource(s, m) && SourcesAre(sources, maps)
    ensures SourcesAre([s] + sources, [m] + maps)
  {
    hide ReadsSource;
  }

  lemma EmptyListRead()
    ensures ToSources(DeserializeItems([])) == [] && ToCitations(DeserializeItems([])) == [] && Maps([]) == []
  {
  }

  lemma {:induction false} SourcesRead(items: seq<Attribute>)
    ensures SourcesAre(ToSources(DeserializeItems(items)), Maps(items))
  {
    EmptyListRead();
    if items != [] {
      ItemsStep(items);
      hide *;
      SourcesRead(items[1..]);
      var v, vs := Deserialize(items[0]), DeserializeItems(items[1..]);
      if items[0].M? {
        var es := DeserializeEntries(items[0].entries);
        NamesAreStrings(items[0].entries);
        SourceRead(items[0].entries);
        ToSourcesCons(Dict(es), vs);
        SourcesAreMore(ToSource(es), ToSources(vs), items[0].entries, Maps(items[1..]));
      } else {
        SourcesSkip(v, vs);
      }
    }
  }

  lemma IntRead(a: Attribute)
    ensures ReadsInt(AsInt(Deserialize(a)), Some(a))
  {
  }

  lemma SpanRead(ms: seq<Member>, name: string)
    ensures ReadsInt(AsInt(Get(DeserializeEntries(ms), name, Null)), Field(ms, name))
  {
    GetField(ms, name, Null);
    if Field(ms, name).Some? { IntRead(Field(ms, name).value); }
  }

  lemma SourcesFieldRead(ms: seq<Member>)
    ensures var sources := Get(DeserializeEntries(ms), "sources", List([]));
            ReadsSources(if sources.List? then ToSources(sources.items) else [], Field(ms, "sources"))
  {
    GetField(ms, "sources", List([]));
    var field := Field(ms, "sources");
    if field.Some? && field.value.L? { SourcesRead(field.value.items); }
    assert ToSources([]) == [];
    hide DeserializeEntries, Field, Get, Maps, ToSources, ReadsSource;
  }

  lemma CitationRead(ms: seq<Member>)
    ensures ReadsCitation(ToCitation(DeserializeEntries(ms)), ms)
  {
    GetField(ms, "text", Null);
    SpanRead(ms, "span_start");
    SpanRead(ms, "span_end");
    SourcesFieldRead(ms);
    hide DeserializeEntries, Field, Get, AsInt, ToSources, ReadsInt, ReadsSources;
  }

  predicate CitationsAre(cs: seq<Citation>, maps: seq<seq<Member>>) {
    |cs| == |maps| && forall i | 0 <= i < |maps| :: ReadsCitation(cs[i], maps[i])
  }

  lemma CitationsAreMore(c: Citation, cs: seq<Citation>, m: seq<Member>, maps: seq<seq<Member>>)
    requires ReadsCitation(c, m) && CitationsAre(cs, maps)
    ensures CitationsAre([c] + cs, [m] + maps)
  {
    hide ReadsCitation;
  }

  lemma {:induction false} ListRead(items: seq<Attribute>)
    ensures CitationsAre(ToCitations(DeserializeItems(items)), Maps(items))
  {
    EmptyListRead();
    if items != [] {
      ItemsStep(items);
      hide *;
      ListRead(items[1..]);
      var v, vs := Deserialize(items[0]), DeserializeItems(items[1..]);
      if items[0].M? {
        var es := DeserializeEntries(items[0].entries);
        NamesAreStrings(items[0].entries);
        CitationRead(items[0].entries);
        ToCitationsCons(Dict(es), vs);
        CitationsAreMore(ToCitation(es), ToCitations(vs), items[0].entries, Maps(items[1..]));
      } else {
        SourcesSkip(v, vs);
      }
    }
  }

  /** Whatever is stored as citations: nothing unless it is a list, and then one citation for each map in it, made of
      its attributes of the right kind. */
  lemma AnyCitationsRead(a: Attribute)
    ensures if a.L? then CitationsAre(LoadedCitations(a), Maps(a.items)) else LoadedCitations(a) == []
  {
    if a.L? {
      ListRead(a.items);
      assert LoadedCitations(a) == ToCitations(DeserializeItems(a.items));
    }
  }
}
