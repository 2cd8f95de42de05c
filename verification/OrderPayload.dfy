/** The normal form of a create-order payload in the REST client. */
module OrderPayload {
  import opened Text
  import opened JsonTree
  import NullRemoval

  // ---------- dicts ----------

  function Lookup(d: seq<Field>, key: string): Option<Json> {
    if d == [] then None
    else if d[0].key == key then Some(d[0].value)
    else Lookup(d[1..], key)
  }

  // d[key] = value: an existing key keeps its place, a new one goes to the end.
  function Put(d: seq<Field>, key: string, value: Json): seq<Field> {
    if d == [] then [Field(key, value)]
    else if d[0].key == key then [Field(key, value)] + d[1..]
    else [d[0]] + Put(d[1..], key, value)
  }

  predicate HasKey(d: seq<Field>, key: string) {
    exists i :: 0 <= i < |d| && d[i].key == key
  }

  predicate DistinctKeys(d: seq<Field>) {
    forall i, j :: 0 <= i < j < |d| ==> d[i].key != d[j].key
  }

  lemma {:induction false} LookupPut(d: seq<Field>, key: string, value: Json, other: string)
    ensures Lookup(Put(d, key, value), other) == if other == key then Some(value) else Lookup(d, other)
  {
    if d != [] && d[0].key != key {
      LookupPut(d[1..], key, value, other);
    }
  }

  lemma {:induction false} PutNew(d: seq<Field>, key: string, value: Json)
    requires !HasKey(d, key)
    ensures Put(d, key, value) == d + [Field(key, value)]
  {
    if d != [] {
      assert d[0].key != key;
      assert forall i :: 0 <= i < |d| - 1 ==> d[1..][i] == d[i + 1];
      PutNew(d[1..], key, value);
    }
  }

  lemma {:induction false} PutSame(d: seq<Field>, key: string, value: Json)
    requires Lookup(d, key) == Some(value)
    ensures Put(d, key, value) == d
  {
    if d[0].key != key {
      PutSame(d[1..], key, value);
    } else {
      assert d == [d[0]] + d[1..];
    }
  }

  lemma {:induction false} PutKeys(d: seq<Field>, key: string, value: Json, k: string)
    ensures HasKey(Put(d, key, value), k) <==> k == key || HasKey(d, k)
  {
    var out := Put(d, key, value);
    if d == [] {
      assert out[0].key == key;
    } else if d[0].key == key {
      assert out[0].key == key && out[1..] == d[1..];
      assert forall i :: 1 <= i < |d| ==> out[i] == d[i];
    } else {
      PutKeys(d[1..], key, value, k);
      assert out == [d[0]] + Put(d[1..], key, value);
      ConsKeys(d[0], Put(d[1..], key, value), k);
      ConsKeys(d[0], d[1..], k);
      assert d == [d[0]] + d[1..];
    }
  }

  lemma ConsKeys(f: Field, d: seq<Field>, k: string)
    ensures HasKey([f] + d, k) <==> f.key == k || HasKey(d, k)
  {
    assert ([f] + d)[0] == f;
    assert forall i :: 0 <= i < |d| ==> ([f] + d)[i + 1] == d[i];
    if HasKey([f] + d, k) && f.key != k {
      var i :| 0 <= i < |[f] + d| && ([f] + d)[i].key == k;
      assert d[i - 1].key == k;
    }
  }

  lemma {:induction false} LookupKeys(d: seq<Field>, k: string)
    ensures Lookup(d, k).Some? <==> HasKey(d, k)
  {
    if d != [] {
      LookupKeys(d[1..], k);
      ConsKeys(d[0], d[1..], k);
      assert d == [d[0]] + d[1..];
    }
  }

  // ---------- camel case ----------

  // key.split(c)
  function SplitOn(s: string, c: char): (parts: seq<string>)
    ensures parts != []
    decreases |s|
  {
    var i := Find(s, c);
    if i < 0 then [s] else [s[..i]] + SplitOn(s[i + 1..], c)
  }

  function Capitalized(part: string): string {
    if part == "" then "" else [UpperChar(part[0])] + part[1..]
  }

  function CapitalizedAll(parts: seq<string>): string {
    if parts == [] then "" else Capitalized(parts[0]) + CapitalizedAll(parts[1..])
  }

  function CamelKey(key: string): string {
    if '_' !in key then key
    else
      var parts := SplitOn(key, '_');
      parts[0] + CapitalizedAll(parts[1..])
  }

  predicate FreeOf(parts: seq<string>, c: char) {
    forall i :: 0 <= i < |parts| ==> c !in parts[i]
  }

  lemma {:induction false} SplitFree(s: string, c: char)
    ensures FreeOf(SplitOn(s, c), c)
    decreases |s|
  {
    var i := Find(s, c);
    if i >= 0 {
      SplitFree(s[i + 1..], c);
    }
  }

  lemma {:induction false} CapitalizedFree(parts: seq<string>)
    requires FreeOf(parts, '_')
    ensures '_' !in CapitalizedAll(parts)
  {
    if parts != [] {
      assert '_' !in parts[0];
      assert forall i :: 0 <= i < |parts[1..]| ==> parts[1..][i] == parts[i + 1];
      CapitalizedFree(parts[1..]);
      assert parts[0] != "" ==> UpperChar(parts[0][0]) != '_';
      assert '_' !in Capitalized(parts[0]);
    }
  }

  /** A camelised key holds no underscore, so camelising again changes nothing. */
  lemma CamelKeyIdempotent(key: string)
    ensures '_' !in CamelKey(key) && CamelKey(CamelKey(key)) == CamelKey(key)
  {
    if '_' in key {
      var parts := SplitOn(key, '_');
      SplitFree(key, '_');
      assert forall i :: 0 <= i < |parts[1..]| ==> parts[1..][i] == parts[i + 1];
      CapitalizedFree(parts[1..]);
      assert '_' !in parts[0];
    }
  }

  predicate Capital(c: char) { 'A' <= c <= 'Z' }

  predicate Small(c: char) { 'a' <= c <= 'z' }

  // Every capital becomes an underscore and the small letter.
  function SnakeKey(key: string): string {
    if key == "" then ""
    else (if Capital(key[0]) then ['_', (key[0] as int + 32) as char] else [key[0]]) + SnakeKey(key[1..])
  }

  // No capital, and every underscore stands in front of a small letter.
  predicate SnakeForm(key: string) {
    forall i :: 0 <= i < |key| ==> SnakeAt(key, i)
  }

  predicate SnakeAt(key: string, i: nat)
    requires i < |key|
  {
    !Capital(key[i]) && (key[i] == '_' ==> i + 1 < |key| && Small(key[i + 1]))
  }

  lemma {:induction false} SnakeAppend(a: string, b: string)
    ensures SnakeKey(a + b) == SnakeKey(a) + SnakeKey(b)
  {
    if a == "" {
      assert a + b == b;
    } else {
      assert (a + b)[1..] == a[1..] + b;
      SnakeAppend(a[1..], b);
    }
  }

  lemma {:induction false} SnakeKeeps(s: string)
    requires forall i :: 0 <= i < |s| ==> !Capital(s[i])
    ensures SnakeKey(s) == s
  {
    if s != "" {
      SnakeKeeps(s[1..]);
    }
  }

  lemma SnakeOfCapitalized(part: string)
    requires part != "" && Small(part[0]) && forall i :: 0 <= i < |part| ==> !Capital(part[i])
    ensures SnakeKey(Capitalized(part)) == "_" + part
  {
    SnakeKeeps(part[1..]);
    var c := Capitalized(part);
    assert c[1..] == part[1..];
    assert part == [part[0]] + part[1..];
  }

  lemma AfterUnderscore(s: string, i: nat)
    requires SnakeForm(s) && i < |s| && s[i] == '_'
    ensures SnakeForm(s[i + 1..]) && s[i + 1..] != "" && Small(s[i + 1..][0])
    ensures s == s[..i] + "_" + s[i + 1..]
  {
    var more := s[i + 1..];
    assert SnakeAt(s, i);
    assert more[0] == s[i + 1];
    forall j: nat | j < |more|
      ensures SnakeAt(more, j)
    {
      assert SnakeAt(s, i + 1 + j);
      assert more[j] == s[i + 1 + j];
      assert j + 1 < |more| ==> more[j + 1] == s[i + 1 + j + 1];
    }
  }

  lemma NoCapitals(s: string, i: nat)
    requires SnakeForm(s) && i <= |s|
    ensures forall j :: 0 <= j < i ==> !Capital(s[..i][j])
  {
    forall j | 0 <= j < i
      ensures !Capital(s[..i][j])
    {
      assert SnakeAt(s, j);
    }
  }

  // The camel form of a key that holds an underscore.
  lemma CamelTail(s: string)
    requires '_' in s
    ensures var i := Find(s, '_');
            && SplitOn(s, '_') == [s[..i]] + SplitOn(s[i + 1..], '_')
            && CapitalizedAll(SplitOn(s, '_')) == Capitalized(s[..i]) + CapitalizedAll(SplitOn(s[i + 1..], '_'))
            && CamelKey(s) == s[..i] + CapitalizedAll(SplitOn(s[i + 1..], '_'))
  {
    var i := Find(s, '_');
    var rest := SplitOn(s[i + 1..], '_');
    assert ([s[..i]] + rest)[1..] == rest;
  }

  lemma {:induction false} SnakeOfTail(rest: string)
    requires SnakeForm(rest) && rest != "" && Small(rest[0])
    ensures SnakeKey(CapitalizedAll(SplitOn(rest, '_'))) == "_" + rest
    decreases |rest|
  {
    hide Capitalized, SnakeForm, SnakeKey, CapitalizedAll, SplitOn, Find;
    if '_' !in rest {
      NoCapitals(rest, |rest|);
      assert rest[..|rest|] == rest;
      OnePart(rest);
      SnakeOfCapitalized(rest);
    } else {
      var i := Find(rest, '_');
      CamelTail(rest);
      AfterUnderscore(rest, i);
      NoCapitals(rest, i);
      assert i > 0 && rest[..i][0] == rest[0];
      SnakeOfTail(rest[i + 1..]);
      SnakeOfCapitalized(rest[..i]);
      SnakeAppend(Capitalized(rest[..i]), CapitalizedAll(SplitOn(rest[i + 1..], '_')));
    }
  }

  lemma OnePart(s: string)
    requires '_' !in s
    ensures CapitalizedAll(SplitOn(s, '_')) == Capitalized(s)
  {
    assert CapitalizedAll([s][1..]) == "";
    assert Capitalized(s) + "" == Capitalized(s);
  }

  /** Camel case loses nothing of a key in snake case: putting the underscores back gives the key. */
  lemma CamelRoundTrip(key: string)
    requires SnakeForm(key)
    ensures SnakeKey(CamelKey(key)) == key
  {
    hide Capitalized, SnakeForm, SnakeKey, CapitalizedAll, SplitOn, Find;
    if '_' !in key {
      NoCapitals(key, |key|);
      assert key[..|key|] == key;
      SnakeKeeps(key);
    } else {
      var i := Find(key, '_');
      CamelTail(key);
      AfterUnderscore(key, i);
      NoCapitals(key, i);
      SnakeKeeps(key[..i]);
      SnakeOfTail(key[i + 1..]);
      SnakeAppend(key[..i], CapitalizedAll(SplitOn(key[i + 1..], '_')));
    }
  }

  // ---------- the order part ----------

  const PRICE := "pricePerShare"
  const STRATEGY := "strategy"
  const SLIPPAGE := "slippageBps"
  const EXPIRATION := "expirationMinutes"
  const PRICE_ALIAS := "price_per_share"
  const SLIPPAGE_ALIAS := "slippage_bps"
  const EXPIRATION_ALIAS := "expiration_minutes"

  // Source key and target key of each meta field, in the order in which they are copied.
  const META_FIELDS: seq<(string, string)> := [
    (PRICE, PRICE), (PRICE_ALIAS, PRICE), (STRATEGY, STRATEGY), (SLIPPAGE, SLIPPAGE),
    (SLIPPAGE_ALIAS, SLIPPAGE), (EXPIRATION, EXPIRATION), (EXPIRATION_ALIAS, EXPIRATION)]

  predicate IsMeta(key: string) {
    || key == PRICE || key == PRICE_ALIAS || key == STRATEGY || key == SLIPPAGE
    || key == SLIPPAGE_ALIAS || key == EXPIRATION || key == EXPIRATION_ALIAS
  }

  predicate GoesToOrder(f: Field) {
    f.value != Null && !IsMeta(f.key)
  }

  // The dict comprehension over the items: a repeated camelised key keeps its last value.
  function Camelized(d: seq<Field>): seq<Field> {
    if d == [] then []
    else
      var init, f := Camelized(d[..|d| - 1]), d[|d| - 1];
      if GoesToOrder(f) then Put(init, CamelKey(f.key), f.value) else init
  }

  function OrderFields(data: seq<Field>): seq<Field> {
    match Lookup(data, "order")
    case Some(Dict(o)) => o
    case _ => data
  }

  // ---------- the meta fields ----------

  function Present(v: Option<Json>): Option<Json> {
    if v == Some(Null) then None else v
  }

  function PutPresent(d: seq<Field>, key: string, v: Option<Json>): seq<Field> {
    match Present(v)
    case None => d
    case Some(value) => Put(d, key, value)
  }

  // The normalised dict after the first n meta fields were copied.
  function Copied(data: seq<Field>, n: nat): seq<Field>
    requires n <= |META_FIELDS|
  {
    if n == 0 then [Field("order", Dict(Camelized(OrderFields(data))))]
    else PutPresent(Copied(data, n - 1), META_FIELDS[n - 1].1, Lookup(data, META_FIELDS[n - 1].0))
  }

  function Normalized(data: seq<Field>): seq<Field> {
    NullRemoval.DroppedFields(Copied(data, |META_FIELDS|))
  }

  method NormalizeCreateOrderData(data: seq<Field>) returns (r: seq<Field>)
    ensures r == Normalized(data)
  {
    var normalized := [Field("order", Dict(Camelized(OrderFields(data))))];
    for i := 0 to |META_FIELDS|
      invariant normalized == Copied(data, i)
    {
      var (source, target) := META_FIELDS[i];
      var value := Lookup(data, source);
      if value != None && value != Some(Null) {
        normalized := Put(normalized, target, value.value);
      }
    }
    r := NullRemoval.DroppedFields(normalized);
  }

  function Serialized(payload: seq<Field>): seq<Field> {
    match Lookup(payload, "data")
    case Some(Dict(d)) => Put(payload, "data", Dict(Normalized(d)))
    case _ => [Field("data", Dict(Normalized(payload)))]
  }

  // ---------- the meta fields in closed form ----------

  // The present meta values; an alias that is present wins over the plain name.
  datatype Meta = Meta(price: Option<Json>, strategy: Option<Json>, slippage: Option<Json>, expiration: Option<Json>)

  function Either(plain: Option<Json>, alias: Option<Json>): Option<Json> {
    if Present(alias).Some? then Present(alias) else Present(plain)
  }

  function MetaOf(data: seq<Field>): Meta {
    Meta(Either(Lookup(data, PRICE), Lookup(data, PRICE_ALIAS)),
         Either(Lookup(data, STRATEGY), None),
         Either(Lookup(data, SLIPPAGE), Lookup(data, SLIPPAGE_ALIAS)),
         Either(Lookup(data, EXPIRATION), Lookup(data, EXPIRATION_ALIAS)))
  }

  function Entry(key: string, v: Option<Json>): seq<Field> {
    match v
    case None => []
    case Some(value) => [Field(key, value)]
  }

  function Entries(m: Meta): seq<Field> {
    Entry(PRICE, m.price)
    + (Entry(STRATEGY, m.strategy) + (Entry(SLIPPAGE, m.slippage) + Entry(EXPIRATION, m.expiration)))
  }

  lemma TwoSources(d: seq<Field>, key: string, plain: Option<Json>, alias: Option<Json>)
    requires !HasKey(d, key)
    ensures PutPresent(PutPresent(d, key, plain), key, alias)
            == d + Entry(key, Either(plain, alias))
  {
    var p, a := Present(plain), Present(alias);
    if p.Some? {
      PutNew(d, key, p.value);
      if a.Some? {
        PutLast(d, key, p.value, a.value);
      }
    } else if a.Some? {
      PutNew(d, key, a.value);
    }
  }

  lemma {:induction false} PutLast(d: seq<Field>, key: string, first: Json, second: Json)
    requires !HasKey(d, key)
    ensures Put(d + [Field(key, first)], key, second) == d + [Field(key, second)]
  {
    if d == [] {
      assert d + [Field(key, first)] == [Field(key, first)];
    } else {
      assert d[0].key != key;
      assert forall i :: 0 <= i < |d| - 1 ==> d[1..][i] == d[i + 1];
      assert (d + [Field(key, first)])[1..] == d[1..] + [Field(key, first)];
      PutLast(d[1..], key, first, second);
    }
  }

  lemma KeysDiffer()
    ensures "order" != PRICE && "order" != STRATEGY && "order" != SLIPPAGE && "order" != EXPIRATION
    ensures PRICE != STRATEGY && PRICE != SLIPPAGE && PRICE != EXPIRATION
    ensures STRATEGY != SLIPPAGE && STRATEGY != EXPIRATION && SLIPPAGE != EXPIRATION
    ensures PRICE_ALIAS != "order" && SLIPPAGE_ALIAS != "order" && EXPIRATION_ALIAS != "order"
    ensures '_' !in PRICE && '_' !in STRATEGY && '_' !in SLIPPAGE && '_' !in EXPIRATION
    ensures '_' in PRICE_ALIAS && '_' in SLIPPAGE_ALIAS && '_' in EXPIRATION_ALIAS
  {
    assert "order"[0] == 'o' && PRICE[0] == 'p' && STRATEGY[0] == 's' && SLIPPAGE[0] == 's' && EXPIRATION[0] == 'e';
    assert STRATEGY[1] == 't' && SLIPPAGE[1] == 'l';
    assert PRICE_ALIAS[0] == 'p' && SLIPPAGE_ALIAS[0] == 's' && EXPIRATION_ALIAS[0] == 'e';
    assert PRICE_ALIAS[5] == '_' && SLIPPAGE_ALIAS[8] == '_' && EXPIRATION_ALIAS[10] == '_';
  }

  lemma AppendKeys(d: seq<Field>, e: seq<Field>, k: string)
    ensures HasKey(d + e, k) <==> HasKey(d, k) || HasKey(e, k)
  {
    var s := d + e;
    if HasKey(d, k) {
      var i :| 0 <= i < |d| && d[i].key == k;
      assert s[i].key == k;
    }
    if HasKey(e, k) {
      var i :| 0 <= i < |e| && e[i].key == k;
      assert s[|d| + i].key == k;
    }
    if HasKey(s, k) {
      var i :| 0 <= i < |s| && s[i].key == k;
      assert i < |d| ==> d[i].key == k;
      assert i >= |d| ==> e[i - |d|].key == k;
    }
  }

  lemma CopyPair(data: seq<Field>, n: nat, key: string, alias: string)
    requires n + 2 <= |META_FIELDS| && META_FIELDS[n] == (key, key) && META_FIELDS[n + 1] == (alias, key)
    requires !HasKey(Copied(data, n), key)
    ensures Copied(data, n + 2) == Copied(data, n) + Entry(key, Either(Lookup(data, key), Lookup(data, alias)))
  {
    TwoSources(Copied(data, n), key, Lookup(data, key), Lookup(data, alias));
  }

  lemma CopyStrategy(data: seq<Field>)
    requires !HasKey(Copied(data, 2), STRATEGY)
    ensures Copied(data, 3) == Copied(data, 2) + Entry(STRATEGY, Either(Lookup(data, STRATEGY), None))
  {
    TwoSources(Copied(data, 2), STRATEGY, Lookup(data, STRATEGY), None);
    assert META_FIELDS[2] == (STRATEGY, STRATEGY);
  }

  lemma EntryKeys(d: seq<Field>, key: string, v: Option<Json>, k: string)
    requires !HasKey(d, k) && k != key
    ensures !HasKey(d + Entry(key, v), k)
  {
    AppendKeys(d, Entry(key, v), k);
  }

  lemma CopiedIsEntries(data: seq<Field>)
    ensures Copied(data, 7) == [Field("order", Dict(Camelized(OrderFields(data))))] + Entries(MetaOf(data))
  {
    var m := MetaOf(data);
    var d0, d2, d3, d5 := Copied(data, 0), Copied(data, 2), Copied(data, 3), Copied(data, 5);
    KeysDiffer();
    CopyPair(data, 0, PRICE, PRICE_ALIAS);
    EntryKeys(d0, PRICE, m.price, STRATEGY);
    EntryKeys(d0, PRICE, m.price, SLIPPAGE);
    EntryKeys(d0, PRICE, m.price, EXPIRATION);
    CopyStrategy(data);
    EntryKeys(d2, STRATEGY, m.strategy, SLIPPAGE);
    EntryKeys(d2, STRATEGY, m.strategy, EXPIRATION);
    CopyPair(data, 3, SLIPPAGE, SLIPPAGE_ALIAS);
    EntryKeys(d3, SLIPPAGE, m.slippage, EXPIRATION);
    CopyPair(data, 5, EXPIRATION, EXPIRATION_ALIAS);
    Regroup(d0, Entry(PRICE, m.price), Entry(STRATEGY, m.strategy), Entry(SLIPPAGE, m.slippage),
            Entry(EXPIRATION, m.expiration));
  }

  lemma Regroup(a: seq<Field>, b: seq<Field>, c: seq<Field>, d: seq<Field>, e: seq<Field>)
    ensures a + b + c + d + e == a + (b + (c + (d + e)))
  {
  }

  function DroppedOption(v: Option<Json>): Option<Json> {
    match v
    case None => None
    case Some(x) => Some(NullRemoval.Dropped(x))
  }

  function DroppedMeta(m: Meta): Meta {
    Meta(DroppedOption(m.price), DroppedOption(m.strategy), DroppedOption(m.slippage), DroppedOption(m.expiration))
  }

  lemma {:induction false} DroppedAppend(d: seq<Field>, e: seq<Field>)
    ensures NullRemoval.DroppedFields(d + e) == NullRemoval.DroppedFields(d) + NullRemoval.DroppedFields(e)
  {
    if d == [] {
      assert d + e == e;
    } else {
      assert (d + e)[1..] == d[1..] + e;
      DroppedAppend(d[1..], e);
    }
  }

  lemma DroppedEntry(key: string, v: Option<Json>)
    requires v != Some(Null)
    ensures NullRemoval.DroppedFields(Entry(key, v)) == Entry(key, DroppedOption(v))
  {
    if v.Some? {
      assert NullRemoval.DroppedFields(Entry(key, v)[1..]) == [];
    }
  }

  // The normalised data: the order, then the present meta fields, nulls dropped throughout.
  lemma NormalizedForm(data: seq<Field>)
    ensures Normalized(data)
            == [Field("order", Dict(NullRemoval.DroppedFields(Camelized(OrderFields(data)))))]
               + Entries(DroppedMeta(MetaOf(data)))
  {
    var m := MetaOf(data);
    var head := Field("order", Dict(Camelized(OrderFields(data))));
    CopiedIsEntries(data);
    DroppedAppend([head], Entries(m));
    assert NullRemoval.DroppedFields([head][1..]) == [];
    DroppedEntry(PRICE, m.price);
    DroppedEntry(STRATEGY, m.strategy);
    DroppedEntry(SLIPPAGE, m.slippage);
    DroppedEntry(EXPIRATION, m.expiration);
    var e3 := Entry(SLIPPAGE, m.slippage) + Entry(EXPIRATION, m.expiration);
    DroppedAppend(Entry(SLIPPAGE, m.slippage), Entry(EXPIRATION, m.expiration));
    DroppedAppend(Entry(STRATEGY, m.strategy), e3);
    DroppedAppend(Entry(PRICE, m.price), Entry(STRATEGY, m.strategy) + e3);
  }

  lemma EntryLookup(key: string, v: Option<Json>, rest: seq<Field>, k: string)
    ensures Lookup(Entry(key, v) + rest, k) == if v.Some? && k == key then v else Lookup(rest, k)
  {
    if v.Some? {
      assert (Entry(key, v) + rest)[1..] == rest;
    } else {
      assert Entry(key, v) + rest == rest;
    }
  }

  lemma EntriesLookup(m: Meta, order: Json, k: string)
    ensures Lookup([Field("order", order)] + Entries(m), k)
            == if k == "order" then Some(order)
               else if m.price.Some? && k == PRICE then m.price
               else if m.strategy.Some? && k == STRATEGY then m.strategy
               else if m.slippage.Some? && k == SLIPPAGE then m.slippage
               else if m.expiration.Some? && k == EXPIRATION then m.expiration
               else None
  {
    var e4 := Entry(EXPIRATION, m.expiration);
    var e3 := Entry(SLIPPAGE, m.slippage) + e4;
    EntryLookup("order", Some(order), Entries(m), k);
    EntryLookup(PRICE, m.price, Entry(STRATEGY, m.strategy) + e3, k);
    EntryLookup(STRATEGY, m.strategy, e3, k);
    EntryLookup(SLIPPAGE, m.slippage, e4, k);
    EntryLookup(EXPIRATION, m.expiration, [], k);
    assert e4 + [] == e4;
  }

  // Reading the meta fields of a normalised dict gives them back.
  lemma MetaOfNormalized(m: Meta, order: Json)
    requires m.price != Some(Null) && m.strategy != Some(Null) && m.slippage != Some(Null) && m.expiration != Some(Null)
    ensures MetaOf([Field("order", order)] + Entries(m)) == m
  {
    KeysDiffer();
    EntriesLookup(m, order, PRICE);
    EntriesLookup(m, order, PRICE_ALIAS);
    EntriesLookup(m, order, STRATEGY);
    EntriesLookup(m, order, SLIPPAGE);
    EntriesLookup(m, order, SLIPPAGE_ALIAS);
    EntriesLookup(m, order, EXPIRATION);
    EntriesLookup(m, order, EXPIRATION_ALIAS);
  }

  // ---------- camelising twice ----------

  predicate CamelForm(d: seq<Field>) {
    DistinctKeys(d) && forall i :: 0 <= i < |d| ==> d[i].value != Null && CamelKey(d[i].key) == d[i].key
  }

  lemma {:induction false} CamelizedForm(d: seq<Field>)
    ensures CamelForm(Camelized(d))
  {
    if d != [] {
      var init, f := d[..|d| - 1], d[|d| - 1];
      CamelizedForm(init);
      CamelKeyIdempotent(f.key);
      if GoesToOrder(f) {
        PutForm(Camelized(init), CamelKey(f.key), f.value);
      }
    }
  }

  lemma {:induction false} PutForm(d: seq<Field>, key: string, value: Json)
    requires CamelForm(d) && CamelKey(key) == key && value != Null
    ensures CamelForm(Put(d, key, value))
  {
    if d != [] && d[0].key != key {
      var rest := Put(d[1..], key, value);
      PutForm(d[1..], key, value);
      PutKeys(d[1..], key, value, d[0].key);
      assert !HasKey(d[1..], d[0].key);
      assert Put(d, key, value) == [d[0]] + rest;
      assert forall i :: 0 <= i < |rest| ==> rest[i].key != d[0].key;
    }
  }

  lemma {:induction false} CamelizedKeys(d: seq<Field>, k: string)
    ensures HasKey(Camelized(d), k) <==> exists i :: 0 <= i < |d| && GoesToOrder(d[i]) && CamelKey(d[i].key) == k
  {
    if d != [] {
      var init, f := d[..|d| - 1], d[|d| - 1];
      CamelizedKeys(init, k);
      if GoesToOrder(f) {
        PutKeys(Camelized(init), CamelKey(f.key), f.value, k);
      }
      if i :| 0 <= i < |init| && GoesToOrder(init[i]) && CamelKey(init[i].key) == k {
        assert GoesToOrder(d[i]) && CamelKey(d[i].key) == k;
      }
    }
  }

  // A field that the order keeps under this key.
  predicate KeptAs(f: Field, key: string) {
    && f.value != Null && CamelKey(f.key) == key
    && f.key != "pricePerShare" && f.key != "price_per_share" && f.key != "strategy" && f.key != "slippageBps"
    && f.key != "slippage_bps" && f.key != "expirationMinutes" && f.key != "expiration_minutes"
  }

  /** What an order holds under a key: the value of the last field that camelises to it, is not null and
      is none of the seven meta fields. */
  lemma {:induction false} CamelizedLookup(d: seq<Field>, key: string) returns (i: nat)
    ensures i <= |d| && forall j :: i < j < |d| ==> !KeptAs(d[j], key)
    ensures if i < |d| then KeptAs(d[i], key) && Lookup(Camelized(d), key) == Some(d[i].value)
            else Lookup(Camelized(d), key) == None && forall j :: 0 <= j < |d| ==> !KeptAs(d[j], key)
  {
    hide CamelKey;
    if d == [] {
      i := 0;
    } else {
      var n := |d| - 1;
      var init, f := d[..n], d[n];
      var k := CamelizedLookup(init, key);
      i := if KeptAs(f, key) then n else if k < n then k else n + 1;
      if GoesToOrder(f) {
        LookupPut(Camelized(init), CamelKey(f.key), f.value, key);
      }
      assert forall j :: 0 <= j < n ==> init[j] == d[j];
    }
  }

  // What a meta field is sent as: the alias, where it is there and not null, before the plain name.
  predicate SentAs(data: seq<Field>, key: string, alias: string) {
    var sent, plain, other := Lookup(Normalized(data), key), Lookup(data, key), Lookup(data, alias);
    if other != None && other != Some(Null) then sent == Some(NullRemoval.Dropped(other.value))
    else if plain != None && plain != Some(Null) then sent == Some(NullRemoval.Dropped(plain.value))
    else sent == None
  }

  /** What is sent beside the order: each of the four meta fields under its camel-case name. */
  lemma MetaSent(data: seq<Field>)
    ensures SentAs(data, "pricePerShare", "price_per_share") && SentAs(data, "slippageBps", "slippage_bps")
    ensures SentAs(data, "expirationMinutes", "expiration_minutes") && SentAs(data, "strategy", "strategy")
  {
    hide Normalized, NullRemoval.Dropped, Camelized, Lookup;
    NormalizedForm(data);
    KeysDiffer();
    var order := Dict(NullRemoval.DroppedFields(Camelized(OrderFields(data))));
    var m := DroppedMeta(MetaOf(data));
    EntriesLookup(m, order, PRICE);
    EntriesLookup(m, order, STRATEGY);
    EntriesLookup(m, order, SLIPPAGE);
    EntriesLookup(m, order, EXPIRATION);
  }

  // The fields whose keys are no meta field names.
  function NonMeta(d: seq<Field>): seq<Field> {
    if d == [] then []
    else NonMeta(d[..|d| - 1]) + if IsMeta(d[|d| - 1].key) then [] else [d[|d| - 1]]
  }

  lemma {:induction false} NonMetaLength(d: seq<Field>)
    ensures |NonMeta(d)| <= |d|
  {
    hide IsMeta;
    if d != [] {
      NonMetaLength(d[..|d| - 1]);
    }
  }

  lemma {:induction false} NonMetaAll(d: seq<Field>)
    requires forall i :: 0 <= i < |d| ==> !IsMeta(d[i].key)
    ensures NonMeta(d) == d
  {
    hide IsMeta;
    if d != [] {
      var init, last := d[..|d| - 1], d[|d| - 1];
      NonMetaAll(init);
      assert !IsMeta(last.key);
      assert d == init + [last];
    }
  }

  lemma {:induction false} NonMetaKeys(d: seq<Field>, k: string)
    ensures HasKey(NonMeta(d), k) ==> HasKey(d, k)
  {
    if d != [] {
      var init, f := d[..|d| - 1], d[|d| - 1];
      NonMetaKeys(init, k);
      assert d == init + [f];
      AppendKeys(init, [f], k);
      AppendKeys(NonMeta(init), if IsMeta(f.key) then [] else [f], k);
    }
  }

  lemma {:induction false} CamelizedAgain(d: seq<Field>)
    requires CamelForm(d)
    ensures Camelized(d) == NonMeta(d)
  {
    if d != [] {
      var init, f := d[..|d| - 1], d[|d| - 1];
      CamelizedAgain(init);
      NonMetaKeys(init, f.key);
      assert !HasKey(init, f.key);
      if !IsMeta(f.key) {
        PutNew(NonMeta(init), f.key, f.value);
      }
    }
  }

  lemma {:induction false} DroppedKeepsForm(d: seq<Field>)
    requires forall i :: 0 <= i < |d| ==> d[i].value != Null
    ensures var out := NullRemoval.DroppedFields(d);
            |out| == |d| && forall i :: 0 <= i < |d| ==> out[i].key == d[i].key && out[i].value != Null
  {
    if d != [] {
      DroppedKeepsForm(d[1..]);
      var out := NullRemoval.DroppedFields(d);
      assert out[1..] == NullRemoval.DroppedFields(d[1..]);
      assert forall i :: 1 <= i < |d| ==> out[i] == out[1..][i - 1] && d[i] == d[1..][i - 1];
    }
  }

  lemma {:induction false} DroppedNoLonger(d: seq<Field>)
    ensures |NullRemoval.DroppedFields(d)| <= |d|
  {
    if d != [] {
      DroppedNoLonger(d[1..]);
    }
  }

  // A field that camelises into the name of a meta field without being one.
  predicate Hijacks(f: Field) {
    GoesToOrder(f) && IsMeta(CamelKey(f.key))
  }

  predicate NoHijack(d: seq<Field>) {
    forall i :: 0 <= i < |d| ==> !Hijacks(d[i])
  }

  lemma OrderPartTwice(source: seq<Field>)
    ensures var order := NullRemoval.DroppedFields(Camelized(source));
            NullRemoval.DroppedFields(Camelized(order)) == order <==> NoHijack(source)
  {
    var camel := Camelized(source);
    var order := NullRemoval.DroppedFields(camel);
    CamelizedForm(source);
    DroppedKeepsForm(camel);
    assert CamelForm(order);
    CamelizedAgain(order);
    if NoHijack(source) {
      forall i | 0 <= i < |order|
        ensures !IsMeta(order[i].key)
      {
        CamelizedKeys(source, camel[i].key);
        assert HasKey(camel, camel[i].key);
      }
      NonMetaAll(order);
      NullRemoval.DroppedFieldsIdempotent(camel);
    } else {
      var i :| 0 <= i < |source| && Hijacks(source[i]);
      CamelizedKeys(source, CamelKey(source[i].key));
      var j :| 0 <= j < |camel| && camel[j].key == CamelKey(source[i].key);
      assert IsMeta(order[j].key);
      ShorterWithMeta(order, j);
      DroppedNoLonger(NonMeta(order));
    }
  }

  lemma {:induction false} ShorterWithMeta(d: seq<Field>, j: nat)
    requires j < |d| && IsMeta(d[j].key)
    ensures |NonMeta(d)| < |d|
  {
    var init := d[..|d| - 1];
    NonMetaLength(init);
    if j < |d| - 1 {
      ShorterWithMeta(init, j);
    }
  }

  lemma NormalizedTwice(data: seq<Field>)
    ensures Normalized(Normalized(data)) == Normalized(data) <==> NoHijack(OrderFields(data))
  {
    var m := MetaOf(data);
    var dm := DroppedMeta(m);
    var order := NullRemoval.DroppedFields(Camelized(OrderFields(data)));
    var again := NullRemoval.DroppedFields(Camelized(order));
    var once := Normalized(data);
    NormalizedForm(data);
    assert DroppedMeta(dm) == dm by {
      forall v: Json
        ensures NullRemoval.Dropped(NullRemoval.Dropped(v)) == NullRemoval.Dropped(v)
      {
        NullRemoval.DroppedIdempotent(v);
      }
    }
    EntriesLookup(dm, Dict(order), "order");
    assert OrderFields(once) == order;
    MetaOfNormalized(dm, Dict(order));
    NormalizedForm(once);
    assert Normalized(once) == [Field("order", Dict(again))] + Entries(dm);
    assert Normalized(once)[0] == Field("order", Dict(again)) && once[0] == Field("order", Dict(order));
    OrderPartTwice(OrderFields(data));
  }

  // The dict that holds the order fields of a payload in any of the accepted shapes.
  function DataOf(payload: seq<Field>): seq<Field> {
    match Lookup(payload, "data")
    case Some(Dict(d)) => d
    case _ => payload
  }

  /** Serialising a payload twice gives the same as once if and only if no order field camelises
      into the name of a meta field; such a field would be dropped the second time. */
  lemma SerializeIdempotentIff(payload: seq<Field>)
    ensures Serialized(Serialized(payload)) == Serialized(payload)
            <==> NoHijack(OrderFields(DataOf(payload)))
  {
    var data := DataOf(payload);
    var once := Serialized(payload);
    var n1, n2 := Normalized(data), Normalized(Normalized(data));
    NormalizedTwice(data);
    if Lookup(payload, "data").Some? && Lookup(payload, "data").value.Dict? {
      LookupPut(payload, "data", Dict(n1), "data");
    }
    assert Lookup(once, "data") == Some(Dict(n1));
    assert Serialized(once) == Put(once, "data", Dict(n2));
    LookupPut(once, "data", Dict(n2), "data");
    if n1 == n2 {
      PutSame(once, "data", Dict(n1));
    }
  }

  // ---------- the accepted shapes ----------

  predicate HoldsDict(d: seq<Field>, key: string) {
    match Lookup(d, key)
    case Some(Dict(_)) => true
    case _ => false
  }

  lemma {:induction false} CamelizedOfNonMeta(d: seq<Field>)
    ensures Camelized(NonMeta(d)) == Camelized(d)
  {
    if d != [] {
      var init, f := d[..|d| - 1], d[|d| - 1];
      CamelizedOfNonMeta(init);
      if IsMeta(f.key) {
        assert NonMeta(d) == NonMeta(init);
      } else {
        assert NonMeta(d)[..|NonMeta(d)| - 1] == NonMeta(init);
      }
    }
  }

  /** The flat form of an order, with its meta fields anywhere among the order fields, the form
      with the order under "order", and both of these under "data" serialise identically. */
  lemma ShapesSerializeAlike(order: seq<Field>, flat: seq<Field>, wrapped: seq<Field>)
    requires NonMeta(flat) == NonMeta(order) && Lookup(wrapped, "order") == Some(Dict(order))
    requires !HoldsDict(flat, "order") && !HoldsDict(flat, "data") && !HoldsDict(wrapped, "data")
    requires MetaOf(flat) == MetaOf(wrapped)
    ensures Serialized(flat) == Serialized(wrapped)
    ensures Serialized([Field("data", Dict(flat))]) == Serialized(flat)
    ensures Serialized([Field("data", Dict(wrapped))]) == Serialized(wrapped)
  {
    CamelizedOfNonMeta(flat);
    CamelizedOfNonMeta(order);
    NormalizedForm(flat);
    NormalizedForm(wrapped);
    assert Normalized(flat) == Normalized(wrapped);
    assert Put([Field("data", Dict(flat))], "data", Dict(Normalized(flat))) == [Field("data", Dict(Normalized(flat)))];
    assert Put([Field("data", Dict(wrapped))], "data", Dict(Normalized(wrapped)))
           == [Field("data", Dict(Normalized(wrapped)))];
  }

  /** The condition can fail: a key that is "strategy" with a trailing underscore camelises to the
      meta field name. */
  lemma HijackExample()
    ensures !NoHijack([Field(STRATEGY + "_", Text("x"))])
    ensures var p := [Field(STRATEGY + "_", Text("x"))]; Serialized(Serialized(p)) != Serialized(p)
  {
    var p := [Field(STRATEGY + "_", Text("x"))];
    KeysDiffer();
    TrailingUnderscore(STRATEGY);
    TrailingIsNoMeta(STRATEGY);
    assert Hijacks(p[0]);
    assert p[0].key[0] == 's' && "data"[0] == 'd' && "order"[0] == 'o';
    assert Lookup(p[1..], "data") == None && Lookup(p[1..], "order") == None;
    SerializeIdempotentIff(p);
  }

  lemma TrailingUnderscore(head: string)
    requires '_' !in head
    ensures CamelKey(head + "_") == head
  {
    var key := head + "_";
    assert key[|head|] == '_';
    FindAt(key, '_', |head|);
    assert key[..|head|] == head && key[|head| + 1..] == "";
    assert SplitOn("", '_') == [""];
    assert SplitOn(key, '_') == [head] + [""];
    assert ([head] + [""])[1..] == [""];
    assert CapitalizedAll([""]) == Capitalized("") + CapitalizedAll([""][1..]);
    assert head + "" == head;
  }

  lemma TrailingIsNoMeta(head: string)
    ensures !IsMeta(head + "_")
  {
    assert (head + "_")[|head|] == '_';
    assert PRICE[|PRICE| - 1] == 'e' && PRICE_ALIAS[|PRICE_ALIAS| - 1] == 'e' && STRATEGY[|STRATEGY| - 1] == 'y';
    assert SLIPPAGE[|SLIPPAGE| - 1] == 's' && SLIPPAGE_ALIAS[|SLIPPAGE_ALIAS| - 1] == 's';
    assert EXPIRATION[|EXPIRATION| - 1] == 's' && EXPIRATION_ALIAS[|EXPIRATION_ALIAS| - 1] == 's';
  }
}
