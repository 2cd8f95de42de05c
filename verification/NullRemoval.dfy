/** The two independent implementations of null removal: the bridge cleans tool arguments, the
    REST client cleans order payloads. */
module NullRemoval {
  import opened JsonTree

  // ---------- the bridge: _drop_none_values ----------

  function Cleaned(v: Json): Json
    decreases v, 1
  {
    match v
    case Dict(fields) => Dict(CleanedFields(fields))
    case List(items) => List(CleanedItems(items))
    case Tuple(items) => List(CleanedItems(items))
    case _ => v
  }

  function CleanedFields(fields: seq<Field>): seq<Field>
    decreases fields, 0
  {
    if fields == [] then []
    else CleanedFields(fields[..|fields| - 1]) + CleanedField(fields[|fields| - 1])
  }

  function CleanedField(f: Field): seq<Field>
    decreases f, 2
  {
    var normalized := Cleaned(f.value);
    if normalized == Null then [] else [Field(f.key, normalized)]
  }

  function CleanedItems(items: seq<Json>): seq<Json>
    decreases items, 0
  {
    if items == [] then []
    else CleanedItems(items[..|items| - 1]) + CleanedItem(items[|items| - 1])
  }

  function CleanedItem(v: Json): seq<Json>
    decreases v, 2
  {
    var normalized := Cleaned(v);
    if normalized == Null then [] else [normalized]
  }

  method DropNoneValues(value: Json) returns (r: Json)
    ensures r == Cleaned(value)
    decreases value
  {
    match value
    case Dict(fields) =>
      var cleaned: seq<Field> := [];
      for i := 0 to |fields|
        invariant cleaned == CleanedFields(fields[..i])
      {
        var normalized := DropNoneValues(fields[i].value);
        if normalized != Null {
          cleaned := cleaned + [Field(fields[i].key, normalized)];
        }
        assert fields[..i + 1][..i] == fields[..i];
      }
      assert fields[..|fields|] == fields;
      r := Dict(cleaned);
    case List(items) =>
      r := DropNoneItems(value, items);
    case Tuple(items) =>
      r := DropNoneItems(value, items);
    case _ =>
      r := value;
  }

  method DropNoneItems(ghost value: Json, items: seq<Json>) returns (r: Json)
    requires value == List(items) || value == Tuple(items)
    ensures r == List(CleanedItems(items))
    decreases value, 0
  {
    var cleaned: seq<Json> := [];
    for i := 0 to |items|
      invariant cleaned == CleanedItems(items[..i])
    {
      var normalized := DropNoneValues(items[i]);
      if normalized != Null {
        cleaned := cleaned + [normalized];
      }
      assert items[..i + 1][..i] == items[..i];
    }
    assert items[..|items|] == items;
    r := List(cleaned);
  }

  // ---------- the REST client: _drop_none ----------

  function Dropped(v: Json): Json
    decreases v, 1
  {
    match v
    case Dict(fields) => Dict(DroppedFields(fields))
    case List(items) => List(DroppedItems(items))
    case _ => v
  }

  function DroppedFields(fields: seq<Field>): seq<Field>
    decreases fields, 0
  {
    if fields == [] then []
    else if fields[0].value == Null then DroppedFields(fields[1..])
    else [Field(fields[0].key, Dropped(fields[0].value))] + DroppedFields(fields[1..])
  }

  function DroppedItems(items: seq<Json>): seq<Json>
    decreases items, 0
  {
    if items == [] then []
    else if items[0] == Null then DroppedItems(items[1..])
    else [Dropped(items[0])] + DroppedItems(items[1..])
  }

  // ---------- shape ----------

  predicate NoTuple(v: Json)
    decreases v, 1
  {
    match v
    case Tuple(_) => false
    case List(items) => ItemsNoTuple(items)
    case Dict(fields) => FieldsNoTuple(fields)
    case _ => true
  }

  predicate FieldsNoTuple(fields: seq<Field>)
    decreases fields, 0
  {
    fields == [] || (NoTuple(fields[0].value) && FieldsNoTuple(fields[1..]))
  }

  predicate ItemsNoTuple(items: seq<Json>)
    decreases items, 0
  {
    items == [] || (NoTuple(items[0]) && ItemsNoTuple(items[1..]))
  }

  // No null anywhere below the root.
  predicate NoNullBelow(v: Json)
    decreases v, 1
  {
    match v
    case List(items) => ItemsNoNull(items)
    case Tuple(items) => ItemsNoNull(items)
    case Dict(fields) => FieldsNoNull(fields)
    case _ => true
  }

  predicate FieldsNoNull(fields: seq<Field>)
    decreases fields, 0
  {
    fields == [] || (fields[0].value != Null && NoNullBelow(fields[0].value) && FieldsNoNull(fields[1..]))
  }

  predicate ItemsNoNull(items: seq<Json>)
    decreases items, 0
  {
    items == [] || (items[0] != Null && NoNullBelow(items[0]) && ItemsNoNull(items[1..]))
  }

  // ---------- the two agree exactly on trees without tuples ----------

  // The bridge's fields, taken from the front.
  lemma {:induction false} CleanedFieldsFront(fields: seq<Field>)
    requires fields != []
    ensures CleanedFields(fields) == CleanedField(fields[0]) + CleanedFields(fields[1..])
  {
    if |fields| == 1 {
      assert fields[..0] == [] && fields[1..] == [];
    } else {
      var init := fields[..|fields| - 1];
      CleanedFieldsFront(init);
      var rest := fields[1..];
      assert rest[..|rest| - 1] == init[1..] && rest[|rest| - 1] == fields[|fields| - 1];
    }
  }

  lemma {:induction false} CleanedItemsFront(items: seq<Json>)
    requires items != []
    ensures CleanedItems(items) == CleanedItem(items[0]) + CleanedItems(items[1..])
  {
    if |items| == 1 {
      assert items[..0] == [] && items[1..] == [];
    } else {
      var init := items[..|items| - 1];
      CleanedItemsFront(init);
      var rest := items[1..];
      assert rest[..|rest| - 1] == init[1..] && rest[|rest| - 1] == items[|items| - 1];
    }
  }

  lemma {:induction false} AgreeWithoutTuples(v: Json)
    requires NoTuple(v)
    ensures Cleaned(v) == Dropped(v)
    decreases v, 1
  {
    match v
    case Dict(fields) => AgreeOnFields(fields);
    case List(items) => AgreeOnItems(items);
    case _ =>
  }

  lemma {:induction false} AgreeOnFields(fields: seq<Field>)
    requires FieldsNoTuple(fields)
    ensures CleanedFields(fields) == DroppedFields(fields)
    decreases fields, 0
  {
    if fields != [] {
      AgreeWithoutTuples(fields[0].value);
      AgreeOnFields(fields[1..]);
      CleanedFieldsFront(fields);
    }
  }

  lemma {:induction false} AgreeOnItems(items: seq<Json>)
    requires ItemsNoTuple(items)
    ensures CleanedItems(items) == DroppedItems(items)
    decreases items, 0
  {
    if items != [] {
      AgreeWithoutTuples(items[0]);
      AgreeOnItems(items[1..]);
      CleanedItemsFront(items);
    }
  }

  // The bridge's result is free of tuples and, below the root, of nulls.
  lemma {:induction false} CleanedShape(v: Json)
    ensures NoTuple(Cleaned(v)) && NoNullBelow(Cleaned(v))
    decreases v, 1
  {
    match v
    case Dict(fields) => CleanedFieldsShape(fields);
    case List(items) => CleanedItemsShape(items);
    case Tuple(items) => CleanedItemsShape(items);
    case _ =>
  }

  lemma {:induction false} CleanedFieldsShape(fields: seq<Field>)
    ensures FieldsNoTuple(CleanedFields(fields)) && FieldsNoNull(CleanedFields(fields))
    decreases fields, 0
  {
    if fields != [] {
      CleanedFieldsFront(fields);
      CleanedFieldsShape(fields[1..]);
      CleanedShape(fields[0].value);
      if CleanedField(fields[0]) == [] {
        assert CleanedFields(fields) == CleanedFields(fields[1..]);
      } else {
        assert CleanedFields(fields)[1..] == CleanedFields(fields[1..]);
      }
    }
  }

  lemma {:induction false} CleanedItemsShape(items: seq<Json>)
    ensures ItemsNoTuple(CleanedItems(items)) && ItemsNoNull(CleanedItems(items))
    decreases items, 0
  {
    if items != [] {
      CleanedItemsFront(items);
      CleanedItemsShape(items[1..]);
      CleanedShape(items[0]);
      if CleanedItem(items[0]) == [] {
        assert CleanedItems(items) == CleanedItems(items[1..]);
      } else {
        assert CleanedItems(items)[1..] == CleanedItems(items[1..]);
      }
    }
  }

  // The REST client keeps every tuple it meets.
  lemma {:induction false} DroppedKeepsTuples(v: Json)
    ensures NoTuple(Dropped(v)) <==> NoTuple(v)
    decreases v, 1
  {
    match v
    case Dict(fields) => DroppedFieldsKeepTuples(fields);
    case List(items) => DroppedItemsKeepTuples(items);
    case _ =>
  }

  lemma {:induction false} DroppedFieldsKeepTuples(fields: seq<Field>)
    ensures FieldsNoTuple(DroppedFields(fields)) <==> FieldsNoTuple(fields)
    decreases fields, 0
  {
    if fields != [] {
      DroppedKeepsTuples(fields[0].value);
      DroppedFieldsKeepTuples(fields[1..]);
      assert fields[0].value != Null ==> DroppedFields(fields)[1..] == DroppedFields(fields[1..]);
    }
  }

  lemma {:induction false} DroppedItemsKeepTuples(items: seq<Json>)
    ensures ItemsNoTuple(DroppedItems(items)) <==> ItemsNoTuple(items)
    decreases items, 0
  {
    if items != [] {
      DroppedKeepsTuples(items[0]);
      DroppedItemsKeepTuples(items[1..]);
      assert items[0] != Null ==> DroppedItems(items)[1..] == DroppedItems(items[1..]);
    }
  }

  /** The two implementations give the same tree if and only if the input holds no tuple. */
  lemma NullRemoversAgreeIff(v: Json)
    ensures Cleaned(v) == Dropped(v) <==> NoTuple(v)
  {
    if NoTuple(v) {
      AgreeWithoutTuples(v);
    }
    if Cleaned(v) == Dropped(v) {
      CleanedShape(v);
      DroppedKeepsTuples(v);
    }
  }

  // ---------- fixed points ----------

  lemma {:induction false} CleanIsFixed(v: Json)
    requires NoTuple(v) && NoNullBelow(v)
    ensures Dropped(v) == v
    decreases v, 1
  {
    match v
    case Dict(fields) => CleanFieldsFixed(fields);
    case List(items) => CleanItemsFixed(items);
    case _ =>
  }

  lemma {:induction false} CleanFieldsFixed(fields: seq<Field>)
    requires FieldsNoTuple(fields) && FieldsNoNull(fields)
    ensures DroppedFields(fields) == fields
    decreases fields, 0
  {
    if fields != [] {
      CleanIsFixed(fields[0].value);
      CleanFieldsFixed(fields[1..]);
    }
  }

  lemma {:induction false} CleanItemsFixed(items: seq<Json>)
    requires ItemsNoTuple(items) && ItemsNoNull(items)
    ensures DroppedItems(items) == items
    decreases items, 0
  {
    if items != [] {
      CleanIsFixed(items[0]);
      CleanItemsFixed(items[1..]);
    }
  }

  /** Cleaning leaves no null below the root, and cleaning again, with either implementation,
      changes nothing. */
  lemma CleanedIsFixedPoint(v: Json)
    ensures NoNullBelow(Cleaned(v))
    ensures Cleaned(Cleaned(v)) == Cleaned(v) && Dropped(Cleaned(v)) == Cleaned(v)
  {
    CleanedShape(v);
    CleanIsFixed(Cleaned(v));
    AgreeWithoutTuples(Cleaned(v));
  }

  // ---------- what is kept ----------

  datatype Edge = Key(name: string) | Element

  datatype Kind = DictNode | ListNode | Leaf(value: Json)

  datatype Node = Node(path: seq<Edge>, kind: Kind)

  // Every node that a path without a null reaches, in reading order, with its path. A tuple and
  // the list made of it count as the same kind of node.
  function Nodes(v: Json, path: seq<Edge>): seq<Node>
    decreases v, 1
  {
    match v
    case Null => []
    case Dict(fields) => [Node(path, DictNode)] + FieldNodes(fields, path)
    case List(items) => [Node(path, ListNode)] + ItemNodes(items, path)
    case Tuple(items) => [Node(path, ListNode)] + ItemNodes(items, path)
    case _ => [Node(path, Leaf(v))]
  }

  function FieldNodes(fields: seq<Field>, path: seq<Edge>): seq<Node>
    decreases fields, 0
  {
    if fields == [] then []
    else Nodes(fields[0].value, path + [Key(fields[0].key)]) + FieldNodes(fields[1..], path)
  }

  function ItemNodes(items: seq<Json>, path: seq<Edge>): seq<Node>
    decreases items, 0
  {
    if items == [] then [] else Nodes(items[0], path + [Element]) + ItemNodes(items[1..], path)
  }

  /** Cleaning keeps every node reached by a null-free path, containers included, under the same
      path and in the same order, and adds none. */
  lemma {:induction false} CleanedKeepsNodes(v: Json, path: seq<Edge>)
    ensures Nodes(Cleaned(v), path) == Nodes(v, path)
    decreases v, 1
  {
    match v
    case Dict(fields) => CleanedKeepsFields(fields, path);
    case List(items) => CleanedKeepsItems(items, path);
    case Tuple(items) => CleanedKeepsItems(items, path);
    case _ =>
  }

  lemma {:induction false} CleanedKeepsFields(fields: seq<Field>, path: seq<Edge>)
    ensures FieldNodes(CleanedFields(fields), path) == FieldNodes(fields, path)
    decreases fields, 0
  {
    if fields != [] {
      var head, rest := fields[0], CleanedFields(fields[1..]);
      CleanedFieldsFront(fields);
      CleanedKeepsNodes(head.value, path + [Key(head.key)]);
      CleanedKeepsFields(fields[1..], path);
      if Cleaned(head.value) == Null {
        assert CleanedFields(fields) == rest;
      } else {
        var first := Field(head.key, Cleaned(head.value));
        assert CleanedFields(fields) == [first] + rest;
        assert ([first] + rest)[1..] == rest;
      }
    }
  }

  lemma {:induction false} CleanedKeepsItems(items: seq<Json>, path: seq<Edge>)
    ensures ItemNodes(CleanedItems(items), path) == ItemNodes(items, path)
    decreases items, 0
  {
    if items != [] {
      var rest := CleanedItems(items[1..]);
      CleanedItemsFront(items);
      CleanedKeepsNodes(items[0], path + [Element]);
      CleanedKeepsItems(items[1..], path);
      if Cleaned(items[0]) == Null {
        assert CleanedItems(items) == rest;
      } else {
        assert CleanedItems(items) == [Cleaned(items[0])] + rest;
        assert ([Cleaned(items[0])] + rest)[1..] == rest;
      }
    }
  }

  // ---------- the REST client's version on its own ----------

  /** Dropping nulls twice drops nothing more, with or without tuples. */
  lemma {:induction false} DroppedIdempotent(v: Json)
    ensures Dropped(Dropped(v)) == Dropped(v)
    decreases v, 1
  {
    match v
    case Dict(fields) => DroppedFieldsIdempotent(fields);
    case List(items) => DroppedItemsIdempotent(items);
    case _ =>
  }

  lemma {:induction false} DroppedFieldsIdempotent(fields: seq<Field>)
    ensures DroppedFields(DroppedFields(fields)) == DroppedFields(fields)
    decreases fields, 0
  {
    if fields != [] {
      DroppedIdempotent(fields[0].value);
      DroppedFieldsIdempotent(fields[1..]);
      assert fields[0].value != Null ==> DroppedFields(fields)[1..] == DroppedFields(fields[1..]);
    }
  }

  lemma {:induction false} DroppedItemsIdempotent(items: seq<Json>)
    ensures DroppedItems(DroppedItems(items)) == DroppedItems(items)
    decreases items, 0
  {
    if items != [] {
      DroppedIdempotent(items[0]);
      DroppedItemsIdempotent(items[1..]);
      assert items[0] != Null ==> DroppedItems(items)[1..] == DroppedItems(items[1..]);
    }
  }
}
