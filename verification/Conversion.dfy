/** Configuration values as YAML nodes and back (config/convert.h), over a universe of types: fixed-width integers and
  * enumerations, booleans, strings, and lists, sets and string-keyed maps of them, nested to any depth. */
module Conversion {
  import opened Options
  import opened ConfigNames
  import opened Numerals
  import opened ScalarParsing

  /** An integer type is its range; an enumeration converts as its underlying type. A list stands for a vector or a
    * list, a set or map for an ordered or unordered one. */
  datatype Type =
    | BoolType
    | StringType
    | IntegerType(lo: int, hi: int)
    | EnumType(underlyingLo: int, underlyingHi: int)
    | ListType(element: Type)
    | SetType(element: Type)
    | MapType(element: Type)

  datatype Value =
    | Bool(b: bool)
    | Text(text: string)
    | Integer(n: int)
    | Elements(items: seq<Value>)
    | Members(members: set<Value>)
    | Entries(entries: map<string, Value>)

  datatype Node =
    | Undefined
    | Null
    | Scalar(text: string)
    | Sequence(nodes: seq<Node>)
    | Mapping(pairs: seq<(Node, Node)>)

  ghost predicate HasType(v: Value, t: Type)
    decreases t
  {
    match t
    case BoolType => v.Bool?
    case StringType => v.Text?
    case IntegerType(lo, hi) => v.Integer? && lo <= v.n <= hi
    case EnumType(lo, hi) => v.Integer? && lo <= v.n <= hi
    case ListType(element) => v.Elements? && forall i :: 0 <= i < |v.items| ==> HasType(v.items[i], element)
    case SetType(element) => v.Members? && forall x :: x in v.members ==> HasType(x, element)
    case MapType(element) => v.Entries? && forall k :: k in v.entries ==> HasType(v.entries[k], element)
  }

  // ---- from nodes

  /** ConfigConvert::FromNode; nothing when it throws. */
  function FromNode(t: Type, node: Node): Option<Value>
    decreases t, 0, 0
  {
    match t
    case BoolType =>
      if !node.Scalar? || BoolOf(node.text).None? then None else Some(Bool(BoolOf(node.text).value))
    case StringType => if node.Scalar? then Some(Text(node.text)) else None
    case IntegerType(lo, hi) => IntegerFrom(node, lo, hi)
    case EnumType(lo, hi) => IntegerFrom(node, lo, hi)
    case ListType(element) =>
      if !node.Sequence? then None
      else
        var items := AllFrom(element, node.nodes, |node.nodes|);
        if items.None? then None else Some(Elements(items.value))
    case SetType(element) =>
      if !node.Sequence? then None
      else
        var items := AllFrom(element, node.nodes, |node.nodes|);
        if items.None? then None else Some(Members(set x | x in items.value))
    case MapType(element) =>
      if !node.Mapping? then None
      else
        var entries := PairsFrom(element, node.pairs, |node.pairs|);
        if entries.None? then None else Some(Entries(entries.value))
  }

  function IntegerFrom(node: Node, lo: int, hi: int): Option<Value> {
    if !node.Scalar? || ParseInteger(node.text, lo, hi).None? then None
    else Some(Integer(ParseInteger(node.text, lo, hi).value))
  }

  /** The first `n` nodes of a sequence, in order. */
  function AllFrom(element: Type, nodes: seq<Node>, n: nat): (items: Option<seq<Value>>)
    requires n <= |nodes|
    ensures items.Some? ==> |items.value| == n
    decreases element, 1, n
  {
    if n == 0 then Some([])
    else
      var front := AllFrom(element, nodes, n - 1);
      var last := FromNode(element, nodes[n - 1]);
      if front.None? || last.None? then None else Some(front.value + [last.value])
  }

  /** The first `n` pairs of a mapping: keys must be scalars, and of equal keys the first is kept. */
  function PairsFrom(element: Type, pairs: seq<(Node, Node)>, n: nat): Option<map<string, Value>>
    requires n <= |pairs|
    decreases element, 1, n
  {
    if n == 0 then Some(map[])
    else
      var front := PairsFrom(element, pairs, n - 1);
      var (key, node) := pairs[n - 1];
      var value := FromNode(element, node);
      if front.None? || !key.Scalar? || value.None? then None
      else if key.text in front.value then front
      else Some(front.value[key.text := value.value])
  }

  // ---- to nodes

  /** The nodes that ToNode may yield for a value: sets and maps are written in whatever order they are iterated. */
  ghost predicate Writes(t: Type, v: Value, node: Node)
    decreases t, 0
  {
    match t
    case BoolType => v.Bool? && node == Scalar(if v.b then "true" else "false")
    case StringType => v.Text? && node == Scalar(v.text)
    case IntegerType(_, _) => v.Integer? && node == Scalar(ToChars(v.n))
    case EnumType(_, _) => v.Integer? && node == Scalar(ToChars(v.n))
    case ListType(element) =>
      v.Elements? && node.Sequence? && WritesAll(element, v.items, node.nodes)
    case SetType(element) =>
      && v.Members? && node.Sequence?
      && exists order: seq<Value> :: Enumerates(order, v.members) && WritesAll(element, order, node.nodes)
    case MapType(element) =>
      && v.Entries? && node.Mapping?
      && exists order: seq<string> ::
           Enumerates(order, v.entries.Keys) && WritesPairs(element, order, v.entries, node.pairs)
  }

  ghost predicate WritesAll(element: Type, items: seq<Value>, nodes: seq<Node>)
    decreases element, 1
  {
    |items| == |nodes| && forall i :: 0 <= i < |items| ==> Writes(element, items[i], nodes[i])
  }

  ghost predicate WritesPairs(element: Type, order: seq<string>, entries: map<string, Value>, pairs: seq<(Node, Node)>)
    decreases element, 1
  {
    && |order| == |pairs|
    && forall i :: 0 <= i < |order| ==>
         order[i] in entries && pairs[i].0 == Scalar(order[i]) && Writes(element, entries[order[i]], pairs[i].1)
  }

  /** Every member once. */
  ghost predicate Enumerates<T(!new)>(order: seq<T>, members: set<T>) {
    && (forall x :: x in order <==> x in members)
    && (forall i, j :: 0 <= i < j < |order| ==> order[i] != order[j])
  }

  // ---- the round trip

  /** What ToNode writes for a value of a type, FromNode reads back as that value. */
  lemma {:induction false} RoundTrip(t: Type, v: Value, node: Node)
    requires HasType(v, t) && Writes(t, v, node)
    ensures FromNode(t, node) == Some(v)
    decreases t, 1
  {
    match t
    case ListType(element) => ListTrip(element, v, node);
    case SetType(element) => SetTrip(element, v, node);
    case MapType(element) => MapTrip(element, v, node);
    case _ => ScalarTrip(t, v, node);
  }

  lemma ScalarTrip(t: Type, v: Value, node: Node)
    requires HasType(v, t) && Writes(t, v, node)
    requires !t.ListType? && !t.SetType? && !t.MapType?
    ensures FromNode(t, node) == Some(v)
  {
    hide BoolOf, ParseInteger, ToChars;
    match t
    case BoolType => WrittenBooleansParse(v.b);
    case StringType =>
    case IntegerType(lo, hi) => WrittenIntegersParse(v.n, lo, hi);
    case EnumType(lo, hi) => WrittenIntegersParse(v.n, lo, hi);
  }

  lemma {:induction false} ListTrip(element: Type, v: Value, node: Node)
    requires HasType(v, ListType(element)) && Writes(ListType(element), v, node)
    ensures FromNode(ListType(element), node) == Some(v)
    decreases element, 3
  {
    hide AllFrom, WritesAll;
    ItemsTrip(element, v.items, node.nodes);
  }

  lemma {:induction false} SetTrip(element: Type, v: Value, node: Node)
    requires HasType(v, SetType(element)) && Writes(SetType(element), v, node)
    ensures FromNode(SetType(element), node) == Some(v)
    decreases element, 3
  {
    hide AllFrom, WritesAll;
    var order: seq<Value> :| Enumerates(order, v.members) && WritesAll(element, order, node.nodes);
    assert forall i :: 0 <= i < |order| ==> order[i] in v.members;
    ItemsTrip(element, order, node.nodes);
    assert (set x | x in order) == v.members;
  }

  lemma {:induction false} MapTrip(element: Type, v: Value, node: Node)
    requires HasType(v, MapType(element)) && Writes(MapType(element), v, node)
    ensures FromNode(MapType(element), node) == Some(v)
    decreases element, 3
  {
    hide PairsFrom, WritesPairs;
    var order: seq<string> :| Enumerates(order, v.entries.Keys) && WritesPairs(element, order, v.entries, node.pairs);
    PairsTrip(element, order, v.entries, node.pairs);
  }

  lemma {:induction false} ItemsTrip(element: Type, items: seq<Value>, nodes: seq<Node>)
    requires forall i :: 0 <= i < |items| ==> HasType(items[i], element)
    requires WritesAll(element, items, nodes)
    ensures AllFrom(element, nodes, |nodes|) == Some(items)
    decreases element, 2
  {
    hide Writes, HasType, FromNode;
    forall i | 0 <= i < |items|
      ensures FromNode(element, nodes[i]) == Some(items[i])
    {
      RoundTrip(element, items[i], nodes[i]);
    }
    AllRead(element, nodes, items, |items|);
    assert items[..|items|] == items;
  }

  lemma {:induction false} PairsTrip(element: Type, order: seq<string>, entries: map<string, Value>,
                                     pairs: seq<(Node, Node)>)
    requires forall k :: k in entries ==> HasType(entries[k], element)
    requires Enumerates(order, entries.Keys) && WritesPairs(element, order, entries, pairs)
    ensures PairsFrom(element, pairs, |pairs|) == Some(entries)
    decreases element, 2
  {
    hide Writes, HasType, FromNode;
    forall i | 0 <= i < |order|
      ensures FromNode(element, pairs[i].1) == Some(entries[order[i]])
    {
      RoundTrip(element, entries[order[i]], pairs[i].1);
    }
    PairsRead(element, pairs, order, entries, |order|);
    assert order[..|order|] == order;
    assert Restrict(entries, order) == entries;
  }

  /** The entries whose keys are listed. */
  function Restrict(entries: map<string, Value>, keys: seq<string>): map<string, Value> {
    map k | k in entries && k in keys :: entries[k]
  }

  lemma RestrictGrows(entries: map<string, Value>, keys: seq<string>, key: string)
    requires key in entries && key !in keys
    ensures key !in Restrict(entries, keys)
    ensures Restrict(entries, keys + [key]) == Restrict(entries, keys)[key := entries[key]]
  {
  }

  lemma {:induction false} AllRead(element: Type, nodes: seq<Node>, items: seq<Value>, n: nat)
    requires n <= |nodes| == |items|
    requires forall i :: 0 <= i < |items| ==> FromNode(element, nodes[i]) == Some(items[i])
    ensures AllFrom(element, nodes, n) == Some(items[..n])
  {
    hide FromNode;
    if n > 0 {
      AllRead(element, nodes, items, n - 1);
      assert items[..n] == items[..n - 1] + [items[n - 1]];
    }
  }

  lemma {:induction false} PairsRead(element: Type, pairs: seq<(Node, Node)>, order: seq<string>,
                                     entries: map<string, Value>, n: nat)
    requires n <= |pairs| == |order| && Enumerates(order, entries.Keys)
    requires forall i :: 0 <= i < |order| ==>
      && order[i] in entries && pairs[i].0 == Scalar(order[i])
      && FromNode(element, pairs[i].1) == Some(entries[order[i]])
    ensures PairsFrom(element, pairs, n) == Some(Restrict(entries, order[..n]))
  {
    hide FromNode;
    if n > 0 {
      PairsRead(element, pairs, order, entries, n - 1);
      var key, front := order[n - 1], Restrict(entries, order[..n - 1]);
      assert key !in order[..n - 1];
      assert order[..n] == order[..n - 1] + [key];
      RestrictGrows(entries, order[..n - 1], key);
    }
  }

  // ---- what reading gives in general

  /** An integer or enumeration reads from a scalar, iff its trimmed text is a numeral for a value in range. */
  lemma IntegersExactly(t: Type, node: Node, v: Value)
    requires t.IntegerType? || t.EnumType?
    ensures var lo := if t.IntegerType? then t.lo else t.underlyingLo;
            var hi := if t.IntegerType? then t.hi else t.underlyingHi;
            FromNode(t, node) == Some(v) <==>
            node.Scalar? && exists n :: v == Integer(n) && lo <= n <= hi && Numeral(Trim(node.text), lo < 0, n)
  {
    hide ParseInteger, Numeral, Trim;
    var lo := if t.IntegerType? then t.lo else t.underlyingLo;
    var hi := if t.IntegerType? then t.hi else t.underlyingHi;
    if node.Scalar? {
      if ParseInteger(node.text, lo, hi).Some? {
        ParsesExactly(node.text, lo, hi, ParseInteger(node.text, lo, hi).value);
      }
      forall n | v == Integer(n) && lo <= n <= hi && Numeral(Trim(node.text), lo < 0, n)
        ensures FromNode(t, node) == Some(v)
      {
        ParsesExactly(node.text, lo, hi, n);
      }
    }
  }

  /** A boolean reads from a scalar, and from it iff it is one of twelve words, in any case, between white space. */
  lemma BooleansRead(node: Node, v: Value)
    ensures FromNode(BoolType, node) == Some(v) <==>
            && node.Scalar? && v.Bool?
            && var word := Normal(Trim(node.text));
               if v.b then word in {"true", "yes", "on", "y", "1", "t"}
               else word in {"false", "no", "off", "n", "0", "f"}
  {
    hide BoolOf, Normal, Trim;
    if node.Scalar? {
      BooleansExactly(node.text);
    }
  }

  /** A string reads from any scalar, as its whole text. */
  lemma StringsRead(node: Node, v: Value)
    ensures FromNode(StringType, node) == Some(v) <==> node.Scalar? && v == Text(node.text)
  {
  }

  /** A list reads from a sequence all of whose items read, as their values in order, and from nothing else. */
  lemma ListsExactly(element: Type, node: Node, v: Value)
    ensures FromNode(ListType(element), node) == Some(v) <==>
            && node.Sequence? && v.Elements? && |v.items| == |node.nodes|
            && forall i :: 0 <= i < |v.items| ==> FromNode(element, node.nodes[i]) == Some(v.items[i])
  {
    hide AllFrom;
    if node.Sequence? {
      var items := AllFrom(element, node.nodes, |node.nodes|);
      ItemsExactly(element, node.nodes, |node.nodes|);
      if items.Some? && v.Elements? && |v.items| == |node.nodes|
         && forall i :: 0 <= i < |v.items| ==> FromNode(element, node.nodes[i]) == Some(v.items[i]) {
        forall i | 0 <= i < |v.items|
          ensures v.items[i] == items.value[i]
        {
          assert FromNode(element, node.nodes[i]) == Some(v.items[i]);
        }
        assert v.items == items.value;
      }
    }
  }

  /** Some node reads as this value. */
  ghost predicate ReadFrom(element: Type, nodes: seq<Node>, x: Value) {
    exists i :: 0 <= i < |nodes| && FromNode(element, nodes[i]) == Some(x)
  }

  /** A set reads from a sequence all of whose items read, as the set of their values, and from nothing else. */
  lemma SetsExactly(element: Type, node: Node, v: Value)
    ensures FromNode(SetType(element), node) == Some(v) <==>
            && node.Sequence? && v.Members?
            && (forall i :: 0 <= i < |node.nodes| ==> FromNode(element, node.nodes[i]).Some?)
            && (forall x :: x in v.members <==> ReadFrom(element, node.nodes, x))
  {
    hide AllFrom, ReadFrom;
    if node.Sequence? {
      ItemsExactly(element, node.nodes, |node.nodes|);
      var items := AllFrom(element, node.nodes, |node.nodes|);
      if items.Some? {
        SetOfItems(element, node.nodes, items.value);
        var read := set x | x in items.value;
        assert FromNode(SetType(element), node) == Some(Members(read));
        if v.Members? && forall x :: x in v.members <==> ReadFrom(element, node.nodes, x) {
          assert v.members == read;
        }
      }
    }
  }

  lemma SetOfItems(element: Type, nodes: seq<Node>, items: seq<Value>)
    requires |items| == |nodes| && forall i :: 0 <= i < |nodes| ==> FromNode(element, nodes[i]) == Some(items[i])
    ensures forall x :: x in (set y | y in items) <==> ReadFrom(element, nodes, x)
  {
    hide FromNode;
    forall x
      ensures x in items <==> ReadFrom(element, nodes, x)
    {
      if x in items {
        var i :| 0 <= i < |items| && items[i] == x;
        assert FromNode(element, nodes[i]) == Some(x);
      }
    }
  }

  /** A map reads from a mapping whose keys are scalars and whose values read, as the first value of each key, and from
    * nothing else. */
  lemma MapsExactly(element: Type, node: Node)
    ensures var read := FromNode(MapType(element), node);
            && (read.Some? <==>
                  && node.Mapping?
                  && forall i :: 0 <= i < |node.pairs| ==>
                       node.pairs[i].0.Scalar? && FromNode(element, node.pairs[i].1).Some?)
            && (read.Some? ==>
                  read.value.Entries? && FirstValues(element, node.pairs, |node.pairs|, read.value.entries))
  {
    hide PairsFrom, FirstValues;
    if node.Mapping? {
      PairsExactly(element, node.pairs, |node.pairs|);
    }
  }

  /** What is read is a value of the type, to any depth. */
  lemma {:induction false} ReadsTyped(t: Type, node: Node)
    ensures FromNode(t, node).Some? ==> HasType(FromNode(t, node).value, t)
    decreases t, 1
  {
    if FromNode(t, node).Some? {
      match t
      case ListType(element) => ItemsTyped(element, node.nodes);
      case SetType(element) => ItemsTyped(element, node.nodes);
      case MapType(element) => PairsTyped(element, node.pairs);
      case _ => ScalarsTyped(t, node);
    }
  }

  lemma ScalarsTyped(t: Type, node: Node)
    requires !t.ListType? && !t.SetType? && !t.MapType? && FromNode(t, node).Some?
    ensures HasType(FromNode(t, node).value, t)
  {
    hide ParseInteger, BoolOf, Numeral, Trim;
    if t.IntegerType? || t.EnumType? {
      IntegersExactly(t, node, FromNode(t, node).value);
    }
  }

  lemma {:induction false} ItemsTyped(element: Type, nodes: seq<Node>)
    requires AllFrom(element, nodes, |nodes|).Some?
    ensures forall i :: 0 <= i < |nodes| ==> HasType(AllFrom(element, nodes, |nodes|).value[i], element)
    decreases element, 2
  {
    hide FromNode, HasType;
    ItemsExactly(element, nodes, |nodes|);
    forall i | 0 <= i < |nodes|
      ensures HasType(AllFrom(element, nodes, |nodes|).value[i], element)
    {
      ReadsTyped(element, nodes[i]);
    }
  }

  lemma {:induction false} PairsTyped(element: Type, pairs: seq<(Node, Node)>)
    requires PairsFrom(element, pairs, |pairs|).Some?
    ensures forall k :: k in PairsFrom(element, pairs, |pairs|).value ==>
              HasType(PairsFrom(element, pairs, |pairs|).value[k], element)
    decreases element, 3
  {
    hide FromNode, HasType;
    PairsTypedTo(element, pairs, |pairs|);
  }

  lemma {:induction false} PairsTypedTo(element: Type, pairs: seq<(Node, Node)>, n: nat)
    requires n <= |pairs| && PairsFrom(element, pairs, n).Some?
    ensures forall k :: k in PairsFrom(element, pairs, n).value ==>
              HasType(PairsFrom(element, pairs, n).value[k], element)
    decreases element, 2, n
  {
    hide FromNode, HasType;
    if n > 0 {
      PairsTypedTo(element, pairs, n - 1);
      ReadsTyped(element, pairs[n - 1].1);
    }
  }

  /** A sequence converts iff all of its items do, and then to their values in order. */
  lemma {:induction false} ItemsExactly(element: Type, nodes: seq<Node>, n: nat)
    requires n <= |nodes|
    ensures AllFrom(element, nodes, n).Some? <==> forall i :: 0 <= i < n ==> FromNode(element, nodes[i]).Some?
    ensures AllFrom(element, nodes, n).Some? ==>
              forall i :: 0 <= i < n ==> FromNode(element, nodes[i]) == Some(AllFrom(element, nodes, n).value[i])
  {
    hide FromNode;
    if n > 0 {
      ItemsExactly(element, nodes, n - 1);
    }
  }

  /** A pair of a mapping that its key comes first in. */
  predicate FirstOfKey(pairs: seq<(Node, Node)>, i: nat)
    requires i < |pairs|
  {
    forall j :: 0 <= j < i ==> pairs[j].0 != pairs[i].0
  }

  ghost predicate KeysOf(pairs: seq<(Node, Node)>, n: nat, entries: map<string, Value>)
    requires n <= |pairs|
  {
    forall key :: key in entries <==> exists i :: 0 <= i < n && pairs[i].0 == Scalar(key)
  }

  /** The keys are those of the pairs, and each has the value of its first pair. */
  ghost predicate FirstValues(element: Type, pairs: seq<(Node, Node)>, n: nat, entries: map<string, Value>)
    requires n <= |pairs|
  {
    && KeysOf(pairs, n, entries)
    && (forall i :: 0 <= i < n && FirstOfKey(pairs, i) ==>
          && pairs[i].0.Scalar? && pairs[i].0.text in entries
          && FromNode(element, pairs[i].1) == Some(entries[pairs[i].0.text]))
  }

  /** A mapping converts iff all keys are scalars and all values convert, and then to the first value of each key. */
  lemma {:induction false} PairsExactly(element: Type, pairs: seq<(Node, Node)>, n: nat)
    requires n <= |pairs|
    ensures PairsFrom(element, pairs, n).Some? <==>
            forall i :: 0 <= i < n ==> pairs[i].0.Scalar? && FromNode(element, pairs[i].1).Some?
    ensures PairsFrom(element, pairs, n).Some? ==> FirstValues(element, pairs, n, PairsFrom(element, pairs, n).value)
  {
    hide FromNode, FirstValues;
    if n == 0 {
      NoPairs(element, pairs);
    } else {
      PairsExactly(element, pairs, n - 1);
      if PairsFrom(element, pairs, n).Some? {
        OnePairRead(element, pairs, n, PairsFrom(element, pairs, n - 1).value);
      }
    }
  }

  lemma NoPairs(element: Type, pairs: seq<(Node, Node)>)
    ensures FirstValues(element, pairs, 0, map[])
  {
  }

  lemma OnePairRead(element: Type, pairs: seq<(Node, Node)>, n: nat, front: map<string, Value>)
    requires 0 < n <= |pairs| && FirstValues(element, pairs, n - 1, front)
    requires pairs[n - 1].0.Scalar? && FromNode(element, pairs[n - 1].1).Some?
    ensures var key := pairs[n - 1].0.text;
            FirstValues(element, pairs, n,
                        if key in front then front else front[key := FromNode(element, pairs[n - 1].1).value])
  {
    hide FromNode, KeysOf;
    var key := pairs[n - 1].0.text;
    var value := FromNode(element, pairs[n - 1].1).value;
    KeysGrow(pairs, n, front, value);
    if key in front {
      NotFirst(pairs, n, front);
    } else {
      forall i | 0 <= i < n - 1 && FirstOfKey(pairs, i)
        ensures pairs[i].0.Scalar? && pairs[i].0.text in front && pairs[i].0.text != key
      {
      }
    }
  }

  lemma KeysGrow(pairs: seq<(Node, Node)>, n: nat, front: map<string, Value>, value: Value)
    requires 0 < n <= |pairs| && pairs[n - 1].0.Scalar? && KeysOf(pairs, n - 1, front)
    ensures var key := pairs[n - 1].0.text; KeysOf(pairs, n, if key in front then front else front[key := value])
  {
    var key := pairs[n - 1].0.text;
    var entries := if key in front then front else front[key := value];
    forall k
      ensures k in entries <==> exists i :: 0 <= i < n && pairs[i].0 == Scalar(k)
    {
      if k == key {
        assert pairs[n - 1].0 == Scalar(k);
      } else if k in front {
        var i :| 0 <= i < n - 1 && pairs[i].0 == Scalar(k);
        assert pairs[i].0 == Scalar(k);
      }
    }
  }

  /** A key that is there already is not new. */
  lemma NotFirst(pairs: seq<(Node, Node)>, n: nat, front: map<string, Value>)
    requires 0 < n <= |pairs| && pairs[n - 1].0.Scalar? && KeysOf(pairs, n - 1, front) && pairs[n - 1].0.text in front
    ensures !FirstOfKey(pairs, n - 1)
  {
  }

  // ---- the methods

  /** Mutual recursion over the structure of types, as the templates instantiate each other. */
  method ReadNode(t: Type, node: Node) returns (value: Option<Value>)
    ensures value == FromNode(t, node)
    decreases t, 1
  {
    match t
    case BoolType =>
      if !node.Scalar? {
        return None;
      }
      var b := ParseBool(node.text);
      value := if b.Some? then Some(Bool(b.value)) else None;
    case StringType => value := if node.Scalar? then Some(Text(node.text)) else None;
    case IntegerType(lo, hi) => value := ReadInteger(node, lo, hi);
    case EnumType(lo, hi) => value := ReadInteger(node, lo, hi);
    case ListType(element) =>
      if !node.Sequence? {
        return None;
      }
      var items := ReadSequence(element, node.nodes);
      value := if items.Some? then Some(Elements(items.value)) else None;
    case SetType(element) =>
      if !node.Sequence? {
        return None;
      }
      var items := ReadSequence(element, node.nodes);
      value := if items.Some? then Some(Members(set x | x in items.value)) else None;
    case MapType(element) =>
      if !node.Mapping? {
        return None;
      }
      var entries := ReadPairs(element, node.pairs);
      value := if entries.Some? then Some(Entries(entries.value)) else None;
  }

  method ReadInteger(node: Node, lo: int, hi: int) returns (value: Option<Value>)
    ensures value == IntegerFrom(node, lo, hi)
  {
    if !node.Scalar? {
      return None;
    }
    var n := ParseArithmetic(node.text, lo, hi);
    value := if n.Some? then Some(Integer(n.value)) else None;
  }

  /** The loop of SequenceConvert::FromNode; an element that throws ends it. */
  method ReadSequence(element: Type, nodes: seq<Node>) returns (items: Option<seq<Value>>)
    ensures items == AllFrom(element, nodes, |nodes|)
    decreases element, 2
  {
    hide FromNode;
    var container := [];
    for i := 0 to |nodes|
      invariant AllFrom(element, nodes, i) == Some(container)
    {
      var item := ReadNode(element, nodes[i]);
      if item.None? {
        FailureStays(element, nodes, i + 1, |nodes|);
        return None;
      }
      container := container + [item.value];
    }
    items := Some(container);
  }

  /** The loop of StringMapConvert::FromNode. */
  method ReadPairs(element: Type, pairs: seq<(Node, Node)>) returns (entries: Option<map<string, Value>>)
    ensures entries == PairsFrom(element, pairs, |pairs|)
    decreases element, 2
  {
    hide FromNode;
    var container := map[];
    for i := 0 to |pairs|
      invariant PairsFrom(element, pairs, i) == Some(container)
    {
      var (key, node) := pairs[i];
      if !key.Scalar? {
        PairFailureStays(element, pairs, i + 1, |pairs|);
        return None;
      }
      var value := ReadNode(element, node);
      if value.None? {
        PairFailureStays(element, pairs, i + 1, |pairs|);
        return None;
      }
      if key.text !in container {
        container := container[key.text := value.value];
      }
    }
    entries := Some(container);
  }

  lemma {:induction false} FailureStays(element: Type, nodes: seq<Node>, i: nat, n: nat)
    requires i <= n <= |nodes| && AllFrom(element, nodes, i).None?
    ensures AllFrom(element, nodes, n).None?
  {
    hide FromNode;
    if i < n {
      FailureStays(element, nodes, i, n - 1);
    }
  }

  lemma {:induction false} PairFailureStays(element: Type, pairs: seq<(Node, Node)>, i: nat, n: nat)
    requires i <= n <= |pairs| && PairsFrom(element, pairs, i).None?
    ensures PairsFrom(element, pairs, n).None?
  {
    hide FromNode;
    if i < n {
      PairFailureStays(element, pairs, i, n - 1);
    }
  }

  /** ToNode: there is a node for every value of every type. */
  method ToNode(t: Type, v: Value) returns (node: Node)
    requires HasType(v, t)
    ensures Writes(t, v, node)
    decreases t, 0
  {
    match t
    case BoolType => node := Scalar(if v.b then "true" else "false");
    case StringType => node := Scalar(v.text);
    case IntegerType(_, _) => node := Scalar(ToChars(v.n));
    case EnumType(_, _) => node := Scalar(ToChars(v.n));
    case ListType(element) =>
      var nodes := [];
      for i := 0 to |v.items|
        invariant |nodes| == i
        invariant forall k :: 0 <= k < i ==> Writes(element, v.items[k], nodes[k])
      {
        var item := ToNode(element, v.items[i]);
        nodes := nodes + [item];
      }
      node := Sequence(nodes);
    case SetType(element) => node := SetToNode(element, v);
    case MapType(element) => node := MapToNode(element, v);
  }

  /** One more member is enumerated. */
  lemma EnumeratesGrows<T(!new)>(order: seq<T>, all: set<T>, rest: set<T>, item: T)
    requires rest <= all && item in rest && Enumerates(order, all - rest)
    ensures Enumerates(order + [item], all - (rest - {item}))
  {
    assert item !in order;
  }

  method SetToNode(element: Type, v: Value) returns (node: Node)
    requires HasType(v, SetType(element))
    ensures Writes(SetType(element), v, node)
    decreases element, 1
  {
    hide Enumerates, WritesAll;
    var nodes, rest := [], v.members;
    ghost var order: seq<Value> := [];
    assert Enumerates(order, v.members - rest) by {
      NothingEnumerated(v.members);
    }
    NothingWritten(element);
    while rest != {}
      invariant rest <= v.members && Enumerates(order, v.members - rest) && WritesAll(element, order, nodes)
      decreases |rest|
    {
      var item :| item in rest;
      var itemNode := ToNode(element, item);
      EnumeratesGrows(order, v.members, rest, item);
      OneItemMore(element, order, nodes, item, itemNode);
      nodes := nodes + [itemNode];
      order := order + [item];
      rest := rest - {item};
    }
    assert v.members - {} == v.members;
    node := Sequence(nodes);
  }

  method MapToNode(element: Type, v: Value) returns (node: Node)
    requires HasType(v, MapType(element))
    ensures Writes(MapType(element), v, node)
    decreases element, 1
  {
    hide Enumerates;
    var pairs: seq<(Node, Node)>, rest := [], v.entries.Keys;
    ghost var order: seq<string> := [];
    assert Enumerates(order, v.entries.Keys - rest) by {
      NothingEnumerated(v.entries.Keys);
    }
    while rest != {}
      invariant rest <= v.entries.Keys && Enumerates(order, v.entries.Keys - rest)
      invariant WritesPairs(element, order, v.entries, pairs)
      decreases |rest|
    {
      var key :| key in rest;
      var valueNode := ToNode(element, v.entries[key]);
      EnumeratesGrows(order, v.entries.Keys, rest, key);
      OnePairMore(element, order, v.entries, pairs, key, valueNode);
      pairs := pairs + [(Scalar(key), valueNode)];
      order := order + [key];
      rest := rest - {key};
    }
    assert v.entries.Keys - {} == v.entries.Keys;
    node := Mapping(pairs);
  }

  lemma NothingEnumerated<T(!new)>(all: set<T>)
    ensures Enumerates([], all - all)
  {
  }

  lemma NothingWritten(element: Type)
    ensures WritesAll(element, [], [])
  {
  }

  lemma OneItemMore(element: Type, items: seq<Value>, nodes: seq<Node>, item: Value, node: Node)
    requires WritesAll(element, items, nodes) && Writes(element, item, node)
    ensures WritesAll(element, items + [item], nodes + [node])
  {
    hide Writes;
  }

  lemma OnePairMore(element: Type, order: seq<string>, entries: map<string, Value>, pairs: seq<(Node, Node)>,
                    key: string, node: Node)
    requires WritesPairs(element, order, entries, pairs) && key in entries && Writes(element, entries[key], node)
    ensures WritesPairs(element, order + [key], entries, pairs + [(Scalar(key), node)])
  {
    hide Writes;
  }
}
