/** Config::LoadFromYaml: members of a document assigned to the registered variables of their names. */
module YamlLoading {
  import opened Options
  import opened Flattening

  /** FromNode of the variable of that name: the value, or nothing when the conversion throws. */
  type Conversion<!V> = (string, Id) -> Option<V>

  /** The last successful conversion among the members of one name, or the initial value if there is none. */
  function LastGood<V>(members: seq<Member>, name: string, convert: Conversion<V>, initial: V): V {
    if members == [] then initial
    else
      var last := members[|members| - 1];
      if last.name == name && convert(name, last.node).Some? then convert(name, last.node).value
      else LastGood(members[..|members| - 1], name, convert, initial)
  }

  /** A member for this variable that converts. */
  predicate Good<V>(member: Member, name: string, convert: Conversion<V>) {
    member.name == name && convert(name, member.node).Some?
  }

  lemma {:induction false} LastGoodIsLast<V>(members: seq<Member>, name: string, convert: Conversion<V>, initial: V,
                                             i: nat)
    requires i < |members| && Good(members[i], name, convert)
    requires forall j :: i < j < |members| ==> !Good(members[j], name, convert)
    ensures LastGood(members, name, convert, initial) == convert(name, members[i].node).value
  {
    if i < |members| - 1 {
      LastGoodIsLast(members[..|members| - 1], name, convert, initial, i);
    }
  }

  lemma {:induction false} NoneGood<V>(members: seq<Member>, name: string, convert: Conversion<V>, initial: V)
    requires forall j :: 0 <= j < |members| ==> !Good(members[j], name, convert)
    ensures LastGood(members, name, convert, initial) == initial
  {
    if members != [] {
      assert !Good(members[|members| - 1], name, convert);
      NoneGood(members[..|members| - 1], name, convert, initial);
    }
  }

  /** A member of a registered variable whose conversion throws. */
  predicate Failing<V>(member: Member, names: set<string>, convert: Conversion<V>) {
    member.name in names && convert(member.name, member.node).None?
  }

  class Store<V(==)> {
    var values: map<string, V>

    constructor (values: map<string, V>)
      ensures this.values == values
    {
      this.values := values;
    }

    /** ConfigVar::fromNode: convert and assign unless equal; a conversion that throws changes nothing. */
    method FromNode(name: string, node: Id, convert: Conversion<V>) returns (converted: bool)
      requires name in values
      modifies this
      ensures converted == convert(name, node).Some?
      ensures values == if converted then old(values)[name := convert(name, node).value] else old(values)
    {
      var value := convert(name, node);
      if value.None? {
        return false;
      }
      if values[name] == value.value {
        assert values == values[name := value.value];
        return true;
      }
      values := values[name := value.value];
      converted := true;
    }

    /** The second loop of LoadFromYaml: members whose names are registered are assigned in order. */
    method AssignAll(members: seq<Member>, convert: Conversion<V>) returns (success: bool)
      modifies this
      ensures values.Keys == old(values.Keys)
      ensures forall name :: name in values ==> values[name] == LastGood(members, name, convert, old(values)[name])
      ensures success <==> forall i :: 0 <= i < |members| ==> !Failing(members[i], values.Keys, convert)
    {
      success := true;
      for i := 0 to |members|
        invariant values.Keys == old(values.Keys)
        invariant forall name :: name in values ==>
          values[name] == LastGood(members[..i], name, convert, old(values)[name])
        invariant success <==> forall j :: 0 <= j < i ==> !Failing(members[j], values.Keys, convert)
      {
        assert members[..i + 1][..i] == members[..i];
        if members[i].name in values {
          var converted := FromNode(members[i].name, members[i].node, convert);
          success := converted && success;
        }
      }
      assert members[..|members|] == members;
    }

    /** Nothing changes when it throws, which is exactly on a chain of 65 keys; otherwise each variable ends at its last
      * successful conversion in document order, and false tells of an unusable key or a failed conversion. */
    method LoadFromYaml(graph: Graph, root: Id, convert: Conversion<V>) returns (thrown: bool, success: bool)
      modifies this
      ensures values.Keys == old(values.Keys)
      ensures NodeAt(graph, root).Undefined? || NodeAt(graph, root).Null? ==> success && values == old(values)
      ensures thrown <==> HasChain(graph, root, 65)
      ensures thrown ==> values == old(values)
      ensures !thrown ==>
        && Collect(graph, "", root, 0).Collected?
        && var members := Collect(graph, "", root, 0).members;
           && (forall name :: name in values ==> values[name] == LastGood(members, name, convert, old(values)[name]))
           && (success <==>
                 && Collect(graph, "", root, 0).success
                 && forall i :: 0 <= i < |members| ==> !Failing(members[i], values.Keys, convert))
    {
      hide Collect, CollectFrom;
      ThrowsExactly(graph, "", root, 0);
      if NodeAt(graph, root).Undefined? || NodeAt(graph, root).Null? {
        NoMembers(graph, root);
        return false, true;
      }
      var nodes := new Members();
      thrown, success := nodes.CollectMembers(graph, "", root, 0);
      if thrown {
        return true, false;
      }
      assert nodes.list == Collect(graph, "", root, 0).members;
      var converted := AssignAll(nodes.list, convert);
      success := converted && success;
    }
  }

  lemma NoMembers(graph: Graph, root: Id)
    requires NodeAt(graph, root).Undefined? || NodeAt(graph, root).Null?
    ensures Collect(graph, "", root, 0) == Collected([], true)
  {
  }
}
