/** CollectMembers of config/config.cc: the named nodes of a YAML document, which may share nodes and contain cycles. */
module Flattening {
  import opened Options
  import opened ConfigNames

  type Id = nat

  datatype Node = Undefined | Null | Scalar(text: string) | Sequence(items: seq<Id>) | Map(entries: seq<Entry>)
  datatype Entry = Entry(key: Id, value: Id)

  type Graph = map<Id, Node>

  const MAX_DEPTH := 64

  function NodeAt(graph: Graph, id: Id): Node {
    if id in graph then graph[id] else Undefined
  }

  /** The entries that the loop visits: none unless the node is a map. */
  function Entries(graph: Graph, id: Id): seq<Entry> {
    if NodeAt(graph, id).Map? then NodeAt(graph, id).entries else []
  }

  /** The normalised name of an entry, if its key is a scalar that names something. */
  function KeyOf(graph: Graph, entry: Entry): (key: Option<string>)
    ensures key.Some? ==> ValidName(key.value)
  {
    match NodeAt(graph, entry.key)
    case Scalar(text) => if ValidName(Normal(text)) then Some(Normal(text)) else None
    case _ => None
  }

  /** From the raw text of the key: an entry is usable iff the key is a scalar whose text, with ASCII capitals lowered,
    * is not empty and has only letters, digits, dots and underscores; and that text is its segment of the name. */
  lemma KeyIs(graph: Graph, entry: Entry, segment: string)
    ensures KeyOf(graph, entry) == Some(segment) <==>
            && entry.key in graph && graph[entry.key].Scalar? && segment != ""
            && var text := graph[entry.key].text;
               && |segment| == |text|
               && (forall i :: 0 <= i < |text| ==>
                     segment[i] == if 'A' <= text[i] <= 'Z' then (text[i] as int + 32) as char else text[i])
               && (forall c :: c in segment ==> c in CHARSET)
  {
    hide ValidName;
    ValidNames(segment);
    if entry.key in graph && graph[entry.key].Scalar? {
      LoweredIs(graph[entry.key].text, segment);
    }
  }

  lemma LoweredIs(text: string, segment: string)
    ensures segment == Normal(text) <==>
            && |segment| == |text|
            && forall i :: 0 <= i < |text| ==>
                 segment[i] == if 'A' <= text[i] <= 'Z' then (text[i] as int + 32) as char else text[i]
  {
  }

  function Join(prefix: string, key: string): string {
    if prefix == "" then key else prefix + "." + key
  }

  // ---- the specification: key paths

  /** The path picks an entry with a usable key of each map it passes. */
  predicate IsPath(graph: Graph, id: Id, path: seq<nat>)
    decreases |path|
  {
    path == [] ||
    (&& path[0] < |Entries(graph, id)|
     && KeyOf(graph, Entries(graph, id)[path[0]]).Some?
     && IsPath(graph, Entries(graph, id)[path[0]].value, path[1..]))
  }

  /** The node that a path leads to. */
  function End(graph: Graph, id: Id, path: seq<nat>): Id
    requires IsPath(graph, id, path)
    decreases |path|
  {
    if path == [] then id else End(graph, Entries(graph, id)[path[0]].value, path[1..])
  }

  /** The dotted name of that node, behind the name of the node where the path starts. */
  function DottedName(graph: Graph, prefix: string, id: Id, path: seq<nat>): string
    requires IsPath(graph, id, path)
    decreases |path|
  {
    if path == [] then prefix
    else
      var entry := Entries(graph, id)[path[0]];
      DottedName(graph, Join(prefix, KeyOf(graph, entry).value), entry.value, path[1..])
  }

  function Named(graph: Graph, prefix: string, id: Id, path: seq<nat>): Member
    requires IsPath(graph, id, path)
  {
    Member(DottedName(graph, prefix, id, path), End(graph, id, path))
  }

  /** The keys along a path, normalised. */
  function KeysAlong(graph: Graph, id: Id, path: seq<nat>): seq<string>
    requires IsPath(graph, id, path)
    decreases |path|
  {
    if path == [] then []
    else
      var entry := Entries(graph, id)[path[0]];
      [KeyOf(graph, entry).value] + KeysAlong(graph, entry.value, path[1..])
  }

  /** Keys with dots between them. */
  function Dotted(keys: seq<string>): string {
    if keys == [] then "" else if |keys| == 1 then keys[0] else keys[0] + "." + Dotted(keys[1..])
  }

  /** The name of a node below the root is the dotted list of the keys that lead there, and it is itself a valid name in
    * normal form: the one under which a variable would be registered. */
  lemma NamesAreDotted(graph: Graph, root: Id, path: seq<nat>)
    requires IsPath(graph, root, path) && path != []
    ensures DottedName(graph, "", root, path) == Dotted(KeysAlong(graph, root, path))
    ensures ValidName(DottedName(graph, "", root, path))
    ensures Normal(DottedName(graph, "", root, path)) == DottedName(graph, "", root, path)
  {
    var entry := Entries(graph, root)[path[0]];
    NamesAfter(graph, KeyOf(graph, entry).value, entry.value, path[1..]);
    NormalIsNormal(DottedName(graph, "", root, path));
  }

  lemma {:induction false} NamesAfter(graph: Graph, prefix: string, id: Id, path: seq<nat>)
    requires IsPath(graph, id, path) && ValidName(prefix)
    ensures DottedName(graph, prefix, id, path) == Dotted([prefix] + KeysAlong(graph, id, path))
    ensures ValidName(DottedName(graph, prefix, id, path))
    decreases |path|
  {
    hide KeyOf, ValidName, Entries, Dotted, Join;
    var keys := KeysAlong(graph, id, path);
    if path == [] {
      OneKey(prefix);
      assert [prefix] + keys == [prefix];
    } else {
      var entry := Entries(graph, id)[path[0]];
      var key, rest := KeyOf(graph, entry).value, KeysAlong(graph, entry.value, path[1..]);
      JoinIsValid(prefix, key);
      NamesAfter(graph, Join(prefix, key), entry.value, path[1..]);
      DottedJoins(prefix, key, rest);
      assert keys == [key] + rest && [prefix] + keys == [prefix, key] + rest;
    }
  }

  lemma OneKey(key: string)
    ensures Dotted([key]) == key
  {
  }

  lemma JoinIsValid(prefix: string, key: string)
    requires ValidName(prefix) && ValidName(key)
    ensures prefix != "" && Join(prefix, key) == prefix + "." + key && ValidName(Join(prefix, key))
  {
  }

  lemma DottedJoins(prefix: string, key: string, rest: seq<string>)
    requires prefix != ""
    ensures Dotted([Join(prefix, key)] + rest) == Dotted([prefix, key] + rest)
  {
    assert ([Join(prefix, key)] + rest)[1..] == rest;
    assert ([prefix, key] + rest)[1..] == [key] + rest && ([key] + rest)[1..] == rest;
    if rest != [] {
      assert prefix + "." + key + "." + Dotted(rest) == prefix + "." + (key + "." + Dotted(rest));
    }
  }

  /** Every entry there has a usable key. */
  predicate KeysUsable(graph: Graph, id: Id) {
    forall i :: 0 <= i < |Entries(graph, id)| ==> KeyOf(graph, Entries(graph, id)[i]).Some?
  }

  /** Document order: a path comes before its extensions and before the paths through later entries. */
  predicate Before(p: seq<nat>, q: seq<nat>) {
    if p == [] then q != []
    else q != [] && (p[0] < q[0] || (p[0] == q[0] && Before(p[1..], q[1..])))
  }

  // ---- what the recursion computes

  datatype Member = Member(name: string, node: Id)

  /** The members in the order of the output vector with the success flag, or the nesting exception. */
  datatype Collected = Collected(members: seq<Member>, success: bool) | TooDeep

  function Collect(graph: Graph, prefix: string, id: Id, depth: nat): Collected
    requires depth <= MAX_DEPTH + 1
    decreases MAX_DEPTH + 1 - depth, 0, 0
  {
    if depth > MAX_DEPTH then TooDeep
    else Preceded(if prefix == "" then [] else [Member(prefix, id)], CollectFrom(graph, prefix, id, 0, depth))
  }

  function Preceded(first: seq<Member>, rest: Collected): Collected {
    if rest.TooDeep? then rest else rest.(members := first + rest.members)
  }

  /** The loop over the entries of a node, from entry `k` on. */
  function CollectFrom(graph: Graph, prefix: string, id: Id, k: nat, depth: nat): Collected
    requires depth <= MAX_DEPTH && k <= |Entries(graph, id)|
    decreases MAX_DEPTH - depth, 1, |Entries(graph, id)| - k
  {
    if k == |Entries(graph, id)| then Collected([], true)
    else
      var entry := Entries(graph, id)[k];
      var key := KeyOf(graph, entry);
      var rest := CollectFrom(graph, prefix, id, k + 1, depth);
      if key.None? then if rest.TooDeep? then rest else rest.(success := false)
      else Combined(Collect(graph, Join(prefix, key.value), entry.value, depth + 1), rest)
  }

  function Combined(first: Collected, rest: Collected): Collected {
    if first.TooDeep? || rest.TooDeep? then TooDeep
    else Collected(first.members + rest.members, first.success && rest.success)
  }

  // ---- the method

  class Members {
    var list: seq<Member>

    constructor ()
      ensures list == []
    {
      list := [];
    }

    /** The recursion of the source, which appends to one output vector and leaves by an exception when nested too
      * deep. */
    method CollectMembers(graph: Graph, prefix: string, id: Id, depth: nat) returns (thrown: bool, success: bool)
      requires depth <= MAX_DEPTH + 1
      modifies this
      ensures match Collect(graph, prefix, id, depth)
              case TooDeep => thrown
              case Collected(members, ok) => !thrown && success == ok && list == old(list) + members
      decreases MAX_DEPTH + 1 - depth
    {
      thrown, success := false, true;
      if depth > MAX_DEPTH {
        return true, false;
      }
      if prefix != "" {
        list := list + [Member(prefix, id)];
      }
      if !NodeAt(graph, id).Map? {
        return false, true;
      }
      var entries := NodeAt(graph, id).entries;
      ghost var start, whole := list, CollectFrom(graph, prefix, id, 0, depth);
      var k := 0;
      while k < |entries|
        invariant 0 <= k <= |entries|
        invariant Pending(start, whole, list, success, CollectFrom(graph, prefix, id, k, depth))
      {
        hide Collect;
        ghost var before, rest := list, CollectFrom(graph, prefix, id, k + 1, depth);
        var key := NodeAt(graph, entries[k].key);
        if !key.Scalar? {
          success := false;
          k := k + 1;
          continue;
        }
        var name := NormalizeConfigName(key.text);
        if !ValidName(name) {
          success := false;
          k := k + 1;
          continue;
        }
        if prefix != "" {
          name := prefix + "." + name;
        }
        var nestedThrown, nested := CollectMembers(graph, name, entries[k].value, depth + 1);
        PendingStep(start, whole, before, success, Collect(graph, name, entries[k].value, depth + 1), rest);
        if nestedThrown {
          return true, false;
        }
        success := nested && success;
        k := k + 1;
      }
      PendingEnd(start, whole, list, success);
      if whole.Collected? {
        ghost var own := if prefix == "" then [] else [Member(prefix, id)];
        assert start + whole.members == old(list) + (own + whole.members);
      }
    }
  }

  /** The loop invariant: what has been appended and what the later entries will give make up the whole. */
  ghost predicate Pending(start: seq<Member>, whole: Collected, list: seq<Member>, success: bool, rest: Collected) {
    if whole.TooDeep? then rest.TooDeep? else
      && rest.Collected?
      && list + rest.members == start + whole.members
      && (success && rest.success) == whole.success
  }

  lemma PendingStep(start: seq<Member>, whole: Collected, list: seq<Member>, success: bool, first: Collected,
                    rest: Collected)
    requires Pending(start, whole, list, success, Combined(first, rest))
    ensures first.TooDeep? ==> whole.TooDeep?
    ensures first.Collected? ==> Pending(start, whole, list + first.members, first.success && success, rest)
  {
    if whole.Collected? {
      assert list + (first.members + rest.members) == list + first.members + rest.members;
    }
  }

  lemma PendingEnd(start: seq<Member>, whole: Collected, list: seq<Member>, success: bool)
    requires Pending(start, whole, list, success, Collected([], true))
    ensures whole.Collected? && list == start + whole.members && success == whole.success
  {
    assert list + [] == list;
  }

  // ---- the recursion throws exactly on a chain of 65 keys

  ghost predicate HasChain(graph: Graph, id: Id, length: nat) {
    exists path :: IsPath(graph, id, path) && |path| == length
  }

  /** A chain whose first key is the one of entry `k` or a later one. */
  ghost predicate HasChainFrom(graph: Graph, id: Id, length: nat, k: nat) {
    exists path :: IsPath(graph, id, path) && |path| == length && path != [] && path[0] >= k
  }

  lemma ChainSplits(graph: Graph, id: Id, length: nat, k: nat)
    requires k < |Entries(graph, id)| && length > 0
    ensures var entry := Entries(graph, id)[k];
            HasChainFrom(graph, id, length, k) <==>
            HasChainFrom(graph, id, length, k + 1)
            || (KeyOf(graph, entry).Some? && HasChain(graph, entry.value, length - 1))
  {
    hide KeyOf;
    var entry := Entries(graph, id)[k];
    if HasChainFrom(graph, id, length, k) {
      var path :| IsPath(graph, id, path) && |path| == length && path != [] && path[0] >= k;
      if path[0] == k {
        assert IsPath(graph, entry.value, path[1..]);
      }
    }
    if KeyOf(graph, entry).Some? && HasChain(graph, entry.value, length - 1) {
      var inner :| IsPath(graph, entry.value, inner) && |inner| == length - 1;
      var path := [k] + inner;
      assert path[1..] == inner && IsPath(graph, id, path);
    }
  }

  lemma {:induction false} ThrowsExactly(graph: Graph, prefix: string, id: Id, depth: nat)
    requires depth <= MAX_DEPTH + 1
    ensures Collect(graph, prefix, id, depth).TooDeep? <==> HasChain(graph, id, MAX_DEPTH + 1 - depth)
    decreases MAX_DEPTH + 1 - depth, 0, 0
  {
    if depth > MAX_DEPTH {
      assert IsPath(graph, id, []);
    } else {
      ThrowsFrom(graph, prefix, id, 0, depth);
    }
  }

  lemma {:induction false} ThrowsFrom(graph: Graph, prefix: string, id: Id, k: nat, depth: nat)
    requires depth <= MAX_DEPTH && k <= |Entries(graph, id)|
    ensures CollectFrom(graph, prefix, id, k, depth).TooDeep? <==> HasChainFrom(graph, id, MAX_DEPTH + 1 - depth, k)
    decreases MAX_DEPTH - depth, 1, |Entries(graph, id)| - k
  {
    hide IsPath, KeyOf, Join;
    if k < |Entries(graph, id)| {
      var entry := Entries(graph, id)[k];
      ThrowsFrom(graph, prefix, id, k + 1, depth);
      ChainSplits(graph, id, MAX_DEPTH + 1 - depth, k);
      if KeyOf(graph, entry).Some? {
        ThrowsExactly(graph, Join(prefix, KeyOf(graph, entry).value), entry.value, depth + 1);
      }
    } else {
      NoChainAtEnd(graph, id, MAX_DEPTH + 1 - depth);
    }
  }

  lemma NoChainAtEnd(graph: Graph, id: Id, length: nat)
    ensures !HasChainFrom(graph, id, length, |Entries(graph, id)|)
  {
  }

  // ---- otherwise it yields every path, once, in document order

  /** The paths of up to MAX_DEPTH - depth keys in document order; the empty one stands for the node itself. */
  function Paths(graph: Graph, id: Id, depth: nat): seq<seq<nat>>
    requires depth <= MAX_DEPTH + 1
    decreases MAX_DEPTH + 1 - depth, 0, 0
  {
    if depth > MAX_DEPTH then [] else [[]] + PathsFrom(graph, id, 0, depth)
  }

  function PathsFrom(graph: Graph, id: Id, k: nat, depth: nat): seq<seq<nat>>
    requires depth <= MAX_DEPTH && k <= |Entries(graph, id)|
    decreases MAX_DEPTH - depth, 1, |Entries(graph, id)| - k
  {
    if k == |Entries(graph, id)| then []
    else
      var entry := Entries(graph, id)[k];
      (if KeyOf(graph, entry).Some? then Through(k, Paths(graph, entry.value, depth + 1)) else [])
      + PathsFrom(graph, id, k + 1, depth)
  }

  function Through(k: nat, paths: seq<seq<nat>>): (r: seq<seq<nat>>)
    ensures |r| == |paths|
  {
    seq(|paths|, i requires 0 <= i < |paths| => [k] + paths[i])
  }

  ghost predicate InOrder(paths: seq<seq<nat>>) {
    forall i, j :: 0 <= i < j < |paths| ==> Before(paths[i], paths[j])
  }

  /** The list holds exactly the paths short enough for the recursion to reach. */
  lemma {:induction false} PathsHold(graph: Graph, id: Id, depth: nat, path: seq<nat>)
    requires depth <= MAX_DEPTH + 1
    ensures path in Paths(graph, id, depth) <==> IsPath(graph, id, path) && |path| <= MAX_DEPTH - depth
    decreases MAX_DEPTH + 1 - depth, 0, 0
  {
    if depth <= MAX_DEPTH {
      PathsFromHold(graph, id, 0, depth, path);
    }
  }

  lemma {:induction false} PathsFromHold(graph: Graph, id: Id, k: nat, depth: nat, path: seq<nat>)
    requires depth <= MAX_DEPTH && k <= |Entries(graph, id)|
    ensures path in PathsFrom(graph, id, k, depth) <==>
            path != [] && path[0] >= k && IsPath(graph, id, path) && |path| <= MAX_DEPTH - depth
    decreases MAX_DEPTH - depth, 1, |Entries(graph, id)| - k
  {
    hide KeyOf, Paths, IsPath, Through;
    NonemptyPath(graph, id, path);
    if k < |Entries(graph, id)| {
      var entry := Entries(graph, id)[k];
      PathsFromHold(graph, id, k + 1, depth, path);
      if KeyOf(graph, entry).Some? {
        ThroughMembers(k, Paths(graph, entry.value, depth + 1), path);
        if path != [] {
          PathsHold(graph, entry.value, depth + 1, path[1..]);
        }
      }
    }
  }

  lemma NonemptyPath(graph: Graph, id: Id, path: seq<nat>)
    ensures path != [] ==>
      (IsPath(graph, id, path) <==>
         && path[0] < |Entries(graph, id)|
         && KeyOf(graph, Entries(graph, id)[path[0]]).Some?
         && IsPath(graph, Entries(graph, id)[path[0]].value, path[1..]))
  {
  }

  lemma {:induction false} PathsInOrder(graph: Graph, id: Id, depth: nat)
    requires depth <= MAX_DEPTH + 1
    ensures InOrder(Paths(graph, id, depth))
    decreases MAX_DEPTH + 1 - depth, 0, 0
  {
    if depth <= MAX_DEPTH {
      PathsFromInOrder(graph, id, 0, depth);
      var rest := PathsFrom(graph, id, 0, depth);
      forall path | path in rest
        ensures path != []
      {
        PathsFromHold(graph, id, 0, depth, path);
      }
      assert forall j :: 0 < j < |[[]] + rest| ==> ([[]] + rest)[j] == rest[j - 1] && rest[j - 1] in rest;
    }
  }

  lemma {:induction false} PathsFromInOrder(graph: Graph, id: Id, k: nat, depth: nat)
    requires depth <= MAX_DEPTH && k <= |Entries(graph, id)|
    ensures InOrder(PathsFrom(graph, id, k, depth))
    decreases MAX_DEPTH - depth, 1, |Entries(graph, id)| - k
  {
    hide KeyOf, InOrder;
    if k == |Entries(graph, id)| {
      NothingInOrder();
    } else {
      var entry := Entries(graph, id)[k];
      var rest := PathsFrom(graph, id, k + 1, depth);
      PathsFromInOrder(graph, id, k + 1, depth);
      if KeyOf(graph, entry).Some? {
        PathsInOrder(graph, entry.value, depth + 1);
        forall path | path in rest
          ensures path != [] && path[0] > k
        {
          PathsFromHold(graph, id, k + 1, depth, path);
        }
        ThroughInOrder(k, Paths(graph, entry.value, depth + 1), rest);
      } else {
        assert [] + rest == rest;
      }
    }
  }

  lemma NothingInOrder()
    ensures InOrder([])
  {
  }

  lemma ThroughMembers(k: nat, paths: seq<seq<nat>>, path: seq<nat>)
    ensures path in Through(k, paths) <==> path != [] && path[0] == k && path[1..] in paths
  {
    if path in Through(k, paths) {
      var i :| 0 <= i < |paths| && Through(k, paths)[i] == path;
      assert path[1..] == paths[i];
    }
    if path != [] && path[0] == k && path[1..] in paths {
      var i :| 0 <= i < |paths| && paths[i] == path[1..];
      assert Through(k, paths)[i] == path;
    }
  }

  lemma ThroughInOrder(k: nat, paths: seq<seq<nat>>, rest: seq<seq<nat>>)
    requires InOrder(paths) && InOrder(rest)
    requires forall path :: path in rest ==> path != [] && path[0] > k
    ensures InOrder(Through(k, paths) + rest)
  {
    var all := Through(k, paths) + rest;
    forall i, j | 0 <= i < j < |all|
      ensures Before(all[i], all[j])
    {
      if j < |paths| {
        assert all[i][1..] == paths[i] && all[j][1..] == paths[j];
      } else {
        assert all[j] in rest;
      }
    }
  }

  // ---- and those paths are what the recursion yields

  /** The members that a list of paths stands for. */
  function NamedAll(graph: Graph, prefix: string, id: Id, paths: seq<seq<nat>>): (members: seq<Member>)
    requires forall path :: path in paths ==> IsPath(graph, id, path)
    ensures |members| == |paths|
  {
    seq(|paths|, i requires 0 <= i < |paths| => Named(graph, prefix, id, paths[i]))
  }

  /** The whole account of a document that is not nested too deep: its members are the paths with at least one key, each
    * once, in document order, with dotted normalised names; and the flag tells whether every key met was usable. */
  lemma CollectYields(graph: Graph, root: Id) returns (paths: seq<seq<nat>>)
    requires !HasChain(graph, root, MAX_DEPTH + 1)
    ensures forall path :: path in paths <==> path != [] && IsPath(graph, root, path)
    ensures InOrder(paths)
    ensures Collect(graph, "", root, 0).Collected?
    ensures Collect(graph, "", root, 0).members == NamedAll(graph, "", root, paths)
    ensures Collect(graph, "", root, 0).success <==>
            forall path :: IsPath(graph, root, path) ==> KeysUsable(graph, End(graph, root, path))
  {
    hide KeysUsable, InOrder, NamedAll, IsPath, Before;
    ThrowsExactly(graph, "", root, 0);
    paths := PathsFrom(graph, root, 0, 0);
    PathsFromInOrder(graph, root, 0, 0);
    forall path
      ensures path in paths <==> path != [] && IsPath(graph, root, path)
    {
      PathsFromHold(graph, root, 0, 0, path);
      if IsPath(graph, root, path) {
        ChainsAreShort(graph, root, path);
      }
    }
    YieldsFrom(graph, "", root, 0, 0);
    if Collect(graph, "", root, 0).success {
      forall path | IsPath(graph, root, path)
        ensures KeysUsable(graph, End(graph, root, path))
      {
        SuccessHolds(graph, "", root, 0, path);
      }
    } else {
      var path := FailureShows(graph, "", root, 0);
    }
  }

  /** With no chain of 65 keys there is none longer either. */
  lemma ChainsAreShort(graph: Graph, id: Id, path: seq<nat>)
    requires IsPath(graph, id, path) && !HasChain(graph, id, MAX_DEPTH + 1)
    ensures |path| <= MAX_DEPTH
  {
    if |path| > MAX_DEPTH {
      Shorten(graph, id, path, MAX_DEPTH + 1);
    }
  }

  lemma {:induction false} Shorten(graph: Graph, id: Id, path: seq<nat>, length: nat)
    requires IsPath(graph, id, path) && length <= |path|
    ensures IsPath(graph, id, path[..length])
    decreases |path|
  {
    if length > 0 {
      Shorten(graph, Entries(graph, id)[path[0]].value, path[1..], length - 1);
      assert path[..length][1..] == path[1..][..length - 1];
    }
  }

  lemma {:induction false} YieldsFrom(graph: Graph, prefix: string, id: Id, k: nat, depth: nat)
    requires depth <= MAX_DEPTH && k <= |Entries(graph, id)|
    requires CollectFrom(graph, prefix, id, k, depth).Collected?
    ensures var paths := PathsFrom(graph, id, k, depth);
            && (forall path :: path in paths ==> IsPath(graph, id, path))
            && CollectFrom(graph, prefix, id, k, depth).members == NamedAll(graph, prefix, id, paths)
    decreases MAX_DEPTH - depth, 1, |Entries(graph, id)| - k
  {
    var paths := PathsFrom(graph, id, k, depth);
    forall path | path in paths
      ensures IsPath(graph, id, path)
    {
      PathsFromHold(graph, id, k, depth, path);
    }
    if k < |Entries(graph, id)| {
      hide KeyOf, NamedAll, IsPath, Join, Collect, Paths;
      var entry := Entries(graph, id)[k];
      var rest := PathsFrom(graph, id, k + 1, depth);
      YieldsFrom(graph, prefix, id, k + 1, depth);
      if KeyOf(graph, entry).Some? {
        YieldsAt(graph, prefix, id, k, depth);
        NamedAllAppend(graph, prefix, id, Through(k, Paths(graph, entry.value, depth + 1)), rest);
      } else {
        assert [] + rest == rest;
      }
    } else {
      assert NamedAll(graph, prefix, id, []) == [];
    }
  }

  lemma NamedAllAppend(graph: Graph, prefix: string, id: Id, a: seq<seq<nat>>, b: seq<seq<nat>>)
    requires forall path :: path in a ==> IsPath(graph, id, path)
    requires forall path :: path in b ==> IsPath(graph, id, path)
    ensures forall path :: path in a + b ==> IsPath(graph, id, path)
    ensures NamedAll(graph, prefix, id, a + b) == NamedAll(graph, prefix, id, a) + NamedAll(graph, prefix, id, b)
  {
    hide IsPath, Named;
    forall i | 0 <= i < |a + b|
      ensures IsPath(graph, id, (a + b)[i])
      ensures i >= |a| ==> (a + b)[i] == b[i - |a|]
    {
      assert (a + b)[i] in a || (a + b)[i] in b;
    }
  }

  lemma {:induction false} YieldsAt(graph: Graph, prefix: string, id: Id, k: nat, depth: nat)
    requires depth <= MAX_DEPTH && k < |Entries(graph, id)| && KeyOf(graph, Entries(graph, id)[k]).Some?
    requires CollectFrom(graph, prefix, id, k, depth).Collected?
    ensures var entry := Entries(graph, id)[k];
            var through := Through(k, Paths(graph, entry.value, depth + 1));
            var below := Collect(graph, Join(prefix, KeyOf(graph, entry).value), entry.value, depth + 1);
            && (forall path :: path in through ==> IsPath(graph, id, path))
            && below.Collected? && below.members == NamedAll(graph, prefix, id, through)
    decreases MAX_DEPTH - depth, 1, |Entries(graph, id)| - k, 0
  {
    hide KeyOf, NamedAll;
    var entry := Entries(graph, id)[k];
    var name := Join(prefix, KeyOf(graph, entry).value);
    var inner := Paths(graph, entry.value, depth + 1);
    YieldsFrom(graph, name, entry.value, 0, depth + 1);
    NoPathBelow(graph, name, entry.value, depth + 1);
    ThroughNamed(graph, prefix, id, k, inner);
  }

  /** The members of a subtree: its own node, then those of its entries. */
  lemma NoPathBelow(graph: Graph, name: string, id: Id, depth: nat)
    requires depth <= MAX_DEPTH && name != "" && CollectFrom(graph, name, id, 0, depth).Collected?
    requires var paths := PathsFrom(graph, id, 0, depth);
             && (forall path :: path in paths ==> IsPath(graph, id, path))
             && CollectFrom(graph, name, id, 0, depth).members == NamedAll(graph, name, id, paths)
    ensures forall path :: path in Paths(graph, id, depth) ==> IsPath(graph, id, path)
    ensures Collect(graph, name, id, depth).Collected?
    ensures Collect(graph, name, id, depth).members == NamedAll(graph, name, id, Paths(graph, id, depth))
  {
    hide CollectFrom, PathsFrom;
    NamedAllAppend(graph, name, id, [[]], PathsFrom(graph, id, 0, depth));
    assert NamedAll(graph, name, id, [[]]) == [Member(name, id)];
  }

  /** A path through an entry is named like what follows, behind the name of the entry. */
  lemma ThroughNamed(graph: Graph, prefix: string, id: Id, k: nat, inner: seq<seq<nat>>)
    requires k < |Entries(graph, id)| && KeyOf(graph, Entries(graph, id)[k]).Some?
    requires forall path :: path in inner ==> IsPath(graph, Entries(graph, id)[k].value, path)
    ensures var entry := Entries(graph, id)[k];
            && (forall path :: path in Through(k, inner) ==> IsPath(graph, id, path))
            && NamedAll(graph, prefix, id, Through(k, inner))
               == NamedAll(graph, Join(prefix, KeyOf(graph, entry).value), entry.value, inner)
  {
    hide KeyOf, Join;
    var entry := Entries(graph, id)[k];
    forall i | 0 <= i < |inner|
      ensures IsPath(graph, entry.value, inner[i]) && IsPath(graph, id, Through(k, inner)[i])
      ensures Named(graph, prefix, id, Through(k, inner)[i])
           == Named(graph, Join(prefix, KeyOf(graph, entry).value), entry.value, inner[i])
    {
      assert inner[i] in inner && Through(k, inner)[i][1..] == inner[i];
    }
  }

  /** Success means that the entry had a usable key and that its subtree succeeded. */
  lemma {:induction false} SuccessEntry(graph: Graph, prefix: string, id: Id, k: nat, i: nat, depth: nat)
    requires depth <= MAX_DEPTH && k <= i < |Entries(graph, id)|
    requires CollectFrom(graph, prefix, id, k, depth).Collected? && CollectFrom(graph, prefix, id, k, depth).success
    ensures var entry := Entries(graph, id)[i];
            KeyOf(graph, entry).Some?
            && var below := Collect(graph, Join(prefix, KeyOf(graph, entry).value), entry.value, depth + 1);
               below.Collected? && below.success
    decreases i - k
  {
    hide Collect;
    if k < i {
      SuccessEntry(graph, prefix, id, k + 1, i, depth);
    }
  }

  lemma {:induction false} SuccessHolds(graph: Graph, prefix: string, id: Id, depth: nat, path: seq<nat>)
    requires depth <= MAX_DEPTH + 1 && IsPath(graph, id, path)
    requires Collect(graph, prefix, id, depth).Collected? && Collect(graph, prefix, id, depth).success
    ensures KeysUsable(graph, End(graph, id, path))
    decreases |path|
  {
    if path == [] {
      forall i | 0 <= i < |Entries(graph, id)|
        ensures KeyOf(graph, Entries(graph, id)[i]).Some?
      {
        SuccessEntry(graph, prefix, id, 0, i, depth);
      }
    } else {
      var entry := Entries(graph, id)[path[0]];
      SuccessEntry(graph, prefix, id, 0, path[0], depth);
      SuccessHolds(graph, Join(prefix, KeyOf(graph, entry).value), entry.value, depth + 1, path[1..]);
    }
  }

  /** Failure means that some entry had an unusable key or a failing subtree. */
  lemma {:induction false} FailureEntry(graph: Graph, prefix: string, id: Id, k: nat, depth: nat) returns (i: nat)
    requires depth <= MAX_DEPTH && k <= |Entries(graph, id)|
    requires CollectFrom(graph, prefix, id, k, depth).Collected? && !CollectFrom(graph, prefix, id, k, depth).success
    ensures i < |Entries(graph, id)|
    ensures var entry := Entries(graph, id)[i];
            KeyOf(graph, entry).Some? ==>
            var below := Collect(graph, Join(prefix, KeyOf(graph, entry).value), entry.value, depth + 1);
            below.Collected? && !below.success
    decreases |Entries(graph, id)| - k
  {
    hide Collect;
    if CollectFrom(graph, prefix, id, k + 1, depth).success {
      i := k;
    } else {
      i := FailureEntry(graph, prefix, id, k + 1, depth);
    }
  }

  lemma {:induction false} FailureShows(graph: Graph, prefix: string, id: Id, depth: nat) returns (path: seq<nat>)
    requires depth <= MAX_DEPTH + 1
    requires Collect(graph, prefix, id, depth).Collected? && !Collect(graph, prefix, id, depth).success
    ensures IsPath(graph, id, path) && !KeysUsable(graph, End(graph, id, path))
    decreases MAX_DEPTH + 1 - depth
  {
    var i := FailureEntry(graph, prefix, id, 0, depth);
    var entry := Entries(graph, id)[i];
    if KeyOf(graph, entry).None? {
      path := [];
    } else {
      var inner := FailureShows(graph, Join(prefix, KeyOf(graph, entry).value), entry.value, depth + 1);
      path := [i] + inner;
      assert path[1..] == inner;
    }
  }
}
