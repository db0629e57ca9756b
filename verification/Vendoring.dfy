/** The two worklists of tools/vendor_boost_context.py. Both walk a graph given by the archive: from a name that the
  * archive holds, to the names found in its text, in the order and as often as they are found. */
module Vendoring {
  import opened Options

  type Name = string
  type Graph = map<Name, seq<Name>>

  /** A way through the archive: every name but the last is held and mentions the next. */
  ghost predicate IsPath(g: Graph, path: seq<Name>) {
    path != [] && forall i :: 0 <= i < |path| - 1 ==> path[i] in g && path[i + 1] in g[path[i]]
  }

  ghost predicate Reachable(g: Graph, roots: set<Name>, name: Name) {
    exists path :: IsPath(g, path) && path[0] in roots && path[|path| - 1] == name
  }

  lemma RootReachable(g: Graph, roots: set<Name>, name: Name)
    requires name in roots
    ensures Reachable(g, roots, name)
  {
    assert IsPath(g, [name]);
  }

  lemma MentionReachable(g: Graph, roots: set<Name>, name: Name, next: Name)
    requires Reachable(g, roots, name) && name in g && next in g[name]
    ensures Reachable(g, roots, next)
  {
    var path :| IsPath(g, path) && path[0] in roots && path[|path| - 1] == name;
    assert IsPath(g, path + [next]);
  }

  // ---- modules

  ghost predicate NoRepeats(names: seq<Name>) {
    forall i, j :: 0 <= i < j < |names| ==> names[i] != names[j]
  }

  /** list(...) of a set: the members in some order, each once. */
  method Listed(members: set<Name>) returns (list: seq<Name>)
    ensures forall name :: name in list <==> name in members
    ensures NoRepeats(list)
  {
    list := [];
    var rest := members;
    while rest != {}
      invariant rest <= members && NoRepeats(list)
      invariant forall name :: name in list <==> name in members - rest
      decreases |rest|
    {
      var name :| name in rest;
      assert name !in list;
      list := list + [name];
      rest := rest - {name};
    }
  }

  /** The order of strings: by the first code point that differs, a prefix first. */
  predicate Before(a: Name, b: Name) {
    b != "" && (a == "" || a[0] < b[0] || (a[0] == b[0] && Before(a[1..], b[1..])))
  }

  lemma {:induction false} BeforeIsTotal(a: Name, b: Name)
    ensures a != b ==> Before(a, b) || Before(b, a)
  {
    if a != "" && b != "" && a[0] == b[0] {
      BeforeIsTotal(a[1..], b[1..]);
      if a[1..] == b[1..] {
        assert a == [a[0]] + a[1..] == b;
      }
    }
  }

  lemma {:induction false} BeforeIsTransitive(a: Name, b: Name, c: Name)
    requires Before(a, b) && Before(b, c)
    ensures Before(a, c)
  {
    if a != "" && a[0] == b[0] == c[0] {
      BeforeIsTransitive(a[1..], b[1..], c[1..]);
    }
  }

  /** In ascending order, and so without repeats. */
  ghost predicate Ascending(list: seq<Name>) {
    forall i, j :: 0 <= i < j < |list| ==> Before(list[i], list[j])
  }

  method Inserted(list: seq<Name>, name: Name) returns (longer: seq<Name>)
    requires Ascending(list) && name !in list
    ensures Ascending(longer) && forall x :: x in longer <==> x in list || x == name
  {
    var i := 0;
    while i < |list| && Before(list[i], name)
      invariant 0 <= i <= |list|
      invariant forall k :: 0 <= k < i ==> Before(list[k], name)
    {
      i := i + 1;
    }
    forall k | i <= k < |list|
      ensures Before(name, list[k])
    {
      BeforeIsTotal(list[i], name);
      if i < k {
        BeforeIsTransitive(name, list[i], list[k]);
      }
    }
    longer := list[..i] + [name] + list[i..];
    assert list == list[..i] + list[i..];
  }

  /** sorted(...) of a set. */
  method SortedList(members: set<Name>) returns (list: seq<Name>)
    ensures Ascending(list) && forall name :: name in list <==> name in members
  {
    list := [];
    var rest := members;
    while rest != {}
      invariant rest <= members && Ascending(list)
      invariant forall name :: name in list <==> name in members - rest
      decreases |rest|
    {
      var name :| name in rest;
      assert name !in list;
      list := Inserted(list, name);
      rest := rest - {name};
    }
  }

  /** The references of a module to others. */
  function Dependencies(cmake: Graph, m: Name): set<Name>
    requires m in cmake
  {
    (set name | name in cmake[m]) - {m}
  }

  ghost predicate ModulesOk(cmake: Graph, root: Name, modules: map<Name, seq<Name>>, pending: seq<Name>) {
    && (root in modules || root in pending)
    && (forall m :: m in modules ==> m in cmake && Reachable(cmake, {root}, m))
    && (forall m :: m in modules ==> Ascending(modules[m]))
    && (forall m, d :: m in modules ==> (d in modules[m] <==> d in Dependencies(cmake, m)))
    && (forall m, d :: m in modules && d in modules[m] ==> d in modules || d in pending)
    && (forall d :: d in pending ==> Reachable(cmake, {root}, d))
  }

  /** The module table: nothing, for the KeyError, iff a module that is reached has no CMakeLists.txt; otherwise
    * exactly the modules that are reached from the root, each with the sorted list of its references to others. */
  method ModuleClosure(cmake: Graph, root: Name) returns (table: Option<map<Name, seq<Name>>>)
    ensures table == None <==> exists m :: m !in cmake && Reachable(cmake, {root}, m)
    ensures table.Some? ==>
      && (forall m :: m in table.value <==> Reachable(cmake, {root}, m))
      && (forall m :: m in table.value ==> Ascending(table.value[m]))
      && (forall m, d :: m in table.value ==> (d in table.value[m] <==> d in Dependencies(cmake, m)))
  {
    hide Ascending;
    var modules: map<Name, seq<Name>>, pending := map[], [root];
    RootReachable(cmake, {root}, root);
    while pending != []
      invariant ModulesOk(cmake, root, modules, pending)
      decreases cmake.Keys - modules.Keys, |pending|
    {
      ghost var before := pending;
      var m := pending[|pending| - 1];
      pending := pending[..|pending| - 1];
      assert forall d :: d in before <==> d in pending || d == m;
      if m in modules {
        continue;
      }
      if m !in cmake {
        return None;
      }
      var dependencies := SortedList(Dependencies(cmake, m));
      forall d | d in dependencies
        ensures Reachable(cmake, {root}, d)
      {
        MentionReachable(cmake, {root}, m, d);
      }
      ghost var undone := cmake.Keys - modules.Keys;
      modules := modules[m := dependencies];
      assert m in undone && cmake.Keys - modules.Keys == undone - {m};
      var unseen := Unseen(dependencies, modules);
      pending := pending + unseen;
    }
    ModulesComplete(cmake, root, modules);
    table := Some(modules);
  }

  /** The generator expression that extends the worklist. */
  function Unseen(names: seq<Name>, modules: map<Name, seq<Name>>): (unseen: seq<Name>)
    ensures forall name :: name in unseen <==> name in names && name !in modules
  {
    if names == [] then []
    else
      var rest := Unseen(names[1..], modules);
      assert forall name :: name in names <==> name == names[0] || name in names[1..];
      if names[0] in modules then rest else [names[0]] + rest
  }

  lemma ModulesComplete(cmake: Graph, root: Name, modules: map<Name, seq<Name>>)
    requires ModulesOk(cmake, root, modules, [])
    ensures forall m :: Reachable(cmake, {root}, m) ==> m in modules
  {
    forall m | Reachable(cmake, {root}, m)
      ensures m in modules
    {
      var path :| IsPath(cmake, path) && path[0] in {root} && path[|path| - 1] == m;
      ModulesOnPath(cmake, root, modules, path);
    }
  }

  lemma {:induction false} ModulesOnPath(cmake: Graph, root: Name, modules: map<Name, seq<Name>>, path: seq<Name>)
    requires ModulesOk(cmake, root, modules, []) && IsPath(cmake, path) && path[0] == root
    ensures path[|path| - 1] in modules
  {
    if |path| > 1 {
      var front, last := path[..|path| - 1], path[|path| - 1];
      ModulesOnPath(cmake, root, modules, front);
      var m := front[|front| - 1];
      assert m == path[|path| - 2];
      assert last == m || last in Dependencies(cmake, m);
    }
  }

  // ---- headers

  /** The headers found so far are split between the worklist and the written ones, each standing in one place. */
  ghost predicate HeadersOk(includes: Graph, initial: set<Name>, headers: set<Name>, work: seq<Name>,
                            files: seq<Name>) {
    && initial <= headers <= includes.Keys
    && (forall h :: h in headers ==> Reachable(includes, initial, h))
    && (forall h :: h in headers <==> h in work || h in files)
    && (forall h :: h in work ==> h !in files)
    && NoRepeats(work) && NoRepeats(files)
  }

  /** What these headers include, if the archive has it, has been found. */
  ghost predicate Followed(includes: Graph, headers: set<Name>, files: seq<Name>) {
    forall h, d :: h in files && h in includes && d in includes[h] && d in includes ==> d in headers
  }

  /** The written headers, in the order in which they are processed: each once, and exactly the least set that holds the
    * initial ones and is closed under the includes that the archive has. */
  method HeaderClosure(includes: Graph, initial: set<Name>) returns (files: seq<Name>)
    requires initial <= includes.Keys
    ensures NoRepeats(files)
    ensures forall h :: h in files <==> h in includes && Reachable(includes, initial, h)
  {
    hide Reachable, NoRepeats;
    var headers := initial;
    var work := Listed(initial);
    files := [];
    Initially(includes, initial, work);
    while work != []
      invariant HeadersOk(includes, initial, headers, work, files)
      invariant Followed(includes, headers, files)
      decreases includes.Keys - headers, |work|
    {
      var name := work[|work| - 1];
      Popped(includes, initial, headers, work, files);
      work := work[..|work| - 1];
      ghost var known, left := headers, work;
      for i := 0 to |includes[name]|
        invariant known <= headers && (headers == known ==> work == left)
        invariant HeadersOk(includes, initial, headers, work, files + [name])
        invariant forall k :: 0 <= k < i && includes[name][k] in includes ==> includes[name][k] in headers
      {
        var dep := includes[name][i];
        if dep in includes && dep !in headers {
          Pushed(includes, initial, headers, work, files, name, dep);
          headers := headers + {dep};
          work := work + [dep];
        }
      }
      FollowedGrows(includes, known, headers, files, name);
      files := files + [name];
      assert headers != known ==> includes.Keys - headers < includes.Keys - known;
    }
    HeadersComplete(includes, initial, headers, files);
  }

  lemma Initially(includes: Graph, initial: set<Name>, work: seq<Name>)
    requires initial <= includes.Keys && NoRepeats(work) && forall h :: h in work <==> h in initial
    ensures HeadersOk(includes, initial, initial, work, [])
  {
    forall h | h in initial
      ensures Reachable(includes, initial, h)
    {
      RootReachable(includes, initial, h);
    }
  }

  lemma FollowedGrows(includes: Graph, known: set<Name>, headers: set<Name>, files: seq<Name>, name: Name)
    requires Followed(includes, known, files) && known <= headers && name in includes
    requires forall k :: 0 <= k < |includes[name]| && includes[name][k] in includes ==> includes[name][k] in headers
    ensures Followed(includes, headers, files + [name])
  {
  }

  lemma HeadersComplete(includes: Graph, initial: set<Name>, headers: set<Name>, files: seq<Name>)
    requires HeadersOk(includes, initial, headers, [], files) && Followed(includes, headers, files)
    ensures forall h :: h in files <==> h in includes && Reachable(includes, initial, h)
  {
    forall h | h in includes && Reachable(includes, initial, h)
      ensures h in files
    {
      var path :| IsPath(includes, path) && path[0] in initial && path[|path| - 1] == h;
      HeadersOnPath(includes, initial, headers, files, path);
    }
  }

  lemma Popped(includes: Graph, initial: set<Name>, headers: set<Name>, work: seq<Name>, files: seq<Name>)
    requires work != [] && HeadersOk(includes, initial, headers, work, files)
    ensures HeadersOk(includes, initial, headers, work[..|work| - 1], files + [work[|work| - 1]])
  {
    hide Reachable;
    var rest, name := work[..|work| - 1], work[|work| - 1];
    assert work == rest + [name];
    assert forall i :: 0 <= i < |rest| ==> work[i] == rest[i] && work[i] != name;
    assert name in work;
  }

  lemma Pushed(includes: Graph, initial: set<Name>, headers: set<Name>, work: seq<Name>, files: seq<Name>, name: Name,
               dep: Name)
    requires HeadersOk(includes, initial, headers, work, files + [name])
    requires name in includes && dep in includes[name] && dep in includes && dep !in headers
    ensures HeadersOk(includes, initial, headers + {dep}, work + [dep], files + [name])
  {
    hide Reachable;
    assert name in files + [name];
    MentionReachable(includes, initial, name, dep);
  }

  lemma {:induction false} HeadersOnPath(includes: Graph, initial: set<Name>, headers: set<Name>, files: seq<Name>,
                                         path: seq<Name>)
    requires HeadersOk(includes, initial, headers, [], files) && Followed(includes, headers, files)
    requires IsPath(includes, path) && path[0] in initial && path[|path| - 1] in includes
    ensures path[|path| - 1] in files
  {
    if |path| > 1 {
      var front, last := path[..|path| - 1], path[|path| - 1];
      assert front[|front| - 1] == path[|path| - 2];
      HeadersOnPath(includes, initial, headers, files, front);
    }
  }
}
