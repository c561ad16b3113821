/** What the limits of an import say about the single paths of a tree. */
module TreePaths {
  import opened Prelude
  import opened CopyTree

  /** Following the names of the path from the top leads to this node. */
  predicate Reaches(t: seq<Entry>, path: seq<string>, node: Node)
    decreases |path|
  {
    path != [] && exists i :: 0 <= i < |t| && Leads(t[i], path, node)
  }

  predicate Leads(e: Entry, path: seq<string>, node: Node)
    requires path != []
    decreases |path|, 0
  {
    e.name == path[0] &&
    if |path| == 1 then e.node == node else e.node.Dir? && Reaches(e.node.entries, path[1..], node)
  }

  function Slashed(path: seq<string>): string
    requires path != []
  {
    if |path| == 1 then path[0] else path[0] + "/" + Slashed(path[1..])
  }

  predicate NameOk(name: string) {
    name != "" && name != "." && name != ".." && '/' !in name && '\0' !in name
  }

  /** A plain file or a directory at a legal path, and no directory beyond the depth limit. */
  predicate NodeOk(prefix: string, depth: nat, path: seq<string>, node: Node) {
    && path != [] && (forall i :: 0 <= i < |path| ==> NameOk(path[i]))
    && |prefix + Slashed(path)| <= 512
    && (node.File? || (node.Dir? && depth + |path| <= 64))
  }

  ghost predicate AllOk(t: seq<Entry>, prefix: string, depth: nat) {
    forall path, node :: Reaches(t, path, node) ==> NodeOk(prefix, depth, path, node)
  }

  ghost predicate EntryOk(e: Entry, prefix: string, depth: nat) {
    forall path, node :: path != [] && Leads(e, path, node) ==> NodeOk(prefix, depth, path, node)
  }

  /** The tree is accepted exactly if everything in it is at a legal place. */
  lemma {:induction false} ShapedIff(t: seq<Entry>, prefix: string, depth: nat)
    ensures Shaped(t, prefix, depth) <==> AllOk(t, prefix, depth)
    decreases t, 1
  {
    forall i | 0 <= i < |t| ensures EntryShaped(t[i], prefix, depth) <==> EntryOk(t[i], prefix, depth) {
      EntryShapedIff(t[i], prefix, depth);
    }
    if AllOk(t, prefix, depth) {
      forall i | 0 <= i < |t| ensures EntryOk(t[i], prefix, depth) {
        assert forall path, node :: path != [] && Leads(t[i], path, node) ==> Reaches(t, path, node);
      }
    }
  }

  lemma {:induction false} EntryShapedIff(e: Entry, prefix: string, depth: nat)
    ensures EntryShaped(e, prefix, depth) <==> EntryOk(e, prefix, depth)
    decreases e, 0
  {
    NameIsComponent(e.name);
    hide NameOk, ComponentOk;
    if EntryOk(e, prefix, depth) {
      assert Leads(e, [e.name], e.node);
      assert NodeOk(prefix, depth, [e.name], e.node) && [e.name][0] == e.name;
    }
    if e.node.Dir? {
      ShapedIff(e.node.entries, prefix + e.name + "/", depth + 1);
      Below(e, prefix, depth);
    }
  }

  lemma NameIsComponent(name: string)
    ensures NameOk(name) <==> ComponentOk(name)
  {
  }

  lemma Deeper(prefix: string, depth: nat, name: string, rest: seq<string>, node: Node)
    requires NameOk(name) && rest != []
    ensures NodeOk(prefix, depth, [name] + rest, node) <==> NodeOk(prefix + name + "/", depth + 1, rest, node)
  {
    hide NameOk;
    var path := [name] + rest;
    assert path[1..] == rest;
    assert prefix + name + "/" + Slashed(rest) == prefix + Slashed(path);
    assert path[0] == name && forall i :: 0 <= i < |rest| ==> path[i + 1] == rest[i];
  }

  /** A directory is all right exactly if it is itself, and so is everything below it. */
  lemma Below(e: Entry, prefix: string, depth: nat)
    requires e.node.Dir?
    ensures EntryOk(e, prefix, depth) <==>
            NodeOk(prefix, depth, [e.name], e.node) && AllOk(e.node.entries, prefix + e.name + "/", depth + 1)
  {
    hide NameOk, NodeOk;
    if EntryOk(e, prefix, depth) {
      assert Leads(e, [e.name], e.node);
      FirstName(prefix, depth, e.name, e.node);
      forall rest, node | Reaches(e.node.entries, rest, node)
        ensures NodeOk(prefix + e.name + "/", depth + 1, rest, node)
      {
        assert ([e.name] + rest)[1..] == rest;
        assert Leads(e, [e.name] + rest, node);
        Deeper(prefix, depth, e.name, rest, node);
      }
    }
    if NodeOk(prefix, depth, [e.name], e.node) && AllOk(e.node.entries, prefix + e.name + "/", depth + 1) {
      FirstName(prefix, depth, e.name, e.node);
      forall path, node | path != [] && Leads(e, path, node) ensures NodeOk(prefix, depth, path, node) {
        if |path| == 1 {
          assert path == [e.name];
        } else {
          assert path == [e.name] + path[1..];
          Deeper(prefix, depth, e.name, path[1..], node);
        }
      }
    }
  }

  lemma FirstName(prefix: string, depth: nat, name: string, node: Node)
    requires NodeOk(prefix, depth, [name], node)
    ensures NameOk(name)
  {
    assert [name][0] == name;
  }

  // ----- Counts -----

  /** Everything in the tree. */
  function Nodes(t: seq<Entry>): seq<Node>
    decreases t
  {
    if t == [] then [] else Nodes(t[..|t| - 1]) + NodesOf(t[|t| - 1])
  }

  function NodesOf(e: Entry): seq<Node>
    decreases e
  {
    [e.node] + if e.node.Dir? then Nodes(e.node.entries) else []
  }

  function Bytes(ns: seq<Node>): nat {
    if ns == [] then 0 else Bytes(ns[..|ns| - 1]) + if ns[|ns| - 1].File? then ns[|ns| - 1].bytes else 0
  }

  function Files(ns: seq<Node>): set<nat> {
    set i: nat | i < |ns| && ns[i].File?
  }

  /** How many nodes, how many files, and how many bytes these have. */
  function SizeOf(ns: seq<Node>): Size {
    Size(|ns|, |Files(ns)|, Bytes(ns))
  }

  lemma SizeSnoc(ns: seq<Node>, x: Node)
    ensures SizeOf(ns + [x]) == Plus(SizeOf(ns), if x.File? then Size(1, 1, x.bytes) else Size(1, 0, 0))
  {
    assert (ns + [x])[..|ns|] == ns;
    assert Files(ns + [x]) == Files(ns) + if x.File? then {|ns|} else {};
  }

  lemma {:induction false} SizeJoins(a: seq<Node>, b: seq<Node>)
    ensures SizeOf(a + b) == Plus(SizeOf(a), SizeOf(b))
    decreases |b|
  {
    hide SizeOf;
    if b == [] {
      assert a + b == a;
      NoSize();
    } else {
      var c, x := b[..|b| - 1], b[|b| - 1];
      assert b == c + [x] && a + b == (a + c) + [x];
      SizeJoins(a, c);
      SizeSnoc(c, x);
      SizeSnoc(a + c, x);
    }
  }

  /** The walk counts every entry, every file and every byte of the tree once. */
  lemma {:induction false} TotalCounts(t: seq<Entry>)
    ensures Total(t) == SizeOf(Nodes(t))
    decreases t, 1
  {
    hide SizeOf;
    if t == [] {
      NoSize();
    } else {
      TotalCounts(t[..|t| - 1]);
      WeightCounts(t[|t| - 1]);
      SizeJoins(Nodes(t[..|t| - 1]), NodesOf(t[|t| - 1]));
    }
  }

  lemma NoSize()
    ensures SizeOf([]) == Zero
  {
    assert Files([]) == {};
  }

  lemma {:induction false} WeightCounts(e: Entry)
    ensures Weight(e) == SizeOf(NodesOf(e))
    decreases e, 0
  {
    hide SizeOf, Nodes, Total;
    OneNode(e.node);
    match e.node {
      case Dir(inner) =>
        TotalCounts(inner);
        SizeJoins([e.node], Nodes(inner));
      case _ =>
        assert NodesOf(e) == [e.node];
    }
  }

  lemma OneNode(x: Node)
    ensures SizeOf([x]) == if x.File? then Size(1, 1, x.bytes) else Size(1, 0, 0)
  {
    NoSize();
    SizeSnoc([], x);
    assert [] + [x] == [x];
  }
}
