/**
 `linx_yaml_load` as its callers see it: the event loop, and what becomes of the tree.
 */
module YamlConfig {
  import opened Basics
  import opened YamlMachine
  import opened YamlRoundTrip
  import opened YamlErrors
  import opened YamlLoader
  import opened YamlFree

  /** Exactly the nodes of the tree under `root`, each once. */
  ghost predicate ReleasesTree(heap: Heap, root: nat, released: seq<nat>) {
    && (forall x: nat :: x in released <==> Below(heap, root, x))
    && (forall i, j :: 0 <= i < j < |released| ==> released[i] != released[j])
  }

  lemma FreedIsTree(heap: Heap, parent: seq<Option<nat>>, root: nat)
    requires Forest(heap, parent) && root < |heap|
    ensures ReleasesTree(heap, root, FreeOrder(heap, parent, root))
  {
    hide Forest, Below, FreeOrder;
    FreeReleasesEachOnce(heap, parent, root);
  }

  /**
   The file is open already. There is a tree exactly when a collection is started and neither a
   parser failure nor a surplus end comes before the end of the stream. After one of those,
   whatever had been built under the root is released, each node once; else the root is
   returned, as far as it was filled. For the events of a document the tree is the document if
   and only if it is in the class.
   */
  method LoadConfig(events: seq<Event>, garbage: bool)
      returns (tree: Option<Node>, loader: Loader, released: seq<nat>)
    ensures loader.Valid() && loader.State() == Run(Init(garbage), events)
    ensures var m := Run(Init(garbage), events);
            && (m.error || m.root == Unset ==> tree == None)
            && (!m.error && m.root.Finished? ==> tree == Some(m.root.node))
            && (!m.error && m.root == AtBottom ==> m.stack != [] && tree == Some(Collapse(m.stack)))
            && (m.error && loader.root.Some? ==> ReleasesTree(loader.heap, loader.root.value, released))
            && (!m.error || loader.root.None? ==> released == [])
    ensures tree.Some? <==> !Breaks(events, 0) && Opens(events)
    ensures if Breaks(events, 0) && loader.root.Some? then ReleasesTree(loader.heap, loader.root.value, released)
            else released == []
    ensures forall d: Doc :: !d.Leaf? && events == Stream(d) ==> (tree == Some(Loaded(d, None)) <==> ScalarsFirst(d))
  {
    hide Run, Loaded, ScalarsFirst, Stream, Breaks, Opens, ReleasesTree;
    ErrorIff(Init(garbage), events);
    if !Breaks(events, 0) {
      RootIff(Init(garbage), events);
    }
    loader := new Loader(garbage);
    loader.Load(events);
    released := [];
    forall d: Doc | !d.Leaf? && events == Stream(d)
      ensures var m := Run(Init(garbage), events);
              !m.error && m.root.Finished? && (m.root.node == Loaded(d, None) <==> ScalarsFirst(d))
    {
      LoadRoundTrip(d, garbage);
    }
    if loader.root.None? {
      return None, loader, [];
    }
    var root := loader.root.value;
    if loader.error {
      released := Free(loader.heap, loader.parent, root);
      FreedIsTree(loader.heap, loader.parent, root);
      return None, loader, released;
    }
    if loader.stack != [] && loader.stack[0] == root {
      ReadOpen(loader.heap, loader.parent, loader.stack, 0);
    }
    tree := Some(Read(loader.heap, loader.parent, root));
  }
}
