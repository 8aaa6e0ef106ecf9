/** The store as an object, and the listing of a cluster's nodes in whatever order the map is iterated. */
module InMemoryStorage {
  import opened Entities
  import opened Names
  import opened ControlPlane
  import opened Records

  class Storage {
    var gr: map<string, General>

    /** The messages the store owns. Nobody outside may hold one of them. */
    ghost function Owned(): set<RawMessage>
      reads this
    {
      set key | key in gr :: gr[key].spec
    }

    ghost function Contents(): Table
      reads this, Owned()
    {
      map key | key in gr :: ValueOf(gr[key])
    }

    ghost predicate Valid()
      reads this, Owned()
    {
      WellKeyed(Contents())
    }

    constructor Empty()
      ensures Valid() && Contents() == map[]
    {
      gr := map[];
    }

    /** A deep copy: the same record with a message of its own. */
    static method Copy(g: General) returns (c: General)
      ensures ValueOf(c) == ValueOf(g) && fresh(c.spec)
    {
      var spec := new RawMessage(g.spec.doc);
      c := General(g.kind, g.name, spec);
    }

    /** An upsert. The store keeps a copy, so the caller's message never becomes part of it. */
    method CreateResource(entity: General)
      requires Valid()
      modifies this
      ensures Valid() && Contents() == old(Contents())[KeyOf(ValueOf(entity)) := ValueOf(entity)]
      ensures fresh(Owned() - old(Owned()))
    {
      var c := Copy(entity);
      var key := StorageKey(entity.kind, entity.name);
      gr := gr[key := c];
      assert Contents() == old(Contents())[key := ValueOf(entity)];
    }

    /** The caller gets a copy, so no message it receives is part of the store. */
    method GetGeneralResource(name: string, kind: string) returns (r: Result<General>)
      requires Valid()
      ensures r.Ok? ==> fresh(r.value.spec)
      ensures match Serve(Contents(), Get(name, kind)).1
              case Found(resource) => r.Ok? && ValueOf(r.value) == resource
              case Missing => r.Ok? && ValueOf(r.value) == Resource("", "", NoDoc)
              case _ => r.Err?
    {
      if name == "" || kind == "" {
        return Err;
      }
      var key := StorageKey(kind, name);
      if key !in gr {
        var none := new RawMessage(NoDoc);
        return Ok(General("", "", none));
      }
      var c := Copy(gr[key]);
      r := Ok(c);
    }

    method UpdateGeneralResource(state: General) returns (ok: bool)
      requires Valid()
      modifies this
      ensures Valid() && ok == (KeyOf(ValueOf(state)) in old(Contents()))
      ensures Contents() == UpdateResource(old(Contents()), ValueOf(state))
      ensures (Contents(), if ok then Nothing else NotFound) == Serve(old(Contents()), Replace(ValueOf(state)))
      ensures fresh(Owned() - old(Owned()))
    {
      var c := Copy(state);
      var key := StorageKey(state.kind, state.name);
      if key !in gr {
        return false;
      }
      gr := gr[key := c];
      ok := true;
      assert Contents() == old(Contents())[key := ValueOf(state)];
    }

    method DeleteGeneralResource(name: string, kind: string)
      requires Valid()
      modifies this
      ensures Valid() && Contents() == old(Contents()) - {StorageKey(kind, name)}
      ensures Contents() == Serve(old(Contents()), Delete(name, kind)).0
      ensures Owned() <= old(Owned())
    {
      gr := gr - {StorageKey(kind, name)};
      assert Contents() == old(Contents()) - {StorageKey(kind, name)};
    }

    /** The records of one kind, each exactly once, as copies, in the order in which the map is iterated. */
    method ListGeneralResourcesByKind(kind: string) returns (list: seq<General>, ghost records: seq<Resource>)
      requires Valid()
      ensures |records| == |list| && forall i | 0 <= i < |list| :: fresh(list[i].spec) && ValueOf(list[i]) == records[i]
      ensures Serve(Contents(), List(kind)).1 == Listed(multiset(records))
    {
      list, records := [], [];
      var rest := gr.Keys;
      ghost var c := Contents();
      while rest != {}
        invariant c == Contents() && rest <= gr.Keys && |records| == |list|
        invariant forall i | 0 <= i < |list| :: fresh(list[i].spec) && ValueOf(list[i]) == records[i]
        invariant forall i, j | 0 <= i < j < |records| :: records[i] != records[j]
        invariant forall r :: r in records <==> r.kind == kind && KeyOf(r) !in rest && KeyOf(r) in c && c[KeyOf(r)] == r
        decreases rest
      {
        var key :| key in rest;
        rest := rest - {key};
        if gr[key].kind == kind {
          assert c[key] == ValueOf(gr[key]) && c[key] !in records;
          var copy := Copy(gr[key]);
          list, records := list + [copy], records + [c[key]];
        }
      }
      forall r ensures r in records <==> r in OfKind(c, kind) {
        assert r in OfKind(c, kind) ==> KeyOf(r) in c;
      }
      DistinctIsSet(records, OfKind(c, kind));
    }

    /**
     * The nodes of a cluster, each exactly once, whatever the order of the iteration. A node record that does not
     * decode fails the whole listing, even if it belongs to another cluster.
     */
    method GetNodesByCluster(clusterName: string) returns (r: Result<seq<Node>>)
      requires Valid() && KnownKinds(Contents())
      ensures Contents() == old(Contents())
      ensures r.Err? <==> HasBadNode(Contents())
      ensures r.Ok? ==> IsListing(r.value, Members(NodesOf(Contents()), clusterName))
      ensures r.Ok? ==> forall n: Node :: n in r.value <==> n.clusterName == clusterName && NodeResource(n) in OfKind(Contents(), "node")
    {
      var nodes: seq<Node> := [];
      var rest := gr.Keys;
      ghost var c := Contents();
      while rest != {}
        invariant c == Contents() && rest <= gr.Keys && Partial(c, clusterName, rest, nodes)
        decreases rest
      {
        var key :| key in rest;
        assert ValueOf(gr[key]) == c[key];
        var before := nodes;
        if gr[key].kind == NODE_KIND {
          var node := ToNode(ValueOf(gr[key]));
          if node.Err? {
            return Err;
          }
          if node.value.clusterName == clusterName {
            nodes := nodes + [node.value];
          }
        }
        PartialStep(c, clusterName, rest, key, before, nodes);
        rest := rest - {key};
      }
      PartialIsListing(c, clusterName, nodes);
      ListedAreStored(c, clusterName, nodes);
      r := Ok(nodes);
    }
  }

  /**
   * The store is isolated from its callers: whatever they do afterwards to the message they have passed in, or to
   * the one they have got back, the store keeps the resource as it was passed in.
   */
  method CallersCannotReachIn(s: Storage, g: General, scribble: Doc) returns (r: Result<General>)
    requires s.Valid() && g.spec !in s.Owned() && g.name != "" && g.kind != ""
    modifies s, g.spec
    ensures s.Valid() && s.Contents() == old(s.Contents())[old(KeyOf(ValueOf(g))) := old(ValueOf(g))]
    ensures r.Ok? && ValueOf(r.value) == old(ValueOf(g)) && r.value.spec !in s.Owned() && g.spec !in s.Owned()
  {
    s.CreateResource(g);
    assert g.spec !in s.Owned();
    g.spec.doc := scribble;
    var first := s.GetGeneralResource(g.name, g.kind);
    first.value.spec.doc := scribble;
    r := s.GetGeneralResource(g.name, g.kind);
  }

  /** The listing so far: exactly the members whose keys the iteration has already met. */
  ghost predicate Partial(c: Table, cluster: string, rest: set<string>, nodes: seq<Node>)
    requires WellKeyed(c)
  {
    var members := Members(NodesOf(c), cluster);
    && (forall key | key in c && key !in rest && c[key].kind == NODE_KIND :: ToNode(c[key]).Ok?)
    && (forall i | 0 <= i < |nodes| ::
          nodes[i].name in members && members[nodes[i].name] == nodes[i] && StorageKey(NODE_KIND, nodes[i].name) !in rest)
    && (forall i, j | 0 <= i < j < |nodes| :: nodes[i].name != nodes[j].name)
    && (forall name | name in members && StorageKey(NODE_KIND, name) !in rest :: name in NamesOf(nodes))
  }

  lemma NamesOfAppend(nodes: seq<Node>, n: Node)
    ensures NamesOf(nodes + [n]) == NamesOf(nodes) + {n.name}
  {
    var more := nodes + [n];
    assert more[|nodes|] == n && forall i | 0 <= i < |nodes| :: more[i] == nodes[i];
  }

  /** The key that is met next either is not a member's, or brings that member into the listing. */
  lemma PartialStep(c: Table, cluster: string, rest: set<string>, key: string, nodes: seq<Node>, nodes': seq<Node>)
    requires WellKeyed(c) && KnownKinds(c) && key in rest && key in c && Partial(c, cluster, rest, nodes)
    requires c[key].kind == NODE_KIND ==> ToNode(c[key]).Ok?
    requires nodes' == if c[key].kind == NODE_KIND && ToNode(c[key]).value.clusterName == cluster
                       then nodes + [ToNode(c[key]).value] else nodes
    ensures Partial(c, cluster, rest - {key}, nodes')
  {
    var members := Members(NodesOf(c), cluster);
    NodesAreKeyed(c, c[key].name);
    if nodes' != nodes {
      NamesOfAppend(nodes, ToNode(c[key]).value);
    }
    forall name | name in members && StorageKey(NODE_KIND, name) !in rest - {key} ensures name in NamesOf(nodes') {
      NodesAreKeyed(c, name);
    }
  }

  /** When no key is left the listing is complete. */
  lemma PartialIsListing(c: Table, cluster: string, nodes: seq<Node>)
    requires WellKeyed(c) && Partial(c, cluster, {}, nodes)
    ensures !HasBadNode(c) && IsListing(nodes, Members(NodesOf(c), cluster))
  {
    var members := Members(NodesOf(c), cluster);
    assert NamesOf(nodes) == members.Keys by {
      forall name | name in members ensures name in NamesOf(nodes) {
        assert StorageKey(NODE_KIND, name) !in {};
      }
    }
    DistinctNames(nodes);
  }

  /** The listing by the fields of the records: the nodes of that cluster, and no others. */
  lemma ListedAreStored(c: Table, cluster: string, nodes: seq<Node>)
    requires WellKeyed(c) && KnownKinds(c) && IsListing(nodes, Members(NodesOf(c), cluster))
    ensures forall n: Node :: n in nodes <==> n.clusterName == cluster && NodeResource(n) in OfKind(c, "node")
  {
    ListingIsComplete(nodes, Members(NodesOf(c), cluster));
    forall n: Node ensures n in nodes <==> n.clusterName == cluster && NodeResource(n) in OfKind(c, "node") {
      NodesAreKeyed(c, n.name);
      StoredNodeIff(c, n);
      var m := Members(NodesOf(c), cluster);
      if n.name in m && m[n.name] == n {
        assert m[n.name] in nodes;
      }
    }
  }

  lemma StoredNodeIff(c: Table, n: Node)
    requires WellKeyed(c) && KnownKinds(c)
    ensures NodeResource(n) in OfKind(c, "node") <==> n.name in NodesOf(c) && NodesOf(c)[n.name] == n
  {
    NodesAreKeyed(c, n.name);
    var key := StorageKey(NODE_KIND, n.name);
    if n.name in NodesOf(c) && NodesOf(c)[n.name] == n {
      assert c[key] == NodeResource(n);
    }
  }
}
