/** The records of the store, what its contents mean, and how they answer requests. */
module Records {
  import opened Entities
  import opened Names
  import opened ControlPlane

  const NODE_KIND := "node"
  const CLUSTER_KIND := "Galera"

  /** What a `json.RawMessage` decodes to; `NoDoc` is a message that does not decode, such as an empty one. */
  datatype Doc =
    | NodeDoc(clusterName: string, image: string, status: Status, target: Target, report: Report)
    | ClusterDoc(image: string, status: Status, replicas: int)
    | NoDoc

  /** The bytes behind a `json.RawMessage`. They are shared by every copy of a record that is not a deep copy. */
  class RawMessage {
    var doc: Doc

    constructor (doc: Doc)
      ensures this.doc == doc
    {
      this.doc := doc;
    }
  }

  /** A GeneralTargetState: a value with a reference in it. */
  datatype General = General(kind: string, name: string, spec: RawMessage)

  /** What such a record stands for at some moment. */
  datatype Resource = Resource(kind: string, name: string, doc: Doc)

  type Table = map<string, Resource>

  datatype Result<+T> = Ok(value: T) | Err

  function ValueOf(g: General): Resource
    reads g.spec
  {
    Resource(g.kind, g.name, g.spec.doc)
  }

  function KeyOf(r: Resource): string {
    StorageKey(r.kind, r.name)
  }

  // ---- Typed records ----

  function NodeResource(n: Node): Resource {
    Resource(NODE_KIND, n.name, NodeDoc(n.clusterName, n.image, n.status, n.target, n.report))
  }

  function ClusterResource(c: Cluster): Resource {
    Resource(CLUSTER_KIND, c.name, ClusterDoc(c.image, c.status, c.replicas))
  }

  /** FromGeneralTargetState of a node: the kind of the record is not looked at. */
  function ToNode(r: Resource): Result<Node> {
    match r.doc
    case NodeDoc(clusterName, image, status, target, report) => Ok(Node(r.name, clusterName, image, status, target, report))
    case _ => Err
  }

  function ToCluster(r: Resource): Result<Cluster> {
    match r.doc
    case ClusterDoc(image, status, replicas) => Ok(Cluster(r.name, image, replicas, status))
    case _ => Err
  }

  lemma RecordsRoundTrip(n: Node, c: Cluster)
    ensures ToNode(NodeResource(n)) == Ok(n) && ToCluster(ClusterResource(c)) == Ok(c)
  {
  }

  // ---- What the store holds ----

  ghost predicate WellKeyed(c: Table) {
    forall key | key in c :: key == KeyOf(c[key])
  }

  /** Only nodes and clusters are ever stored. */
  ghost predicate KnownKinds(c: Table) {
    forall key | key in c :: c[key].kind == NODE_KIND || c[key].kind == CLUSTER_KIND
  }

  ghost predicate HasBadNode(c: Table) {
    exists key :: key in c && c[key].kind == NODE_KIND && ToNode(c[key]).Err?
  }

  /** The node records of the store, by name. */
  ghost function NodesOf(c: Table): Nodes
    requires WellKeyed(c)
  {
    map key | key in c && c[key].kind == NODE_KIND && ToNode(c[key]).Ok? :: c[key].name := ToNode(c[key]).value
  }

  function PutNode(c: Table, n: Option<Node>): Table {
    if n.Some? then c[KeyOf(NodeResource(n.value)) := NodeResource(n.value)] else c
  }

  function UpdateResource(c: Table, r: Resource): Table {
    if KeyOf(r) in c then c[KeyOf(r) := r] else c
  }

  lemma NodesAreKeyed(c: Table, name: string)
    requires WellKeyed(c) && KnownKinds(c)
    ensures name in NodesOf(c) <==> StorageKey(NODE_KIND, name) in c && ToNode(c[StorageKey(NODE_KIND, name)]).Ok? && c[StorageKey(NODE_KIND, name)].kind == NODE_KIND
    ensures StorageKey(NODE_KIND, name) in c ==>
              c[StorageKey(NODE_KIND, name)].kind == NODE_KIND && c[StorageKey(NODE_KIND, name)].name == name
    ensures name in NodesOf(c) ==> NodesOf(c)[name].name == name && ToNode(c[StorageKey(NODE_KIND, name)]) == Ok(NodesOf(c)[name])
  {
    var key := StorageKey(NODE_KIND, name);
    if key in c {
      StorageKeyInjective(NODE_KIND, name, c[key].kind, c[key].name);
    }
    if name in NodesOf(c) {
      var key' :| key' in c && c[key'].kind == NODE_KIND && ToNode(c[key']).Ok? && c[key'].name == name;
      assert key' == key;
    }
  }

  lemma PutKeepsKeys(c: Table, r: Resource)
    requires WellKeyed(c) && KnownKinds(c) && (r.kind == NODE_KIND || r.kind == CLUSTER_KIND)
    ensures WellKeyed(c[KeyOf(r) := r]) && KnownKinds(c[KeyOf(r) := r])
  {
  }

  predicate SameAt(m: Nodes, m': Nodes, name: string) {
    (name in m <==> name in m') && (name in m && name in m' ==> m[name] == m'[name])
  }

  lemma SameEverywhere(m: Nodes, m': Nodes)
    requires forall name: string :: SameAt(m, m', name)
    ensures m == m'
  {
    assert forall name | name in m :: SameAt(m, m', name);
    assert forall name | name in m' :: SameAt(m, m', name);
  }

  lemma PutNodeAt(c: Table, c': Table, n: Node, name: string)
    requires WellKeyed(c) && KnownKinds(c) && WellKeyed(c') && KnownKinds(c') && c' == PutNode(c, Some(n))
    ensures SameAt(NodesOf(c)[n.name := n], NodesOf(c'), name)
  {
    NodesAreKeyed(c, name);
    NodesAreKeyed(c', name);
    StorageKeyInjective(NODE_KIND, name, NODE_KIND, n.name);
  }

  /** Storing a node changes that node's record and nothing else. */
  lemma PutNodeIsPut(c: Table, c': Table, n: Node)
    requires WellKeyed(c) && KnownKinds(c) && c' == PutNode(c, Some(n))
    ensures WellKeyed(c') && KnownKinds(c') && NodesOf(c') == NodesOf(c)[n.name := n]
  {
    PutKeepsKeys(c, NodeResource(n));
    var m, m' := NodesOf(c)[n.name := n], NodesOf(c');
    forall name: string ensures SameAt(m, m', name) {
      PutNodeAt(c, c', n, name);
    }
    SameEverywhere(m, m');
  }

  // ---- The store against an abstract map ----

  datatype Request =
    | Create(r: Resource)
    | Get(name: string, kind: string)
    | Replace(r: Resource)
    | Delete(name: string, kind: string)
    | List(kind: string)

  datatype Answer = Nothing | Found(r: Resource) | Missing | Invalid | NotFound | Listed(all: multiset<Resource>)

  function KindOf(q: Request): string {
    if q.Create? || q.Replace? then q.r.kind else q.kind
  }

  /** The stored records of a kind. They all have different keys, so none is there twice. */
  function OfKind(c: Table, kind: string): set<Resource> {
    set key | key in c && c[key].kind == kind :: c[key]
  }

  function Serve(c: Table, q: Request): (Table, Answer) {
    match q
    case Create(r) => (c[KeyOf(r) := r], Nothing)
    case Get(name, kind) =>
      if name == "" || kind == "" then (c, Invalid)
      else if StorageKey(kind, name) in c then (c, Found(c[StorageKey(kind, name)])) else (c, Missing)
    case Replace(r) => if KeyOf(r) in c then (c[KeyOf(r) := r], Nothing) else (c, NotFound)
    case Delete(name, kind) => (c - {StorageKey(kind, name)}, Nothing)
    case List(kind) => (c, Listed(multiset(OfKind(c, kind))))
  }

  /** The abstract store: documents by kind and name. */
  type Abstract = map<(string, string), Doc>

  function OfKindAbstract(m: Abstract, kind: string): set<Resource> {
    set id | id in m && id.0 == kind :: Resource(id.0, id.1, m[id])
  }

  function ServeAbstract(m: Abstract, q: Request): (Abstract, Answer) {
    match q
    case Create(r) => (m[(r.kind, r.name) := r.doc], Nothing)
    case Get(name, kind) =>
      if name == "" || kind == "" then (m, Invalid)
      else if (kind, name) in m then (m, Found(Resource(kind, name, m[(kind, name)]))) else (m, Missing)
    case Replace(r) => if (r.kind, r.name) in m then (m[(r.kind, r.name) := r.doc], Nothing) else (m, NotFound)
    case Delete(name, kind) => (m - {(kind, name)}, Nothing)
    case List(kind) => (m, Listed(multiset(OfKindAbstract(m, kind))))
  }

  /** A sequence without repetitions is a listing of its set. */
  lemma {:induction false} DistinctIsSet(rs: seq<Resource>, s: set<Resource>)
    requires forall i, j | 0 <= i < j < |rs| :: rs[i] != rs[j]
    requires forall r :: r in rs <==> r in s
    ensures multiset(rs) == multiset(s)
  {
    if rs != [] {
      var n := |rs| - 1;
      var last, rest := rs[n], rs[..n];
      assert rs == rest + [last];
      DistinctIsSet(rest, s - {last});
      assert multiset(s) == multiset(s - {last}) + multiset{last};
    }
  }

  /** No kind goes on behind a slash where another one ends. */
  ghost predicate Separate(kinds: set<string>) {
    forall k, k' | k in kinds && k' in kinds && k != k' :: !(k + "/" <= k')
  }

  lemma SlashFreeKindsAreSeparate(kinds: set<string>)
    requires forall k | k in kinds :: '/' !in k
    ensures Separate(kinds)
  {
    forall k, k' | k in kinds && k' in kinds && k != k' ensures !(k + "/" <= k') {
      SlashFreeIsSeparate(k, k');
    }
  }

  lemma SeparateKeys(kinds: set<string>, kind: string, name: string, kind': string, name': string)
    requires Separate(kinds) && kind in kinds && kind' in kinds
    ensures StorageKey(kind, name) == StorageKey(kind', name') <==> kind == kind' && name == name'
  {
    if kind != kind' {
      SeparateKeysInjective(kind, name, kind', name');
    } else {
      assert StorageKey(kind, name)[|kind| + 2..] == name && StorageKey(kind, name')[|kind| + 2..] == name';
    }
  }

  /** The string-keyed map holds exactly the documents of the abstract one, under their keys. */
  ghost predicate Represents(c: Table, m: Abstract, kinds: set<string>) {
    && (forall key | key in c :: key == KeyOf(c[key]) && c[key].kind in kinds
                                 && (c[key].kind, c[key].name) in m && m[(c[key].kind, c[key].name)] == c[key].doc)
    && (forall id | id in m :: id.0 in kinds && StorageKey(id.0, id.1) in c && c[StorageKey(id.0, id.1)] == Resource(id.0, id.1, m[id]))
  }

  lemma SameListing(c: Table, m: Abstract, kinds: set<string>, kind: string)
    requires Represents(c, m, kinds)
    ensures OfKind(c, kind) == OfKindAbstract(m, kind)
  {
    forall r | r in OfKind(c, kind) ensures r in OfKindAbstract(m, kind) {
      var key :| key in c && c[key] == r;
      assert (r.kind, r.name) in m;
    }
    forall r | r in OfKindAbstract(m, kind) ensures r in OfKind(c, kind) {
      var id :| id in m && id.0 == kind && r == Resource(id.0, id.1, m[id]);
      assert StorageKey(id.0, id.1) in c;
    }
  }

  /** A key is a resource's own key exactly if the kinds and the names are equal, on both sides. */
  lemma KeysMatch(c: Table, m: Abstract, kinds: set<string>, kind: string, name: string)
    requires Represents(c, m, kinds) && Separate(kinds) && kind in kinds
    ensures forall id | id in m :: StorageKey(id.0, id.1) == StorageKey(kind, name) <==> id == (kind, name)
    ensures forall key | key in c :: key == StorageKey(kind, name) <==> (c[key].kind, c[key].name) == (kind, name)
  {
    forall id | id in m ensures StorageKey(id.0, id.1) == StorageKey(kind, name) <==> id == (kind, name) {
      SeparateKeys(kinds, id.0, id.1, kind, name);
    }
    forall key | key in c ensures key == StorageKey(kind, name) <==> (c[key].kind, c[key].name) == (kind, name) {
      SeparateKeys(kinds, c[key].kind, c[key].name, kind, name);
    }
  }

  lemma PutRefines(c: Table, m: Abstract, r: Resource, kinds: set<string>)
    requires Represents(c, m, kinds) && Separate(kinds) && r.kind in kinds
    ensures Represents(c[KeyOf(r) := r], m[(r.kind, r.name) := r.doc], kinds)
    ensures KeyOf(r) in c <==> (r.kind, r.name) in m
  {
    KeysMatch(c, m, kinds, r.kind, r.name);
  }

  lemma DeleteRefines(c: Table, m: Abstract, name: string, kind: string, kinds: set<string>)
    requires Represents(c, m, kinds) && Separate(kinds) && kind in kinds
    ensures Represents(c - {StorageKey(kind, name)}, m - {(kind, name)}, kinds)
    ensures StorageKey(kind, name) in c <==> (kind, name) in m
  {
    KeysMatch(c, m, kinds, kind, name);
  }

  lemma ServeRefines(c: Table, m: Abstract, q: Request, kinds: set<string>)
    requires Represents(c, m, kinds) && Separate(kinds) && KindOf(q) in kinds
    ensures Represents(Serve(c, q).0, ServeAbstract(m, q).0, kinds) && Serve(c, q).1 == ServeAbstract(m, q).1
  {
    match q
    case Create(r) => PutRefines(c, m, r, kinds);
    case Replace(r) => PutRefines(c, m, r, kinds);
    case Get(name, kind) => DeleteRefines(c, m, name, kind, kinds);
    case Delete(name, kind) => DeleteRefines(c, m, name, kind, kinds);
    case List(kind) => SameListing(c, m, kinds, kind);
  }

  function ServeAll(c: Table, qs: seq<Request>): seq<Answer>
    decreases |qs|
  {
    if qs == [] then [] else [Serve(c, qs[0]).1] + ServeAll(Serve(c, qs[0]).0, qs[1..])
  }

  function ServeAllAbstract(m: Abstract, qs: seq<Request>): seq<Answer>
    decreases |qs|
  {
    if qs == [] then [] else [ServeAbstract(m, qs[0]).1] + ServeAllAbstract(ServeAbstract(m, qs[0]).0, qs[1..])
  }

  ghost predicate OverKinds(qs: seq<Request>, kinds: set<string>) {
    forall i | 0 <= i < |qs| :: KindOf(qs[i]) in kinds
  }

  /** As long as the kinds do not overlap, every sequence of requests is answered as a map by kind and name would answer it. */
  lemma {:induction false} StoreRefinesMap(c: Table, m: Abstract, qs: seq<Request>, kinds: set<string>)
    requires Represents(c, m, kinds) && Separate(kinds) && OverKinds(qs, kinds)
    ensures ServeAll(c, qs) == ServeAllAbstract(m, qs)
    decreases |qs|
  {
    if qs != [] {
      ServeRefines(c, m, qs[0], kinds);
      StoreRefinesMap(Serve(c, qs[0]).0, ServeAbstract(m, qs[0]).0, qs[1..], kinds);
    }
  }

  /** Two requests that an abstract map answers otherwise: one resource is read back as another. */
  lemma OverlapShows(kind: string, kind': string) returns (qs: seq<Request>)
    requires kind + "/" <= kind' && kind != kind'
    ensures |qs| == 2 && KindOf(qs[0]) == kind && KindOf(qs[1]) == kind'
    ensures ServeAll(map[], qs) != ServeAllAbstract(map[], qs)
  {
    DoubleHasSameKey(kind, kind', "n");
    var r := Resource(kind, Double(kind, kind', "n"), NoDoc);
    qs := [Create(r), Get("n", kind')];
    var c, m := Serve(map[], qs[0]).0, ServeAbstract(map[], qs[0]).0;
    assert qs[1..] == [qs[1]];
    assert Serve(c, qs[1]).1 == Found(r) && ServeAbstract(m, qs[1]).1 == Missing;
    assert ServeAll(c, qs[1..])[0] == Found(r) && ServeAllAbstract(m, qs[1..])[0] == Missing;
    assert ServeAll(map[], qs)[1] == Found(r) && ServeAllAbstract(map[], qs)[1] == Missing;
  }

  /** The store behaves as a map by kind and name, on all sequences of requests over these kinds, exactly if none of them overlap. */
  lemma StoreIsMapIff(kinds: set<string>)
    ensures (forall qs | OverKinds(qs, kinds) :: ServeAll(map[], qs) == ServeAllAbstract(map[], qs)) <==> Separate(kinds)
  {
    if Separate(kinds) {
      forall qs | OverKinds(qs, kinds) ensures ServeAll(map[], qs) == ServeAllAbstract(map[], qs) {
        StoreRefinesMap(map[], map[], qs, kinds);
      }
    } else {
      var k, k' :| k in kinds && k' in kinds && k != k' && k + "/" <= k';
      var qs := OverlapShows(k, k');
      assert OverKinds(qs, kinds);
    }
  }
}
