/**
 * The `platform_nodes` Ansible inventory plugin: it builds the platform's
 * group tree from the cluster configuration, places the machines of the
 * source inventory into groups, lets hosts flow down to empty child groups
 * and back up to their ancestors, and derives the per-group and per-host
 * variables. Everything it computes is recorded in a cacheable inventory
 * of four append-only lists.
 */
module PlatformNodes {
  import opened Common
  import opened Values

  /** The group every other group hangs under. */
  const RootGroup: string := "platform"
  /** Every admitted host is also placed in this group. */
  const DefaultGroup: string := "platform.foundation.core"
  /** The second address of 192.168.100.0/24. */
  const PrivateVip: string := "192.168.100.1"
  const EtcdPort: string := "2379"
  const ControlGroup: string := "platform.foundation.cluster.control"
  const WebIngressGroup: string := "platform.foundation.network.ingress.web"
  const MailIngressGroup: string := "platform.foundation.network.ingress.mail"
  /** Number of addresses in the private network 192.168.0.0/13. */
  const Capacity: nat := 524288

  // ---------------------------------------------------------------------
  // The cacheable inventory

  /** The four lists of the cacheable inventory: "groups",
      "groups_children", "hosts" and "variables". */
  datatype ListKey = Groups | GroupsChildren | HostsList | Variables

  /** One recorded inventory fact. */
  datatype Entry =
    | Group(name: string)
    | Child(parent: string, child: string)
    | HostIn(host: string, group: string)
    | Variable(target: string, key: string, value: Value)

  /** The list stored under `key`, or the empty list when there is none. */
  function ListOr<K, T>(m: map<K, seq<T>>, key: K): (r: seq<T>)
  {
    if key in m then m[key] else []
  }

  /** The lists after one entry was appended to the list under `key`. */
  function Appended(lists: map<ListKey, seq<Entry>>, key: ListKey, e: Entry): (r: map<ListKey, seq<Entry>>)
  {
    lists[key := ListOr(lists, key) + [e]]
  }

  /** The lists after several entries were appended, one at a time, to
      the list under `key`; the list is only created by a first entry. */
  function AppendedAll(lists: map<ListKey, seq<Entry>>, key: ListKey, es: seq<Entry>): (r: map<ListKey, seq<Entry>>)
  {
    if |es| == 0 then lists else lists[key := ListOr(lists, key) + es]
  }

  /** `AppendedAll` is the same as appending the entries one by one. */
  lemma AppendedAllStep(lists: map<ListKey, seq<Entry>>, key: ListKey, es: seq<Entry>, e: Entry)
    ensures AppendedAll(lists, key, es + [e]) == Appended(AppendedAll(lists, key, es), key, e)
  {
    if |es| == 0 {
      assert es + [e] == [e];
    } else {
      assert ListOr(lists, key) + (es + [e]) == (ListOr(lists, key) + es) + [e];
    }
  }

  /** The plugin's cacheable inventory: a dictionary of four lists
      (Groups, GroupsChildren, HostsList, Variables), each created on
      its first append. */
  class Inventory {
    var lists: map<ListKey, seq<Entry>>

    /** Starts from the cached dictionary, or from an empty one. */
    constructor (cached: map<ListKey, seq<Entry>>)
      ensures lists == cached
    {
      lists := cached;
    }

    method AddGroup(group: string)
      modifies this
      ensures lists == Appended(old(lists), Groups, Group(group))
    {
      lists := lists[Groups := ListOr(lists, Groups) + [Group(group)]];
    }

    method AddChild(parent: string, child: string)
      modifies this
      ensures lists == Appended(old(lists), GroupsChildren, Child(parent, child))
    {
      lists := lists[GroupsChildren := ListOr(lists, GroupsChildren) + [Child(parent, child)]];
    }

    method AddHost(host: string, group: string)
      modifies this
      ensures lists == Appended(old(lists), HostsList, HostIn(host, group))
    {
      lists := lists[HostsList := ListOr(lists, HostsList) + [HostIn(host, group)]];
    }

    method SetVariable(target: string, key: string, value: Value)
      modifies this
      ensures lists == Appended(old(lists), Variables, Variable(target, key, value))
    {
      lists := lists[Variables := ListOr(lists, Variables) + [Variable(target, key, value)]];
    }
  }

  // ---------------------------------------------------------------------
  // Machines of the source inventory

  /** A network interface of a machine: its type and MAC address. */
  datatype Interface = Interface(kind: string, mac: Value)

  /** A private address: as the source inventory gave it, or the
      `index`-th address of the private network 192.168.0.0/13, which the
      plugin assigns and which reads as `PrivateAddress(index)`. */
  datatype PrivateIp = Given(text: string) | Assigned(index: nat)

  /** The text of a private address. */
  function IpText(ip: PrivateIp): string
    requires ip.Assigned? ==> ip.index < Capacity
  {
    match ip
    case Given(text) => text
    case Assigned(index) => PrivateAddress(index)
  }

  /** A machine as the source inventory lists it: its hostname, operating
      system name, provider id, public addresses, failover addresses,
      private addresses, interfaces and the types of its disks. */
  datatype Host = Host(
    hostname: string,
    osName: string,
    id: Value,
    publicIps: seq<string>,
    failoverIps: seq<string>,
    privateIps: seq<PrivateIp>,
    interfaces: seq<Interface>,
    diskTypes: seq<string>)

  /** A host belongs to the cluster when its hostname starts with the
      cluster name and a dash and its operating system is not yet
      installed. */
  predicate FilterHosts(host: Host, cluster: string)
  {
    HasPrefix(host.hostname, cluster + "-")
    && (host.osName == "none" || host.osName == "custom installation")
  }

  lemma FilterHostsMeaning(host: Host, cluster: string)
    ensures FilterHosts(host, cluster) <==>
      |cluster| < |host.hostname| && host.hostname[..|cluster|] == cluster
      && host.hostname[|cluster|] == '-'
      && host.osName in {"none", "custom installation"}
  {
    if |cluster| < |host.hostname| && host.hostname[..|cluster|] == cluster && host.hostname[|cluster|] == '-' {
      assert host.hostname[..|cluster| + 1] == cluster + "-";
    }
    if FilterHosts(host, cluster) {
      assert host.hostname[..|cluster|] == (cluster + "-")[..|cluster|];
      assert host.hostname[|cluster|] == (cluster + "-")[|cluster|];
    }
  }

  /** The four octets of the `n`-th address of 192.168.0.0/13. */
  function PrivateOctets(n: nat): (nat, nat, nat, nat)
    requires n < Capacity
  {
    (192, 168 + n / 65536, (n / 256) % 256, n % 256)
  }

  /** The octets are bytes, and read as one 32-bit number they are the
      network address 192.168.0.0 plus `n`: the network has room for all
      `Capacity` addresses. */
  lemma PrivateOctetsValue(n: nat)
    requires n < Capacity
    ensures var o := PrivateOctets(n);
      o.0 < 256 && o.1 < 256 && o.2 < 256 && o.3 < 256
      && o.0 * 16777216 + o.1 * 65536 + o.2 * 256 + o.3 == 3232235520 + n
  {
  }

  /** The `n`-th address of the private network, in dotted decimal. */
  function PrivateAddress(n: nat): string
    requires n < Capacity
  {
    var o := PrivateOctets(n);
    NatToString(o.0) + "." + NatToString(o.1) + "." + NatToString(o.2) + "." + NatToString(o.3)
  }

  // ---------------------------------------------------------------------
  // The group configuration

  /** A configured group with the groups nested under it. A plain name in
      the configuration is a group with nothing nested. */
  datatype Node = Node(name: string, sub: seq<Node>)

  /** The dotted path of `group` under `path` (no path, or an empty one,
      leaves the name as it is). */
  function Joined(path: Option<string>, group: string): (r: string)
    ensures path.Some? && path.value != "" ==> r == path.value + "." + group
    ensures path.None? || path.value == "" ==> r == group
  {
    if path.None? || path.value == "" then group else path.value + "." + group
  }

  /** The paths registered for a configured group and everything nested
      under it. */
  ghost function NodePaths(n: Node, path: Option<string>): set<string>
    decreases n
  {
    {Joined(path, n.name)} + SeqPaths(n.sub, Some(Joined(path, n.name)))
  }

  ghost function SeqPaths(nodes: seq<Node>, path: Option<string>): set<string>
    decreases nodes
  {
    if |nodes| == 0 then {}
    else SeqPaths(nodes[..|nodes| - 1], path) + NodePaths(nodes[|nodes| - 1], path)
  }

  /** The parent/child edges a configured group and its nested groups
      add: every group but the root one hangs under the path it is
      configured under. */
  ghost function NodeEdges(n: Node, path: Option<string>): set<(string, string)>
    decreases n
  {
    OwnEdge(n.name, path) + SeqEdges(n.sub, Some(Joined(path, n.name)))
  }

  /** The edge registering `group` under `path` adds, if any. */
  function OwnEdge(group: string, path: Option<string>): set<(string, string)>
  {
    if group != RootGroup && path.Some? then {(path.value, path.value + "." + group)} else {}
  }

  ghost function SeqEdges(nodes: seq<Node>, path: Option<string>): set<(string, string)>
    decreases nodes
  {
    if |nodes| == 0 then {}
    else SeqEdges(nodes[..|nodes| - 1], path) + NodeEdges(nodes[|nodes| - 1], path)
  }

  lemma SeqPathsStep(nodes: seq<Node>, i: nat, path: Option<string>)
    requires i < |nodes|
    ensures SeqPaths(nodes[..i + 1], path) == SeqPaths(nodes[..i], path) + NodePaths(nodes[i], path)
  {
    assert nodes[..i + 1][..i] == nodes[..i];
  }

  lemma SeqEdgesStep(nodes: seq<Node>, i: nat, path: Option<string>)
    requires i < |nodes|
    ensures SeqEdges(nodes[..i + 1], path) == SeqEdges(nodes[..i], path) + NodeEdges(nodes[i], path)
  {
    assert nodes[..i + 1][..i] == nodes[..i];
  }

  /** Every listed child path is longer than its parent's path. */
  ghost predicate Grows(tree: map<string, seq<string>>)
  {
    forall p, i :: p in tree && 0 <= i < |tree[p]| ==> |tree[p][i]| > |p|
  }

  /** Every list of `a` is a prefix of the list under the same key in `b`. */
  ghost predicate Extends<K, T>(a: map<K, seq<T>>, b: map<K, seq<T>>)
  {
    forall k :: k in a ==> k in b && a[k] <= b[k]
  }

  lemma ExtendsTrans<K, T>(a: map<K, seq<T>>, b: map<K, seq<T>>, c: map<K, seq<T>>)
    requires Extends(a, b) && Extends(b, c)
    ensures Extends(a, c)
  {
  }

  /** Every edge is listed in the group tree. */
  ghost predicate HasEdges(tree: map<string, seq<string>>, edges: set<(string, string)>)
  {
    forall e :: e in edges ==> e.0 in tree && e.1 in tree[e.0]
  }

  /** Every path is recorded in the inventory's group list. */
  ghost predicate GroupsListed(lists: map<ListKey, seq<Entry>>, paths: set<string>)
  {
    forall p :: p in paths ==> Group(p) in ListOr(lists, Groups)
  }

  /** Every edge is recorded in the inventory's child list. */
  ghost predicate ChildrenListed(lists: map<ListKey, seq<Entry>>, edges: set<(string, string)>)
  {
    forall e :: e in edges ==> Child(e.0, e.1) in ListOr(lists, GroupsChildren)
  }

  lemma PrefixMember<T>(a: seq<T>, b: seq<T>, x: T)
    requires a <= b && x in a
    ensures x in b
  {
    var i :| 0 <= i < |a| && a[i] == x;
    assert b[i] == x;
  }

  /** Records of two sets of paths and edges are records of their unions. */
  lemma RecordsUnion(t: map<string, seq<string>>, l: map<ListKey, seq<Entry>>,
                     paths1: set<string>, paths2: set<string>,
                     edges1: set<(string, string)>, edges2: set<(string, string)>)
    requires HasEdges(t, edges1) && HasEdges(t, edges2)
    requires GroupsListed(l, paths1) && GroupsListed(l, paths2)
    requires ChildrenListed(l, edges1) && ChildrenListed(l, edges2)
    ensures HasEdges(t, edges1 + edges2)
    ensures GroupsListed(l, paths1 + paths2)
    ensures ChildrenListed(l, edges1 + edges2)
  {
  }

  /** Growing the tree and the lists loses no edge and no record. */
  lemma RecordsKept(t1: map<string, seq<string>>, t2: map<string, seq<string>>,
                    l1: map<ListKey, seq<Entry>>, l2: map<ListKey, seq<Entry>>,
                    paths: set<string>, edges: set<(string, string)>)
    requires Extends(t1, t2) && Extends(l1, l2)
    ensures HasEdges(t1, edges) ==> HasEdges(t2, edges)
    ensures GroupsListed(l1, paths) ==> GroupsListed(l2, paths)
    ensures ChildrenListed(l1, edges) ==> ChildrenListed(l2, edges)
  {
    forall e | e in edges && e.0 in t1 && e.1 in t1[e.0]
      ensures e.1 in t2[e.0]
    {
      PrefixMember(t1[e.0], t2[e.0], e.1);
    }
    forall p | p in paths && Group(p) in ListOr(l1, Groups)
      ensures Group(p) in ListOr(l2, Groups)
    {
      PrefixMember(l1[Groups], l2[Groups], Group(p));
    }
    forall e | e in edges && Child(e.0, e.1) in ListOr(l1, GroupsChildren)
      ensures Child(e.0, e.1) in ListOr(l2, GroupsChildren)
    {
      PrefixMember(l1[GroupsChildren], l2[GroupsChildren], Child(e.0, e.1));
    }
  }

  /** Appending keeps every earlier list as a prefix. */
  lemma AppendedAllExtends(lists: map<ListKey, seq<Entry>>, key: ListKey, es: seq<Entry>)
    ensures Extends(lists, AppendedAll(lists, key, es))
  {
  }

  lemma AppendedExtends(lists: map<ListKey, seq<Entry>>, key: ListKey, e: Entry)
    ensures Extends(lists, Appended(lists, key, e))
  {
  }

  /** What registering one group (from tree `t0` and lists `l0` to `t1`
      and `l1`) records. */
  lemma AddedOwn(group: string, path: Option<string>,
                 t0: map<string, seq<string>>, t1: map<string, seq<string>>,
                 l0: map<ListKey, seq<Entry>>, l1: map<ListKey, seq<Entry>>)
    requires group == RootGroup || path.Some?
    requires group == RootGroup ==> t1 == t0
    requires group != RootGroup ==> t1 == t0[path.value := ListOr(t0, path.value) + [path.value + "." + group]]
    requires group == RootGroup ==> l1 == Appended(l0, Groups, Group(Joined(path, group)))
    requires group != RootGroup ==>
      l1 == Appended(Appended(l0, Groups, Group(Joined(path, group))), GroupsChildren, Child(path.value, path.value + "." + group))
    ensures Extends(t0, t1) && Extends(l0, l1)
    ensures HasEdges(t1, OwnEdge(group, path))
    ensures GroupsListed(l1, {Joined(path, group)})
    ensures ChildrenListed(l1, OwnEdge(group, path))
  {
    var p := Joined(path, group);
    AppendedExtends(l0, Groups, Group(p));
    if group != RootGroup {
      AppendedExtends(Appended(l0, Groups, Group(p)), GroupsChildren, Child(path.value, path.value + "." + group));
    }
  }

  /** What registering one configured group (the add itself, from `t0`
      and `l0` to `t1` and `l1`, then its nested groups, up to `t2` and
      `l2`) leaves recorded. */
  lemma AddedNode(n: Node, path: Option<string>,
                  t0: map<string, seq<string>>, t1: map<string, seq<string>>, t2: map<string, seq<string>>,
                  l0: map<ListKey, seq<Entry>>, l1: map<ListKey, seq<Entry>>, l2: map<ListKey, seq<Entry>>)
    requires Extends(t0, t1) && Extends(l0, l1)
    requires HasEdges(t1, OwnEdge(n.name, path))
    requires GroupsListed(l1, {Joined(path, n.name)})
    requires ChildrenListed(l1, OwnEdge(n.name, path))
    requires Extends(t1, t2) && Extends(l1, l2)
    requires HasEdges(t2, SeqEdges(n.sub, Some(Joined(path, n.name))))
    requires GroupsListed(l2, SeqPaths(n.sub, Some(Joined(path, n.name))))
    requires ChildrenListed(l2, SeqEdges(n.sub, Some(Joined(path, n.name))))
    ensures Extends(t0, t2) && Extends(l0, l2)
    ensures HasEdges(t2, NodeEdges(n, path))
    ensures GroupsListed(l2, NodePaths(n, path))
    ensures ChildrenListed(l2, NodeEdges(n, path))
  {
    var p := Joined(path, n.name);
    ExtendsTrans(t0, t1, t2);
    ExtendsTrans(l0, l1, l2);
    RecordsKept(t1, t2, l1, l2, {p}, OwnEdge(n.name, path));
    RecordsUnion(t2, l2, {p}, SeqPaths(n.sub, Some(p)), OwnEdge(n.name, path), SeqEdges(n.sub, Some(p)));
  }

  // ---------------------------------------------------------------------
  // The groups below a group

  /** The groups of the tree with a path at least as long as `n`'s. */
  ghost function Above(tree: map<string, seq<string>>, n: string): set<string>
  {
    set k | k in tree.Keys && |k| >= |n|
  }

  lemma SubsetCard<T>(a: set<T>, b: set<T>)
    requires a <= b
    ensures |a| <= |b|
    decreases a
  {
    if a != {} {
      var x :| x in a;
      SubsetCard(a - {x}, b - {x});
    }
  }

  /** Going down to a longer path leaves fewer groups above it. */
  lemma AboveShrinks(tree: map<string, seq<string>>, n: string, c: string)
    requires n in tree && |c| > |n|
    ensures |Above(tree, c)| < |Above(tree, n)|
  {
    SubsetCard(Above(tree, c), Above(tree, n) - {n});
  }

  /** `n` and every group below it in the tree. */
  ghost function Reach(tree: map<string, seq<string>>, n: string): set<string>
    requires Grows(tree)
    decreases |Above(tree, n)|, 1
  {
    if n in tree then {n} + ReachFrom(tree, n, |tree[n]|) else {n}
  }

  /** The groups below the first `i` children of `n`. */
  ghost function ReachFrom(tree: map<string, seq<string>>, n: string, i: nat): set<string>
    requires Grows(tree) && n in tree && i <= |tree[n]|
    decreases |Above(tree, n)|, 0, i
  {
    if i == 0 then {}
    else
      AboveShrinks(tree, n, tree[n][i - 1]);
      ReachFrom(tree, n, i - 1) + Reach(tree, tree[n][i - 1])
  }

  /** Each group has at most one parent and lists no child twice. */
  ghost predicate Tree(tree: map<string, seq<string>>)
  {
    && (forall p :: p in tree ==> NoDuplicates(tree[p]))
    && (forall p, q, c :: p in tree && q in tree && c in tree[p] && c in tree[q] ==> p == q)
  }

  /** Every group below `n` has a longer path. */
  lemma {:induction false} ReachLonger(tree: map<string, seq<string>>, n: string)
    requires Grows(tree)
    ensures forall x :: x in Reach(tree, n) ==> x == n || |x| > |n|
    decreases |Above(tree, n)|, 1
  {
    if n in tree {
      ReachFromLonger(tree, n, |tree[n]|);
    }
  }

  lemma {:induction false} ReachFromLonger(tree: map<string, seq<string>>, n: string, i: nat)
    requires Grows(tree) && n in tree && i <= |tree[n]|
    ensures forall x :: x in ReachFrom(tree, n, i) ==> |x| > |n|
    decreases |Above(tree, n)|, 0, i
  {
    if i > 0 {
      AboveShrinks(tree, n, tree[n][i - 1]);
      ReachFromLonger(tree, n, i - 1);
      ReachLonger(tree, tree[n][i - 1]);
    }
  }

  /** The groups below the first children are among those below more. */
  lemma {:induction false} ReachFromGrows(tree: map<string, seq<string>>, n: string, j: nat, i: nat)
    requires Grows(tree) && n in tree && j <= i <= |tree[n]|
    ensures ReachFrom(tree, n, j) <= ReachFrom(tree, n, i)
    decreases i
  {
    if j < i {
      ReachFromGrows(tree, n, j, i - 1);
    }
  }

  /** A child and everything below it is below the parent. */
  lemma ReachChild(tree: map<string, seq<string>>, n: string, j: nat)
    requires Grows(tree) && n in tree && j < |tree[n]|
    ensures tree[n][j] in Reach(tree, tree[n][j])
    ensures Reach(tree, tree[n][j]) <= ReachFrom(tree, n, j + 1) <= Reach(tree, n)
  {
    ReachFromGrows(tree, n, j + 1, |tree[n]|);
  }

  /** Every group below `n` other than `n` has its parent below `n`. */
  lemma {:induction false} ReachParent(tree: map<string, seq<string>>, n: string, x: string)
    requires Grows(tree) && x in Reach(tree, n) && x != n
    ensures exists p :: p in Reach(tree, n) && p in tree && x in tree[p]
    decreases |Above(tree, n)|, 1
  {
    ReachFromParent(tree, n, |tree[n]|, x);
  }

  lemma {:induction false} ReachFromParent(tree: map<string, seq<string>>, n: string, i: nat, x: string)
    requires Grows(tree) && n in tree && i <= |tree[n]| && x in ReachFrom(tree, n, i)
    ensures x in tree[n] || exists p :: p in ReachFrom(tree, n, i) && p in tree && x in tree[p]
    decreases |Above(tree, n)|, 0, i
  {
    var c := tree[n][i - 1];
    AboveShrinks(tree, n, c);
    if x in ReachFrom(tree, n, i - 1) {
      ReachFromParent(tree, n, i - 1, x);
      ReachFromGrows(tree, n, i - 1, i);
    } else if x != c {
      ReachParent(tree, c, x);
    }
  }

  /** In a tree, two groups neither of which is below the other share no
      group below them. */
  lemma {:induction false} ReachApart(tree: map<string, seq<string>>, a: string, b: string, x: string)
    requires Grows(tree) && Tree(tree)
    requires a !in Reach(tree, b) && b !in Reach(tree, a)
    ensures !(x in Reach(tree, a) && x in Reach(tree, b))
    decreases |x|
  {
    if x in Reach(tree, a) && x in Reach(tree, b) {
      ReachParent(tree, a, x);
      ReachParent(tree, b, x);
      var p :| p in Reach(tree, a) && p in tree && x in tree[p];
      var q :| q in Reach(tree, b) && q in tree && x in tree[q];
      assert p == q;
      var i :| 0 <= i < |tree[p]| && tree[p][i] == x;
      ReachApart(tree, a, b, p);
    }
  }

  /** In a tree, distinct children of a group share no group below them. */
  lemma SiblingsApart(tree: map<string, seq<string>>, n: string, i: nat, j: nat)
    requires Grows(tree) && Tree(tree) && n in tree && i < |tree[n]| && j < |tree[n]| && i != j
    ensures Reach(tree, tree[n][i]) !! Reach(tree, tree[n][j])
  {
    var a, b := tree[n][i], tree[n][j];
    OnlyParent(tree, n, i, j);
    OnlyParent(tree, n, j, i);
    forall x | x in Reach(tree, a)
      ensures x !in Reach(tree, b)
    {
      ReachApart(tree, a, b, x);
    }
  }

  /** In a tree, a child of `n` is not below a sibling. */
  lemma OnlyParent(tree: map<string, seq<string>>, n: string, i: nat, j: nat)
    requires Grows(tree) && Tree(tree) && n in tree && i < |tree[n]| && j < |tree[n]| && i != j
    ensures tree[n][i] !in Reach(tree, tree[n][j])
  {
    var a, b := tree[n][i], tree[n][j];
    if a in Reach(tree, b) {
      assert a != b;
      ReachParent(tree, b, a);
      var p :| p in Reach(tree, b) && p in tree && a in tree[p];
      assert p == n;
      ReachLonger(tree, b);
      assert false;
    }
  }

  /** In a tree, the groups below the first `i` children of `n` are apart
      from those below child `i`. */
  lemma ReachFromApart(tree: map<string, seq<string>>, n: string, i: nat)
    requires Grows(tree) && Tree(tree) && n in tree && i < |tree[n]|
    ensures ReachFrom(tree, n, i) !! Reach(tree, tree[n][i])
  {
    var k := 0;
    while k < i
      invariant k <= i
      invariant ReachFrom(tree, n, k) !! Reach(tree, tree[n][i])
    {
      SiblingsApart(tree, n, k, i);
      k := k + 1;
    }
  }

  /** A group below the first `i` children of `n` is below one of them. */
  lemma {:induction false} ReachFromWhich(tree: map<string, seq<string>>, n: string, i: nat, x: string)
    requires Grows(tree) && n in tree && i <= |tree[n]| && x in ReachFrom(tree, n, i)
    ensures exists j :: 0 <= j < i && x in Reach(tree, tree[n][j])
  {
    if x !in Reach(tree, tree[n][i - 1]) {
      ReachFromWhich(tree, n, i - 1, x);
    }
  }

  /** The children of a group below `m` are below `m` too. */
  lemma {:induction false} ReachClosed(tree: map<string, seq<string>>, m: string, p: string, c: string)
    requires Grows(tree) && p in Reach(tree, m) && p in tree && c in tree[p]
    ensures c in Reach(tree, m)
    decreases |Above(tree, m)|
  {
    if p == m {
      var k :| 0 <= k < |tree[m]| && tree[m][k] == c;
      ReachChild(tree, m, k);
    } else {
      ReachFromWhich(tree, m, |tree[m]|, p);
      var j :| 0 <= j < |tree[m]| && p in Reach(tree, tree[m][j]);
      AboveShrinks(tree, m, tree[m][j]);
      ReachClosed(tree, tree[m][j], p, c);
      ReachChild(tree, m, j);
    }
  }

  /** The children of a group below the first `i` children of `n` are
      below them too. */
  lemma ReachFromClosed(tree: map<string, seq<string>>, n: string, i: nat, p: string, c: string)
    requires Grows(tree) && n in tree && i <= |tree[n]|
    requires p in ReachFrom(tree, n, i) && p in tree && c in tree[p]
    ensures c in ReachFrom(tree, n, i)
  {
    ReachFromWhich(tree, n, i, p);
    var j :| 0 <= j < i && p in Reach(tree, tree[n][j]);
    ReachClosed(tree, tree[n][j], p, c);
    ReachChild(tree, n, j);
    ReachFromGrows(tree, n, j + 1, i);
  }

  // ---------------------------------------------------------------------
  // Host bookkeeping

  /** The insertion order lists every stored host exactly once. */
  ghost predicate OrderPart(order: seq<string>, hosts: map<string, Host>)
  {
    NoDuplicates(order) && |order| < Capacity && (forall h :: h in hosts <==> h in order)
  }

  /** Every host is stored under its hostname and holds the private
      address its position in the insertion order selects. */
  ghost predicate AddressPart(order: seq<string>, hosts: map<string, Host>)
    requires OrderPart(order, hosts)
  {
    forall h :: h in hosts ==>
      && hosts[h].hostname == h && |hosts[h].privateIps| > 0
      && hosts[h].privateIps[0] == Assigned(FirstIndex(order, h) + 1)
  }

  /** The host-to-groups and group-to-hosts lists are free of repeats and
      mirror each other. */
  ghost predicate MirrorPart(hostGroups: map<string, seq<string>>, groupHosts: map<string, seq<string>>)
  {
    && (forall g :: g in groupHosts ==> NoDuplicates(groupHosts[g]))
    && (forall h :: h in hostGroups ==> NoDuplicates(hostGroups[h]))
    && (forall g, h :: g in groupHosts && h in groupHosts[g] ==> h in hostGroups && g in hostGroups[h])
    && (forall h, g :: h in hostGroups && g in hostGroups[h] ==> g in groupHosts && h in groupHosts[g])
  }

  /** Every host is stored under its hostname, has a place in the
      insertion order and a private address inside the private network,
      and every host a group lists is stored. */
  ghost predicate Indexed(order: seq<string>, hosts: map<string, Host>, groupHosts: map<string, seq<string>>)
  {
    && |order| < Capacity
    && (forall h :: h in hosts ==>
          && hosts[h].hostname == h && |hosts[h].privateIps| > 0 && h in order
          && (hosts[h].privateIps[0].Assigned? ==> hosts[h].privateIps[0].index < Capacity))
    && (forall g, h :: g in groupHosts && h in groupHosts[g] ==> h in hosts)
    && (forall h :: h in order ==> h in hosts)
  }

  /** Storing a host and listing it in a group keeps every listed host
      stored. */
  lemma IndexedStored(order: seq<string>, hosts: map<string, Host>, groupHosts: map<string, seq<string>>,
                      host: Host, group: string, k: nat)
    requires Indexed(order, hosts, groupHosts) && |host.privateIps| > 0
    requires |OrderAfter(order, host.hostname)| < Capacity && k + 1 < Capacity
    ensures Indexed(OrderAfter(order, host.hostname), hosts[host.hostname := Addressed(host, k)],
                    Recorded(groupHosts, group, host.hostname))
  {
    var gh := Recorded(groupHosts, group, host.hostname);
    forall g, h | g in gh && h in gh[g]
      ensures h in hosts[host.hostname := Addressed(host, k)]
    {
      if g == group && h != host.hostname {
        assert h in ListOr(groupHosts, group);
      }
    }
  }

  /** What the derived variables need of the stored hosts. */
  lemma IndexedAddressable(order: seq<string>, hosts: map<string, Host>, groupHosts: map<string, seq<string>>)
    requires Indexed(order, hosts, groupHosts)
    ensures Stored(groupHosts, hosts)
    ensures forall h :: h in order ==> h in hosts && Addressable(hosts[h])
  {
  }

  /** The tags of `host` name a group that was never configured, which
      makes the plugin stop. */
  predicate Rejected(host: Host, tags: map<string, seq<string>>, groups: set<string>)
  {
    host.hostname in tags && exists g :: g in tags[host.hostname] && g !in groups
  }

  /** `host` is listed in the default group and in every group its tags
      name, or in the root group when it has no tags. */
  ghost predicate Placed(groupHosts: map<string, seq<string>>, host: Host, tags: map<string, seq<string>>)
  {
    && Lists(groupHosts, DefaultGroup, host.hostname)
    && if host.hostname in tags then
         forall g :: g in tags[host.hostname] ==> Lists(groupHosts, g, host.hostname)
       else Lists(groupHosts, RootGroup, host.hostname)
  }

  /** `a` and `b` agree on `key`: both lack it or both hold the same list. */
  ghost predicate Same(a: map<string, seq<string>>, b: map<string, seq<string>>, key: string)
  {
    (key in a <==> key in b) && (key in a ==> a[key] == b[key])
  }

  /** Every host `m` lists under `part` it also lists under `whole`. */
  ghost predicate Covers(m: map<string, seq<string>>, whole: string, part: string)
  {
    forall h :: Lists(m, part, h) ==> Lists(m, whole, h)
  }

  /** Coverage between two keys survives any change that leaves both
      keys alone. */
  lemma CoversKept(a: map<string, seq<string>>, b: map<string, seq<string>>, whole: string, part: string)
    requires Covers(a, whole, part) && Same(a, b, whole) && Same(a, b, part)
    ensures Covers(b, whole, part)
  {
    forall h | Lists(b, part, h)
      ensures Lists(b, whole, h)
    {
      assert Lists(a, part, h);
    }
  }

  /** The groups a kept host goes into, in order: its tagged groups (or
      the root group when it has no tags), then the default group. */
  function Targets(host: Host, tags: map<string, seq<string>>): seq<string>
  {
    (if host.hostname in tags then tags[host.hostname] else [RootGroup]) + [DefaultGroup]
  }

  /** One `hosts` inventory entry per group, in order. */
  function HostEntries(id: string, gs: seq<string>): (r: seq<Entry>)
  {
    if |gs| == 0 then [] else HostEntries(id, gs[..|gs| - 1]) + [HostIn(id, gs[|gs| - 1])]
  }

  /** `m` lists what `o` lists and, beyond that, at most `id` in some of
      the groups `gs`. */
  ghost predicate OnlyAdds(o: map<string, seq<string>>, m: map<string, seq<string>>, id: string, gs: seq<string>)
  {
    forall g, h :: Lists(m, g, h) ==> Lists(o, g, h) || (h == id && g in gs)
  }

  /** Where a loop placing `id` in the groups `gs` stands after `j` of
      them: `id` is listed in each so far, nothing is lost, and nothing
      else is added. */
  ghost predicate Placing(o: map<string, seq<string>>, m: map<string, seq<string>>, id: string, gs: seq<string>, j: nat)
    requires j <= |gs|
  {
    && (forall k :: 0 <= k < j ==> Lists(m, gs[k], id))
    && Grown(o, m)
    && OnlyAdds(o, m, id, gs[..j])
  }

  /** One more group of `gs` placed: the step of a placing loop. */
  lemma PlacingStep(o: map<string, seq<string>>, before: map<string, seq<string>>, after: map<string, seq<string>>,
                    id: string, gs: seq<string>, j: nat)
    requires j < |gs| && Placing(o, before, id, gs, j)
    requires after == Recorded(before, gs[j], id)
    ensures Placing(o, after, id, gs, j + 1)
  {
    RecordedLists(before, gs[j], id);
    assert gs[..j + 1] == gs[..j] + [gs[j]];
  }

  /** One more entry recorded: the inventory step of a placing loop. */
  lemma HostEntriesStep(o: map<ListKey, seq<Entry>>, before: map<ListKey, seq<Entry>>,
                        id: string, gs: seq<string>, j: nat)
    requires j < |gs| && before == AppendedAll(o, HostsList, HostEntries(id, gs[..j]))
    ensures Appended(before, HostsList, HostIn(id, gs[j])) == AppendedAll(o, HostsList, HostEntries(id, gs[..j + 1]))
  {
    assert gs[..j + 1][..j] == gs[..j];
    AppendedAllStep(o, HostsList, HostEntries(id, gs[..j]), HostIn(id, gs[j]));
  }

  /** One `hosts` inventory entry per host, all in `group`, in order. */
  function GroupEntries(names: seq<string>, group: string): (r: seq<Entry>)
  {
    if |names| == 0 then [] else GroupEntries(names[..|names| - 1], group) + [HostIn(names[|names| - 1], group)]
  }

  /** One more host entered in `group`: the inventory step of the loop
      adding hosts to a group. */
  lemma GroupEntriesStep(o: map<ListKey, seq<Entry>>, before: map<ListKey, seq<Entry>>,
                         names: seq<string>, group: string, j: nat)
    requires j < |names| && before == AppendedAll(o, HostsList, GroupEntries(names[..j], group))
    ensures Appended(before, HostsList, HostIn(names[j], group)) == AppendedAll(o, HostsList, GroupEntries(names[..j + 1], group))
  {
    assert names[..j + 1][..j] == names[..j];
    AppendedAllStep(o, HostsList, GroupEntries(names[..j], group), HostIn(names[j], group));
  }

  /** An inventory entry the inheritance passes may hand to Ansible: a
      host in a group that `groupHosts` lists it in, and, for the
      downward pass, a group without children. */
  ghost predicate Inherits(e: Entry, groupHosts: map<string, seq<string>>, tree: map<string, seq<string>>, leafOnly: bool)
  {
    e.HostIn? && Lists(groupHosts, e.group, e.host) && (leafOnly ==> e.group !in tree)
  }

  /** From `a` to `b` the inventory lists change only by entries that
      `Inherits` allows, appended to the hosts list. */
  ghost predicate HostsAppended(a: map<ListKey, seq<Entry>>, b: map<ListKey, seq<Entry>>,
                                groupHosts: map<string, seq<string>>, tree: map<string, seq<string>>, leafOnly: bool)
  {
    && Extends(a, b)
    && (forall k :: k != HostsList ==> ListOr(a, k) == ListOr(b, k))
    && (forall j :: |ListOr(a, HostsList)| <= j < |ListOr(b, HostsList)| ==>
          Inherits(ListOr(b, HostsList)[j], groupHosts, tree, leafOnly))
  }

  /** Entering hosts listed in `group` appends only entries `Inherits`
      allows. */
  lemma GroupEntriesAppended(a: map<ListKey, seq<Entry>>, names: seq<string>, group: string,
                             groupHosts: map<string, seq<string>>, tree: map<string, seq<string>>, leafOnly: bool)
    requires forall h :: h in names ==> Lists(groupHosts, group, h)
    requires leafOnly ==> group !in tree
    ensures HostsAppended(a, AppendedAll(a, HostsList, GroupEntries(names, group)), groupHosts, tree, leafOnly)
  {
    var es := GroupEntries(names, group);
    GroupEntriesAre(names, group);
    AppendedAllExtends(a, HostsList, es);
    var b := AppendedAll(a, HostsList, es);
    forall j | |ListOr(a, HostsList)| <= j < |ListOr(b, HostsList)|
      ensures Inherits(ListOr(b, HostsList)[j], groupHosts, tree, leafOnly)
    {
      assert ListOr(b, HostsList)[j] == es[j - |ListOr(a, HostsList)|];
    }
  }

  /** The entries name the hosts in order, each in `group`. */
  lemma {:induction false} GroupEntriesAre(names: seq<string>, group: string)
    ensures |GroupEntries(names, group)| == |names|
    ensures forall j :: 0 <= j < |names| ==> GroupEntries(names, group)[j] == HostIn(names[j], group)
  {
    if |names| > 0 {
      GroupEntriesAre(names[..|names| - 1], group);
    }
  }

  /** Two stretches of appended entries make one, judged by the later
      bookkeeping when no group lost a host in between. */
  lemma HostsAppendedTrans(a: map<ListKey, seq<Entry>>, b: map<ListKey, seq<Entry>>, c: map<ListKey, seq<Entry>>,
                           g1: map<string, seq<string>>, g2: map<string, seq<string>>,
                           tree: map<string, seq<string>>, leafOnly: bool)
    requires HostsAppended(a, b, g1, tree, leafOnly) && HostsAppended(b, c, g2, tree, leafOnly)
    requires Grown(g1, g2)
    ensures HostsAppended(a, c, g2, tree, leafOnly)
  {
    ExtendsTrans(a, b, c);
    var la, lb, lc := ListOr(a, HostsList), ListOr(b, HostsList), ListOr(c, HostsList);
    assert lb <= lc by {
      if HostsList in b {
        assert HostsList in c && b[HostsList] <= c[HostsList];
      }
    }
    forall j | |la| <= j < |lc|
      ensures Inherits(lc[j], g2, tree, leafOnly)
    {
      if j < |lb| {
        assert lc[j] == lb[j];
        assert Inherits(lb[j], g1, tree, leafOnly);
      }
    }
  }

  lemma PlacedKept(a: map<string, seq<string>>, b: map<string, seq<string>>, host: Host, tags: map<string, seq<string>>)
    requires Placed(a, host, tags)
    requires forall g, h :: Lists(a, g, h) ==> Lists(b, g, h)
    ensures Placed(b, host, tags)
  {
  }

  /** Placing a host in its targets places it as `Placed` says and keeps
      every listed pair. */
  lemma PlacingPlaced(o: map<string, seq<string>>, m: map<string, seq<string>>, host: Host,
                      tags: map<string, seq<string>>)
    requires Placing(o, m, host.hostname, Targets(host, tags), |Targets(host, tags)|)
    ensures Placed(m, host, tags) && Grown(o, m)
  {
    var ts := Targets(host, tags);
    assert ts[|ts| - 1] == DefaultGroup;
    if host.hostname in tags {
      forall g | g in tags[host.hostname]
        ensures Lists(m, g, host.hostname)
      {
        var k :| 0 <= k < |tags[host.hostname]| && tags[host.hostname][k] == g;
        assert ts[k] == g;
      }
    } else {
      assert ts[0] == RootGroup;
    }
  }

  /** `host` is kept for the cluster and `g` is one of its targets. */
  ghost predicate Picks(host: Host, tags: map<string, seq<string>>, cluster: string, g: string, h: string)
  {
    FilterHosts(host, cluster) && host.hostname == h && g in Targets(host, tags)
  }

  /** Every pair `m` lists beyond those of `o` places a kept host of
      `source` in one of its targets. */
  ghost predicate OnlyChosen(o: map<string, seq<string>>, m: map<string, seq<string>>, source: seq<Host>,
                             tags: map<string, seq<string>>, cluster: string)
  {
    forall g, h :: Lists(m, g, h) ==>
      Lists(o, g, h) || exists j :: 0 <= j < |source| && Picks(source[j], tags, cluster, g, h)
  }

  /** The `hosts` inventory entries of the kept hosts of `source`, in order. */
  function SourceEntries(source: seq<Host>, tags: map<string, seq<string>>, cluster: string): seq<Entry>
  {
    if |source| == 0 then []
    else
      var last := source[|source| - 1];
      SourceEntries(source[..|source| - 1], tags, cluster) +
      (if FilterHosts(last, cluster) then HostEntries(last.hostname, Targets(last, tags)) else [])
  }

  /** A bound on a prefix of the source is a bound on the whole of it. */
  lemma OnlyChosenPrefix(o: map<string, seq<string>>, m: map<string, seq<string>>, source: seq<Host>, i: nat,
                         tags: map<string, seq<string>>, cluster: string)
    requires i <= |source| && OnlyChosen(o, m, source[..i], tags, cluster)
    ensures OnlyChosen(o, m, source, tags, cluster)
  {
    var pre := source[..i];
    forall g, h | Lists(m, g, h) && !Lists(o, g, h)
      ensures exists j :: 0 <= j < |source| && Picks(source[j], tags, cluster, g, h)
    {
      var j :| 0 <= j < i && Picks(pre[j], tags, cluster, g, h);
      assert pre[j] == source[j];
    }
  }

  /** One more host of the source handled by `BuildHosts`. */
  lemma BuildHostsStep(o: map<string, seq<string>>, before: map<string, seq<string>>, after: map<string, seq<string>>,
                       lo: map<ListKey, seq<Entry>>, lbefore: map<ListKey, seq<Entry>>, lafter: map<ListKey, seq<Entry>>,
                       source: seq<Host>, i: nat, tags: map<string, seq<string>>, cluster: string)
    requires i < |source|
    requires Grown(o, before) && OnlyChosen(o, before, source[..i], tags, cluster)
    requires lbefore == AppendedAll(lo, HostsList, SourceEntries(source[..i], tags, cluster))
    requires !FilterHosts(source[i], cluster) ==> after == before && lafter == lbefore
    requires FilterHosts(source[i], cluster) ==>
      && Placing(before, after, source[i].hostname, Targets(source[i], tags), |Targets(source[i], tags)|)
      && lafter == AppendedAll(lbefore, HostsList, HostEntries(source[i].hostname, Targets(source[i], tags)))
    ensures Grown(o, after) && OnlyChosen(o, after, source[..i + 1], tags, cluster)
    ensures lafter == AppendedAll(lo, HostsList, SourceEntries(source[..i + 1], tags, cluster))
  {
    var host := source[i];
    var ts := Targets(host, tags);
    var pre, next := source[..i], source[..i + 1];
    assert next[..i] == pre && next[i] == host;
    var added := if FilterHosts(host, cluster) then HostEntries(host.hostname, ts) else [];
    assert SourceEntries(next, tags, cluster) == SourceEntries(pre, tags, cluster) + added;
    if FilterHosts(host, cluster) {
      AppendedAllTwice(lo, HostsList, SourceEntries(pre, tags, cluster), added);
      assert ts[..|ts|] == ts;
    } else {
      assert SourceEntries(pre, tags, cluster) + added == SourceEntries(pre, tags, cluster);
    }
    forall g, h | Lists(after, g, h) && !Lists(o, g, h)
      ensures exists j :: 0 <= j < i + 1 && Picks(next[j], tags, cluster, g, h)
    {
      if Lists(before, g, h) {
        var j :| 0 <= j < i && Picks(pre[j], tags, cluster, g, h);
        assert next[j] == pre[j];
      } else {
        assert Picks(next[i], tags, cluster, g, h);
      }
    }
  }

  /** What the plugin keeps true of its hosts. */
  ghost predicate HostsInvariant(order: seq<string>, hosts: map<string, Host>,
                                 hostGroups: map<string, seq<string>>, groupHosts: map<string, seq<string>>)
  {
    && OrderPart(order, hosts) && AddressPart(order, hosts)
    && (forall h :: h in hostGroups <==> h in hosts)
    && MirrorPart(hostGroups, groupHosts)
  }

  /** Appending a longer path under `parent` keeps the tree growing. */
  lemma GrowsAdd(tree: map<string, seq<string>>, parent: string, child: string)
    requires Grows(tree) && |child| > |parent|
    ensures Grows(tree[parent := ListOr(tree, parent) + [child]])
  {
  }

  /** `xs` with `x` appended unless it is already there. */
  function Added(xs: seq<string>, x: string): seq<string>
  {
    if x in xs then xs else xs + [x]
  }

  /** `m` with `x` added to the list under `key`, which is created empty
      first when missing; nothing is added twice. */
  function Recorded(m: map<string, seq<string>>, key: string, x: string): map<string, seq<string>>
  {
    m[key := Added(ListOr(m, key), x)]
  }

  /** `m` lists `x` under `key`. */
  ghost predicate Lists(m: map<string, seq<string>>, key: string, x: string)
  {
    key in m && x in m[key]
  }

  /** Recording lists the new pair, keeps every pair listed before and
      touches no other key. */
  lemma RecordedLists(m: map<string, seq<string>>, key: string, x: string)
    ensures Lists(Recorded(m, key, x), key, x)
    ensures forall k :: k != key ==> Same(m, Recorded(m, key, x), k)
    ensures forall k, y :: Lists(m, k, y) ==> Lists(Recorded(m, key, x), k, y)
    ensures forall k, y :: Lists(Recorded(m, key, x), k, y) ==> Lists(m, k, y) || (k == key && y == x)
  {
    forall k, y | Lists(m, k, y)
      ensures Lists(Recorded(m, key, x), k, y)
    {
      if k == key {
        assert y in ListOr(m, key);
      }
    }
  }

  /** The insertion order after `id` was stored: a new key goes last, a
      known one keeps its place. */
  function OrderAfter(order: seq<string>, id: string): (r: seq<string>)
    ensures id in r && (id in order ==> r == order) && (id !in order ==> r == order + [id])
  {
    Added(order, id)
  }

  /** Storing a key moves no earlier key, and a new key lands at the end. */
  lemma OrderAfterIndex(order: seq<string>, id: string)
    ensures forall h :: h in order ==> FirstIndex(OrderAfter(order, id), h) == FirstIndex(order, h)
    ensures id !in order ==> FirstIndex(OrderAfter(order, id), id) == |order|
  {
    forall h | h in order
      ensures FirstIndex(OrderAfter(order, id), h) == FirstIndex(order, h)
    {
      if id !in order {
        FirstIndexAppend(order, id, h);
      }
    }
    if id !in order {
      FirstIndexAppend(order, id, id);
    }
  }

  /** `host` as stored at position `k` of the insertion order: its first
      private address replaced by the (k+1)-th address of the network. */
  function Addressed(host: Host, k: nat): Host
    requires |host.privateIps| > 0
  {
    host.(privateIps := [Assigned(k + 1)] + host.privateIps[1..])
  }

  /** Storing a host keeps the insertion order and the addresses right. */
  lemma AddressStored(order: seq<string>, hosts: map<string, Host>, host: Host)
    requires OrderPart(order, hosts) && AddressPart(order, hosts)
    requires |host.privateIps| > 0
    requires host.hostname in hosts || |order| + 1 < Capacity
    ensures var order' := OrderAfter(order, host.hostname);
      var hosts' := hosts[host.hostname := Addressed(host, FirstIndex(order', host.hostname))];
      OrderPart(order', hosts') && AddressPart(order', hosts')
  {
    var id := host.hostname;
    var order' := OrderAfter(order, id);
    OrderAfterIndex(order, id);
    var hosts' := hosts[id := Addressed(host, FirstIndex(order', id))];
    assert OrderPart(order', hosts');
    forall h | h in hosts'
      ensures hosts'[h].hostname == h && |hosts'[h].privateIps| > 0
      ensures hosts'[h].privateIps[0] == Assigned(FirstIndex(order', h) + 1)
    {
      if h != id {
        assert FirstIndex(order', h) == FirstIndex(order, h);
      }
    }
  }

  /** Adding a stored host again keeps its place and its private address:
      the address it is given is the one it already holds. */
  lemma AddressStable(order: seq<string>, hosts: map<string, Host>, h: string)
    requires OrderPart(order, hosts) && AddressPart(order, hosts) && h in hosts
    ensures OrderAfter(order, h) == order
    ensures Addressed(hosts[h], FirstIndex(OrderAfter(order, h), h)) == hosts[h]
  {
    var ips := hosts[h].privateIps;
    assert [ips[0]] + ips[1..] == ips;
  }

  /** Recording a host/group pair in both directions keeps the lists
      mirrored and free of repeats. */
  lemma MirrorStored(hostGroups: map<string, seq<string>>, groupHosts: map<string, seq<string>>, id: string, group: string)
    requires MirrorPart(hostGroups, groupHosts)
    ensures MirrorPart(Recorded(hostGroups, id, group),
                       Recorded(groupHosts, group, id))
  {
    var hg' := Recorded(hostGroups, id, group);
    var gh' := Recorded(groupHosts, group, id);
    forall g, h | g in gh' && h in gh'[g]
      ensures h in hg' && g in hg'[h]
    {
      if g != group || h != id {
        if g == group {
          assert h in ListOr(groupHosts, group);
        }
        assert h in groupHosts[g];
      }
    }
    forall h, g | h in hg' && g in hg'[h]
      ensures g in gh' && h in gh'[g]
    {
      if g != group || h != id {
        if h == id {
          assert g in ListOr(hostGroups, id);
        }
        assert g in hostGroups[h];
      }
    }
  }

  /** Storing a host and recording it in a group keeps the host invariant. */
  lemma HostsStored(order: seq<string>, hosts: map<string, Host>, hostGroups: map<string, seq<string>>,
                    groupHosts: map<string, seq<string>>, host: Host, group: string,
                    order': seq<string>, hosts': map<string, Host>, hostGroups': map<string, seq<string>>,
                    groupHosts': map<string, seq<string>>)
    requires HostsInvariant(order, hosts, hostGroups, groupHosts)
    requires |host.privateIps| > 0
    requires host.hostname in hosts || |order| + 1 < Capacity
    requires order' == OrderAfter(order, host.hostname)
    requires hosts' == hosts[host.hostname := Addressed(host, FirstIndex(order', host.hostname))]
    requires hostGroups' == Recorded(hostGroups, host.hostname, group)
    requires groupHosts' == Recorded(groupHosts, group, host.hostname)
    ensures HostsInvariant(order', hosts', hostGroups', groupHosts')
  {
    AddressStored(order, hosts, host);
    MirrorStored(hostGroups, groupHosts, host.hostname, group);
  }

  // ---------------------------------------------------------------------
  // Passing hosts down the group tree

  /** Every edge below `n` whose child held no hosts in `o` has the
      parent's hosts under the child in `m`: what the downward pass
      promises. */
  ghost predicate DownBelow(tree: map<string, seq<string>>, n: string,
                            o: map<string, seq<string>>, m: map<string, seq<string>>)
    requires Grows(tree)
  {
    forall p, c :: p in Reach(tree, n) && p in tree && c in tree[p] && c !in o ==> Covers(m, c, p)
  }

  /** The downward pass from `g` has handled its first `i` children: each
      of them that held no hosts in `o` has all of `g`'s, and every edge
      below them is covered. */
  ghost predicate DownDone(tree: map<string, seq<string>>, g: string, i: nat,
                           o: map<string, seq<string>>, m: map<string, seq<string>>)
    requires Grows(tree) && g in tree && i <= |tree[g]|
  {
    && (forall j :: 0 <= j < i && tree[g][j] !in o ==> Covers(m, tree[g][j], g))
    && (forall p, c :: p in ReachFrom(tree, g, i) && p in tree && c in tree[p] && c !in o ==> Covers(m, c, p))
  }

  /** One child of the downward pass: `prev` is the state before child
      `i` of `g` is handled, `mid` the state after it received the
      parent's hosts (if it held none), `next` the state after the pass
      went down into it. */
  lemma DownStep(tree: map<string, seq<string>>, g: string, i: nat,
                 o: map<string, seq<string>>, prev: map<string, seq<string>>,
                 mid: map<string, seq<string>>, next: map<string, seq<string>>)
    requires Grows(tree) && Tree(tree) && g in tree && i < |tree[g]|
    requires DownDone(tree, g, i, o, prev)
    requires forall k :: k !in ReachFrom(tree, g, i) ==> Same(o, prev, k)
    requires tree[g][i] in prev ==> mid == prev
    requires tree[g][i] !in prev ==> forall h :: Lists(prev, g, h) ==> Lists(mid, tree[g][i], h)
    requires forall k :: k != tree[g][i] ==> Same(prev, mid, k)
    requires forall k :: k !in Reach(tree, tree[g][i]) || k == tree[g][i] ==> Same(mid, next, k)
    requires DownBelow(tree, tree[g][i], mid, next)
    ensures DownDone(tree, g, i + 1, o, next)
  {
    var c := tree[g][i];
    ReachFromApart(tree, g, i);
    ReachChild(tree, g, i);
    ReachLonger(tree, c);
    ReachFromLonger(tree, g, i);
    assert g !in Reach(tree, c);
    forall j | 0 <= j < i + 1 && tree[g][j] !in o
      ensures Covers(next, tree[g][j], g)
    {
      if j < i {
        SiblingsApart(tree, g, j, i);
        ReachChild(tree, g, j);
        var x := tree[g][j];
        assert Same(prev, mid, x) && Same(mid, next, x);
        assert Same(prev, mid, g) && Same(mid, next, g);
        CoversKept(prev, next, x, g);
      } else {
        assert Same(o, prev, c);
        assert Same(prev, mid, g) && Same(mid, next, g) && Same(mid, next, c);
        forall h | Lists(next, g, h)
          ensures Lists(next, c, h)
        {
          assert Lists(prev, g, h);
        }
      }
    }
    forall p, d | p in ReachFrom(tree, g, i + 1) && p in tree && d in tree[p] && d !in o
      ensures Covers(next, d, p)
    {
      if p in ReachFrom(tree, g, i) {
        ReachFromClosed(tree, g, i, p, d);
        assert Same(prev, mid, p) && Same(mid, next, p);
        assert Same(prev, mid, d) && Same(mid, next, d);
        CoversKept(prev, next, d, p);
      } else {
        assert p in Reach(tree, c);
        ReachClosed(tree, c, p, d);
        var k :| 0 <= k < |tree[p]| && tree[p][k] == d;
        assert d != c;
        assert Same(o, prev, d) && Same(prev, mid, d);
      }
    }
  }

  /** What one child of the downward pass leaves alone: the keys that
      held hosts before, and every key below no child handled so far. */
  lemma DownFrame(tree: map<string, seq<string>>, g: string, i: nat,
                  o: map<string, seq<string>>, prev: map<string, seq<string>>,
                  mid: map<string, seq<string>>, next: map<string, seq<string>>)
    requires Grows(tree) && g in tree && i < |tree[g]|
    requires forall k :: k in o ==> Same(o, prev, k)
    requires forall k :: k !in ReachFrom(tree, g, i) ==> Same(o, prev, k)
    requires tree[g][i] in prev ==> mid == prev
    requires forall k :: k != tree[g][i] ==> Same(prev, mid, k)
    requires forall k :: k in mid ==> Same(mid, next, k)
    requires forall k :: k !in Reach(tree, tree[g][i]) || k == tree[g][i] ==> Same(mid, next, k)
    ensures forall k :: k in o ==> Same(o, next, k)
    ensures forall k :: k !in ReachFrom(tree, g, i + 1) ==> Same(o, next, k)
  {
    var c := tree[g][i];
    ReachChild(tree, g, i);
    forall k | k !in ReachFrom(tree, g, i + 1)
      ensures Same(o, next, k)
    {
      assert Same(o, prev, k) && Same(prev, mid, k) && Same(mid, next, k);
    }
    forall k | k in o
      ensures Same(o, next, k)
    {
      assert Same(o, prev, k) && Same(prev, mid, k) && Same(mid, next, k);
    }
  }

  /** What the downward pass from `g` keeps after its first `i` children:
      the keys that held hosts are untouched, so is every key below no
      child handled so far, and on a tree those children are done. */
  ghost predicate DownLoop(tree: map<string, seq<string>>, g: string, i: nat,
                           o: map<string, seq<string>>, m: map<string, seq<string>>)
    requires Grows(tree) && g in tree && i <= |tree[g]|
  {
    && (forall k :: k in o ==> Same(o, m, k))
    && (forall k :: k !in ReachFrom(tree, g, i) ==> Same(o, m, k))
    && (Tree(tree) ==> DownDone(tree, g, i, o, m))
  }

  /** One more child of the downward pass, with the states named as in
      `DownStep`. */
  lemma DownAdvance(tree: map<string, seq<string>>, g: string, i: nat,
                    o: map<string, seq<string>>, prev: map<string, seq<string>>,
                    mid: map<string, seq<string>>, next: map<string, seq<string>>)
    requires Grows(tree) && g in tree && i < |tree[g]|
    requires DownLoop(tree, g, i, o, prev)
    requires tree[g][i] in prev ==> mid == prev
    requires tree[g][i] !in prev ==> forall h :: Lists(prev, g, h) ==> Lists(mid, tree[g][i], h)
    requires forall k :: k != tree[g][i] ==> Same(prev, mid, k)
    requires forall k :: k in mid ==> Same(mid, next, k)
    requires forall k :: k !in Reach(tree, tree[g][i]) || k == tree[g][i] ==> Same(mid, next, k)
    requires Tree(tree) ==> DownBelow(tree, tree[g][i], mid, next)
    ensures DownLoop(tree, g, i + 1, o, next)
  {
    DownFrame(tree, g, i, o, prev, mid, next);
    if Tree(tree) {
      DownStep(tree, g, i, o, prev, mid, next);
    }
  }

  /** The downward pass from `g` after all its children: the promise of
      `InheritDown`. */
  lemma DownEnd(tree: map<string, seq<string>>, g: string, o: map<string, seq<string>>, m: map<string, seq<string>>)
    requires Grows(tree) && g in tree && DownLoop(tree, g, |tree[g]|, o, m)
    ensures forall k :: k !in Reach(tree, g) || k == g ==> Same(o, m, k)
    ensures Tree(tree) ==> DownBelow(tree, g, o, m)
  {
    ReachFromLonger(tree, g, |tree[g]|);
    if Tree(tree) {
      DownFinish(tree, g, o, m);
    }
  }

  /** Handling every child of `g` covers every edge below `g`. */
  lemma DownFinish(tree: map<string, seq<string>>, g: string, o: map<string, seq<string>>, m: map<string, seq<string>>)
    requires Grows(tree) && g in tree && DownDone(tree, g, |tree[g]|, o, m)
    ensures DownBelow(tree, g, o, m)
  {
    forall p, c | p in Reach(tree, g) && p in tree && c in tree[p] && c !in o
      ensures Covers(m, c, p)
    {
      if p == g {
        var j :| 0 <= j < |tree[g]| && tree[g][j] == c;
      }
    }
  }

  // ---------------------------------------------------------------------
  // Passing hosts up the group tree

  /** No group loses a host from `a` to `b`. */
  ghost predicate Grown(a: map<string, seq<string>>, b: map<string, seq<string>>)
  {
    forall k, h :: Lists(a, k, h) ==> Lists(b, k, h)
  }

  /** A group that keeps its hosts and only gains under `whole` keeps
      being covered by `whole`. */
  lemma CoversGrown(a: map<string, seq<string>>, b: map<string, seq<string>>, whole: string, part: string)
    requires Covers(a, whole, part) && Same(a, b, part) && Grown(a, b)
    ensures Covers(b, whole, part)
  {
    forall h | Lists(b, part, h)
      ensures Lists(b, whole, h)
    {
      assert Lists(a, part, h);
    }
  }

  /** Every edge below `n` has the child's hosts under the parent in `m`:
      what the upward pass promises. */
  ghost predicate UpBelow(tree: map<string, seq<string>>, n: string, m: map<string, seq<string>>)
    requires Grows(tree)
  {
    forall p, c :: p in Reach(tree, n) && p in tree && c in tree[p] ==> Covers(m, p, c)
  }

  /** The upward pass into `g` has handled its first `i` children: `g`
      holds the hosts of each of them, and every edge below them is
      covered. */
  ghost predicate UpDone(tree: map<string, seq<string>>, g: string, i: nat, m: map<string, seq<string>>)
    requires Grows(tree) && g in tree && i <= |tree[g]|
  {
    && (forall j :: 0 <= j < i ==> Covers(m, g, tree[g][j]))
    && (forall p, c :: p in ReachFrom(tree, g, i) && p in tree && c in tree[p] ==> Covers(m, p, c))
  }

  /** What the upward pass into `g` keeps after its first `i` children:
      no group loses a host, every key other than `g` below no child
      handled so far is untouched, and on a tree those children are
      done. */
  ghost predicate UpLoop(tree: map<string, seq<string>>, g: string, i: nat,
                         o: map<string, seq<string>>, m: map<string, seq<string>>)
    requires Grows(tree) && g in tree && i <= |tree[g]|
  {
    && Grown(o, m)
    && (forall k :: k !in ReachFrom(tree, g, i) && k != g ==> Same(o, m, k))
    && (Tree(tree) ==> UpDone(tree, g, i, m))
  }

  /** One child of the upward pass: `prev` is the state before child `i`
      of `g` is handled, `mid` the state after the pass came back up from
      it, `next` the state after `g` received the child's hosts. */
  lemma UpStep(tree: map<string, seq<string>>, g: string, i: nat,
               prev: map<string, seq<string>>, mid: map<string, seq<string>>, next: map<string, seq<string>>)
    requires Grows(tree) && Tree(tree) && g in tree && i < |tree[g]|
    requires UpDone(tree, g, i, prev)
    requires forall k :: k !in Reach(tree, tree[g][i]) ==> Same(prev, mid, k)
    requires Grown(prev, mid) && UpBelow(tree, tree[g][i], mid)
    requires forall k :: k != g ==> Same(mid, next, k)
    requires Grown(mid, next)
    requires forall h :: Lists(mid, tree[g][i], h) ==> Lists(next, g, h)
    ensures UpDone(tree, g, i + 1, next)
  {
    var c := tree[g][i];
    ReachFromApart(tree, g, i);
    ReachChild(tree, g, i);
    ReachLonger(tree, c);
    ReachFromLonger(tree, g, i);
    assert g !in Reach(tree, c);
    forall j | 0 <= j < i + 1
      ensures Covers(next, g, tree[g][j])
    {
      var x := tree[g][j];
      if j < i {
        SiblingsApart(tree, g, j, i);
        ReachChild(tree, g, j);
        assert Same(prev, mid, x) && Same(mid, next, x);
        CoversGrown(prev, mid, g, x);
        CoversGrown(mid, next, g, x);
      } else {
        assert Same(mid, next, c);
        forall h | Lists(next, c, h)
          ensures Lists(next, g, h)
        {
          assert Lists(mid, c, h);
        }
      }
    }
    forall p, d | p in ReachFrom(tree, g, i + 1) && p in tree && d in tree[p]
      ensures Covers(next, p, d)
    {
      if p in ReachFrom(tree, g, i) {
        ReachFromClosed(tree, g, i, p, d);
        assert Same(prev, mid, p) && Same(mid, next, p);
        assert Same(prev, mid, d) && Same(mid, next, d);
        CoversKept(prev, next, p, d);
      } else {
        assert p in Reach(tree, c);
        ReachClosed(tree, c, p, d);
        ReachLonger(tree, c);
        assert Same(mid, next, p) && Same(mid, next, d);
        CoversKept(mid, next, p, d);
      }
    }
  }

  /** What one child of the upward pass leaves alone: no group loses a
      host, and every key other than `g` below no child handled so far is
      untouched. */
  lemma UpFrame(tree: map<string, seq<string>>, g: string, i: nat,
                o: map<string, seq<string>>, prev: map<string, seq<string>>,
                mid: map<string, seq<string>>, next: map<string, seq<string>>)
    requires Grows(tree) && g in tree && i < |tree[g]|
    requires Grown(o, prev) && Grown(prev, mid) && Grown(mid, next)
    requires forall k :: k !in ReachFrom(tree, g, i) && k != g ==> Same(o, prev, k)
    requires forall k :: k !in Reach(tree, tree[g][i]) ==> Same(prev, mid, k)
    requires forall k :: k != g ==> Same(mid, next, k)
    ensures Grown(o, next)
    ensures forall k :: k !in ReachFrom(tree, g, i + 1) && k != g ==> Same(o, next, k)
  {
    ReachChild(tree, g, i);
    forall k | k !in ReachFrom(tree, g, i + 1) && k != g
      ensures Same(o, next, k)
    {
      assert Same(o, prev, k) && Same(prev, mid, k) && Same(mid, next, k);
    }
  }

  /** One more child of the upward pass, with the states named as in
      `UpStep`. */
  lemma UpAdvance(tree: map<string, seq<string>>, g: string, i: nat,
                  o: map<string, seq<string>>, prev: map<string, seq<string>>,
                  mid: map<string, seq<string>>, next: map<string, seq<string>>)
    requires Grows(tree) && g in tree && i < |tree[g]|
    requires UpLoop(tree, g, i, o, prev)
    requires forall k :: k !in Reach(tree, tree[g][i]) ==> Same(prev, mid, k)
    requires Grown(prev, mid) && (Tree(tree) ==> UpBelow(tree, tree[g][i], mid))
    requires forall k :: k != g ==> Same(mid, next, k)
    requires Grown(mid, next)
    requires forall h :: Lists(mid, tree[g][i], h) ==> Lists(next, g, h)
    ensures UpLoop(tree, g, i + 1, o, next)
  {
    UpFrame(tree, g, i, o, prev, mid, next);
    if Tree(tree) {
      UpStep(tree, g, i, prev, mid, next);
    }
  }

  /** The upward pass into `g` after all its children: the promise of
      `InheritUp`. */
  lemma UpEnd(tree: map<string, seq<string>>, g: string, o: map<string, seq<string>>, m: map<string, seq<string>>)
    requires Grows(tree) && g in tree && UpLoop(tree, g, |tree[g]|, o, m)
    ensures forall k :: k !in Reach(tree, g) ==> Same(o, m, k)
    ensures Tree(tree) ==> UpBelow(tree, g, m)
  {
    if Tree(tree) {
      forall p, c | p in Reach(tree, g) && p in tree && c in tree[p]
        ensures Covers(m, p, c)
      {
        if p == g {
          var j :| 0 <= j < |tree[g]| && tree[g][j] == c;
        }
      }
    }
  }

  /** After the upward pass a group holds the hosts of every group below
      it, not only of its children. */
  lemma {:induction false} UpReach(tree: map<string, seq<string>>, n: string, m: map<string, seq<string>>, x: string)
    requires Grows(tree) && UpBelow(tree, n, m) && x in Reach(tree, n)
    ensures Covers(m, n, x)
    decreases |x|
  {
    if x != n {
      ReachParent(tree, n, x);
      var p :| p in Reach(tree, n) && p in tree && x in tree[p];
      var i :| 0 <= i < |tree[p]| && tree[p][i] == x;
      UpReach(tree, n, m, p);
      assert Covers(m, p, x);
    }
  }

  /** Every group below `n` that held no hosts in `o` holds in `m` the
      hosts its parent held in `o`: what the two passes together promise
      about the downward direction. */
  ghost predicate Inherited(tree: map<string, seq<string>>, n: string,
                            o: map<string, seq<string>>, m: map<string, seq<string>>)
    requires Grows(tree)
  {
    forall p, c, h :: p in Reach(tree, n) && p in tree && c in tree[p] && c !in o && Lists(o, p, h) ==> Lists(m, c, h)
  }

  /** The downward pass followed by any growth gives `Inherited`. */
  lemma DownThenGrown(tree: map<string, seq<string>>, n: string,
                      o: map<string, seq<string>>, mid: map<string, seq<string>>, m: map<string, seq<string>>)
    requires Grows(tree) && DownBelow(tree, n, o, mid) && Grown(mid, m)
    requires forall k :: k in o ==> Same(o, mid, k)
    ensures Inherited(tree, n, o, m)
  {
    forall p, c, h | p in Reach(tree, n) && p in tree && c in tree[p] && c !in o && Lists(o, p, h)
      ensures Lists(m, c, h)
    {
      assert Same(o, mid, p);
      assert Lists(mid, p, h);
    }
  }

  // ---------------------------------------------------------------------
  // Derived variables

  /** Composing two batches of appends to the same list. */
  lemma AppendedAllTwice(lists: map<ListKey, seq<Entry>>, key: ListKey, a: seq<Entry>, b: seq<Entry>)
    ensures AppendedAll(AppendedAll(lists, key, a), key, b) == AppendedAll(lists, key, a + b)
  {
    if |a| > 0 && |b| > 0 {
      assert ListOr(lists, key) + a + b == ListOr(lists, key) + (a + b);
    } else if |a| == 0 {
      assert a + b == b;
    } else {
      assert a + b == a;
    }
  }

  /** The variable entries recorded for `target`, one per name and value. */
  function VariableEntries(target: string, vars: seq<(string, Value)>): (r: seq<Entry>)
    ensures |r| == |vars|
    ensures forall i :: 0 <= i < |vars| ==> r[i] == Variable(target, vars[i].0, vars[i].1)
  {
    seq(|vars|, i requires 0 <= i < |vars| => Variable(target, vars[i].0, vars[i].1))
  }

  /** A stored host whose first private address can be written out. */
  predicate Addressable(host: Host)
  {
    |host.privateIps| > 0 && (host.privateIps[0].Assigned? ==> host.privateIps[0].index < Capacity)
  }

  /** The text of a host's first private address. */
  function PrivateText(host: Host): string
    requires Addressable(host)
  {
    IpText(host.privateIps[0])
  }

  /** Every host a group lists is stored and addressable. */
  ghost predicate Stored(groupHosts: map<string, seq<string>>, hosts: map<string, Host>)
  {
    forall g, h :: g in groupHosts && h in groupHosts[g] ==> h in hosts && Addressable(hosts[h])
  }

  /** The first private addresses of the named hosts, in order. */
  function PrivateTexts(names: seq<string>, hosts: map<string, Host>): (r: seq<string>)
    requires forall h :: h in names ==> h in hosts && Addressable(hosts[h])
    ensures |r| == |names|
    ensures forall i :: 0 <= i < |names| ==> r[i] == PrivateText(hosts[names[i]])
  {
    seq(|names|, i requires 0 <= i < |names| => PrivateText(hosts[names[i]]))
  }

  /** The etcd client URL of a private address. */
  function Endpoint(ip: string): string
  {
    "https://" + ip + ":" + EtcdPort
  }

  /** The etcd client URLs of several addresses, in order. */
  function Endpoints(ips: seq<string>): (r: seq<string>)
    ensures |r| == |ips|
    ensures forall i :: 0 <= i < |ips| ==> r[i] == Endpoint(ips[i])
  {
    seq(|ips|, i requires 0 <= i < |ips| => Endpoint(ips[i]))
  }

  /** The disks the named hosts give to the storage cluster: all but the
      operating-system disk of each. A host without disks counts -1. */
  function StorageDisks(names: seq<string>, hosts: map<string, Host>): int
    requires forall h :: h in names ==> h in hosts
  {
    if |names| == 0 then 0
    else StorageDisks(names[..|names| - 1], hosts) + |hosts[names[|names| - 1]].diskTypes| - 1
  }

  /** All disks of the named hosts. */
  function TotalDisks(names: seq<string>, hosts: map<string, Host>): (n: nat)
    requires forall h :: h in names ==> h in hosts
    ensures forall i :: 0 <= i < |names| ==> |hosts[names[i]].diskTypes| <= n
    ensures n == 0 <==> forall i :: 0 <= i < |names| ==> |hosts[names[i]].diskTypes| == 0
  {
    if |names| == 0 then 0
    else |hosts[names[0]].diskTypes| + TotalDisks(names[1..], hosts)
  }

  /** The storage-cluster disk count is every disk of the hosts less one
      per host. */
  lemma {:induction false} StorageDisksCount(names: seq<string>, hosts: map<string, Host>)
    requires forall h :: h in names ==> h in hosts
    ensures StorageDisks(names, hosts) == TotalDisks(names, hosts) - |names|
    decreases |names|
  {
    if |names| > 0 {
      var init, last := names[..|names| - 1], names[|names| - 1];
      StorageDisksCount(init, hosts);
      TotalDisksAppend(init, last, hosts);
      assert init + [last] == names;
    }
  }

  lemma {:induction false} TotalDisksAppend(names: seq<string>, last: string, hosts: map<string, Host>)
    requires forall h :: h in names ==> h in hosts
    requires last in hosts
    ensures TotalDisks(names + [last], hosts) == TotalDisks(names, hosts) + |hosts[last].diskTypes|
    decreases |names|
  {
    if |names| > 0 {
      assert (names + [last])[1..] == names[1..] + [last];
      TotalDisksAppend(names[1..], last, hosts);
    } else {
      assert [last][1..] == [];
    }
  }

  /** The public address of the first host of an ingress group. */
  function IngressIp(groupHosts: map<string, seq<string>>, hosts: map<string, Host>, group: string): (r: Attempt<string>)
    ensures r.Done? <==>
      group in groupHosts && |groupHosts[group]| > 0 && groupHosts[group][0] in hosts
      && |hosts[groupHosts[group][0]].publicIps| > 0
    ensures r.Done? ==> r.value == hosts[groupHosts[group][0]].publicIps[0]
  {
    if group !in groupHosts then Threw(KeyError)
    else if |groupHosts[group]| == 0 then Threw(IndexError)
    else if groupHosts[group][0] !in hosts then Threw(KeyError)
    else if |hosts[groupHosts[group][0]].publicIps| == 0 then Threw(IndexError)
    else Done(hosts[groupHosts[group][0]].publicIps[0])
  }

  /** The variables of the root group in the order `set_groups_variables`
      records them, and the exception that cuts them short, if any. */
  function GroupsVariables(groupHosts: map<string, seq<string>>, tree: map<string, seq<string>>,
                           hosts: map<string, Host>): (r: (seq<(string, Value)>, Option<Raise>))
    requires Stored(groupHosts, hosts)
  {
    if ControlGroup !in groupHosts || RootGroup !in groupHosts then ([], Some(KeyError))
    else
      var control, members := groupHosts[ControlGroup], groupHosts[RootGroup];
      var etcdHosts := PrivateTexts(control, hosts);
      var first := [("machine_private_vip", Str(PrivateVip)),
                    ("machine_etcd_endpoints", List(Strs(Endpoints(etcdHosts)))),
                    ("machine_etcd_hosts", List(Strs(etcdHosts))),
                    ("machine_etcd_port", Str(EtcdPort)),
                    ("machine_hosts", List(Strs(PrivateTexts(members, hosts))))];
      if RootGroup !in tree then (first, Some(KeyError))
      else
        var counted := first + [("machine_resources_main_groups", List(Strs(tree[RootGroup]))),
                                ("machine_nodes_count", Int(|members|)),
                                ("storage_cluster_disk_count", Int(StorageDisks(members, hosts)))];
        match IngressIp(groupHosts, hosts, WebIngressGroup)
        case Threw(e) => (counted, Some(e))
        case Done(web) =>
          var withWeb := counted + [("machine_web_ingress_public_ip", Str(web))];
          match IngressIp(groupHosts, hosts, MailIngressGroup)
          case Threw(e) => (withWeb, Some(e))
          case Done(mail) => (withWeb + [("machine_mail_ingress_public_ip", Str(mail))], None)
  }

  /** The etcd hosts and endpoints of the control group's hosts, one host
      at a time. */
  method EtcdAddresses(control: seq<string>, hosts: map<string, Host>)
      returns (endpoints: seq<string>, etcdHosts: seq<string>)
    requires forall h :: h in control ==> h in hosts && Addressable(hosts[h])
    ensures etcdHosts == PrivateTexts(control, hosts)
    ensures endpoints == Endpoints(etcdHosts)
  {
    endpoints, etcdHosts := [], [];
    var i := 0;
    while i < |control|
      invariant i <= |control|
      invariant etcdHosts == PrivateTexts(control[..i], hosts)
      invariant endpoints == Endpoints(etcdHosts)
    {
      var ip := PrivateText(hosts[control[i]]);
      endpoints := endpoints + [Endpoint(ip)];
      etcdHosts := etcdHosts + [ip];
      i := i + 1;
    }
    assert control[..i] == control;
  }

  /** The private addresses of the named hosts, one host at a time. */
  method PrivateAddresses(names: seq<string>, hosts: map<string, Host>) returns (texts: seq<string>)
    requires forall h :: h in names ==> h in hosts && Addressable(hosts[h])
    ensures texts == PrivateTexts(names, hosts)
  {
    texts := [];
    var i := 0;
    while i < |names|
      invariant i <= |names|
      invariant texts == PrivateTexts(names[..i], hosts)
    {
      texts := texts + [PrivateText(hosts[names[i]])];
      i := i + 1;
    }
    assert names[..i] == names;
  }

  /** The storage disks of the named hosts, summed one host at a time. */
  method CountStorageDisks(names: seq<string>, hosts: map<string, Host>) returns (disks: int)
    requires forall h :: h in names ==> h in hosts
    ensures disks == StorageDisks(names, hosts)
  {
    disks := 0;
    var i := 0;
    while i < |names|
      invariant i <= |names|
      invariant disks == StorageDisks(names[..i], hosts)
    {
      assert names[..i + 1][..i] == names[..i];
      disks := disks + |hosts[names[i]].diskTypes| - 1;
      i := i + 1;
    }
    assert names[..i] == names;
  }

  /** The root-group variables are recorded in full exactly when the
      control, root and ingress groups exist, the root group has children
      and each ingress group's first host has a public address; the node
      count is then the number of root hosts, and each etcd endpoint is
      the URL of the etcd host at the same position. */
  lemma GroupsVariablesComplete(groupHosts: map<string, seq<string>>, tree: map<string, seq<string>>,
                                hosts: map<string, Host>)
    requires Stored(groupHosts, hosts)
    ensures var r := GroupsVariables(groupHosts, tree, hosts);
      && (r.1.None? <==>
            ControlGroup in groupHosts && RootGroup in groupHosts && RootGroup in tree
            && IngressIp(groupHosts, hosts, WebIngressGroup).Done?
            && IngressIp(groupHosts, hosts, MailIngressGroup).Done?)
      && (r.1.None? ==>
            && |r.0| == 10
            && r.0[6] == ("machine_nodes_count", Int(|groupHosts[RootGroup]|))
            && r.0[4].1.List? && |r.0[4].1.items| == |groupHosts[RootGroup]|
            && r.0[1].1.List? && r.0[2].1.List? && |r.0[1].1.items| == |r.0[2].1.items|
            && forall i :: 0 <= i < |r.0[2].1.items| ==>
                 r.0[2].1.items[i].Str? && r.0[1].1.items[i] == Str(Endpoint(r.0[2].1.items[i].s)))
  {
  }

  /** The MAC address of the first interface of the given type, or None. */
  function FindMac(interfaces: seq<Interface>, kind: string): (r: Value)
    ensures (forall i :: 0 <= i < |interfaces| ==> interfaces[i].kind != kind) ==> r == Nil
    ensures forall i ::
      (0 <= i < |interfaces| && interfaces[i].kind == kind && forall j :: 0 <= j < i ==> interfaces[j].kind != kind)
      ==> r == interfaces[i].mac
  {
    if |interfaces| == 0 then Nil
    else if interfaces[0].kind == kind then interfaces[0].mac
    else FindMac(interfaces[1..], kind)
  }

  /** The failover network: the first failover address with "/32", or
      the empty string when there is none. */
  function FailoverNetwork(failoverIps: seq<string>): (r: string)
    ensures r == "" <==> |failoverIps| == 0 || failoverIps[0] == ""
    ensures r != "" ==> r == failoverIps[0] + "/32"
  {
    var fo := (if |failoverIps| > 0 then failoverIps[0] else "") + "/32";
    if fo != "/32" then fo else ""
  }

  /** The public gateway: the first three dot-separated parts of the
      public address, then ".1". */
  function PublicGateway(ip: string): string
  {
    var parts := Split(ip, ".");
    Join(parts[..if |parts| < 3 then |parts| else 3], ".") + ".1"
  }

  /** For a dotted quad the gateway is its first three octets and 1. */
  lemma PublicGatewayOfQuad(a: string, b: string, c: string, d: string)
    requires '.' !in a && '.' !in b && '.' !in c && '.' !in d
    ensures PublicGateway(a + "." + b + "." + c + "." + d) == a + "." + b + "." + c + ".1"
  {
    SplitQuad(a, b, c, d);
    assert [a, b, c, d][..3] == [a, b, c];
    calc {
      Join([a, b, c], ".");
      a + "." + Join([b, c], ".");
      { assert Join([b, c], ".") == b + "." + c; }
      a + "." + (b + "." + c);
      a + "." + b + "." + c;
    }
  }

  /** A dotted quad splits into its four parts. */
  lemma SplitQuad(a: string, b: string, c: string, d: string)
    requires '.' !in a && '.' !in b && '.' !in c && '.' !in d
    ensures Split(a + "." + b + "." + c + "." + d, ".") == [a, b, c, d]
  {
    var cd := c + "." + d;
    SplitNone(d, ".");
    SplitCut(c, ".", d);
    assert Split(cd, ".") == [c, d];
    var bcd := b + "." + cd;
    SplitCut(b, ".", cd);
    assert Split(bcd, ".") == [b, c, d];
    SplitCut(a, ".", bcd);
    assert Split(a + "." + bcd, ".") == [a, b, c, d];
    DottedRegroup(a, b, c, d);
  }

  /** Dotted text regrouped from the right. */
  lemma DottedRegroup(a: string, b: string, c: string, d: string)
    ensures a + "." + b + "." + c + "." + d == a + "." + (b + "." + (c + "." + d))
  {
  }

  /** The host's group paths as Kubernetes-style labels: each path with
      "=true", separated by spaces. */
  function Labels(paths: seq<string>): (r: string)
    ensures |paths| == 0 ==> r == "=true"
  {
    Join(paths, "=true ") + "=true"
  }

  /** Each path with "=true" appended. */
  function Labelled(paths: seq<string>): (r: seq<string>)
    ensures |r| == |paths| && forall i :: 0 <= i < |paths| ==> r[i] == paths[i] + "=true"
  {
    seq(|paths|, i requires 0 <= i < |paths| => paths[i] + "=true")
  }

  /** With at least one path, the labels are the labelled paths separated
      by single spaces. */
  lemma {:induction false} LabelsSpaced(paths: seq<string>)
    requires |paths| > 0
    ensures Labels(paths) == Join(Labelled(paths), " ")
    decreases |paths|
  {
    if |paths| > 1 {
      LabelsSpaced(paths[1..]);
      assert Labelled(paths)[1..] == Labelled(paths[1..]);
      calc {
        Labels(paths);
        paths[0] + "=true " + Join(paths[1..], "=true ") + "=true";
        (paths[0] + "=true") + " " + (Join(paths[1..], "=true ") + "=true");
        Labelled(paths)[0] + " " + Join(Labelled(paths[1..]), " ");
      }
    }
  }

  /** The ten decimal digits, in order. */
  function Digits(): (r: seq<char>)
    ensures |r| == 10
  {
    seq(10, i requires 0 <= i < 10 => ('0' as int + i) as char)
  }

  /** The 26 lower-case letters, in order. */
  function Letters(): (r: seq<char>)
    ensures |r| == 26
  {
    seq(26, i requires 0 <= i < 26 => ('a' as int + i) as char)
  }

  /** The device names of a host's disks: "/dev/nvme<digit>n1" when the
      first disk is NVMe, "/dev/sd<letter>" otherwise, one single-character
      id per disk in order, as many as there are ids; a host without disks
      raises IndexError. */
  function DiskNames(diskTypes: seq<string>): (r: Attempt<seq<string>>)
    ensures r.Threw? <==> |diskTypes| == 0
  {
    if |diskTypes| == 0 then Threw(IndexError)
    else
      var nvme := diskTypes[0] == "NVMe";
      var ids := if nvme then Digits() else Letters();
      var prefix := if nvme then "/dev/nvme" else "/dev/sd";
      var suffix := if nvme then "n1" else "";
      var n := if |diskTypes| < |ids| then |diskTypes| else |ids|;
      Done(seq(n, i requires 0 <= i < n => prefix + [ids[i]] + suffix))
  }

  /** One name per disk up to ten NVMe or 26 other disks, the i-th disk
      named by the i-th digit or letter, and no two disks share a name. */
  lemma DiskNamesDistinct(diskTypes: seq<string>)
    requires |diskTypes| > 0
    ensures var names := DiskNames(diskTypes).value;
      var limit := if diskTypes[0] == "NVMe" then 10 else 26;
      && |names| == (if |diskTypes| < limit then |diskTypes| else limit)
      && (diskTypes[0] == "NVMe" ==> forall i :: 0 <= i < |names| ==> names[i] == "/dev/nvme" + [('0' as int + i) as char] + "n1")
      && (diskTypes[0] != "NVMe" ==> forall i :: 0 <= i < |names| ==> names[i] == "/dev/sd" + [('a' as int + i) as char])
      && NoDuplicates(names)
  {
    var names := DiskNames(diskTypes).value;
    var nvme := diskTypes[0] == "NVMe";
    var prefix := if nvme then "/dev/nvme" else "/dev/sd";
    forall i, j | 0 <= i < |names| && 0 <= j < |names| && names[i] == names[j]
      ensures i == j
    {
      assert names[i][|prefix|] == names[j][|prefix|];
    }
  }

  /** The variables of one host in the order `set_hosts_variables` records
      them, and the exception that cuts them short, if any. `paths` is the
      host's entry of the host paths, if it has one. */
  function HostVariables(host: Host, paths: Option<seq<string>>, configuration: map<string, Value>)
    : (r: (seq<(string, Value)>, Option<Raise>))
    requires Addressable(host)
  {
    var named := [("hostname", Str(host.hostname))];
    if |host.publicIps| == 0 then (named, Some(IndexError))
    else
      var ip := host.publicIps[0];
      var private := PrivateText(host);
      var addressed := named + [
        ("ansible_host", Str(ip)),
        ("private_mac", FindMac(host.interfaces, "private")),
        ("public_mac", FindMac(host.interfaces, "public")),
        ("private_ip", Str(private)),
        ("host_id", host.id),
        ("public_ip", Str(ip)),
        ("failover_ip", Str(if |host.failoverIps| > 0 then host.failoverIps[0] else "")),
        ("private_network", Str(private + "/24")),
        ("private_vip_network", Str("192.168.100.0/24")),
        ("public_network", Str(ip + "/24")),
        ("failover_network", Str(FailoverNetwork(host.failoverIps))),
        ("public_gateway", Str(PublicGateway(ip)))];
      if paths.None? then (addressed, Some(KeyError))
      else
        var labelled := addressed + [("labels", Str(Labels(paths.value)))];
        match DiskNames(host.diskTypes)
        case Threw(e) => (labelled, Some(e))
        case Done(names) =>
          var disked := labelled + [("disks", List(Strs(names)))];
          if "display_os_rebuild_confirmation" !in configuration then (disked, Some(KeyError))
          else
            var rebuild := disked + [("display_os_rebuild_confirmation", configuration["display_os_rebuild_confirmation"])];
            if "display_data_wipe_confirmation" !in configuration then (rebuild, Some(KeyError))
            else
              var wipe := rebuild + [("display_data_wipe_confirmation", configuration["display_data_wipe_confirmation"])];
              if "os_wipe_data" !in configuration then (wipe, Some(KeyError))
              else (wipe + [("os_wipe_data", configuration["os_wipe_data"])], None)
  }

  /** A host's variables are recorded in full exactly when it has a public
      address, host paths and a disk, and the configuration holds the
      three confirmation settings; there are then 18 of them, and the
      private network is the host's private address with "/24". */
  lemma HostVariablesComplete(host: Host, paths: Option<seq<string>>, configuration: map<string, Value>)
    requires Addressable(host)
    ensures var r := HostVariables(host, paths, configuration);
      && (r.1.None? <==>
            |host.publicIps| > 0 && paths.Some? && |host.diskTypes| > 0
            && "display_os_rebuild_confirmation" in configuration
            && "display_data_wipe_confirmation" in configuration
            && "os_wipe_data" in configuration)
      && (r.1.None? ==> |r.0| == 18 && r.0[8] == ("private_network", Str(PrivateText(host) + "/24")))
      && |r.0| >= 1 && r.0[0] == ("hostname", Str(host.hostname))
  {
  }

  /** A host stored at position k of the insertion order has as private
      network the (k+1)-th address of 192.168.0.0/13 with "/24". */
  lemma PrivateNetworkOfStored(order: seq<string>, hosts: map<string, Host>, h: string,
                               paths: Option<seq<string>>, configuration: map<string, Value>)
    requires OrderPart(order, hosts) && AddressPart(order, hosts) && h in hosts
    ensures Addressable(hosts[h])
    ensures var r := HostVariables(hosts[h], paths, configuration);
      r.1.None? ==> r.0[8].1 == Str(PrivateAddress(FirstIndex(order, h) + 1) + "/24")
  {
    assert h in order;
    HostVariablesComplete(hosts[h], paths, configuration);
  }

  /** The variables of every host, in insertion order, up to and including
      the host whose variables raise. */
  function AllHostVariables(order: seq<string>, hosts: map<string, Host>, hostPaths: map<string, seq<string>>,
                            configuration: map<string, Value>): (r: (seq<Entry>, Option<Raise>))
    requires forall h :: h in order ==> h in hosts && Addressable(hosts[h])
    decreases |order|
  {
    if |order| == 0 then ([], None)
    else
      var before := AllHostVariables(order[..|order| - 1], hosts, hostPaths, configuration);
      if before.1.Some? then before
      else
        var id := order[|order| - 1];
        var paths := if id in hostPaths then Some(hostPaths[id]) else None;
        var one := HostVariables(hosts[id], paths, configuration);
        (before.0 + VariableEntries(id, one.0), one.1)
  }

  /** A host whose predecessors raised nothing adds its own variables. */
  lemma AllHostVariablesNext(order: seq<string>, i: nat, hosts: map<string, Host>,
                             hostPaths: map<string, seq<string>>, configuration: map<string, Value>)
    requires forall h :: h in order ==> h in hosts && Addressable(hosts[h])
    requires i < |order| && AllHostVariables(order[..i], hosts, hostPaths, configuration).1.None?
    ensures var id := order[i];
            var one := HostVariables(hosts[id], if id in hostPaths then Some(hostPaths[id]) else None, configuration);
            AllHostVariables(order[..i + 1], hosts, hostPaths, configuration) ==
              (AllHostVariables(order[..i], hosts, hostPaths, configuration).0 + VariableEntries(id, one.0), one.1)
  {
    assert order[..i + 1][..i] == order[..i];
  }

  /** Once a host's variables raise, no later host gets any. */
  lemma {:induction false} AllHostVariablesStop(order: seq<string>, i: nat, hosts: map<string, Host>,
                                                hostPaths: map<string, seq<string>>, configuration: map<string, Value>)
    requires forall h :: h in order ==> h in hosts && Addressable(hosts[h])
    requires i <= |order| && AllHostVariables(order[..i], hosts, hostPaths, configuration).1.Some?
    ensures AllHostVariables(order, hosts, hostPaths, configuration) == AllHostVariables(order[..i], hosts, hostPaths, configuration)
    decreases |order|
  {
    if i < |order| {
      assert order[..|order| - 1][..i] == order[..i];
      AllHostVariablesStop(order[..|order| - 1], i, hosts, hostPaths, configuration);
    } else {
      assert order[..i] == order;
    }
  }

  /** Without exceptions every host gets its 18 variables. */
  lemma {:induction false} AllHostVariablesCount(order: seq<string>, hosts: map<string, Host>,
                                                 hostPaths: map<string, seq<string>>, configuration: map<string, Value>)
    requires forall h :: h in order ==> h in hosts && Addressable(hosts[h])
    requires AllHostVariables(order, hosts, hostPaths, configuration).1.None?
    ensures |AllHostVariables(order, hosts, hostPaths, configuration).0| == 18 * |order|
    decreases |order|
  {
    if |order| > 0 {
      var init := order[..|order| - 1];
      var id := order[|order| - 1];
      AllHostVariablesCount(init, hosts, hostPaths, configuration);
      var paths := if id in hostPaths then Some(hostPaths[id]) else None;
      HostVariablesComplete(hosts[id], paths, configuration);
    }
  }

  // ---------------------------------------------------------------------
  // The plugin

  /** The plugin's state: the registered group paths, the group tree, the
      hosts of every group and the groups of every host, and the hosts
      themselves in the order they were first added. */
  class Nodes {
    const cluster: string
    const inventory: Inventory
    var groups: set<string>
    var groupsTree: map<string, seq<string>>
    var groupHosts: map<string, seq<string>>
    /** The keys of `hosts` in insertion order (a Python dict's order). */
    var hostOrder: seq<string>
    var hosts: map<string, Host>
    var hostGroups: map<string, seq<string>>
    var hostPaths: map<string, seq<string>>

    ghost predicate Valid()
      reads this
    {
      Indexed(hostOrder, hosts, groupHosts) && hostPaths == hostGroups && Grows(groupsTree)
    }

    constructor (cluster: string, inventory: Inventory)
      ensures Valid()
      ensures this.cluster == cluster && this.inventory == inventory
      ensures groups == {} && groupsTree == map[] && groupHosts == map[]
      ensures hostOrder == [] && hosts == map[] && hostGroups == map[] && hostPaths == map[]
    {
      this.cluster := cluster;
      this.inventory := inventory;
      groups := {};
      groupsTree := map[];
      groupHosts := map[];
      hostOrder := [];
      hosts := map[];
      hostGroups := map[];
      hostPaths := map[];
    }

    /** Registers `group` under `path`. A group other than the root one
        becomes a child of `path`; without a path that fails, since there
        is no parent to name. */
    method AddGroup(group: string, path: Option<string>) returns (raised: Option<Raise>)
      requires Grows(groupsTree)
      modifies this, inventory
      ensures Grows(groupsTree)
      ensures groups == old(groups) + {Joined(path, group)}
      ensures raised == (if group != RootGroup && path.None? then Some(TypeError) else None)
      ensures group == RootGroup || path.None? ==> groupsTree == old(groupsTree)
      ensures group != RootGroup && path.Some? ==>
        groupsTree == old(groupsTree)[path.value := ListOr(old(groupsTree), path.value) + [path.value + "." + group]]
      ensures inventory.lists ==
        if group == RootGroup || path.None? then Appended(old(inventory.lists), Groups, Group(Joined(path, group)))
        else Appended(Appended(old(inventory.lists), Groups, Group(Joined(path, group))),
                      GroupsChildren, Child(path.value, path.value + "." + group))
      ensures groupHosts == old(groupHosts) && hostOrder == old(hostOrder) && hosts == old(hosts)
      ensures hostGroups == old(hostGroups) && hostPaths == old(hostPaths)
    {
      var p := Joined(path, group);
      groups := groups + {p};
      inventory.AddGroup(p);
      raised := None;
      if RootGroup != group {
        if path.None? {
          raised := Some(TypeError);
          return;
        }
        var parent := path.value;
        var child := parent + "." + group;
        inventory.AddChild(parent, child);
        GrowsAdd(groupsTree, parent, child);
        groupsTree := groupsTree[parent := ListOr(groupsTree, parent) + [child]];
      }
    }

    /** Registers one configured group under `path`, then the groups
        nested under it. */
    method BuildNode(n: Node, path: Option<string>) returns (raised: Option<Raise>)
      requires Grows(groupsTree)
      modifies this, inventory
      decreases n
      ensures Grows(groupsTree)
      ensures raised == (if path.None? && n.name != RootGroup then Some(TypeError) else None)
      ensures raised.None? ==> groups == old(groups) + NodePaths(n, path)
      ensures raised.None? ==> HasEdges(groupsTree, NodeEdges(n, path))
      ensures raised.None? ==> GroupsListed(inventory.lists, NodePaths(n, path))
      ensures raised.None? ==> ChildrenListed(inventory.lists, NodeEdges(n, path))
      ensures Extends(old(groupsTree), groupsTree) && Extends(old(inventory.lists), inventory.lists)
      ensures groupHosts == old(groupHosts) && hostOrder == old(hostOrder) && hosts == old(hosts)
      ensures hostGroups == old(hostGroups) && hostPaths == old(hostPaths)
    {
      ghost var tree0, lists0 := groupsTree, inventory.lists;
      raised := AddGroup(n.name, path);
      if raised.Some? {
        AppendedExtends(lists0, Groups, Group(Joined(path, n.name)));
        return;
      }
      var p := Joined(path, n.name);
      ghost var groups1, tree1, lists1 := groups, groupsTree, inventory.lists;
      raised := BuildGroups(n.sub, Some(p));
      AddedOwn(n.name, path, tree0, tree1, lists0, lists1);
      AddedNode(n, path, tree0, tree1, groupsTree, lists0, lists1, inventory.lists);
      assert NodePaths(n, path) == {p} + SeqPaths(n.sub, Some(p));
    }

    /** Registers the configured groups under `path`, each followed by the
        groups nested under it. */
    method BuildGroups(nodes: seq<Node>, path: Option<string>) returns (raised: Option<Raise>)
      requires Grows(groupsTree)
      modifies this, inventory
      decreases nodes, 1
      ensures Grows(groupsTree)
      ensures raised == (if path.None? && exists i :: 0 <= i < |nodes| && nodes[i].name != RootGroup then Some(TypeError) else None)
      ensures raised.None? ==> groups == old(groups) + SeqPaths(nodes, path)
      ensures raised.None? ==> HasEdges(groupsTree, SeqEdges(nodes, path))
      ensures raised.None? ==> GroupsListed(inventory.lists, SeqPaths(nodes, path))
      ensures raised.None? ==> ChildrenListed(inventory.lists, SeqEdges(nodes, path))
      ensures Extends(old(groupsTree), groupsTree) && Extends(old(inventory.lists), inventory.lists)
      ensures groupHosts == old(groupHosts) && hostOrder == old(hostOrder) && hosts == old(hosts)
      ensures hostGroups == old(hostGroups) && hostPaths == old(hostPaths)
    {
      raised := None;
      var i := 0;
      ghost var paths: set<string> := {};
      ghost var edges: set<(string, string)> := {};
      while i < |nodes|
        invariant raised.None? && GroupsBuilt(nodes, path, i, paths, edges, old(groups), old(groupsTree), old(inventory.lists))
        invariant groupHosts == old(groupHosts) && hostOrder == old(hostOrder) && hosts == old(hosts)
        invariant hostGroups == old(hostGroups) && hostPaths == old(hostPaths)
      {
        raised, paths, edges := BuildNodeAt(nodes, path, i, paths, edges, old(groups), old(groupsTree), old(inventory.lists));
        if raised.Some? {
          return;
        }
        i := i + 1;
      }
      assert nodes[..i] == nodes;
    }

    /** Where `BuildGroups` stands after the first `i` nodes: their paths
        and edges registered and listed, nothing recorded before lost. */
    ghost predicate GroupsBuilt(nodes: seq<Node>, path: Option<string>, i: int, paths: set<string>,
                                edges: set<(string, string)>, groups0: set<string>,
                                tree0: map<string, seq<string>>, lists0: map<ListKey, seq<Entry>>)
      reads this, inventory
    {
      && 0 <= i <= |nodes|
      && Grows(groupsTree)
      && (path.None? ==> forall j :: 0 <= j < i ==> nodes[j].name == RootGroup)
      && paths == SeqPaths(nodes[..i], path) && edges == SeqEdges(nodes[..i], path)
      && groups == groups0 + paths
      && HasEdges(groupsTree, edges)
      && GroupsListed(inventory.lists, paths) && ChildrenListed(inventory.lists, edges)
      && Extends(tree0, groupsTree) && Extends(lists0, inventory.lists)
    }

    /** One step of `BuildGroups`: registers the `i`-th node. */
    method BuildNodeAt(nodes: seq<Node>, path: Option<string>, i: nat, ghost paths: set<string>,
                       ghost edges: set<(string, string)>, ghost groups0: set<string>,
                       ghost tree0: map<string, seq<string>>, ghost lists0: map<ListKey, seq<Entry>>)
      returns (raised: Option<Raise>, ghost paths': set<string>, ghost edges': set<(string, string)>)
      requires i < |nodes| && GroupsBuilt(nodes, path, i, paths, edges, groups0, tree0, lists0)
      modifies this, inventory
      decreases nodes, 0
      ensures raised == (if path.None? && nodes[i].name != RootGroup then Some(TypeError) else None)
      ensures raised.None? ==> GroupsBuilt(nodes, path, i + 1, paths', edges', groups0, tree0, lists0)
      ensures Grows(groupsTree) && Extends(tree0, groupsTree) && Extends(lists0, inventory.lists)
      ensures groupHosts == old(groupHosts) && hostOrder == old(hostOrder) && hosts == old(hosts)
      ensures hostGroups == old(hostGroups) && hostPaths == old(hostPaths)
    {
      ghost var treeI, listsI := groupsTree, inventory.lists;
      raised := BuildNode(nodes[i], path);
      ExtendsTrans(tree0, treeI, groupsTree);
      ExtendsTrans(lists0, listsI, inventory.lists);
      paths', edges' := paths + NodePaths(nodes[i], path), edges + NodeEdges(nodes[i], path);
      if raised.Some? {
        return;
      }
      assert path.None? ==> forall j :: 0 <= j < i + 1 ==> nodes[j].name == RootGroup by {
        if path.None? {
          assert nodes[i].name == RootGroup;
        }
      }
      SeqPathsStep(nodes, i, path);
      SeqEdgesStep(nodes, i, path);
      RecordsKept(treeI, groupsTree, listsI, inventory.lists, paths, edges);
      RecordsUnion(groupsTree, inventory.lists, paths, NodePaths(nodes[i], path), edges, NodeEdges(nodes[i], path));
    }

    /** Places `host` in `group`: stores it under its hostname, keeping
        its position in the insertion order, records the pair in both
        directions without repeats, gives the host the private address
        its position selects, and records the pair in the inventory
        unless `onlyIfLeaf` is set and the group has children. */
    method AddHost(host: Host, group: string, onlyIfLeaf: bool)
      requires Valid()
      requires |host.privateIps| > 0
      requires host.hostname in hostOrder || |hostOrder| + 1 < Capacity
      modifies this, inventory
      ensures Valid()
      ensures hostOrder == OrderAfter(old(hostOrder), host.hostname)
      ensures hosts == old(hosts)[host.hostname := Addressed(host, FirstIndex(hostOrder, host.hostname))]
      ensures hostGroups == Recorded(old(hostGroups), host.hostname, group)
      ensures groupHosts == Recorded(old(groupHosts), group, host.hostname)
      ensures groups == old(groups) && groupsTree == old(groupsTree)
      ensures inventory.lists ==
        if onlyIfLeaf && group in groupsTree then old(inventory.lists)
        else Appended(old(inventory.lists), HostsList, HostIn(host.hostname, group))
    {
      Store(host, group);
      if (onlyIfLeaf && group !in groupsTree) || !onlyIfLeaf {
        inventory.AddHost(host.hostname, group);
      }
    }

    /** The bookkeeping half of `AddHost`. */
    method Store(host: Host, group: string)
      requires Valid()
      requires |host.privateIps| > 0
      requires host.hostname in hostOrder || |hostOrder| + 1 < Capacity
      modifies this
      ensures Valid()
      ensures hostOrder == OrderAfter(old(hostOrder), host.hostname)
      ensures hosts == old(hosts)[host.hostname := Addressed(host, FirstIndex(hostOrder, host.hostname))]
      ensures hostGroups == Recorded(old(hostGroups), host.hostname, group)
      ensures groupHosts == Recorded(old(groupHosts), group, host.hostname)
      ensures groups == old(groups) && groupsTree == old(groupsTree)
    {
      var id := host.hostname;
      var order := OrderAfter(hostOrder, id);
      var stored := hosts[id := Addressed(host, FirstIndex(order, id))];
      var byHost := Recorded(hostGroups, id, group);
      var byGroup := Recorded(groupHosts, group, id);
      assert Indexed(order, stored, byGroup) by {
        OrderAfterIndex(hostOrder, id);
        IndexedStored(hostOrder, hosts, groupHosts, host, group, FirstIndex(order, id));
      }
      hostOrder, hosts, hostGroups, groupHosts, hostPaths := order, stored, byHost, byGroup, byHost;
    }

    /** Places one selected host: stops when one of its tags names an
        unknown group; otherwise lists it in every tagged group (or the
        root group when it has no tags) and then in the default group. */
    method BuildHost(host: Host, tags: map<string, seq<string>>) returns (exited: bool)
      requires Valid()
      requires |host.privateIps| > 0
      requires host.hostname in hostOrder || |hostOrder| + 1 < Capacity
      modifies this, inventory
      ensures Valid()
      ensures exited == Rejected(host, tags, groups)
      ensures exited ==> unchanged(this, inventory)
      ensures !exited ==> Placing(old(groupHosts), groupHosts, host.hostname, Targets(host, tags), |Targets(host, tags)|)
      ensures !exited ==>
        inventory.lists == AppendedAll(old(inventory.lists), HostsList, HostEntries(host.hostname, Targets(host, tags)))
      ensures !exited ==> hostOrder == OrderAfter(old(hostOrder), host.hostname)
      ensures hosts.Keys <= old(hosts).Keys + {host.hostname}
      ensures groups == old(groups) && groupsTree == old(groupsTree)
    {
      var id := host.hostname;
      if id in tags {
        var named := tags[id];
        var j := 0;
        while j < |named|
          invariant j <= |named|
          invariant forall k :: 0 <= k < j ==> named[k] in groups
        {
          if named[j] !in groups {
            return true;
          }
          j := j + 1;
        }
      }
      PlaceAll(host, Targets(host, tags));
      exited := false;
    }

    /** Places a host in each of the groups `named`, in order: the tagged
        groups of a kept host (all of them known, so the code's fallback
        to the root group for an unknown one never applies) or the root
        group, then the default group. */
    method PlaceAll(host: Host, named: seq<string>)
      requires Valid()
      requires |host.privateIps| > 0
      requires host.hostname in hostOrder || |hostOrder| + 1 < Capacity
      modifies this, inventory
      ensures Valid()
      ensures Placing(old(groupHosts), groupHosts, host.hostname, named, |named|)
      ensures inventory.lists == AppendedAll(old(inventory.lists), HostsList, HostEntries(host.hostname, named))
      ensures hostOrder == if |named| == 0 then old(hostOrder) else OrderAfter(old(hostOrder), host.hostname)
      ensures hosts.Keys <= old(hosts).Keys + {host.hostname}
      ensures groups == old(groups) && groupsTree == old(groupsTree)
    {
      ghost var start, lists, order, stored := groupHosts, inventory.lists, hostOrder, hosts.Keys;
      var j := 0;
      assert named[..0] == [];
      while j < |named|
        invariant j <= |named| && Valid()
        invariant Progress(host.hostname, named, j, start, lists, order, stored)
        invariant groups == old(groups) && groupsTree == old(groupsTree)
      {
        PlaceNext(host, named, j, start, lists, order, stored);
        j := j + 1;
      }
      assert named[..j] == named;
    }

    /** Where `PlaceAll` stands after placing the host in the first `j`
        of the groups `named`, starting from the given bookkeeping. */
    ghost predicate Progress(id: string, named: seq<string>, j: nat, start: map<string, seq<string>>,
                             lists: map<ListKey, seq<Entry>>, order: seq<string>, stored: set<string>)
      reads this, inventory
    {
      && j <= |named|
      && Placing(start, groupHosts, id, named, j)
      && inventory.lists == AppendedAll(lists, HostsList, HostEntries(id, named[..j]))
      && hostOrder == (if j == 0 then order else OrderAfter(order, id))
      && hosts.Keys <= stored + {id}
      && (id in hostOrder || |hostOrder| + 1 < Capacity)
    }

    /** One step of `PlaceAll`: places the host in the `j`-th group. */
    method PlaceNext(host: Host, named: seq<string>, j: nat, ghost start: map<string, seq<string>>,
                     ghost lists: map<ListKey, seq<Entry>>, ghost order: seq<string>, ghost stored: set<string>)
      requires Valid() && j < |named| && |host.privateIps| > 0
      requires Progress(host.hostname, named, j, start, lists, order, stored)
      modifies this, inventory
      ensures Valid()
      ensures Progress(host.hostname, named, j + 1, start, lists, order, stored)
      ensures groups == old(groups) && groupsTree == old(groupsTree)
    {
      ghost var before, current := groupHosts, inventory.lists;
      AddHost(host, named[j], false);
      HostEntriesStep(lists, current, host.hostname, named, j);
      PlacingStep(start, before, groupHosts, host.hostname, named, j);
    }

    /** `AddHost` of a host into a group, seen from the bookkeeping it
        keeps: the pair is listed, nothing listed is lost, and the
        inventory lists only grow. */
    method Place(host: Host, group: string, onlyIfLeaf: bool)
      requires Valid()
      requires |host.privateIps| > 0
      requires host.hostname in hostOrder || |hostOrder| + 1 < Capacity
      modifies this, inventory
      ensures Valid()
      ensures Lists(groupHosts, group, host.hostname)
      ensures forall g, h :: Lists(old(groupHosts), g, h) ==> Lists(groupHosts, g, h)
      ensures forall g, h :: Lists(groupHosts, g, h) ==> Lists(old(groupHosts), g, h) || (g == group && h == host.hostname)
      ensures forall k :: k != group ==> Same(old(groupHosts), groupHosts, k)
      ensures inventory.lists ==
        if onlyIfLeaf && group in groupsTree then old(inventory.lists)
        else Appended(old(inventory.lists), HostsList, HostIn(host.hostname, group))
      ensures hostOrder == OrderAfter(old(hostOrder), host.hostname)
      ensures forall h :: h in hosts ==> h in old(hosts) || h == host.hostname
      ensures groups == old(groups) && groupsTree == old(groupsTree)
      ensures Extends(old(inventory.lists), inventory.lists)
    {
      ghost var lists := inventory.lists;
      RecordedLists(groupHosts, group, host.hostname);
      AddHost(host, group, onlyIfLeaf);
      AppendedExtends(lists, HostsList, HostIn(host.hostname, group));
    }

    /** Places every host of the cloud provider's inventory that belongs
        to the cluster, in order, and stops at the first one whose tags
        name an unknown group. */
    method BuildHosts(source: seq<Host>, tags: map<string, seq<string>>) returns (exited: bool)
      requires Valid()
      requires forall i :: 0 <= i < |source| && FilterHosts(source[i], cluster) ==> |source[i].privateIps| > 0
      requires |hostOrder| + |source| < Capacity
      modifies this, inventory
      ensures Valid()
      ensures exited <==> exists i :: 0 <= i < |source| && FilterHosts(source[i], cluster) && Rejected(source[i], tags, groups)
      ensures !exited ==> forall i :: 0 <= i < |source| && FilterHosts(source[i], cluster) ==> Placed(groupHosts, source[i], tags)
      ensures Grown(old(groupHosts), groupHosts) && OnlyChosen(old(groupHosts), groupHosts, source, tags, cluster)
      ensures !exited ==> inventory.lists == AppendedAll(old(inventory.lists), HostsList, SourceEntries(source, tags, cluster))
      ensures forall h :: h in hosts ==>
        h in old(hosts) || exists i :: 0 <= i < |source| && FilterHosts(source[i], cluster) && source[i].hostname == h
      ensures groups == old(groups) && groupsTree == old(groupsTree)
      ensures Extends(old(inventory.lists), inventory.lists)
    {
      ghost var o, lists, stored := groupHosts, inventory.lists, hosts.Keys;
      exited := false;
      var i := 0;
      assert source[..0] == [];
      while i < |source|
        invariant i <= |source| && Valid()
        invariant |hostOrder| <= |old(hostOrder)| + i
        invariant Building(source, tags, i, o, lists, stored)
        invariant groups == old(groups) && groupsTree == old(groupsTree)
      {
        exited := BuildNext(source, tags, i, o, lists, stored);
        if exited {
          OnlyChosenPrefix(o, groupHosts, source, i, tags, cluster);
          AppendedAllExtends(lists, HostsList, SourceEntries(source[..i], tags, cluster));
          return;
        }
        i := i + 1;
      }
      assert source[..i] == source;
      AppendedAllExtends(lists, HostsList, SourceEntries(source, tags, cluster));
    }

    /** Where `BuildHosts` stands after the first `i` hosts of `source`,
        starting from the given bookkeeping: none of the kept ones was
        rejected, each is placed, nothing listed is lost, every new pair
        and every new host comes from a kept host, and the inventory holds
        their entries. */
    ghost predicate Building(source: seq<Host>, tags: map<string, seq<string>>, i: nat, o: map<string, seq<string>>,
                             lists: map<ListKey, seq<Entry>>, stored: set<string>)
      reads this, inventory
    {
      && i <= |source|
      && (forall j :: 0 <= j < i && FilterHosts(source[j], cluster) ==>
            !Rejected(source[j], tags, groups) && Placed(groupHosts, source[j], tags))
      && (forall h :: h in hosts ==>
            h in stored || exists j :: 0 <= j < i && FilterHosts(source[j], cluster) && source[j].hostname == h)
      && Grown(o, groupHosts) && OnlyChosen(o, groupHosts, source[..i], tags, cluster)
      && inventory.lists == AppendedAll(lists, HostsList, SourceEntries(source[..i], tags, cluster))
    }

    /** One step of `BuildHosts`: handles the `i`-th host of `source`. */
    method BuildNext(source: seq<Host>, tags: map<string, seq<string>>, i: nat, ghost o: map<string, seq<string>>,
                     ghost lists: map<ListKey, seq<Entry>>, ghost stored: set<string>) returns (exited: bool)
      requires Valid() && i < |source|
      requires FilterHosts(source[i], cluster) ==> |source[i].privateIps| > 0
      requires |hostOrder| + 1 < Capacity
      requires Building(source, tags, i, o, lists, stored)
      modifies this, inventory
      ensures Valid() && |hostOrder| <= |old(hostOrder)| + 1
      ensures exited == (FilterHosts(source[i], cluster) && Rejected(source[i], tags, groups))
      ensures exited ==> unchanged(this, inventory)
      ensures !exited ==> Building(source, tags, i + 1, o, lists, stored)
      ensures groups == old(groups) && groupsTree == old(groupsTree)
    {
      exited := false;
      if FilterHosts(source[i], cluster) {
        exited := BuildKept(source, tags, i, o, lists, stored);
      } else {
        BuildHostsStep(o, groupHosts, groupHosts, lists, inventory.lists, inventory.lists, source, i, tags, cluster);
      }
    }

    /** `BuildNext` for a host kept for the cluster. */
    method BuildKept(source: seq<Host>, tags: map<string, seq<string>>, i: nat, ghost o: map<string, seq<string>>,
                     ghost lists: map<ListKey, seq<Entry>>, ghost stored: set<string>) returns (exited: bool)
      requires Valid() && i < |source| && FilterHosts(source[i], cluster) && |source[i].privateIps| > 0
      requires |hostOrder| + 1 < Capacity
      requires Building(source, tags, i, o, lists, stored)
      modifies this, inventory
      ensures Valid() && |hostOrder| <= |old(hostOrder)| + 1
      ensures exited == Rejected(source[i], tags, groups)
      ensures exited ==> unchanged(this, inventory)
      ensures !exited ==> Building(source, tags, i + 1, o, lists, stored)
      ensures groups == old(groups) && groupsTree == old(groupsTree)
    {
      ghost var before, current := groupHosts, inventory.lists;
      exited := BuildHost(source[i], tags);
      if exited {
        return;
      }
      PlacingPlaced(before, groupHosts, source[i], tags);
      forall j | 0 <= j < i && FilterHosts(source[j], cluster)
        ensures !Rejected(source[j], tags, groups) && Placed(groupHosts, source[j], tags)
      {
        PlacedKept(before, groupHosts, source[j], tags);
      }
      BuildHostsStep(o, before, groupHosts, lists, current, inventory.lists, source, i, tags, cluster);
    }

    /** Adds the stored hosts `names`, in order, to `group`: the loop both
        inheritance passes run over a group's hosts. */
    method AddHosts(names: seq<string>, group: string, onlyIfLeaf: bool)
      requires Valid()
      requires forall h :: h in names ==> h in hosts
      modifies this, inventory
      ensures Valid()
      ensures forall h :: h in names ==> Lists(groupHosts, group, h)
      ensures forall k :: k != group ==> Same(old(groupHosts), groupHosts, k)
      ensures forall g, h :: Lists(old(groupHosts), g, h) ==> Lists(groupHosts, g, h)
      ensures hostOrder == old(hostOrder)
      ensures groups == old(groups) && groupsTree == old(groupsTree)
      ensures Extends(old(inventory.lists), inventory.lists)
      ensures inventory.lists ==
        if onlyIfLeaf && group in groupsTree then old(inventory.lists)
        else AppendedAll(old(inventory.lists), HostsList, GroupEntries(names, group))
    {
      ghost var start, lists := groupHosts, inventory.lists;
      var j := 0;
      while j < |names|
        invariant j <= |names| && Valid()
        invariant Filling(names, group, onlyIfLeaf, j, start, lists, old(hostOrder))
        invariant groups == old(groups) && groupsTree == old(groupsTree)
      {
        AddNext(names, group, onlyIfLeaf, j, start, lists, old(hostOrder));
        j := j + 1;
      }
      assert names[..j] == names;
      AppendedAllExtends(lists, HostsList, GroupEntries(names, group));
    }

    /** Where `AddHosts` stands after the first `j` of the hosts `names`,
        starting from the given bookkeeping. */
    ghost predicate Filling(names: seq<string>, group: string, onlyIfLeaf: bool, j: nat,
                            start: map<string, seq<string>>, lists: map<ListKey, seq<Entry>>, order: seq<string>)
      reads this, inventory
    {
      && j <= |names|
      && (forall k :: 0 <= k < j ==> Lists(groupHosts, group, names[k]))
      && (forall k :: k != group ==> Same(start, groupHosts, k))
      && Grown(start, groupHosts)
      && hostOrder == order && (forall h :: h in names ==> h in hosts)
      && inventory.lists ==
           if onlyIfLeaf && group in groupsTree then lists
           else AppendedAll(lists, HostsList, GroupEntries(names[..j], group))
    }

    /** One step of `AddHosts`: adds the `j`-th host to the group. */
    method AddNext(names: seq<string>, group: string, onlyIfLeaf: bool, j: nat,
                   ghost start: map<string, seq<string>>, ghost lists: map<ListKey, seq<Entry>>, ghost order: seq<string>)
      requires Valid() && j < |names|
      requires Filling(names, group, onlyIfLeaf, j, start, lists, order)
      modifies this, inventory
      ensures Valid()
      ensures Filling(names, group, onlyIfLeaf, j + 1, start, lists, order)
      ensures groups == old(groups) && groupsTree == old(groupsTree)
    {
      ghost var before, current := groupHosts, inventory.lists;
      Place(hosts[names[j]], group, onlyIfLeaf);
      if !(onlyIfLeaf && group in groupsTree) {
        GroupEntriesStep(lists, current, names, group, j);
      }
      forall k | k != group
        ensures Same(start, groupHosts, k)
      {
        assert Same(start, before, k) && Same(before, groupHosts, k);
      }
    }

    /** The downward pass from `g`: every child that holds no hosts yet
        receives the hosts of its parent (as a leaf-only inventory entry),
        in the order the tree lists the children, and the pass then goes
        down into the child. */
    method InheritDown(g: string)
      requires Valid()
      modifies this, inventory
      decreases |Above(groupsTree, g)|, 1
      ensures Valid()
      ensures hostOrder == old(hostOrder) && groups == old(groups) && groupsTree == old(groupsTree)
      ensures forall k :: k in old(groupHosts) ==> Same(old(groupHosts), groupHosts, k)
      ensures forall k :: k !in Reach(groupsTree, g) || k == g ==> Same(old(groupHosts), groupHosts, k)
      ensures Tree(groupsTree) ==> DownBelow(groupsTree, g, old(groupHosts), groupHosts)
      ensures Extends(old(inventory.lists), inventory.lists)
      ensures Grown(old(groupHosts), groupHosts)
      ensures HostsAppended(old(inventory.lists), inventory.lists, groupHosts, groupsTree, true)
    {
      if g in groupsTree {
        var parentHosts := ListOr(groupHosts, g);
        var kids := groupsTree[g];
        ghost var tree, start := groupsTree, groupHosts;
        var i := 0;
        while i < |kids|
          invariant i <= |kids| && Valid()
          invariant hostOrder == old(hostOrder) && groups == old(groups) && groupsTree == tree
          invariant DownLoop(tree, g, i, start, groupHosts)
          invariant HostsAppended(old(inventory.lists), inventory.lists, groupHosts, tree, true)
        {
          ReachFromLonger(tree, g, i);
          assert Same(start, groupHosts, g);
          DownChild(g, i, parentHosts, start, old(inventory.lists));
          i := i + 1;
        }
        DownEnd(tree, g, start, groupHosts);
      }
    }

    /** Child `i` of `g` in the downward pass: it receives `parentHosts`
        (the hosts of `g`) when it held none, then the pass goes down
        into it. `from` is the inventory when the pass over `g` began. */
    method DownChild(g: string, i: nat, parentHosts: seq<string>, ghost start: map<string, seq<string>>,
                     ghost from: map<ListKey, seq<Entry>>)
      requires Valid() && g in groupsTree && i < |groupsTree[g]|
      requires parentHosts == ListOr(groupHosts, g)
      requires DownLoop(groupsTree, g, i, start, groupHosts)
      requires HostsAppended(from, inventory.lists, groupHosts, groupsTree, true)
      modifies this, inventory
      decreases |Above(groupsTree, g)|, 0
      ensures Valid()
      ensures hostOrder == old(hostOrder) && groups == old(groups) && groupsTree == old(groupsTree)
      ensures DownLoop(groupsTree, g, i + 1, start, groupHosts)
      ensures Extends(old(inventory.lists), inventory.lists)
      ensures HostsAppended(from, inventory.lists, groupHosts, groupsTree, true)
    {
      var c := groupsTree[g][i];
      ghost var tree, prev, lists := groupsTree, groupHosts, inventory.lists;
      if c !in groupHosts {
        AddHosts(parentHosts, c, true);
        if c !in tree {
          GroupEntriesAppended(lists, parentHosts, c, groupHosts, tree, true);
        }
      }
      ghost var mid, lists' := groupHosts, inventory.lists;
      AboveShrinks(tree, g, c);
      InheritDown(c);
      ExtendsTrans(old(inventory.lists), lists, lists');
      ExtendsTrans(old(inventory.lists), lists', inventory.lists);
      HostsAppendedTrans(lists, lists', inventory.lists, mid, groupHosts, tree, true);
      HostsAppendedTrans(from, lists, inventory.lists, prev, groupHosts, tree, true);
      DownAdvance(tree, g, i, start, prev, mid, groupHosts);
    }

    /** The upward pass (the reverse direction of `inherit_hosts`): every
        child of `g` is handled in turn, then `g` receives its hosts. */
    method InheritUp(g: string)
      requires Valid()
      modifies this, inventory
      decreases |Above(groupsTree, g)|, 1
      ensures Valid()
      ensures hostOrder == old(hostOrder) && groups == old(groups) && groupsTree == old(groupsTree)
      ensures Grown(old(groupHosts), groupHosts)
      ensures forall k :: k !in Reach(groupsTree, g) ==> Same(old(groupHosts), groupHosts, k)
      ensures Tree(groupsTree) ==> UpBelow(groupsTree, g, groupHosts)
      ensures Extends(old(inventory.lists), inventory.lists)
      ensures HostsAppended(old(inventory.lists), inventory.lists, groupHosts, groupsTree, false)
    {
      if g in groupsTree {
        var kids := groupsTree[g];
        ghost var tree, start := groupsTree, groupHosts;
        var i := 0;
        while i < |kids|
          invariant i <= |kids| && Valid()
          invariant hostOrder == old(hostOrder) && groups == old(groups) && groupsTree == tree
          invariant UpLoop(tree, g, i, start, groupHosts)
          invariant Extends(old(inventory.lists), inventory.lists)
          invariant HostsAppended(old(inventory.lists), inventory.lists, groupHosts, tree, false)
        {
          ghost var gh, lists := groupHosts, inventory.lists;
          UpChild(g, i, start);
          HostsAppendedTrans(old(inventory.lists), lists, inventory.lists, gh, groupHosts, tree, false);
          i := i + 1;
        }
        UpEnd(tree, g, start, groupHosts);
      }
    }

    /** Child `i` of `g` in the upward pass: the pass goes up from it, then
        `g` receives every host it holds. */
    method UpChild(g: string, i: nat, ghost start: map<string, seq<string>>)
      requires Valid() && g in groupsTree && i < |groupsTree[g]|
      requires UpLoop(groupsTree, g, i, start, groupHosts)
      modifies this, inventory
      decreases |Above(groupsTree, g)|, 0
      ensures Valid()
      ensures hostOrder == old(hostOrder) && groups == old(groups) && groupsTree == old(groupsTree)
      ensures UpLoop(groupsTree, g, i + 1, start, groupHosts)
      ensures Extends(old(inventory.lists), inventory.lists)
      ensures Grown(old(groupHosts), groupHosts)
      ensures HostsAppended(old(inventory.lists), inventory.lists, groupHosts, groupsTree, false)
    {
      var c := groupsTree[g][i];
      ghost var tree, prev, lists := groupsTree, groupHosts, inventory.lists;
      AboveShrinks(tree, g, c);
      InheritUp(c);
      ghost var mid, lists' := groupHosts, inventory.lists;
      if c in groupHosts {
        var childHosts := groupHosts[c];
        AddHosts(childHosts, g, false);
        GroupEntriesAppended(lists', childHosts, g, groupHosts, tree, false);
      }
      ExtendsTrans(old(inventory.lists), lists, lists');
      ExtendsTrans(old(inventory.lists), lists', inventory.lists);
      HostsAppendedTrans(lists, lists', inventory.lists, mid, groupHosts, tree, false);
      UpAdvance(tree, g, i, start, prev, mid, groupHosts);
    }

    /** Hosts flow down the group tree from the root into every group that
        held none, then up from every group into its parent. `passed` is
        the bookkeeping between the two passes: on a tree, every group
        below the root that held no hosts then holds all of its parent's
        (so hosts flow down any number of levels), and the upward pass
        loses none of them. `listed` is the inventory between the passes:
        the downward pass enters hosts in childless groups only, and both
        enter a host only in a group that then lists it. */
    method DistributeHosts() returns (ghost passed: map<string, seq<string>>, ghost listed: map<ListKey, seq<Entry>>)
      requires Valid()
      modifies this, inventory
      ensures Valid()
      ensures hostOrder == old(hostOrder) && groups == old(groups) && groupsTree == old(groupsTree)
      ensures forall k :: k in old(groupHosts) ==> Same(old(groupHosts), passed, k)
      ensures Tree(groupsTree) ==> DownBelow(groupsTree, RootGroup, old(groupHosts), passed)
      ensures Grown(passed, groupHosts) && Grown(old(groupHosts), groupHosts)
      ensures Tree(groupsTree) ==> Inherited(groupsTree, RootGroup, old(groupHosts), groupHosts)
      ensures Tree(groupsTree) ==> UpBelow(groupsTree, RootGroup, groupHosts)
      ensures Extends(old(inventory.lists), inventory.lists)
      ensures HostsAppended(old(inventory.lists), listed, passed, groupsTree, true)
      ensures HostsAppended(listed, inventory.lists, groupHosts, groupsTree, false)
      ensures HostsAppended(old(inventory.lists), inventory.lists, groupHosts, groupsTree, false)
    {
      InheritDown(RootGroup);
      listed := inventory.lists;
      passed := groupHosts;
      InheritUp(RootGroup);
      ExtendsTrans(old(inventory.lists), listed, inventory.lists);
      HostsAppendedTrans(old(inventory.lists), listed, inventory.lists, passed, groupHosts, groupsTree, false);
      if Tree(groupsTree) {
        DownThenGrown(groupsTree, RootGroup, old(groupHosts), passed, groupHosts);
      }
      forall k, h | Lists(old(groupHosts), k, h)
        ensures Lists(groupHosts, k, h)
      {
        assert Same(old(groupHosts), passed, k);
      }
    }

    /** Records the variables of `target`, one `set_variable` call each,
        in order. */
    method Emit(target: string, vars: seq<(string, Value)>)
      modifies inventory
      ensures inventory.lists == AppendedAll(old(inventory.lists), Variables, VariableEntries(target, vars))
    {
      ghost var es := VariableEntries(target, vars);
      var i := 0;
      while i < |vars|
        invariant i <= |vars|
        invariant inventory.lists == AppendedAll(old(inventory.lists), Variables, es[..i])
      {
        AppendedAllStep(old(inventory.lists), Variables, es[..i], es[i]);
        assert es[..i + 1] == es[..i] + [es[i]];
        inventory.SetVariable(target, vars[i].0, vars[i].1);
        i := i + 1;
      }
      assert es[..i] == es;
    }

    /** Records the variables of the root group: the private virtual
        address, the etcd endpoints, hosts and port, the private address of
        every host, the main groups, the node and storage-disk counts and
        the public addresses of the web and mail ingress. */
    method SetGroupsVariables() returns (raised: Option<Raise>)
      requires Valid()
      modifies inventory
      ensures Stored(groupHosts, hosts)
      ensures raised == GroupsVariables(groupHosts, groupsTree, hosts).1
      ensures inventory.lists ==
        AppendedAll(old(inventory.lists), Variables, VariableEntries(RootGroup, GroupsVariables(groupHosts, groupsTree, hosts).0))
    {
      IndexedAddressable(hostOrder, hosts, groupHosts);
      if ControlGroup !in groupHosts || RootGroup !in groupHosts {
        return Some(KeyError);
      }
      var control, members := groupHosts[ControlGroup], groupHosts[RootGroup];
      var etcdEndpoints, etcdHosts := EtcdAddresses(control, hosts);
      var machineHosts := PrivateAddresses(members, hosts);
      var vars := [("machine_private_vip", Str(PrivateVip)),
                   ("machine_etcd_endpoints", List(Strs(etcdEndpoints))),
                   ("machine_etcd_hosts", List(Strs(etcdHosts))),
                   ("machine_etcd_port", Str(EtcdPort)),
                   ("machine_hosts", List(Strs(machineHosts)))];
      if RootGroup !in groupsTree {
        Emit(RootGroup, vars);
        return Some(KeyError);
      }
      var disks := CountStorageDisks(members, hosts);
      vars := vars + [("machine_resources_main_groups", List(Strs(groupsTree[RootGroup]))),
                      ("machine_nodes_count", Int(|members|)),
                      ("storage_cluster_disk_count", Int(disks))];
      var web := IngressIp(groupHosts, hosts, WebIngressGroup);
      if web.Threw? {
        Emit(RootGroup, vars);
        return Some(web.error);
      }
      vars := vars + [("machine_web_ingress_public_ip", Str(web.value))];
      var mail := IngressIp(groupHosts, hosts, MailIngressGroup);
      if mail.Threw? {
        Emit(RootGroup, vars);
        return Some(mail.error);
      }
      vars := vars + [("machine_mail_ingress_public_ip", Str(mail.value))];
      Emit(RootGroup, vars);
      return None;
    }

    /** Records the variables of every host in insertion order, stopping at
        the first host whose variables raise. The configuration's
        confirmation settings are given. */
    method SetHostsVariables(configuration: map<string, Value>) returns (raised: Option<Raise>)
      requires Valid()
      modifies inventory
      ensures forall h :: h in hostOrder ==> h in hosts && Addressable(hosts[h])
      ensures raised == AllHostVariables(hostOrder, hosts, hostPaths, configuration).1
      ensures inventory.lists ==
        AppendedAll(old(inventory.lists), Variables, AllHostVariables(hostOrder, hosts, hostPaths, configuration).0)
    {
      IndexedAddressable(hostOrder, hosts, groupHosts);
      var i := 0;
      while i < |hostOrder|
        invariant i <= |hostOrder|
        invariant AllHostVariables(hostOrder[..i], hosts, hostPaths, configuration).1.None?
        invariant inventory.lists ==
          AppendedAll(old(inventory.lists), Variables, AllHostVariables(hostOrder[..i], hosts, hostPaths, configuration).0)
      {
        var id := hostOrder[i];
        var paths := if id in hostPaths then Some(hostPaths[id]) else None;
        var one := HostVariables(hosts[id], paths, configuration);
        ghost var before := AllHostVariables(hostOrder[..i], hosts, hostPaths, configuration).0;
        AllHostVariablesNext(hostOrder, i, hosts, hostPaths, configuration);
        Emit(id, one.0);
        AppendedAllTwice(old(inventory.lists), Variables, before, VariableEntries(id, one.0));
        if one.1.Some? {
          AllHostVariablesStop(hostOrder, i + 1, hosts, hostPaths, configuration);
          return one.1;
        }
        i := i + 1;
      }
      assert hostOrder[..i] == hostOrder;
      return None;
    }
  }
}
