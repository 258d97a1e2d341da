/** Ownership read from sysfs: names of LVM mappings, the links between stacked
    devices, and the devices at the bottom of an LVM stack. */
module SysfsOwnership {
  import opened Text
  import opened Inventory
  import opened Canonical
  import opened Backing
  import opened BackingTheory
  import opened Ownership
  import opened OwnershipTheorems
  import opened GraphTheorems

  // Mapping names

  predicate ComponentCharacter(c: char) {
    'a' <= c <= 'z' || 'A' <= c <= 'Z' || '0' <= c <= '9' || c == '-' || c == '_' || c == '.' || c == '!'
  }

  predicate Component(s: string) {
    s != "" && s != "." && s != ".." && forall i :: 0 <= i < |s| ==> ComponentCharacter(s[i])
  }

  predicate Blank(c: char) {
    c == ' ' || c == '\r' || c == '\n' || c == '\t'
  }

  function Trim(s: string): string {
    if s != "" && Blank(s[0]) then Trim(s[1..])
    else if s != "" && Blank(s[|s| - 1]) then Trim(s[..|s| - 1])
    else s
  }

  /** The parts of a mapping name when `part` has been read already: a doubled hyphen
      is one hyphen, a single one ends the part. */
  function Split(s: string, part: string): (parts: seq<string>)
    ensures parts != [] && |parts[0]| >= |part|
  {
    if s == "" then [part]
    else if s[0] != '-' then Split(s[1..], part + [s[0]])
    else if |s| > 1 && s[1] == '-' then Split(s[2..], part + "-")
    else [part] + Split(s[1..], "")
  }

  predicate ValidNames(names: seq<string>) {
    2 <= |names| <= 3 && forall i :: 0 <= i < |names| ==> Component(names[i])
  }

  function DmNames(text: string): Option<seq<string>> {
    var names := Split(Trim(text), "");
    if ValidNames(names) then Some(names) else None
  }

  method ReadDmNames(text: string) returns (names: Option<seq<string>>)
    ensures names == DmNames(text)
  {
    var name := Trim(text);
    var done: seq<string> := [];
    var part := "";
    var i := 0;
    while i < |name|
      invariant i <= |name|
      invariant done + Split(name[i..], part) == Split(name, "")
    {
      var rest := name[i..];
      assert rest[1..] == name[i + 1..];
      if name[i] != '-' {
        part := part + [name[i]];
      } else if i + 1 < |name| && name[i + 1] == '-' {
        assert rest[2..] == name[i + 2..];
        part := part + "-";
        i := i + 1;
      } else {
        assert done + ([part] + Split(name[i + 1..], "")) == done + [part] + Split(name[i + 1..], "");
        done := done + [part];
        part := "";
      }
      i := i + 1;
    }
    assert name[i..] == "";
    done := done + [part];
    if !ValidNames(done) {
      return None;
    }
    names := Some(done);
  }

  /** The encoding: hyphens doubled, parts joined by single hyphens. */
  function EscapedCharacter(c: char): string {
    if c == '-' then "--" else [c]
  }

  function Escaped(s: string): string {
    if s == "" then "" else EscapedCharacter(s[0]) + Escaped(s[1..])
  }

  function Joined(names: seq<string>): string {
    if names == [] then "" else if |names| == 1 then Escaped(names[0]) else Escaped(names[0]) + ("-" + Joined(names[1..]))
  }

  lemma {:induction false} SplitEscaped(s: string, rest: string, part: string)
    ensures Split(Escaped(s) + rest, part) == Split(rest, part + s)
  {
    hide Split, Escaped, EscapedCharacter;
    EscapedHead(s, rest);
    if s == "" {
      assert part + s == part;
    } else {
      SplitHead(s[0], Escaped(s[1..]) + rest, part);
      SplitEscaped(s[1..], rest, part + [s[0]]);
      assert part + [s[0]] + s[1..] == part + s;
    }
  }

  lemma EscapedHead(s: string, rest: string)
    ensures Escaped(s) + rest == if s == "" then rest else EscapedCharacter(s[0]) + (Escaped(s[1..]) + rest)
  {
    hide EscapedCharacter;
  }

  lemma SplitHead(c: char, tail: string, part: string)
    ensures Split(EscapedCharacter(c) + tail, part) == Split(tail, part + [c])
  {
    assert (EscapedCharacter(c) + tail)[|EscapedCharacter(c)|..] == tail;
  }

  predicate NoneStartsWithHyphen(names: seq<string>) {
    forall i :: 0 <= i < |names| && names[i] != "" ==> names[i][0] != '-'
  }

  /** Decoding finds the parts again exactly when no later part starts with a hyphen. */
  lemma {:induction false} SplitJoined(names: seq<string>)
    requires names != [] && forall i :: 0 <= i < |names| ==> names[i] != ""
    ensures Split(Joined(names), "") == names <==> NoneStartsWithHyphen(names[1..])
  {
    var first := names[0];
    if |names| == 1 {
      assert Escaped(first) + "" == Escaped(first);
      SplitEscaped(first, "", "");
      assert "" + first == first;
    } else {
      var rest := Joined(names[1..]);
      SplitEscaped(first, "-" + rest, "");
      assert "" + first == first;
      SplitJoined(names[1..]);
      assert ("-" + rest)[1..] == rest;
      JoinedHead(names[1..]);
      assert NoneStartsWithHyphen(names[1..]) <==> names[1][0] != '-' && NoneStartsWithHyphen(names[2..]) by {
        assert names[1..][1..] == names[2..] && names[1..] == [names[1]] + names[2..];
      }
      assert names == [first] + names[1..] && names[1..][1..] == names[2..];
      if names[1][0] == '-' {
        assert |Split(("-" + rest)[2..], first + "-")[0]| > |first|;
      }
    }
  }

  lemma JoinedHead(names: seq<string>)
    requires names != [] && names[0] != ""
    ensures Joined(names) != "" && (Joined(names)[0] == '-' <==> names[0][0] == '-')
  {
  }

  lemma {:induction false} EscapedPrintable(s: string)
    requires forall i :: 0 <= i < |s| ==> ComponentCharacter(s[i])
    ensures forall i :: 0 <= i < |Escaped(s)| ==> !Blank(Escaped(s)[i])
  {
    if s != "" {
      EscapedPrintable(s[1..]);
      assert !Blank(s[0]);
    }
  }

  lemma {:induction false} JoinedPrintable(names: seq<string>)
    requires forall i :: 0 <= i < |names| ==> Component(names[i])
    ensures forall i :: 0 <= i < |Joined(names)| ==> !Blank(Joined(names)[i])
  {
    if names != [] {
      EscapedPrintable(names[0]);
      JoinedPrintable(names[1..]);
    }
  }

  /** Reading a mapping name inverts its encoding, for two or three valid parts,
      exactly when no part after the first starts with a hyphen. */
  lemma DmNamesInverts(names: seq<string>)
    requires ValidNames(names)
    ensures DmNames(Joined(names)) == Some(names) <==> NoneStartsWithHyphen(names[1..])
  {
    hide Component;
    JoinedPrintable(names);
    assert Trim(Joined(names)) == Joined(names);
    ComponentsNonEmpty(names);
    SplitJoined(names);
  }

  lemma ComponentsNonEmpty(names: seq<string>)
    requires forall i :: 0 <= i < |names| ==> Component(names[i])
    ensures forall i :: 0 <= i < |names| ==> names[i] != ""
  {
  }

  // Links between stacked devices

  datatype SysNode = SysNode(slaves: seq<string>, holders: seq<string>, uuid: string)

  type Sys = map<string, SysNode>

  predicate HoldsBack(sys: Sys, slave: string, name: string) {
    slave in sys && multiset(sys[slave].holders)[name] == 1
  }

  predicate LinksBack(sys: Sys, holder: string, name: string) {
    holder in sys && multiset(sys[holder].slaves)[name] == 1
  }

  function SlaveEdge(name: string, slave: string): Edge {
    Edge(BlockKey(name), BlockKey(slave), "slave", "sysfs")
  }

  function HolderEdge(name: string, holder: string): Edge {
    Edge(BlockKey(holder), BlockKey(name), "holder", "sysfs")
  }

  function HeldClaim(name: string): Claim {
    Claim(BlockKey(name), Held, "sysfs", "Kernel holder")
  }

  /** An issue about an unnamed end names no node. */
  function AsymmetryIssue(node: string, other: string): Reason {
    Reason(AsymmetricRelationship, if node == "" then "" else BlockKey(node), "sysfs", "no reciprocal link: " + other)
  }

  predicate IsSlave(sys: Sys, names: set<string>, name: string, slave: string) {
    name in names && name in sys && slave in sys[name].slaves
  }

  predicate IsHolder(sys: Sys, names: set<string>, name: string, holder: string) {
    name in names && name in sys && holder in sys[name].holders
  }

  ghost predicate IsLink(sys: Sys, names: set<string>, e: Edge) {
    || (exists name, slave :: IsSlave(sys, names, name, slave) && e == SlaveEdge(name, slave))
    || (exists name, holder :: IsHolder(sys, names, name, holder) && e == HolderEdge(name, holder))
  }

  ghost predicate IsHeld(sys: Sys, names: set<string>, c: Claim) {
    exists name, slave :: IsSlave(sys, names, name, slave) && c == HeldClaim(name)
  }

  /** One of the two issues raised for a link that is not returned. */
  predicate Names(r: Reason, a: string, b: string) {
    r == AsymmetryIssue(a, b) || r == AsymmetryIssue(b, a)
  }

  ghost predicate IsAsymmetry(sys: Sys, names: set<string>, r: Reason) {
    || (exists name, slave :: IsSlave(sys, names, name, slave) && !HoldsBack(sys, slave, name) && Names(r, name, slave))
    || (exists name, holder :: IsHolder(sys, names, name, holder) && !LinksBack(sys, holder, name) && Names(r, name, holder))
  }

  /** The link from `name` down to `slave`, or up to the holder `slave`, is reported
      by one end only. */
  predicate OneSided(sys: Sys, name: string, other: string) {
    || (name in sys && other in sys[name].slaves
        && !(other in sys && exists i :: 0 <= i < |sys[other].holders| && OnlyAt(sys[other].holders, i, name)))
    || (name in sys && other in sys[name].holders
        && !(other in sys && exists i :: 0 <= i < |sys[other].slaves| && OnlyAt(sys[other].slaves, i, name)))
  }

  lemma OneSidedIs(sys: Sys, name: string, other: string)
    ensures OneSided(sys, name, other) <==>
      || (IsSlave(sys, sys.Keys, name, other) && !HoldsBack(sys, other, name))
      || (IsHolder(sys, sys.Keys, name, other) && !LinksBack(sys, other, name))
  {
    hide OnlyAt;
    if other in sys {
      OnceIs(sys[other].holders, name);
      OnceIs(sys[other].slaves, name);
    }
  }

  /** Lists the links of one node, an issue for both ends of each one-sided link. */
  method ReadLinks(sys: Sys, name: string) returns (edges: seq<Edge>, claims: seq<Claim>, issues: seq<Reason>, complete: bool)
    requires name in sys
    ensures complete <==> issues == []
    ensures forall e :: e in edges <==> IsLink(sys, {name}, e)
    ensures forall c :: c in claims <==> IsHeld(sys, {name}, c)
    ensures forall r :: r in issues <==> IsAsymmetry(sys, {name}, r)
  {
    var node := sys[name];
    edges, claims, issues, complete := [], [], [], true;
    hide SlaveEdge, HolderEdge, HeldClaim, AsymmetryIssue, HoldsBack, LinksBack;
    for i := 0 to |node.slaves|
      invariant complete <==> issues == []
      invariant forall e :: e in edges <==> exists s :: s in node.slaves[..i] && e == SlaveEdge(name, s)
      invariant forall c :: c in claims <==> i > 0 && c == HeldClaim(name)
      invariant forall r :: r in issues <==> exists s :: s in node.slaves[..i] && !HoldsBack(sys, s, name) && Names(r, name, s)
    {
      var slave := node.slaves[i];
      assert node.slaves[..i + 1] == node.slaves[..i] + [slave];
      edges := edges + [SlaveEdge(name, slave)];
      claims := claims + [HeldClaim(name)];
      if !HoldsBack(sys, slave, name) {
        issues, complete := issues + [AsymmetryIssue(name, slave), AsymmetryIssue(slave, name)], false;
      }
    }
    assert node.slaves[..|node.slaves|] == node.slaves;
    ghost var slaveEdges, slaveIssues := edges, issues;
    for i := 0 to |node.holders|
      invariant complete <==> issues == []
      invariant forall e :: e in edges <==> e in slaveEdges || exists h :: h in node.holders[..i] && e == HolderEdge(name, h)
      invariant forall r :: r in issues <==>
        r in slaveIssues || exists h :: h in node.holders[..i] && !LinksBack(sys, h, name) && Names(r, name, h)
    {
      var holder := node.holders[i];
      assert node.holders[..i + 1] == node.holders[..i] + [holder];
      edges := edges + [HolderEdge(name, holder)];
      if !LinksBack(sys, holder, name) {
        issues, complete := issues + [AsymmetryIssue(name, holder), AsymmetryIssue(holder, name)], false;
      }
    }
    assert node.holders[..|node.holders|] == node.holders;
    LinksOfOne(sys, name, edges, claims, issues);
  }

  lemma LinksOfOne(sys: Sys, name: string, edges: seq<Edge>, claims: seq<Claim>, issues: seq<Reason>)
    requires name in sys
    requires forall e :: e in edges <==>
      (exists s :: s in sys[name].slaves && e == SlaveEdge(name, s)) || exists h :: h in sys[name].holders && e == HolderEdge(name, h)
    requires forall c :: c in claims <==> |sys[name].slaves| > 0 && c == HeldClaim(name)
    requires forall r :: r in issues <==>
      (exists s :: s in sys[name].slaves && !HoldsBack(sys, s, name) && Names(r, name, s))
      || exists h :: h in sys[name].holders && !LinksBack(sys, h, name) && Names(r, name, h)
    ensures forall e :: e in edges <==> IsLink(sys, {name}, e)
    ensures forall c :: c in claims <==> IsHeld(sys, {name}, c)
    ensures forall r :: r in issues <==> IsAsymmetry(sys, {name}, r)
  {
    hide SlaveEdge, HolderEdge, HeldClaim, Names, HoldsBack, LinksBack;
    forall s ensures s in sys[name].slaves <==> IsSlave(sys, {name}, name, s) {
    }
    forall h ensures h in sys[name].holders <==> IsHolder(sys, {name}, name, h) {
    }
    if |sys[name].slaves| > 0 {
      assert IsSlave(sys, {name}, name, sys[name].slaves[0]);
    }
  }

  /** Every edge observed from either end, and an issue naming both ends of every
      link that only one end reports; coverage is complete without such a link. */
  method ReadAllLinks(sys: Sys) returns (edges: seq<Edge>, claims: seq<Claim>, issues: seq<Reason>, complete: bool)
    ensures forall e :: e in edges <==> IsLink(sys, sys.Keys, e)
    ensures forall c :: c in claims <==> IsHeld(sys, sys.Keys, c)
    ensures forall r :: r in issues <==> IsAsymmetry(sys, sys.Keys, r)
    ensures complete <==> forall name, other :: !OneSided(sys, name, other)
  {
    hide IsLink, IsHeld, IsAsymmetry, OneSided;
    edges, claims, issues, complete := [], [], [], true;
    var rest := sys.Keys;
    ghost var done := {};
    NoLinks(sys);
    while rest != {}
      invariant rest <= sys.Keys && done == sys.Keys - rest
      invariant forall e :: e in edges <==> IsLink(sys, done, e)
      invariant forall c :: c in claims <==> IsHeld(sys, done, c)
      invariant forall r :: r in issues <==> IsAsymmetry(sys, done, r)
      invariant complete <==> issues == []
    {
      var name :| name in rest;
      var moreEdges, moreClaims, moreIssues, whole := ReadLinks(sys, name);
      LinksGrow(sys, done, name);
      edges, claims, issues, complete := edges + moreEdges, claims + moreClaims, issues + moreIssues, complete && whole;
      rest := rest - {name};
      done := done + {name};
    }
    assert done == sys.Keys;
    NothingOneSided(sys, issues);
  }

  lemma NothingOneSided(sys: Sys, issues: seq<Reason>)
    requires forall r :: r in issues <==> IsAsymmetry(sys, sys.Keys, r)
    ensures issues == [] <==> forall name, other :: !OneSided(sys, name, other)
  {
    hide AsymmetryIssue, IsSlave, IsHolder, HoldsBack, LinksBack, OneSided;
    forall name, other
      ensures OneSided(sys, name, other) <==>
        || (IsSlave(sys, sys.Keys, name, other) && !HoldsBack(sys, other, name))
        || (IsHolder(sys, sys.Keys, name, other) && !LinksBack(sys, other, name))
    {
      OneSidedIs(sys, name, other);
    }
    if issues != [] {
      var r := issues[0];
      assert IsAsymmetry(sys, sys.Keys, r);
      if name, slave :| IsSlave(sys, sys.Keys, name, slave) && !HoldsBack(sys, slave, name) && Names(r, name, slave) {
        assert OneSided(sys, name, slave);
      } else {
        var name, holder :| IsHolder(sys, sys.Keys, name, holder) && !LinksBack(sys, holder, name) && Names(r, name, holder);
        assert OneSided(sys, name, holder);
      }
    }
    forall name, other | OneSided(sys, name, other) ensures issues != [] {
      assert Names(AsymmetryIssue(name, other), name, other);
      assert AsymmetryIssue(name, other) in issues;
    }
  }

  lemma NoLinks(sys: Sys)
    ensures forall e :: !IsLink(sys, {}, e)
    ensures forall c :: !IsHeld(sys, {}, c)
    ensures forall r :: !IsAsymmetry(sys, {}, r)
  {
  }

  lemma LinksGrow(sys: Sys, done: set<string>, name: string)
    ensures forall e :: IsLink(sys, done + {name}, e) <==> IsLink(sys, done, e) || IsLink(sys, {name}, e)
    ensures forall c :: IsHeld(sys, done + {name}, c) <==> IsHeld(sys, done, c) || IsHeld(sys, {name}, c)
    ensures forall r :: IsAsymmetry(sys, done + {name}, r) <==> IsAsymmetry(sys, done, r) || IsAsymmetry(sys, {name}, r)
  {
    hide SlaveEdge, HolderEdge, HeldClaim, Names, HoldsBack, LinksBack;
    forall n, s ensures IsSlave(sys, done + {name}, n, s) <==> IsSlave(sys, done, n, s) || IsSlave(sys, {name}, n, s) {
    }
    forall n, h ensures IsHolder(sys, done + {name}, n, h) <==> IsHolder(sys, done, n, h) || IsHolder(sys, {name}, n, h) {
    }
    hide IsSlave, IsHolder;
  }

  /** A one-sided link keeps every disk under either of its named ends from being READY. */
  lemma OneSidedLinkBlocksReady(sys: Sys, inv: Snapshot, ev: Evidence, name: string, other: string, end: string, d: Key)
    requires OneSided(sys, name, other) && (end == name || end == other) && end != ""
    requires forall r :: IsAsymmetry(sys, sys.Keys, r) ==> r in Elements(ev.issues)
    requires Candidate(inv, AllPhysical, d)
    requires BlockKey(end) in OwnershipGraph(inv, ev).nodes && BlockKey(end) !in ev.inactiveLoops
    requires Reaches(OwnershipGraph(inv, ev), BlockKey(end), d)
    ensures Status(inv, ev, d) != Ready
  {
    hide Status, OwnershipGraph, Reaches;
    OneSidedIs(sys, name, other);
    var issue := AsymmetryIssue(end, if end == name then other else name);
    assert issue.node == BlockKey(end) && Names(issue, name, other);
    assert IsAsymmetry(sys, sys.Keys, issue);
    hide IsAsymmetry, OneSided, AsymmetryIssue;
    IssueTaints(inv, ev, issue);
    TaintedNotReady(inv, ev, BlockKey(end), d);
  }

  /** A device stacked on a disk, or on something that rests on it, keeps the disk from
      being READY: the link is followed from the upper to the lower device, and claimed. */
  lemma StackedIsNotReady(sys: Sys, inv: Snapshot, ev: Evidence, upper: string, lower: string, d: Key)
    requires upper in sys && lower in sys[upper].slaves
    requires forall e :: IsLink(sys, sys.Keys, e) ==> e in ev.edges
    requires forall c :: IsHeld(sys, sys.Keys, c) ==> c in ev.claims
    requires !IsEndpoint(Blocks(inv.nodes), "block:" + upper)
    requires Candidate(inv, AllPhysical, d) && Reaches(OwnershipGraph(inv, ev), "block:" + lower, d)
    ensures Reaches(OwnershipGraph(inv, ev), "block:" + upper, d)
    ensures Status(inv, ev, d) != Ready
  {
    hide Status, OwnershipGraph, Reaches, SoundDevice, MountsExplained, ClearAbove, InitialClaims, IsEndpoint, Blocks, PartOf;
    assert IsSlave(sys, sys.Keys, upper, lower);
    assert IsLink(sys, sys.Keys, SlaveEdge(upper, lower)) && IsHeld(sys, sys.Keys, HeldClaim(upper));
    FollowsIs(inv, ev, "block:" + upper, "block:" + lower);
    ReachesStep(OwnershipGraph(inv, ev), "block:" + upper, "block:" + lower, d);
    ClaimReported(inv, ev, HeldClaim(upper));
    if Status(inv, ev, d) == Ready {
      ReadyIsSound(inv, ev, d);
    }
  }

  lemma ClaimReported(inv: Snapshot, ev: Evidence, c: Claim)
    requires c in ev.claims
    ensures c in Claims(inv, ev)
  {
    hide FreshClaims, MountClaims, SwapClaims;
    assert c in Elements(ev.claims);
  }

  lemma TaintedNotReady(inv: Snapshot, ev: Evidence, k: Key, d: Key)
    requires Candidate(inv, AllPhysical, d) && k in OwnershipGraph(inv, ev).nodes && k !in ev.inactiveLoops
    requires Reaches(OwnershipGraph(inv, ev), k, d) && !SoundBacking(OwnershipGraph(inv, ev), k)
    ensures Status(inv, ev, d) != Ready
  {
    hide Status, OwnershipGraph, Reaches, Unused, SoundDevice, MountsExplained, SoundBacking, Bounded;
    if Status(inv, ev, d) == Ready {
      ReadyIsSound(inv, ev, d);
    }
  }

  /** A reported issue makes the backing of the node it names unsound. */
  lemma IssueTaints(inv: Snapshot, ev: Evidence, r: Reason)
    requires r in Elements(ev.issues)
    ensures !SoundBacking(OwnershipGraph(inv, ev), r.node)
  {
    ReportedIsIssue(inv, ev, r);
    hide Issues, Edges, Blocks, Records;
    GraphTainted(Blocks(inv.nodes), multiset(Records(inv, ev)), Edges(inv, ev), Issues(inv, ev), r);
  }

  lemma ReportedIsIssue(inv: Snapshot, ev: Evidence, r: Reason)
    requires r in Elements(ev.issues)
    ensures r in Issues(inv, ev)
  {
    hide Elements, Edges, Blocks, Records, PartitionIssues, Dangling, Duplicated, ProviderSet;
  }

  lemma GraphTainted(blocks: map<Key, ResolvedNode>, records: multiset<NodeRecord>, edges: set<Edge>, issues: set<Reason>, r: Reason)
    requires r in issues
    ensures !SoundBacking(GraphOf(blocks, records, edges, issues), r.node)
  {
    hide Physical, ProviderSet, DeclaredComplete, Dangling, Reaches;
    var g := GraphOf(blocks, records, edges, issues);
    assert r.node in g.nodes ==> g.nodes[r.node] == NodeComplete(records, edges, issues, r.node);
    assert !g.Complete(r.node);
    ReachesSelf(g, r.node);
  }

  // The bottom of an LVM stack

  const LEAF_LIMIT: nat := 128

  /** `x` is the volume itself or another layer of its volume group. */
  predicate Layer(sys: Sys, vg: string, name: string, x: string)
    requires x in sys
  {
    x == name || "LVM-" + vg <= sys[x].uuid
  }

  /** The devices below the stack's layers, and whether the descent was complete. */
  function Leaves(sys: Sys, vg: string, name: string, x: string, depth: nat, active: set<string>): (set<string>, bool)
    requires depth <= LEAF_LIMIT + 1
    decreases LEAF_LIMIT + 1 - depth, 0
  {
    if depth > LEAF_LIMIT || x in active || x !in sys then ({}, false)
    else if !Layer(sys, vg, name, x) then ({x}, true)
    else if sys[x].slaves == [] then ({}, false)
    else LeavesOf(sys, vg, name, sys[x].slaves, depth + 1, active + {x})
  }

  function LeavesOf(sys: Sys, vg: string, name: string, xs: seq<string>, depth: nat, active: set<string>): (set<string>, bool)
    requires depth <= LEAF_LIMIT + 1
    decreases LEAF_LIMIT + 1 - depth, 1 + |xs|
  {
    if xs == [] then ({}, true)
    else
      var front := LeavesOf(sys, vg, name, xs[..|xs| - 1], depth, active);
      var last := Leaves(sys, vg, name, xs[|xs| - 1], depth, active);
      (front.0 + last.0, front.1 && last.1)
  }

  /** The recursive descent as the program runs it, over shared sets. */
  class LeafCollector {
    const sys: Sys
    const vg: string
    const name: string
    var active: set<string>
    var leaves: set<string>
    var incomplete: bool

    constructor (sys: Sys, vg: string, name: string)
      ensures this.sys == sys && this.vg == vg && this.name == name
      ensures active == {} && leaves == {} && !incomplete
    {
      this.sys, this.vg, this.name := sys, vg, name;
      active, leaves, incomplete := {}, {}, false;
    }

    method Descend(x: string, depth: nat)
      requires depth <= LEAF_LIMIT + 1
      modifies this
      ensures active == old(active)
      ensures leaves == old(leaves) + Leaves(sys, vg, name, x, depth, old(active)).0
      ensures incomplete == (old(incomplete) || !Leaves(sys, vg, name, x, depth, old(active)).1)
      decreases LEAF_LIMIT + 1 - depth
    {
      if depth > LEAF_LIMIT || x in active || x !in sys {
        incomplete := true;
        return;
      }
      if !Layer(sys, vg, name, x) {
        leaves := leaves + {x};
        return;
      }
      var slaves := sys[x].slaves;
      if slaves == [] {
        incomplete := true;
        return;
      }
      active := active + {x};
      for i := 0 to |slaves|
        invariant active == old(active) + {x}
        invariant leaves == old(leaves) + LeavesOf(sys, vg, name, slaves[..i], depth + 1, old(active) + {x}).0
        invariant incomplete == (old(incomplete) || !LeavesOf(sys, vg, name, slaves[..i], depth + 1, old(active) + {x}).1)
      {
        assert slaves[..i + 1][..i] == slaves[..i];
        Descend(slaves[i], depth + 1);
      }
      assert slaves[..|slaves|] == slaves;
      active := active - {x};
    }
  }

  /** A descent through layers, from slave to slave. */
  predicate Chain(sys: Sys, vg: string, name: string, p: seq<string>) {
    p != [] && forall i :: 0 <= i < |p| - 1 ==> p[i] in sys && Layer(sys, vg, name, p[i]) && p[i + 1] in sys[p[i]].slaves
  }

  function Last(p: seq<string>): string
    requires p != []
  {
    p[|p| - 1]
  }

  /** The descent cannot be finished here: too deep, in a circle, or with nothing below. */
  predicate Stuck(sys: Sys, vg: string, name: string, p: seq<string>)
    requires p != []
  {
    || |p| > 129 || Last(p) in p[..|p| - 1] || Last(p) !in sys
    || (Layer(sys, vg, name, Last(p)) && sys[Last(p)].slaves == [])
  }

  /** What the descent finds from the end of `p` on. */
  function Below(sys: Sys, vg: string, name: string, p: seq<string>): (set<string>, bool)
    requires p != [] && |p| <= LEAF_LIMIT + 2
  {
    Leaves(sys, vg, name, Last(p), |p| - 1, Elements(p[..|p| - 1]))
  }

  lemma {:induction false} LeavesOfIs(sys: Sys, vg: string, name: string, xs: seq<string>, depth: nat, active: set<string>)
    requires depth <= LEAF_LIMIT + 1
    ensures var all := LeavesOf(sys, vg, name, xs, depth, active);
      && (all.1 <==> forall i :: 0 <= i < |xs| ==> Leaves(sys, vg, name, xs[i], depth, active).1)
      && (forall x :: x in all.0 <==> exists i :: 0 <= i < |xs| && x in Leaves(sys, vg, name, xs[i], depth, active).0)
  {
    hide Leaves;
    if xs != [] {
      LeavesOfIs(sys, vg, name, xs[..|xs| - 1], depth, active);
    }
  }

  /** From a layer the descent goes on through each slave. */
  lemma BelowStep(sys: Sys, vg: string, name: string, p: seq<string>)
    requires p != [] && |p| <= LEAF_LIMIT + 2
    ensures Stuck(sys, vg, name, p) ==> Below(sys, vg, name, p) == ({}, false)
    ensures !Stuck(sys, vg, name, p) && !Layer(sys, vg, name, Last(p)) ==> Below(sys, vg, name, p) == ({Last(p)}, true)
    ensures !Stuck(sys, vg, name, p) && Layer(sys, vg, name, Last(p)) ==>
      var slaves := sys[Last(p)].slaves;
      && (Below(sys, vg, name, p).1 <==> forall s :: s in slaves ==> Below(sys, vg, name, p + [s]).1)
      && (forall x :: x in Below(sys, vg, name, p).0 <==> exists s :: s in slaves && x in Below(sys, vg, name, p + [s]).0)
  {
    hide LeavesOf;
    if !Stuck(sys, vg, name, p) && Layer(sys, vg, name, Last(p)) {
      BelowLayer(sys, vg, name, p);
    }
  }

  lemma BelowLayer(sys: Sys, vg: string, name: string, p: seq<string>)
    requires p != [] && !Stuck(sys, vg, name, p) && Layer(sys, vg, name, Last(p))
    ensures var slaves := sys[Last(p)].slaves;
      && (Below(sys, vg, name, p).1 <==> forall s :: s in slaves ==> Below(sys, vg, name, p + [s]).1)
      && (forall x :: x in Below(sys, vg, name, p).0 <==> exists s :: s in slaves && x in Below(sys, vg, name, p + [s]).0)
  {
    var slaves := sys[Last(p)].slaves;
    var active := Elements(p);
    var all := LeavesOf(sys, vg, name, slaves, |p|, active);
    BelowIsLeavesOf(sys, vg, name, p);
    LeavesOfIs(sys, vg, name, slaves, |p|, active);
    forall s ensures Below(sys, vg, name, p + [s]) == Leaves(sys, vg, name, s, |p|, active) {
      BelowNext(sys, vg, name, p, s);
    }
    hide Leaves, LeavesOf, Below, Layer, Stuck;
    forall s | s in slaves ensures exists i :: 0 <= i < |slaves| && slaves[i] == s {
    }
  }

  lemma BelowIsLeavesOf(sys: Sys, vg: string, name: string, p: seq<string>)
    requires p != [] && !Stuck(sys, vg, name, p) && Layer(sys, vg, name, Last(p))
    ensures Below(sys, vg, name, p) == LeavesOf(sys, vg, name, sys[Last(p)].slaves, |p|, Elements(p))
  {
    hide LeavesOf;
    assert p == p[..|p| - 1] + [Last(p)];
    ElementsAppend(p[..|p| - 1], Last(p));
  }

  lemma BelowNext(sys: Sys, vg: string, name: string, p: seq<string>, s: string)
    requires p != [] && |p| <= LEAF_LIMIT + 1
    ensures Below(sys, vg, name, p + [s]) == Leaves(sys, vg, name, s, |p|, Elements(p))
  {
    hide Leaves;
    assert (p + [s])[..|p|] == p && Last(p + [s]) == s;
  }

  /** `q` continues `p` to a point where the descent is stuck. */
  predicate StuckBelow(sys: Sys, vg: string, name: string, p: seq<string>, q: seq<string>) {
    p != [] && p <= q && Chain(sys, vg, name, q) && Stuck(sys, vg, name, q)
  }

  /** `q` continues `p` through layers to the device `x` below them. */
  predicate LeafBelow(sys: Sys, vg: string, name: string, p: seq<string>, q: seq<string>, x: string) {
    p != [] && p <= q && Chain(sys, vg, name, q) && Last(q) == x && x in sys && !Layer(sys, vg, name, x)
  }

  lemma ChainPush(sys: Sys, vg: string, name: string, p: seq<string>, s: string)
    requires Chain(sys, vg, name, p) && Last(p) in sys && Layer(sys, vg, name, Last(p)) && s in sys[Last(p)].slaves
    ensures Chain(sys, vg, name, p + [s])
  {
    forall i | 0 <= i < |p|
      ensures (p + [s])[i] in sys && Layer(sys, vg, name, (p + [s])[i]) && (p + [s])[i + 1] in sys[(p + [s])[i]].slaves
    {
      if i == |p| - 1 {
        assert (p + [s])[i] == Last(p);
      }
    }
  }

  /** An incomplete descent got stuck somewhere. */
  lemma {:induction false} IncompleteIsStuck(sys: Sys, vg: string, name: string, p: seq<string>)
    requires p != [] && Chain(sys, vg, name, p) && |p| <= LEAF_LIMIT + 2 && !Below(sys, vg, name, p).1
    ensures exists q :: StuckBelow(sys, vg, name, p, q)
    decreases LEAF_LIMIT + 2 - |p|
  {
    hide Below, Chain;
    BelowStep(sys, vg, name, p);
    if Stuck(sys, vg, name, p) {
      assert StuckBelow(sys, vg, name, p, p);
    } else {
      var s :| s in sys[Last(p)].slaves && !Below(sys, vg, name, p + [s]).1;
      ChainPush(sys, vg, name, p, s);
      IncompleteIsStuck(sys, vg, name, p + [s]);
      var q :| StuckBelow(sys, vg, name, p + [s], q);
      assert p <= p + [s] <= q;
      assert StuckBelow(sys, vg, name, p, q);
    }
  }

  lemma ChainNext(sys: Sys, vg: string, name: string, p: seq<string>, q: seq<string>)
    requires p != [] && p < q && Chain(sys, vg, name, q)
    ensures p + [q[|p|]] <= q && Chain(sys, vg, name, p + [q[|p|]])
    ensures Last(p) in sys && Layer(sys, vg, name, Last(p)) && q[|p|] in sys[Last(p)].slaves
  {
    assert q[|p| - 1] == Last(p);
  }

  /** Wherever a chain gets stuck, the descent is incomplete from every point of it. */
  lemma {:induction false} StuckIsIncomplete(sys: Sys, vg: string, name: string, p: seq<string>, q: seq<string>)
    requires p != [] && Chain(sys, vg, name, p) && |p| <= LEAF_LIMIT + 2 && StuckBelow(sys, vg, name, p, q)
    ensures !Below(sys, vg, name, p).1
    decreases LEAF_LIMIT + 2 - |p|
  {
    hide Below, Chain;
    BelowStep(sys, vg, name, p);
    if !Stuck(sys, vg, name, p) {
      assert p < q;
      ChainNext(sys, vg, name, p, q);
      StuckIsIncomplete(sys, vg, name, p + [q[|p|]], q);
    }
  }

  lemma {:induction false} LeavesAreFound(sys: Sys, vg: string, name: string, p: seq<string>, q: seq<string>, x: string)
    requires p != [] && Chain(sys, vg, name, p) && |p| <= LEAF_LIMIT + 2 && Below(sys, vg, name, p).1 && LeafBelow(sys, vg, name, p, q, x)
    ensures x in Below(sys, vg, name, p).0
    decreases LEAF_LIMIT + 2 - |p|
  {
    hide Below, Chain;
    BelowStep(sys, vg, name, p);
    if p != q {
      ChainNext(sys, vg, name, p, q);
      LeavesAreFound(sys, vg, name, p + [q[|p|]], q, x);
    }
  }

  lemma {:induction false} FoundAreLeaves(sys: Sys, vg: string, name: string, p: seq<string>, x: string)
    requires p != [] && Chain(sys, vg, name, p) && |p| <= LEAF_LIMIT + 2 && x in Below(sys, vg, name, p).0
    ensures exists q :: LeafBelow(sys, vg, name, p, q, x)
    decreases LEAF_LIMIT + 2 - |p|
  {
    hide Below, Chain;
    BelowStep(sys, vg, name, p);
    if Layer(sys, vg, name, Last(p)) {
      var s :| s in sys[Last(p)].slaves && x in Below(sys, vg, name, p + [s]).0;
      ChainPush(sys, vg, name, p, s);
      FoundAreLeaves(sys, vg, name, p + [s], x);
      var q :| LeafBelow(sys, vg, name, p + [s], q, x);
      assert p <= p + [s] <= q;
      assert LeafBelow(sys, vg, name, p, q, x);
    } else {
      assert LeafBelow(sys, vg, name, p, p, x);
    }
  }

  /** The descent from a volume reports no issue exactly when no chain of layers from
      it goes in a circle, ends without a device or exceeds 128 steps; and then it
      finds exactly the devices that such chains end in. */
  lemma LeavesAreExact(sys: Sys, vg: string, name: string, x: string)
    ensures var found := Leaves(sys, vg, name, name, 0, {});
      && (found.1 <==> !exists q :: StuckBelow(sys, vg, name, [name], q))
      && (found.1 ==> (x in found.0 <==> exists q :: LeafBelow(sys, vg, name, [name], q, x)))
      && (found.1 && x in found.0 ==> x in sys && x != name && !("LVM-" + vg <= sys[x].uuid))
  {
    var found := Leaves(sys, vg, name, name, 0, {});
    assert [name][..0] == [];
    ElementsEmpty<string>([]);
    assert found == Below(sys, vg, name, [name]);
    assert Chain(sys, vg, name, [name]);
    hide Below, Leaves;
    if !found.1 {
      IncompleteIsStuck(sys, vg, name, [name]);
    }
    if q :| StuckBelow(sys, vg, name, [name], q) {
      StuckIsIncomplete(sys, vg, name, [name], q);
    }
    if found.1 && x in found.0 {
      FoundAreLeaves(sys, vg, name, [name], x);
    }
    if q :| found.1 && LeafBelow(sys, vg, name, [name], q, x) {
      LeavesAreFound(sys, vg, name, [name], q, x);
    }
  }
}
