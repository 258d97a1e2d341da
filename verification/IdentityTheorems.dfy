/** What a resolved identity means. */
module IdentityTheorems {
  import opened Text
  import opened Inventory
  import opened Canonical
  import opened Identifiers
  import opened Identities

  // Claim keys keep different facts apart

  predicate SameKnown<T(==)>(a: Option<T>, b: Option<T>) {
    a.Some? && a == b
  }

  /** The ids a node claims: its own and every strong alias. */
  function IdsOf(node: ResolvedNode): set<string> {
    Elements(Listing(node.identity.id)) + Elements(node.identity.strongAliases)
  }

  /** Two nodes claim one id or alias, fingerprint, kernel name, path or device number. */
  predicate Conflicts(a: ResolvedNode, b: ResolvedNode) {
    || IdsOf(a) * IdsOf(b) != {}
    || SameKnown(a.identity.fallback, b.identity.fallback)
    || a.observation.kernelName == b.observation.kernelName
    || SameKnown(a.currentPath, b.currentPath)
    || SameKnown(a.observation.deviceNumber, b.observation.deviceNumber)
  }

  lemma DeviceClaimInjective(a: DeviceNumber, b: DeviceNumber)
    requires DeviceClaim(a) == DeviceClaim(b)
    ensures a == b
  {
    var x, y := ":" + Decimal(a.minor), ":" + Decimal(b.minor);
    TailsAgree("dev:", Decimal(a.major) + x, Decimal(b.major) + y);
    DecimalPrefix(a.major, b.major, x, y);
    TailsAgree(":", Decimal(a.minor), Decimal(b.minor));
    DecimalInjective(a.minor, b.minor);
  }

  /** One entry of the claim table, by kind. */
  datatype Claim =
    | OfId(id: string)
    | OfFallback(fallback: string)
    | OfName(name: string)
    | OfPath(path: string)
    | OfDevice(number: DeviceNumber)

  function KeyOf(c: Claim): string {
    match c
    case OfId(id) => "id:" + id
    case OfFallback(fallback) => "fallback:" + fallback
    case OfName(name) => "name:" + name
    case OfPath(path) => "path:" + path
    case OfDevice(number) => DeviceClaim(number)
  }

  predicate Asserts(node: ResolvedNode, c: Claim) {
    match c
    case OfId(id) => id in IdsOf(node)
    case OfFallback(fallback) => node.identity.fallback == Some(fallback)
    case OfName(name) => node.observation.kernelName == name
    case OfPath(path) => node.currentPath == Some(path)
    case OfDevice(number) => node.observation.deviceNumber == Some(number)
  }

  lemma KeyOfInjective(a: Claim, b: Claim)
    requires KeyOf(a) == KeyOf(b)
    ensures a == b
  {
    assert KeyOf(a)[0] == KeyOf(b)[0];
    match a
    case OfId(x) => TailsAgree("id:", x, b.id);
    case OfFallback(x) => TailsAgree("fallback:", x, b.fallback);
    case OfName(x) => TailsAgree("name:", x, b.name);
    case OfPath(x) => TailsAgree("path:", x, b.path);
    case OfDevice(x) => DeviceClaimInjective(x, b.number);
  }

  lemma IdClaimsAre(aliases: seq<string>, key: string)
    ensures key in IdClaims(aliases) <==> exists id :: id in aliases && key == KeyOf(OfId(id))
  {
    if key in IdClaims(aliases) {
      var i :| 0 <= i < |aliases| && IdClaims(aliases)[i] == key;
      assert aliases[i] in aliases;
    }
    if id :| id in aliases && key == KeyOf(OfId(id)) {
      var i :| 0 <= i < |aliases| && aliases[i] == id;
      assert IdClaims(aliases)[i] == key;
    }
  }

  lemma ClaimKeysAre(node: ResolvedNode, key: string)
    ensures key in ClaimKeys(node) <==> exists c :: Asserts(node, c) && key == KeyOf(c)
  {
    IdClaimsAre(Listing(node.identity.id), key);
    IdClaimsAre(node.identity.strongAliases, key);
    hide IdClaims;
    if key in ClaimKeys(node) {
      if id :| id in Listing(node.identity.id) && key == KeyOf(OfId(id)) {
        assert Asserts(node, OfId(id));
      } else if id :| id in node.identity.strongAliases && key == KeyOf(OfId(id)) {
        assert Asserts(node, OfId(id));
      } else if key == "name:" + node.observation.kernelName {
        assert Asserts(node, OfName(node.observation.kernelName)) && key == KeyOf(OfName(node.observation.kernelName));
      } else if node.identity.fallback.Some? && key == "fallback:" + node.identity.fallback.value {
        assert Asserts(node, OfFallback(node.identity.fallback.value)) && key == KeyOf(OfFallback(node.identity.fallback.value));
      } else if node.currentPath.Some? && key == "path:" + node.currentPath.value {
        assert Asserts(node, OfPath(node.currentPath.value)) && key == KeyOf(OfPath(node.currentPath.value));
      } else {
        assert Asserts(node, OfDevice(node.observation.deviceNumber.value)) && key == KeyOf(OfDevice(node.observation.deviceNumber.value));
      }
    }
  }

  /** Nodes share a key of the claim table exactly when they share a fact. */
  lemma OverlapIsConflict(a: ResolvedNode, b: ResolvedNode)
    ensures Overlap(a, b) <==> Conflicts(a, b)
  {
    forall key ensures key in ClaimKeys(a) <==> exists c :: Asserts(a, c) && key == KeyOf(c) {
      ClaimKeysAre(a, key);
    }
    forall key ensures key in ClaimKeys(b) <==> exists c :: Asserts(b, c) && key == KeyOf(c) {
      ClaimKeysAre(b, key);
    }
    ConflictIsClaim(a, b);
    hide ClaimKeys, Asserts, KeyOf, Conflicts;
    if key :| key in ClaimKeys(a) && key in ClaimKeys(b) {
      var c :| Asserts(a, c) && key == KeyOf(c);
      var d :| Asserts(b, d) && key == KeyOf(d);
      KeyOfInjective(c, d);
    }
    if c :| Asserts(a, c) && Asserts(b, c) {
      assert KeyOf(c) in ClaimKeys(a) && KeyOf(c) in ClaimKeys(b);
    }
  }

  lemma ConflictIsClaim(a: ResolvedNode, b: ResolvedNode)
    ensures Conflicts(a, b) <==> exists c :: Asserts(a, c) && Asserts(b, c)
  {
    if id :| id in IdsOf(a) && id in IdsOf(b) {
      assert Asserts(a, OfId(id)) && Asserts(b, OfId(id));
    }
    if SameKnown(a.identity.fallback, b.identity.fallback) {
      assert Asserts(a, OfFallback(a.identity.fallback.value)) && Asserts(b, OfFallback(a.identity.fallback.value));
    }
    if a.observation.kernelName == b.observation.kernelName {
      assert Asserts(a, OfName(a.observation.kernelName)) && Asserts(b, OfName(a.observation.kernelName));
    }
    if SameKnown(a.currentPath, b.currentPath) {
      assert Asserts(a, OfPath(a.currentPath.value)) && Asserts(b, OfPath(a.currentPath.value));
    }
    if SameKnown(a.observation.deviceNumber, b.observation.deviceNumber) {
      assert Asserts(a, OfDevice(a.observation.deviceNumber.value)) && Asserts(b, OfDevice(a.observation.deviceNumber.value));
    }
    if c :| Asserts(a, c) && Asserts(b, c) {
      if c.OfId? {
        assert c.id in IdsOf(a) * IdsOf(b);
      }
    }
  }

  // Unique identities

  /** A node is resolved exactly when its own evidence resolves it and no other
      observed device claims any of its ids, its fingerprint, its kernel name, its
      path or its device number; a node that shares any of these is ambiguous and
      has neither id nor path. */
  lemma ResolvedIsUnique(devices: seq<Observation>, nodes: seq<ResolvedNode>, i: nat)
    requires Resolution(devices, nodes) && i < |nodes|
    ensures nodes[i].identity.state == Resolved <==>
      Identify(devices[i]).state == Resolved && !InConflict(devices, i)
    ensures nodes[i].identity.state == Ambiguous <==> InConflict(devices, i)
    ensures nodes[i].identity.id.Some? <==> nodes[i].identity.state == Resolved
    ensures nodes[i].currentPath == if !InConflict(devices, i) && ValidPath(devices[i].currentPath) then devices[i].currentPath else None
  {
    hide Findings, ValidPath, Blocked, SelectedId, Elements, Overlap, Conflicts;
    var initials := Initials(devices);
    forall j | 0 <= j < |devices| ensures Overlap(initials[i], initials[j]) <==> Conflicts(Initial(devices[i]), Initial(devices[j])) {
      OverlapIsConflict(initials[i], initials[j]);
    }
    assert SettledAs(Initial(devices[i]), Contested(initials, i), nodes[i]);
    assert Contested(initials, i) <==> InConflict(devices, i);
  }

  /** Another device claims something that the i-th claims. */
  predicate InConflict(devices: seq<Observation>, i: nat)
    requires i < |devices|
  {
    exists j :: 0 <= j < |devices| && j != i && Conflicts(Initial(devices[i]), Initial(devices[j]))
  }

  /** No two nodes of one resolution bear the same identity. */
  lemma IdentitiesDiffer(devices: seq<Observation>, nodes: seq<ResolvedNode>, i: nat, j: nat, id: DriveId)
    requires Resolution(devices, nodes) && i < |nodes| && j < |nodes|
    requires Bears(nodes[i], id) && Bears(nodes[j], id)
    ensures i == j && nodes[i].identity.state == Resolved
  {
    ResolvedIsUnique(devices, nodes, i);
    ResolvedIsUnique(devices, nodes, j);
    hide Findings, ValidPath, Blocked, SelectedId, Elements;
    if i != j {
      SettledKeepsId(Initial(devices[i]), Contested(Initials(devices), i), nodes[i]);
      SettledKeepsId(Initial(devices[j]), Contested(Initials(devices), j), nodes[j]);
      SharedIdConflicts(Initial(devices[i]), Initial(devices[j]), id);
    }
  }

  lemma SettledKeepsId(initial: ResolvedNode, contested: bool, node: ResolvedNode)
    requires SettledAs(initial, contested, node) && node.identity.id.Some?
    ensures initial.identity.id == node.identity.id
  {
  }

  lemma SharedIdConflicts(a: ResolvedNode, b: ResolvedNode, id: DriveId)
    requires Bears(a, id) && Bears(b, id)
    ensures Conflicts(a, b)
  {
    assert id in Elements(Listing(a.identity.id)) && id in Elements(Listing(b.identity.id));
    assert id in IdsOf(a) * IdsOf(b);
  }

  /** The settled nodes are one way of settling the claims. */
  lemma SettledIsResolution(devices: seq<Observation>)
    ensures Resolution(devices, seq(|devices|, k requires 0 <= k < |devices| => Settled(devices, k)))
  {
    hide Initial, Contested;
    forall k | 0 <= k < |devices| ensures SettledAs(Initial(devices[k]), Contested(Initials(devices), k), Settled(devices, k)) {
      ElementsAppend(Initial(devices[k]).issues, Ambiguity(Initial(devices[k])));
    }
  }

  lemma TidiedBears(devices: seq<Observation>, k: nat, id: DriveId)
    requires k < |devices|
    ensures Bears(AllTidied(devices)[k], id) <==> Bears(Settled(devices, k), id)
    ensures AllTidied(devices)[k].identity.state == Settled(devices, k).identity.state
  {
    hide Settled, Sort, Normalize;
  }

  /** No two of the resolved nodes bear the same identity. */
  lemma TidiedDiffer(devices: seq<Observation>, i: nat, j: nat, id: DriveId)
    requires i < |devices| && j < |devices| && Bears(AllTidied(devices)[i], id) && Bears(AllTidied(devices)[j], id)
    ensures i == j && AllTidied(devices)[i].identity.state == Resolved
  {
    hide Resolution, Settled, AllTidied, Bears;
    SettledIsResolution(devices);
    TidiedBears(devices, i, id);
    TidiedBears(devices, j, id);
    IdentitiesDiffer(devices, seq(|devices|, k requires 0 <= k < |devices| => Settled(devices, k)), i, j, id);
  }

  /** Looking a path up in what resolution returns, or in any other order of it, never
      finds an identity ambiguous. */
  lemma PathIsNeverAmbiguous(devices: seq<Observation>, listed: seq<ResolvedNode>, id: DriveId)
    requires multiset(listed) == multiset(Resolve(devices))
    ensures !AmbiguousPath(listed, id)
  {
    hide AllTidied, Sort, NodeKey, Bears;
    var nodes := AllTidied(devices);
    SortCorrect(nodes, NodeKey);
    forall i | 0 <= i < |listed| && Bears(listed[i], id) ensures listed[i].identity.state == Resolved {
      assert listed[i] in multiset(nodes);
      var k :| 0 <= k < |nodes| && nodes[k] == listed[i];
      TidiedDiffer(devices, k, k, id);
    }
    forall i, j | 0 <= i < j < |listed| && Bears(listed[i], id) && Bears(listed[j], id) ensures false {
      assert listed[i] in multiset(nodes) && listed[j] in multiset(nodes);
      if listed[i] == listed[j] {
        TwiceListed(listed, i, j);
        ListedTwice(nodes, listed[i]);
        var k, m :| 0 <= k < m < |nodes| && nodes[k] == listed[i] && nodes[m] == listed[i];
        TidiedDiffer(devices, k, m, id);
      } else {
        var k :| 0 <= k < |nodes| && nodes[k] == listed[i];
        var m :| 0 <= m < |nodes| && nodes[m] == listed[j];
        TidiedDiffer(devices, k, m, id);
      }
    }
  }

  // Equal identities, equal evidence

  /** The hardware facts behind an identity. */
  datatype Hardware =
    | ByNguid(nguid: string)
    | ByEui(eui: string)
    | ByWwn(wwn: string)
    | ByLabel(serial: string, model: string, capacity: nat)

  function HardwareOf(raw: Observation): Option<Hardware> {
    if Namespaced(raw) then
      if TypedHex(raw.nvmeNguid, 32).Some? then Some(ByNguid(TypedHex(raw.nvmeNguid, 32).value))
      else if TypedHex(raw.nvmeEui, 16).Some? then Some(ByEui(TypedHex(raw.nvmeEui, 16).value))
      else None
    else if raw.wwn.Some? && WwnHex(raw.wwn.value).Some? then Some(ByWwn(WwnHex(raw.wwn.value).value))
    else if raw.serial.Some? && raw.model.Some? && raw.capacityBytes.Some? then
      Some(ByLabel(raw.serial.value, raw.model.value, raw.capacityBytes.value))
    else None
  }

  function Rendered(h: Hardware): string {
    match h
    case ByNguid(hex) => NGUID_PREFIX + hex
    case ByEui(hex) => EUI_PREFIX + hex
    case ByWwn(hex) => WWN_PREFIX + hex
    case ByLabel(serial, model, capacity) => Fingerprint(serial, model, capacity)
  }

  lemma RenderedInjective(a: Hardware, b: Hardware)
    requires Rendered(a) == Rendered(b)
    ensures a == b
  {
    assert Rendered(a)[5] == Rendered(b)[5];
    if a.ByNguid? || a.ByEui? {
      assert Rendered(a)[10] == Rendered(b)[10];
    }
    match a
    case ByNguid(x) => TailsAgree(NGUID_PREFIX, x, b.nguid);
    case ByEui(x) => TailsAgree(EUI_PREFIX, x, b.eui);
    case ByWwn(x) => TailsAgree(WWN_PREFIX, x, b.wwn);
    case ByLabel(x, y, z) => FingerprintInjective(x, y, z, b.serial, b.model, b.capacity);
  }

  lemma IdentityRenders(raw: Observation)
    requires Identify(raw).id.Some?
    ensures HardwareOf(raw).Some? && Identify(raw).id == Some(Rendered(HardwareOf(raw).value))
  {
    hide HexIdentifier, Fingerprint, HasBlocking, Lowered;
  }

  /** Two devices get the same identity only for the same hardware facts: one
      namespace identifier, one world-wide name, or one serial number, model and
      capacity, never one kind of evidence for another. */
  lemma EqualIdsMeanEqualHardware(a: Observation, b: Observation)
    requires Identify(a).id.Some? && Identify(a).id == Identify(b).id
    ensures HardwareOf(a).Some? && HardwareOf(a) == HardwareOf(b)
  {
    hide Identify, HardwareOf, Rendered;
    IdentityRenders(a);
    IdentityRenders(b);
    RenderedInjective(HardwareOf(a).value, HardwareOf(b).value);
  }
}
