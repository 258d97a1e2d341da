/** Stable identities for observed devices: what each device claims on its own, and
    how devices that claim the same thing lose their identity. */
module Identities {
  import opened Text
  import opened Inventory
  import opened Canonical
  import opened IssueOrder
  import opened Identifiers

  // One device

  const IDENTITY_FIELDS: set<string> := {
    "wwn", "nvme_eui", "nvme_nguid", "serial", "model", "capacity_bytes", "capacity_sectors_512", "node_type"
  }

  predicate Blocking(p: BlockIssue) {
    p.field in IDENTITY_FIELDS || p.code == DeviceDisappeared
  }

  predicate HasBlocking(raw: Observation) {
    exists i :: 0 <= i < |raw.issues| && Blocking(raw.issues[i])
  }

  predicate Identifiable(raw: Observation) {
    raw.nodeType == WholeDisk && raw.kind != VirtualOrPseudo
  }

  predicate Namespaced(raw: Observation) {
    || raw.nvmeEui.Some? || raw.nvmeNguid.Some? || raw.transport == Some("nvme")
    || (raw.wwn.Some? && ("eui." <= raw.wwn.value || "nvme." <= raw.wwn.value || "uuid." <= raw.wwn.value))
  }

  function Prefixed(prefix: string, hex: Option<string>): Option<string> {
    if hex.None? then None else Some(prefix + hex.value)
  }

  const NGUID_PREFIX := "prod:nvme-nguid:"
  const EUI_PREFIX := "prod:nvme-eui:"
  const WWN_PREFIX := "prod:wwn:"

  /** The digits of a typed namespace attribute. */
  function TypedHex(text: Option<string>, digits: nat): Option<string> {
    if text.None? then None else HexIdentifier(text.value, digits, true)
  }

  function Nguid(raw: Observation): Option<string> {
    Prefixed(NGUID_PREFIX, TypedHex(raw.nvmeNguid, 32))
  }

  function Eui(raw: Observation): Option<string> {
    Prefixed(EUI_PREFIX, TypedHex(raw.nvmeEui, 16))
  }

  /** What a namespace's WWID says: an EUI-64 or an NGUID under one prefix. */
  function NamespaceWwid(text: string): Option<string> {
    if !("eui." <= text) then None
    else if HexIdentifier(text[4..], 16, false).Some? then Prefixed(EUI_PREFIX, HexIdentifier(text[4..], 16, false))
    else Prefixed(NGUID_PREFIX, HexIdentifier(text[4..], 32, false))
  }

  /** `text` is an ungrouped spelling of the canonical digits `h`. */
  predicate PlainHex(text: string, digits: nat, h: string) {
    CanonicalHex(h, digits) && Spells(StripBase(text), digits, false, h)
  }

  lemma OneLength(text: string, h: string, g: string)
    requires PlainHex(text, 16, h)
    ensures !PlainHex(text, 32, g)
  {
  }

  lemma PrefixesDiffer(h: string, g: string)
    ensures EUI_PREFIX + h != NGUID_PREFIX + g
  {
    assert (EUI_PREFIX + h)[10] == 'e' && (NGUID_PREFIX + g)[10] == 'n';
  }

  /** Behind the `eui.` prefix 16 digits are an EUI-64, 32 an NGUID, and anything else
      is no namespace identifier. */
  lemma NamespaceWwidIs(text: string, h: string)
    ensures NamespaceWwid(text) == Some(EUI_PREFIX + h) <==> "eui." <= text && PlainHex(text[4..], 16, h)
    ensures NamespaceWwid(text) == Some(NGUID_PREFIX + h) <==> "eui." <= text && PlainHex(text[4..], 32, h)
    ensures NamespaceWwid(text).Some? ==> exists g :: NamespaceWwid(text) in {Some(EUI_PREFIX + g), Some(NGUID_PREFIX + g)}
  {
    hide HexIdentifier, CanonicalHex, Spells, PlainHex;
    if "eui." <= text {
      var short, long := HexIdentifier(text[4..], 16, false), HexIdentifier(text[4..], 32, false);
      PlainHexIs(text[4..], 16, h);
      PlainHexIs(text[4..], 32, h);
      if short.Some? {
        PlainHexIs(text[4..], 16, short.value);
        OneLength(text[4..], short.value, h);
        PrefixesDiffer(short.value, h);
        PrefixFree(EUI_PREFIX, short.value, h);
        assert NamespaceWwid(text) in {Some(EUI_PREFIX + short.value), Some(NGUID_PREFIX + short.value)};
      } else if long.Some? {
        PrefixesDiffer(h, long.value);
        PrefixFree(NGUID_PREFIX, long.value, h);
        assert NamespaceWwid(text) in {Some(EUI_PREFIX + long.value), Some(NGUID_PREFIX + long.value)};
      }
    }
  }

  lemma PrefixFree(prefix: string, a: string, b: string)
    ensures prefix + a == prefix + b <==> a == b
  {
    if prefix + a == prefix + b {
      TailsAgree(prefix, a, b);
    }
  }

  lemma PlainHexIs(text: string, digits: nat, h: string)
    ensures HexIdentifier(text, digits, false) == Some(h) <==> PlainHex(text, digits, h)
  {
    hide CanonicalHex, Spells, HexIdentifier;
    HexIdentifierIsCanonical(text, digits, false, h);
  }

  predicate Corroborated(raw: Observation)
    requires raw.wwn.Some?
  {
    var alias := NamespaceWwid(raw.wwn.value);
    alias.Some? && (alias == Nguid(raw) || alias == Eui(raw))
  }

  /** The digits of a world-wide name: 64 bits, or the 128 of an NAA-6 value. */
  function WwnHex(text: string): Option<string> {
    var value := if "naa." <= text then text[4..] else text;
    if HexIdentifier(value, 16, false).None? && |value| == 32 && value[0] == '6'
    then HexIdentifier(value, 32, false)
    else HexIdentifier(value, 16, false)
  }

  /** With or without `naa.`, a world-wide name is 16 digits in any accepted spelling,
      or 32 characters that start with a 6. */
  lemma WwnHexIs(text: string, h: string)
    ensures var value := if "naa." <= text then text[4..] else text;
      WwnHex(text) == Some(h) <==>
        PlainHex(value, 16, h) || (|value| == 32 && value[0] == '6' && PlainHex(value, 32, h))
  {
    hide HexIdentifier, CanonicalHex, Spells, PlainHex;
    var value := if "naa." <= text then text[4..] else text;
    var short := HexIdentifier(value, 16, false);
    PlainHexIs(value, 16, h);
    PlainHexIs(value, 32, h);
    if short.Some? {
      PlainHexIs(value, 16, short.value);
      OneLength(value, short.value, h);
    }
  }

  function Wwn(raw: Observation): Option<string> {
    if Namespaced(raw) || raw.wwn.None? then None else Prefixed(WWN_PREFIX, WwnHex(raw.wwn.value))
  }

  predicate WwnRejected(raw: Observation) {
    raw.wwn.Some? && if Namespaced(raw) then !Corroborated(raw) else Wwn(raw).None?
  }

  /** Some identity evidence is missing, malformed or contradicts other evidence. */
  predicate Blocked(raw: Observation) {
    || HasBlocking(raw)
    || (raw.nvmeNguid.Some? && Nguid(raw).None?)
    || (raw.nvmeEui.Some? && Eui(raw).None?)
    || WwnRejected(raw)
  }

  predicate Fingerprinted(raw: Observation) {
    && !Namespaced(raw) && !Blocked(raw)
    && (raw.transport == Some("ata") || raw.transport == Some("scsi") || raw.transport == Some("sas"))
    && Trustworthy(raw.serial) && Trustworthy(raw.model) && raw.capacityBytes.GetOr(0) > 0
  }

  function FallbackOf(raw: Observation): Option<string> {
    if Fingerprinted(raw) then Some(Fingerprint(raw.serial.value, raw.model.value, raw.capacityBytes.value)) else None
  }

  function OrElse(a: Option<string>, b: Option<string>): Option<string> {
    if a.Some? then a else b
  }

  function Listing(a: Option<string>): seq<string> {
    if a.Some? then [a.value] else []
  }

  function SelectedId(raw: Observation): Option<string> {
    OrElse(if Namespaced(raw) then OrElse(Nguid(raw), Eui(raw)) else Wwn(raw), FallbackOf(raw))
  }

  const NO_IDENTITY := Identity(Unresolved, WholeDevice, None, [], None)

  /** What a device's own evidence establishes. */
  function Identify(raw: Observation): Identity {
    if !Identifiable(raw) then NO_IDENTITY
    else
      var id := if Blocked(raw) then None else SelectedId(raw);
      Identity(if id.Some? then Resolved else Unresolved,
               if Namespaced(raw) then NvmeNamespace else WholeDevice,
               id,
               Listing(Nguid(raw)) + Listing(Eui(raw)) + Listing(Wwn(raw)),
               FallbackOf(raw))
  }

  function NodeIssue(code: DiscoveryIssueCode, raw: Observation, field: string): DiscoveryIssue {
    DiscoveryIssue(code, raw.kernelName, field, None, None)
  }

  function IssueIf(b: bool, issue: DiscoveryIssue): seq<DiscoveryIssue> {
    if b then [issue] else []
  }

  function RawConflicts(raw: Observation, n: nat): seq<DiscoveryIssue>
    requires n <= |raw.issues|
  {
    if n == 0 then []
    else RawConflicts(raw, n - 1) + IssueIf(Blocking(raw.issues[n - 1]), NodeIssue(Conflict, raw, "identity"))
  }

  function Findings(raw: Observation): seq<DiscoveryIssue> {
    if !Identifiable(raw) then [NodeIssue(UnsupportedTopology, raw, "identity")]
    else
      RawConflicts(raw, |raw.issues|)
      + IssueIf(raw.nvmeNguid.Some? && Nguid(raw).None?, NodeIssue(MalformedEvidence, raw, "nvme_nguid"))
      + IssueIf(raw.nvmeEui.Some? && Eui(raw).None?, NodeIssue(MalformedEvidence, raw, "nvme_eui"))
      + IssueIf(WwnRejected(raw), NodeIssue(if Namespaced(raw) then Conflict else MalformedEvidence, raw, "wwn"))
      + IssueIf(SelectedId(raw).None?, NodeIssue(MissingEvidence, raw, "identity"))
  }

  method ReadTyped(text: Option<string>, digits: nat, prefix: string) returns (alias: Option<string>, malformed: bool)
    ensures alias == Prefixed(prefix, TypedHex(text, digits)) && malformed == (text.Some? && alias.None?)
  {
    if text.None? {
      return None, false;
    }
    var hex := ReadHexIdentifier(text.value, digits, true);
    alias, malformed := Prefixed(prefix, hex), hex.None?;
  }

  method ReadNamespaceWwid(text: string) returns (alias: Option<string>)
    ensures alias == NamespaceWwid(text)
  {
    if !("eui." <= text) {
      return None;
    }
    var hex := ReadHexIdentifier(text[4..], 16, false);
    if hex.Some? {
      return Prefixed(EUI_PREFIX, hex);
    }
    hex := ReadHexIdentifier(text[4..], 32, false);
    alias := Prefixed(NGUID_PREFIX, hex);
  }

  method ReadWwn(text: string) returns (hex: Option<string>)
    ensures hex == WwnHex(text)
  {
    var value := text;
    if "naa." <= value {
      value := value[4..];
    }
    hex := ReadHexIdentifier(value, 16, false);
    if hex.None? && |value| == 32 && value[0] == '6' {
      hex := ReadHexIdentifier(value, 32, false);
    }
  }

  method ReadRawIssues(raw: Observation) returns (blocked: bool, issues: seq<DiscoveryIssue>)
    ensures blocked == HasBlocking(raw) && issues == RawConflicts(raw, |raw.issues|)
  {
    blocked, issues := false, [];
    for i := 0 to |raw.issues|
      invariant blocked <==> exists j :: 0 <= j < i && Blocking(raw.issues[j])
      invariant issues == RawConflicts(raw, i)
    {
      if Blocking(raw.issues[i]) {
        blocked := true;
        issues := issues + [NodeIssue(Conflict, raw, "identity")];
      }
    }
  }

  method IdentifyNode(raw: Observation) returns (identity: Identity, issues: seq<DiscoveryIssue>)
    ensures identity == Identify(raw) && issues == Findings(raw)
  {
    hide HexIdentifier, Lowered, HasBlocking, RawConflicts, Fingerprint;
    if !Identifiable(raw) {
      return NO_IDENTITY, [NodeIssue(UnsupportedTopology, raw, "identity")];
    }
    var blocked;
    blocked, issues := ReadRawIssues(raw);
    var nvme := Namespaced(raw);
    var nguid, badNguid := ReadTyped(raw.nvmeNguid, 32, NGUID_PREFIX);
    var eui, badEui := ReadTyped(raw.nvmeEui, 16, EUI_PREFIX);
    issues := issues + IssueIf(badNguid, NodeIssue(MalformedEvidence, raw, "nvme_nguid"))
      + IssueIf(badEui, NodeIssue(MalformedEvidence, raw, "nvme_eui"));
    blocked := blocked || badNguid || badEui;
    var wwn: Option<string> := None;
    var rejected := false;
    if raw.wwn.Some? {
      if nvme {
        var alias := ReadNamespaceWwid(raw.wwn.value);
        rejected := alias.None? || (alias != nguid && alias != eui);
      } else {
        var hex := ReadWwn(raw.wwn.value);
        wwn := Prefixed(WWN_PREFIX, hex);
        rejected := hex.None?;
      }
    }
    issues := issues + IssueIf(rejected, NodeIssue(if nvme then Conflict else MalformedEvidence, raw, "wwn"));
    blocked := blocked || rejected;
    var selected := if nvme then OrElse(nguid, eui) else wwn;
    var fallback: Option<string> := None;
    if !nvme && !blocked
       && (raw.transport == Some("ata") || raw.transport == Some("scsi") || raw.transport == Some("sas")) {
      var serial := IsTrustworthy(raw.serial);
      var model := IsTrustworthy(raw.model);
      if serial && model && raw.capacityBytes.GetOr(0) > 0 {
        fallback := Some(Fingerprint(raw.serial.value, raw.model.value, raw.capacityBytes.value));
        selected := OrElse(selected, fallback);
      }
    }
    identity := Identity(Unresolved, if nvme then NvmeNamespace else WholeDevice, None,
                         Listing(nguid) + Listing(eui) + Listing(wwn), fallback);
    if selected.None? {
      issues := issues + [NodeIssue(MissingEvidence, raw, "identity")];
    } else if !blocked {
      identity := identity.(id := selected, state := Resolved);
    }
  }

  // All devices

  function Initial(raw: Observation): ResolvedNode {
    ResolvedNode(raw, Identify(raw), if ValidPath(raw.currentPath) then raw.currentPath else None, NO_SIGNATURE, [], [], [],
                 Findings(raw) + IssueIf(!ValidPath(raw.currentPath), NodeIssue(MissingEvidence, raw, "current_path")))
  }

  function Initials(devices: seq<Observation>): seq<ResolvedNode> {
    seq(|devices|, i requires 0 <= i < |devices| => Initial(devices[i]))
  }

  function IdClaims(aliases: seq<string>): seq<string> {
    seq(|aliases|, i requires 0 <= i < |aliases| => "id:" + aliases[i])
  }

  function DeviceClaim(number: DeviceNumber): string {
    "dev:" + (Decimal(number.major) + (":" + Decimal(number.minor)))
  }

  /** Everything a node claims for itself alone, as keys of one table. */
  function ClaimKeys(node: ResolvedNode): seq<string> {
    IdClaims(Listing(node.identity.id))
    + IdClaims(node.identity.strongAliases)
    + Listing(Prefixed("fallback:", node.identity.fallback))
    + ["name:" + node.observation.kernelName]
    + Listing(Prefixed("path:", node.currentPath))
    + (if node.observation.deviceNumber.Some? then [DeviceClaim(node.observation.deviceNumber.value)] else [])
  }

  /** Some other node makes one of the i-th node's claims. */
  predicate Contested(nodes: seq<ResolvedNode>, i: nat)
    requires i < |nodes|
  {
    exists j :: 0 <= j < |nodes| && j != i && Overlap(nodes[i], nodes[j])
  }

  predicate Overlap(a: ResolvedNode, b: ResolvedNode) {
    exists c :: c in ClaimKeys(a) && c in ClaimKeys(b)
  }

  function Ambiguity(node: ResolvedNode): DiscoveryIssue {
    NodeIssue(AmbiguousIdentity, node.observation, "identity")
  }

  function MarkAmbiguous(node: ResolvedNode): ResolvedNode {
    node.(identity := node.identity.(id := None, state := Ambiguous), currentPath := None,
          issues := node.issues + [Ambiguity(node)])
  }

  /** `node` is `initial` after its claims were settled; its issues up to repetition. */
  ghost predicate SettledAs(initial: ResolvedNode, contested: bool, node: ResolvedNode) {
    && node.(issues := []) == (if contested then MarkAmbiguous(initial) else initial).(issues := [])
    && Elements(node.issues) == Elements(initial.issues) + if contested then {Ambiguity(initial)} else {}
  }

  /** What settling the claims leaves of each device's node, before any sorting. */
  ghost predicate Resolution(devices: seq<Observation>, nodes: seq<ResolvedNode>) {
    && |nodes| == |devices|
    && forall i :: 0 <= i < |nodes| ==> SettledAs(Initial(devices[i]), Contested(Initials(devices), i), nodes[i])
  }

  // The table of claims

  predicate Filed(claims: map<string, seq<nat>>, c: string, k: nat) {
    c in claims && k in claims[c]
  }

  predicate Claims(nodes: seq<ResolvedNode>, c: string, k: nat) {
    k < |nodes| && c in ClaimKeys(nodes[k])
  }

  ghost predicate Indexed(claims: map<string, seq<nat>>, nodes: seq<ResolvedNode>) {
    forall c, k :: Filed(claims, c, k) <==> Claims(nodes, c, k)
  }

  method FileClaims(claims: map<string, seq<nat>>, keys: seq<string>, index: nat) returns (filed: map<string, seq<nat>>)
    ensures forall c, k :: Filed(filed, c, k) <==> Filed(claims, c, k) || (k == index && c in keys)
  {
    filed := claims;
    for i := 0 to |keys|
      invariant forall c, k :: Filed(filed, c, k) <==> Filed(claims, c, k) || (k == index && c in keys[..i])
    {
      ghost var before := filed;
      filed := filed[keys[i] := (if keys[i] in filed then filed[keys[i]] else []) + [index]];
      forall c, k ensures Filed(filed, c, k) <==> Filed(before, c, k) || (k == index && c == keys[i]) {
      }
      assert keys[..i + 1] == keys[..i] + [keys[i]];
    }
    assert keys[..|keys|] == keys;
  }

  /** Two or more nodes filed under `c`, the k-th among them. */
  predicate Disputed(claims: map<string, seq<nat>>, c: string, k: nat) {
    Filed(claims, c, k) && exists j :: j in claims[c] && j != k
  }

  ghost predicate DisputedIn(claims: map<string, seq<nat>>, done: set<string>, k: nat) {
    exists c :: c in done && Disputed(claims, c, k)
  }

  lemma MarkSettles(initial: ResolvedNode, contested: bool, node: ResolvedNode)
    requires SettledAs(initial, contested, node)
    ensures SettledAs(initial, true, MarkAmbiguous(node))
  {
    ElementsAppend(node.issues, Ambiguity(node));
  }

  /** Marks every node filed under a claim that two nodes make. */
  method SettleClaim(nodes: seq<ResolvedNode>, ghost initials: seq<ResolvedNode>, claims: map<string, seq<nat>>, c: string,
                     ghost done: set<string>) returns (settled: seq<ResolvedNode>)
    requires c in claims && Indexed(claims, initials) && |nodes| == |initials|
    requires forall k :: 0 <= k < |nodes| ==> SettledAs(initials[k], DisputedIn(claims, done, k), nodes[k])
    ensures |settled| == |nodes|
    ensures forall k :: 0 <= k < |nodes| ==> SettledAs(initials[k], DisputedIn(claims, done + {c}, k), settled[k])
  {
    hide ClaimKeys;
    hide SettledAs;
    hide MarkAmbiguous;
    settled := nodes;
    var distinct := set k | k in claims[c];
    forall k ensures DisputedIn(claims, done + {c}, k) <==> DisputedIn(claims, done, k) || Disputed(claims, c, k) {
    }
    if |distinct| < 2 {
      forall k ensures !Disputed(claims, c, k) {
        if Disputed(claims, c, k) {
          var j :| j in claims[c] && j != k;
          assert j in distinct;
          AtMostOne(distinct, k);
        }
      }
      return;
    }
    var todo := distinct;
    while todo != {}
      invariant todo <= distinct && |settled| == |nodes|
      invariant forall k :: 0 <= k < |nodes| ==>
        SettledAs(initials[k], DisputedIn(claims, done, k) || k in distinct - todo, settled[k])
    {
      var k :| k in todo;
      assert Filed(claims, c, k) && Claims(initials, c, k);
      MarkSettles(initials[k], DisputedIn(claims, done, k), settled[k]);
      settled := settled[k := MarkAmbiguous(settled[k])];
      todo := todo - {k};
    }
    forall k ensures Disputed(claims, c, k) <==> k in distinct {
      if k in distinct {
        Another(distinct, k);
      }
    }
  }

  lemma AtMostOne(s: set<nat>, k: nat)
    requires |s| < 2 && k in s
    ensures s == {k}
  {
    assert |s - {k}| == 0;
  }

  lemma Another(s: set<nat>, k: nat)
    requires |s| >= 2
    ensures exists j :: j in s && j != k
  {
    assert |s - {k}| >= 1;
    var j :| j in s - {k};
  }

  /** Files every node's claims and settles them one after the other. */
  method SettleIdentities(devices: seq<Observation>) returns (nodes: seq<ResolvedNode>)
    ensures Resolution(devices, nodes)
  {
    hide ClaimKeys;
    hide Initial;
    hide SettledAs;
    nodes := [];
    var claims: map<string, seq<nat>> := map[];
    for i := 0 to |devices|
      invariant nodes == Initials(devices)[..i] && Indexed(claims, nodes)
    {
      var node := InitialNode(devices[i]);
      ghost var before := claims;
      claims := FileClaims(claims, ClaimKeys(node), i);
      ghost var was := nodes;
      nodes := nodes + [node];
      forall c, k ensures Filed(claims, c, k) <==> Claims(nodes, c, k) {
        assert Filed(before, c, k) <==> Claims(was, c, k);
      }
    }
    ghost var initials := nodes;
    assert initials == Initials(devices);
    ghost var done := {};
    var rest := claims.Keys;
    NothingSettled(initials, claims);
    while rest != {}
      invariant rest <= claims.Keys && done == claims.Keys - rest && |nodes| == |initials|
      invariant forall k :: 0 <= k < |nodes| ==> SettledAs(initials[k], DisputedIn(claims, done, k), nodes[k])
    {
      var c :| c in rest;
      nodes := SettleClaim(nodes, initials, claims, c, done);
      done := done + {c};
      rest := rest - {c};
    }
    assert done == claims.Keys;
    forall k | 0 <= k < |nodes| ensures DisputedIn(claims, done, k) <==> Contested(initials, k) {
      DisputedMeans(claims, initials, k);
    }
  }

  lemma NothingSettled(initials: seq<ResolvedNode>, claims: map<string, seq<nat>>)
    ensures forall k :: 0 <= k < |initials| ==> SettledAs(initials[k], DisputedIn(claims, {}, k), initials[k])
  {
  }

  lemma DisputedMeans(claims: map<string, seq<nat>>, nodes: seq<ResolvedNode>, k: nat)
    requires Indexed(claims, nodes) && k < |nodes|
    ensures DisputedIn(claims, claims.Keys, k) <==> Contested(nodes, k)
  {
    hide ClaimKeys;
    if c :| c in claims && Disputed(claims, c, k) {
      var j :| j in claims[c] && j != k;
      assert Filed(claims, c, k) && Filed(claims, c, j);
      assert Claims(nodes, c, k) && Claims(nodes, c, j);
      assert Overlap(nodes[k], nodes[j]);
    }
    if j :| 0 <= j < |nodes| && j != k && Overlap(nodes[k], nodes[j]) {
      var c :| c in ClaimKeys(nodes[k]) && c in ClaimKeys(nodes[j]);
      assert Claims(nodes, c, k) && Claims(nodes, c, j);
      assert Filed(claims, c, k) && Filed(claims, c, j);
      assert Disputed(claims, c, k);
    }
  }

  // Everything in order

  /** Issues, aliases, children and raw issues of a node, each list sorted. */
  function Tidied(node: ResolvedNode): ResolvedNode {
    node.(issues := Normalize(node.issues, DiscoveryIssueKey),
          identity := node.identity.(strongAliases := Sort(node.identity.strongAliases, Bytes)),
          observation := node.observation.(childNames := Sort(node.observation.childNames, Bytes),
                                           issues := Sort(node.observation.issues, BlockIssueKey)))
  }

  function NodeKey(node: ResolvedNode): seq<int> {
    var o := node.observation;
    Bytes(o.kernelName) + (NameKey(o.currentPath) + NameKey(o.sysfsPath) + NameKey(o.wwn) + NameKey(o.nvmeEui) + NameKey(o.nvmeNguid)
                           + NameKey(o.serial) + NameKey(o.model) + NumberKey(o.capacityBytes) + NameKey(o.transport))
  }

  /** The k-th device's node with its claims settled. */
  function Settled(devices: seq<Observation>, k: nat): ResolvedNode
    requires k < |devices|
  {
    if Contested(Initials(devices), k) then MarkAmbiguous(Initial(devices[k])) else Initial(devices[k])
  }

  function AllTidied(devices: seq<Observation>): (nodes: seq<ResolvedNode>)
    ensures |nodes| == |devices|
  {
    seq(|devices|, k requires 0 <= k < |devices| => Tidied(Settled(devices, k)))
  }

  /** The resolved nodes, in their one order. */
  function Resolve(devices: seq<Observation>): seq<ResolvedNode> {
    Sort(AllTidied(devices), NodeKey)
  }

  /** Sorting forgets how often an ambiguity was noted. */
  lemma TidiedSame(initial: ResolvedNode, contested: bool, node: ResolvedNode)
    requires SettledAs(initial, contested, node)
    ensures Tidied(node) == Tidied(if contested then MarkAmbiguous(initial) else initial)
  {
    hide Normalize, DiscoveryIssueKey, Sort, Bytes, BlockIssueKey;
    var settled := if contested then MarkAmbiguous(initial) else initial;
    ElementsAppend(initial.issues, Ambiguity(initial));
    assert Elements(node.issues) == Elements(settled.issues);
    DiscoveryIssueKeyInjective();
    NormalizeCanonical(node.issues, settled.issues, DiscoveryIssueKey);
    hide Elements;
    assert node.(issues := []) == settled.(issues := []);
    assert node == node.(issues := []).(issues := node.issues);
  }

  /** Resolves the identities of all devices of an inventory, and sorts its issues. */
  method ResolveBlockIdentities(devices: seq<Observation>, raw: seq<BlockIssue>)
    returns (nodes: seq<ResolvedNode>, inventoryIssues: seq<BlockIssue>)
    ensures nodes == Resolve(devices) && inventoryIssues == Sort(raw, BlockIssueKey)
  {
    hide Initial, SettledAs, MarkAmbiguous, Contested, Tidied, Sort, NodeKey, BlockIssueKey;
    inventoryIssues := Sort(raw, BlockIssueKey);
    var settled := SettleIdentities(devices);
    nodes := [];
    for k := 0 to |settled|
      invariant nodes == AllTidied(devices)[..k]
    {
      assert SettledAs(Initial(devices[k]), Contested(Initials(devices), k), settled[k]);
      TidiedSame(Initial(devices[k]), Contested(Initials(devices), k), settled[k]);
      nodes := nodes + [Tidied(settled[k])];
    }
    assert nodes == AllTidied(devices);
    nodes := Sort(nodes, NodeKey);
  }

  method InitialNode(raw: Observation) returns (node: ResolvedNode)
    ensures node == Initial(raw)
  {
    hide Identify, Findings, ValidPath;
    var identity, issues := IdentifyNode(raw);
    node := ResolvedNode(raw, identity, None, NO_SIGNATURE, [], [], [], issues);
    if ValidPath(raw.currentPath) {
      node := node.(currentPath := raw.currentPath);
    } else {
      node := node.(issues := node.issues + [NodeIssue(MissingEvidence, raw, "current_path")]);
    }
  }

  // Looking a path up

  datatype PathError = InvalidIdentity | NotFound

  predicate Bears(node: ResolvedNode, id: DriveId) {
    node.identity.id == Some(id)
  }

  /** Two nodes bear the identity, or one that is not resolved. */
  predicate AmbiguousPath(nodes: seq<ResolvedNode>, id: DriveId) {
    || (exists i :: 0 <= i < |nodes| && Bears(nodes[i], id) && nodes[i].identity.state != Resolved)
    || (exists i, j :: 0 <= i < j < |nodes| && Bears(nodes[i], id) && Bears(nodes[j], id))
  }

  method ResolveCurrentPath(nodes: seq<ResolvedNode>, expected: DriveId) returns (path: Result<string, PathError>)
    ensures path == Failure(InvalidIdentity) <==> AmbiguousPath(nodes, expected)
    ensures path.Success? ==> exists i :: 0 <= i < |nodes| && Bears(nodes[i], expected) && nodes[i].currentPath == Some(path.value)
    ensures path == Failure(NotFound) ==> forall i :: 0 <= i < |nodes| && Bears(nodes[i], expected) ==> nodes[i].currentPath.None?
  {
    var found: Option<nat> := None;
    for i := 0 to |nodes|
      invariant found.None? ==> forall j :: 0 <= j < i ==> !Bears(nodes[j], expected)
      invariant found.Some? ==> found.value < i && Bears(nodes[found.value], expected)
      invariant found.Some? ==> nodes[found.value].identity.state == Resolved
      invariant found.Some? ==> forall j :: 0 <= j < i && Bears(nodes[j], expected) ==> j == found.value
    {
      if !Bears(nodes[i], expected) {
        continue;
      }
      if found.Some? || nodes[i].identity.state != Resolved {
        return Failure(InvalidIdentity);
      }
      found := Some(i);
    }
    if found.None? || nodes[found.value].currentPath.None? {
      return Failure(NotFound);
    }
    path := Success(nodes[found.value].currentPath.value);
  }
}
