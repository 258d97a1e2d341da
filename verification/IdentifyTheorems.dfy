/** When a device's own evidence establishes an identity, which one, and of what scope. */
module IdentifyTheorems {
  import opened Text
  import opened Inventory
  import opened Identifiers
  import opened Identities

  /** The evidence is of an NVMe namespace, not of a device. */
  predicate OfNamespace(raw: Observation) {
    || raw.nvmeEui.Some? || raw.nvmeNguid.Some? || raw.transport == Some("nvme")
    || (raw.wwn.Some? && ("eui." <= raw.wwn.value || "nvme." <= raw.wwn.value || "uuid." <= raw.wwn.value))
  }

  predicate IsHardware(raw: Observation) {
    raw.nodeType == WholeDisk && raw.kind != VirtualOrPseudo
  }

  /** Nothing was found wrong with an attribute that identifies the device. */
  predicate Unspoiled(raw: Observation) {
    forall i :: 0 <= i < |raw.issues| ==>
      && raw.issues[i].field !in {"wwn", "nvme_eui", "nvme_nguid", "serial", "model", "capacity_bytes", "capacity_sectors_512", "node_type"}
      && raw.issues[i].code != DeviceDisappeared
  }

  /** `text` spells the digits `h`, grouped or not. */
  predicate TypedAs(text: Option<string>, digits: nat, h: string) {
    text.Some? && CanonicalHex(h, digits) && Spells(StripBase(text.value), digits, true, h)
  }

  ghost predicate Typed(text: Option<string>, digits: nat) {
    exists h :: TypedAs(text, digits, h)
  }

  /** The WWID of a namespace repeats its typed EUI or NGUID. */
  ghost predicate Repeats(raw: Observation)
    requires raw.wwn.Some?
  {
    && "eui." <= raw.wwn.value
    && exists h :: (TypedAs(raw.nvmeEui, 16, h) && PlainHex(raw.wwn.value[4..], 16, h))
                   || (TypedAs(raw.nvmeNguid, 32, h) && PlainHex(raw.wwn.value[4..], 32, h))
  }

  /** `text` spells the world-wide name `h`. */
  predicate WwnAs(text: string, h: string) {
    var value := if "naa." <= text then text[4..] else text;
    PlainHex(value, 16, h) || (|value| == 32 && value[0] == '6' && PlainHex(value, 32, h))
  }

  /** Every typed identifier there is can be read, and a WWID repeats one of them. */
  ghost predicate NamespaceReadable(raw: Observation) {
    && (raw.nvmeNguid.Some? ==> Typed(raw.nvmeNguid, 32))
    && (raw.nvmeEui.Some? ==> Typed(raw.nvmeEui, 16))
    && (raw.wwn.Some? ==> Repeats(raw))
  }

  /** The NGUID, or without one the EUI. */
  ghost predicate NamespaceId(raw: Observation, id: DriveId) {
    && NamespaceReadable(raw)
    && if raw.nvmeNguid.Some? then exists h :: TypedAs(raw.nvmeNguid, 32, h) && id == "prod:nvme-nguid:" + h
       else exists h :: TypedAs(raw.nvmeEui, 16, h) && id == "prod:nvme-eui:" + h
  }

  /** Serial number, model and size, from a bus that passes them on unchanged. */
  predicate SerialId(raw: Observation, id: DriveId) {
    && raw.transport.Some? && raw.transport.value in {"ata", "scsi", "sas"}
    && Trustworthy(raw.serial) && Trustworthy(raw.model)
    && raw.capacityBytes.Some? && raw.capacityBytes.value > 0
    && id == Fingerprint(raw.serial.value, raw.model.value, raw.capacityBytes.value)
  }

  /** The world-wide name, or without one the serial number. */
  ghost predicate DeviceId(raw: Observation, id: DriveId) {
    if raw.wwn.Some? then exists h :: WwnAs(raw.wwn.value, h) && id == "prod:wwn:" + h else SerialId(raw, id)
  }

  // Readings

  lemma TypedIs(text: Option<string>, digits: nat, h: string)
    ensures TypedHex(text, digits) == Some(h) <==> TypedAs(text, digits, h)
  {
    hide CanonicalHex, Spells, HexIdentifier;
    if text.Some? {
      HexIdentifierIsCanonical(text.value, digits, true, h);
    }
  }

  lemma TypedReads(text: Option<string>, digits: nat)
    ensures TypedHex(text, digits).Some? <==> Typed(text, digits)
    ensures forall h :: TypedHex(text, digits) == Some(h) <==> TypedAs(text, digits, h)
  {
    hide TypedHex, TypedAs;
    forall h ensures TypedHex(text, digits) == Some(h) <==> TypedAs(text, digits, h) {
      TypedIs(text, digits, h);
    }
    if TypedHex(text, digits).Some? {
      assert TypedAs(text, digits, TypedHex(text, digits).value);
    }
  }

  lemma NamespacedIs(raw: Observation)
    ensures Namespaced(raw) <==> OfNamespace(raw)
  {
  }

  lemma SpoiledIs(raw: Observation)
    ensures HasBlocking(raw) <==> !Unspoiled(raw)
  {
  }

  lemma RepeatsIs(raw: Observation)
    requires raw.wwn.Some?
    ensures Corroborated(raw) <==> Repeats(raw)
  {
    hide TypedHex, TypedAs, PlainHex, NamespaceWwid;
    TypedReads(raw.nvmeEui, 16);
    TypedReads(raw.nvmeNguid, 32);
    forall h
      ensures NamespaceWwid(raw.wwn.value) == Some(EUI_PREFIX + h) <==> "eui." <= raw.wwn.value && PlainHex(raw.wwn.value[4..], 16, h)
      ensures NamespaceWwid(raw.wwn.value) == Some(NGUID_PREFIX + h) <==> "eui." <= raw.wwn.value && PlainHex(raw.wwn.value[4..], 32, h)
    {
      NamespaceWwidIs(raw.wwn.value, h);
    }
    NamespaceWwidIs(raw.wwn.value, "");
    if Corroborated(raw) {
      var h := if NamespaceWwid(raw.wwn.value) == Nguid(raw) then TypedHex(raw.nvmeNguid, 32).value else TypedHex(raw.nvmeEui, 16).value;
      assert
        || (TypedAs(raw.nvmeEui, 16, h) && PlainHex(raw.wwn.value[4..], 16, h))
        || (TypedAs(raw.nvmeNguid, 32, h) && PlainHex(raw.wwn.value[4..], 32, h));
    }
  }

  lemma WwnReads(text: string)
    ensures WwnHex(text).Some? <==> exists h :: WwnAs(text, h)
    ensures forall h :: WwnHex(text) == Some(h) <==> WwnAs(text, h)
  {
    hide WwnHex, PlainHex;
    forall h ensures WwnHex(text) == Some(h) <==> WwnAs(text, h) {
      WwnHexIs(text, h);
    }
    hide WwnAs;
    if WwnHex(text).Some? {
      assert WwnAs(text, WwnHex(text).value);
    }
  }

  // The identity

  /** The scope is that of a namespace exactly for hardware whose evidence is of one. */
  lemma ScopeIs(raw: Observation)
    ensures Identify(raw).scope == NvmeNamespace <==> IsHardware(raw) && OfNamespace(raw)
  {
    NamespacedIs(raw);
    hide Blocked, SelectedId, FallbackOf, Namespaced, OfNamespace, HexIdentifier;
  }

  lemma NamespaceIdIs(raw: Observation, id: DriveId)
    requires OfNamespace(raw) && IsHardware(raw) && Unspoiled(raw)
    ensures Identify(raw).id == Some(id) <==> NamespaceId(raw, id)
  {
    hide HexIdentifier, TypedAs, Repeats, Corroborated, OfNamespace, HasBlocking, Unspoiled, Namespaced;
    NamespacedIs(raw);
    SpoiledIs(raw);
    TypedReads(raw.nvmeEui, 16);
    TypedReads(raw.nvmeNguid, 32);
    if raw.wwn.Some? {
      RepeatsIs(raw);
    }
    assert Blocked(raw) <==> !NamespaceReadable(raw);
    assert FallbackOf(raw).None?;
    if Nguid(raw).Some? {
      assert TypedAs(raw.nvmeNguid, 32, TypedHex(raw.nvmeNguid, 32).value);
    }
    if Eui(raw).Some? {
      assert TypedAs(raw.nvmeEui, 16, TypedHex(raw.nvmeEui, 16).value);
    }
  }

  lemma DeviceIdIs(raw: Observation, id: DriveId)
    requires !OfNamespace(raw) && IsHardware(raw) && Unspoiled(raw)
    ensures Identify(raw).id == Some(id) <==> DeviceId(raw, id)
  {
    hide TypedHex, OfNamespace, HasBlocking, Unspoiled, Namespaced, Trustworthy, Fingerprint, WwnHex, WwnAs;
    NamespacedIs(raw);
    NotTyped(raw);
    SpoiledIs(raw);
    if raw.wwn.Some? {
      WwnReads(raw.wwn.value);
    }
  }

  lemma NotTyped(raw: Observation)
    requires !OfNamespace(raw)
    ensures raw.nvmeEui.None? && raw.nvmeNguid.None?
  {
  }

  /** An identity is resolved, and is this one, exactly for hardware with nothing wrong in
      the attributes that identify it, whose evidence is all readable and agrees: for a
      namespace its NGUID or EUI, else a world-wide name, and only without one the serial
      number, model and size, and these only from an ATA, SCSI or SAS transport. */
  lemma IdentityIs(raw: Observation, id: DriveId)
    ensures Identify(raw).state == Resolved && Identify(raw).id == Some(id) <==>
      && IsHardware(raw) && Unspoiled(raw)
      && if OfNamespace(raw) then NamespaceId(raw, id) else DeviceId(raw, id)
    ensures Identify(raw).state in {Resolved, Unresolved} && (Identify(raw).state == Resolved <==> Identify(raw).id.Some?)
  {
    hide SelectedId, FallbackOf, Namespaced, OfNamespace, NamespaceId, DeviceId, HexIdentifier, HasBlocking, Unspoiled;
    SpoiledIs(raw);
    if IsHardware(raw) && Unspoiled(raw) {
      if OfNamespace(raw) {
        NamespaceIdIs(raw, id);
      } else {
        DeviceIdIs(raw, id);
      }
    }
  }

  /** What no identity rests on. */
  lemma SentinelsAreRejected(text: string, digits: nat, formatted: bool, h: string)
    requires HexIdentifier(text, digits, formatted) == Some(h)
    ensures |h| == digits && forall k :: 0 <= k < |h| ==> h[k] in "0123456789abcdef"
    ensures (exists k :: 0 <= k < |h| && h[k] != '0') && exists k :: 0 <= k < |h| && h[k] != 'f'
  {
    HexIdentifierIsCanonical(text, digits, formatted, h);
    hide Spells, HexIdentifier;
    forall k | 0 <= k < |h| ensures h[k] in "0123456789abcdef" {
      HexCharacters(h[k]);
    }
  }

  lemma HexCharacters(c: char)
    requires IsHexDigit(c)
    ensures c in "0123456789abcdef"
  {
    var all := "0123456789abcdef";
    var i := if c <= '9' then c as int - '0' as int else c as int - 'a' as int + 10;
    assert all[i] == c;
  }
}
