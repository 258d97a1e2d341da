/** What sharing a lock identifier, and being the same physical device, mean. */
module DriveTheorems {
  import opened Text
  import opened Drives

  predicate SameLabel(a: DriveIdentity, b: DriveIdentity) {
    Canonical(a.serial) == Canonical(b.serial) && Canonical(a.model) == Canonical(b.model) && a.capacityBytes == b.capacityBytes
  }

  /** Nothing that both identities know contradicts. */
  predicate Compatible(a: DriveIdentity, b: DriveIdentity) {
    && !DifferWhenKnown(a.serial, b.serial) && !DifferWhenKnown(a.model, b.model)
    && (a.capacityBytes == 0 || b.capacityBytes == 0 || a.capacityBytes == b.capacityBytes)
  }

  predicate Labelled(d: DriveIdentity) {
    Canonical(d.wwn) == "" && Canonical(d.serial) != "" && Canonical(d.model) != "" && d.capacityBytes != 0
  }

  /** A drive can be identified exactly when it has a world-wide name, or serial number,
      model and capacity are all known. */
  lemma IdentifiedIs(d: DriveIdentity)
    ensures DriveIdOf(d).Success? <==> Canonical(d.wwn) != "" || (Canonical(d.serial) != "" && Canonical(d.model) != "" && d.capacityBytes != 0)
    ensures DriveIdOf(d).Failure? ==> DriveIdOf(d).error == InvalidIdentity
  {
    hide Canonical;
  }

  /** Two drives are taken for one device exactly when they carry one world-wide name
      and nothing else contradicts, or neither has a name and serial number, model
      and capacity are all known and the same. */
  lemma SamePhysicalDeviceIsExact(a: DriveIdentity, b: DriveIdentity)
    ensures SamePhysicalDevice(a, b) <==>
      || (Canonical(a.wwn) != "" && Canonical(a.wwn) == Canonical(b.wwn) && Compatible(a, b))
      || (Labelled(a) && Labelled(b) && SameLabel(a, b))
  {
    hide Canonical;
    if DriveIdOf(a).Success? && DriveIdOf(a) == DriveIdOf(b) {
      assert DriveIdOf(a).value[0] == DriveIdOf(b).value[0];
      if Canonical(a.wwn) != "" {
        TailsAgree("wwn:", Canonical(a.wwn), Canonical(b.wwn));
      }
    }
  }

  function Label(serial: string, model: string, capacity: nat): string {
    "serial:" + serial + "|model:" + model + "|bytes:" + Decimal(capacity)
  }

  lemma NoBarAfter(x: string, m: nat, i: nat)
    requires |x| < i < |x + "|bytes:" + Decimal(m)|
    ensures (x + "|bytes:" + Decimal(m))[i] != '|'
  {
    DecimalDigits(m);
    assert (x + "|bytes:" + Decimal(m))[i] == ("|bytes:" + Decimal(m))[i - |x|];
  }

  lemma BytesTail(x: string, y: string, m: nat, n: nat)
    requires x + "|bytes:" + Decimal(m) == y + "|bytes:" + Decimal(n)
    ensures |x| >= |y|
  {
    assert (y + "|bytes:" + Decimal(n))[|y|] == '|';
    if |x| < |y| {
      NoBarAfter(x, m, |y|);
    }
  }

  lemma LabelParts(serial: string, model: string, capacity: nat, serial': string, model': string, capacity': nat)
    requires Label(serial, model, capacity) == Label(serial', model', capacity')
    ensures |serial| == |serial'| ==> serial == serial' && model == model' && capacity == capacity'
  {
    if |serial| == |serial'| {
      var p := |"serial:"|;
      var s, t := Label(serial, model, capacity), Label(serial', model', capacity');
      assert s[p..p + |serial|] == serial && t[p..p + |serial|] == serial';
      var q := p + |serial| + |"|model:"|;
      assert s[q..] == model + "|bytes:" + Decimal(capacity) && t[q..] == model' + "|bytes:" + Decimal(capacity');
      BytesTail(model, model', capacity, capacity');
      BytesTail(model', model, capacity', capacity);
      var u, v := s[q..], t[q..];
      assert u[..|model|] == model && v[..|model|] == model';
      assert u[|model| + 7..] == Decimal(capacity) && v[|model| + 7..] == Decimal(capacity');
      DecimalInjective(capacity, capacity');
    }
  }

  /** Drives without a world-wide name that share a lock identifier have the same
      serial number, model and capacity exactly when their serial numbers are equally
      long: the parts of the identifier are not delimited against one another. */
  lemma SharedDriveId(a: DriveIdentity, b: DriveIdentity)
    requires Labelled(a) && Labelled(b) && DriveIdOf(a) == DriveIdOf(b)
    ensures SameLabel(a, b) <==> |Canonical(a.serial)| == |Canonical(b.serial)|
    ensures SamePhysicalDevice(a, b) <==> |Canonical(a.serial)| == |Canonical(b.serial)|
  {
    hide Canonical;
    LabelParts(Canonical(a.serial), Canonical(a.model), a.capacityBytes, Canonical(b.serial), Canonical(b.model), b.capacityBytes);
    SamePhysicalDeviceIsExact(a, b);
  }

  const ONE_DRIVE := DriveIdentity("x|model:y", "", "z", 1)
  const ANOTHER_DRIVE := DriveIdentity("x", "", "y|model:z", 1)

  lemma CanonicalFixed(s: string)
    requires s != "" && !IsSpace(s[0]) && !IsSpace(s[|s| - 1]) && forall i :: 0 <= i < |s| ==> Lower(s[i]) == s[i]
    ensures Canonical(s) == s
  {
  }

  lemma CanonicalParts()
    ensures Canonical("x|model:y") == "x|model:y" && Canonical("x") == "x" && Canonical("z") == "z"
    ensures Canonical("y|model:z") == "y|model:z" && Canonical("") == ""
  {
    CanonicalFixed("x|model:y");
    CanonicalFixed("x");
    CanonicalFixed("z");
    CanonicalFixed("y|model:z");
  }

  /** Two different drives with one lock identifier. */
  lemma DriveIdCollides()
    ensures DriveIdOf(ONE_DRIVE).Success? && DriveIdOf(ONE_DRIVE) == DriveIdOf(ANOTHER_DRIVE)
    ensures !SameLabel(ONE_DRIVE, ANOTHER_DRIVE) && !SamePhysicalDevice(ONE_DRIVE, ANOTHER_DRIVE)
  {
    hide Canonical, Decimal;
    CanonicalParts();
    assert "serial:" + "x|model:y" + "|model:" + "z" + "|bytes:" == "serial:" + "x" + "|model:" + "y|model:z" + "|bytes:";
    assert |"x|model:y"| != |"x"|;
    SharedDriveId(ONE_DRIVE, ANOTHER_DRIVE);
  }
}
