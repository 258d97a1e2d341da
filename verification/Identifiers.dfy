/** Reading hardware identifiers: one canonical spelling per identifier, and a
    fingerprint that keeps its three parts apart. */
module Identifiers {
  import opened Text

  function LowerHex(c: char): char {
    if 'A' <= c <= 'F' then c - 'A' + 'a' else c
  }

  predicate IsHexDigit(c: char) {
    '0' <= c <= '9' || 'a' <= c <= 'f'
  }

  function StripBase(value: string): string {
    if "0x" <= value || "0X" <= value then value[2..] else value
  }

  /** The grouped spelling that a value has by its length: eight pairs, or the five
      groups of a UUID. */
  predicate Grouped(value: string, digits: nat, formatted: bool) {
    formatted && ((digits == 16 && |value| == 23) || (digits == 32 && |value| == 36))
  }

  predicate SeparatorAt(digits: nat, i: nat) {
    if digits == 16 then i % 3 == 2 else i == 8 || i == 13 || i == 18 || i == 23
  }

  function Separator(digits: nat): char {
    if digits == 16 then ' ' else '-'
  }

  /** A grouped value without its separators, if these are where they belong. */
  function Ungrouped(value: string, digits: nat): Option<string> {
    if value == "" then Some("")
    else
      var n := |value| - 1;
      var front := Ungrouped(value[..n], digits);
      if front.None? then None
      else if !SeparatorAt(digits, n) then Some(front.value + [value[n]])
      else if value[n] == Separator(digits) then front
      else None
  }

  function LoweredHex(s: string): string {
    seq(|s|, i requires 0 <= i < |s| => LowerHex(s[i]))
  }

  predicate AllHex(s: string) {
    forall i :: 0 <= i < |s| ==> IsHexDigit(s[i])
  }

  predicate Only(s: string, c: char) {
    forall i :: 0 <= i < |s| ==> s[i] == c
  }

  /** `digits` lower-case hexadecimal digits, neither all zeros nor all ones. */
  predicate CanonicalHex(s: string, digits: nat) {
    |s| == digits && AllHex(s) && !Only(s, '0') && !Only(s, 'f')
  }

  function HexIdentifier(text: string, digits: nat, formatted: bool): Option<string> {
    var value := StripBase(text);
    var compact := if Grouped(value, digits, formatted) then Ungrouped(value, digits) else Some(value);
    if compact.None? || |compact.value| != digits then None
    else
      var lower := LoweredHex(compact.value);
      if CanonicalHex(lower, digits) then Some(lower) else None
  }

  method ReadHexIdentifier(text: string, digits: nat, formatted: bool) returns (result: Option<string>)
    ensures result == HexIdentifier(text, digits, formatted)
  {
    var value := StripBase(text);
    var compact := value;
    if Grouped(value, digits, formatted) {
      compact := "";
      for i := 0 to |value|
        invariant Ungrouped(value[..i], digits) == Some(compact)
      {
        assert value[..i + 1][..i] == value[..i];
        if SeparatorAt(digits, i) {
          if value[i] != Separator(digits) {
            UngroupedFails(value, digits, i + 1);
            return None;
          }
        } else {
          compact := compact + [value[i]];
        }
      }
      assert value[..|value|] == value;
    }
    if |compact| != digits {
      return None;
    }
    ghost var spelled := compact;
    for i := 0 to |compact|
      invariant |compact| == digits
      invariant forall j :: 0 <= j < i ==> compact[j] == LowerHex(spelled[j]) && IsHexDigit(compact[j])
      invariant forall j :: i <= j < digits ==> compact[j] == spelled[j]
    {
      if 'A' <= compact[i] <= 'F' {
        compact := compact[i := compact[i] - 'A' + 'a'];
      }
      if !IsHexDigit(compact[i]) {
        assert LoweredHex(spelled)[i] == compact[i];
        return None;
      }
    }
    assert compact == LoweredHex(spelled);
    if Only(compact, '0') || Only(compact, 'f') {
      return None;
    }
    result := Some(compact);
  }

  lemma {:induction false} UngroupedFails(value: string, digits: nat, i: nat)
    requires i <= |value| && Ungrouped(value[..i], digits) == None
    ensures Ungrouped(value, digits) == None
    decreases |value| - i
  {
    if i < |value| {
      assert value[..i + 1][..i] == value[..i];
      UngroupedFails(value, digits, i + 1);
    } else {
      assert value[..i] == value;
    }
  }

  // Which spellings are accepted

  /** Where the k-th digit of a grouped value stands. */
  function Place(digits: nat, k: nat): nat {
    if digits == 16 then k + k / 2
    else if k < 8 then k
    else if k < 12 then k + 1
    else if k < 16 then k + 2
    else if k < 20 then k + 3
    else k + 4
  }

  /** How many digits stand before position `i`. */
  function DigitsBefore(digits: nat, i: nat): nat {
    if digits == 16 then i - i / 3
    else if i <= 8 then i
    else if i <= 13 then i - 1
    else if i <= 18 then i - 2
    else if i <= 23 then i - 3
    else i - 4
  }

  /** `value` spells the digits `h` in either case: plainly, or, where grouping is
      allowed and the length asks for it, with each separator in its place. */
  predicate Spells(value: string, digits: nat, formatted: bool, h: string) {
    if Grouped(value, digits, formatted) then
      && |h| == digits
      && (forall i :: 0 <= i < |value| && SeparatorAt(digits, i) ==> value[i] == Separator(digits))
      && (forall k :: 0 <= k < digits ==> Place(digits, k) < |value| && LowerHex(value[Place(digits, k)]) == h[k])
    else
      |value| == |h| && forall k :: 0 <= k < |h| ==> LowerHex(value[k]) == h[k]
  }

  predicate WellSeparated(value: string, digits: nat) {
    forall i :: 0 <= i < |value| && SeparatorAt(digits, i) ==> value[i] == Separator(digits)
  }

  predicate DigitsInPlace(value: string, digits: nat, compact: string) {
    && |compact| == DigitsBefore(digits, |value|)
    && forall k :: 0 <= k < |compact| ==> Place(digits, k) < |value| && compact[k] == value[Place(digits, k)]
  }

  lemma DigitStep(digits: nat, i: nat)
    requires digits == 16 || digits == 32
    ensures DigitsBefore(digits, i + 1) == DigitsBefore(digits, i) + if SeparatorAt(digits, i) then 0 else 1
    ensures !SeparatorAt(digits, i) ==> Place(digits, DigitsBefore(digits, i)) == i
  {
    if digits == 16 {
      var q, r := i / 3, i % 3;
      assert i == 3 * q + r;
    }
  }

  lemma {:induction false} UngroupedIs(value: string, digits: nat)
    requires digits == 16 || digits == 32
    ensures Ungrouped(value, digits).Some? <==> WellSeparated(value, digits)
    ensures Ungrouped(value, digits).Some? ==> DigitsInPlace(value, digits, Ungrouped(value, digits).value)
  {
    if value != "" {
      var n := |value| - 1;
      UngroupedIs(value[..n], digits);
      DigitStep(digits, n);
      assert WellSeparated(value, digits) <==>
        WellSeparated(value[..n], digits) && (SeparatorAt(digits, n) ==> value[n] == Separator(digits));
    }
  }

  /** An identifier is accepted exactly in the spellings of canonical digits, and
      what is returned is those digits: one form for every accepted spelling. */
  lemma HexIdentifierIsCanonical(text: string, digits: nat, formatted: bool, h: string)
    ensures HexIdentifier(text, digits, formatted) == Some(h) <==>
      CanonicalHex(h, digits) && Spells(StripBase(text), digits, formatted, h)
  {
    var value := StripBase(text);
    if Grouped(value, digits, formatted) {
      UngroupedIs(value, digits);
      if WellSeparated(value, digits) {
        SpellsGrouped(value, digits, formatted, Ungrouped(value, digits).value, h);
      }
    } else if |value| == |h| {
      assert Spells(value, digits, formatted, h) <==> LoweredHex(value) == h;
    }
  }

  lemma SpellsGrouped(value: string, digits: nat, formatted: bool, compact: string, h: string)
    requires Grouped(value, digits, formatted) && WellSeparated(value, digits) && DigitsInPlace(value, digits, compact)
    ensures |compact| == digits
    ensures Spells(value, digits, formatted, h) <==> LoweredHex(compact) == h
  {
    hide SeparatorAt;
    if Spells(value, digits, formatted, h) {
      forall k | 0 <= k < digits ensures LoweredHex(compact)[k] == h[k] {
      }
    }
  }

  /** The canonical form reads as itself, grouping allowed or not. */
  lemma CanonicalHexIsFixed(h: string, digits: nat, formatted: bool)
    requires CanonicalHex(h, digits)
    ensures HexIdentifier(h, digits, formatted) == Some(h)
  {
    assert StripBase(h) == h by {
      if |h| >= 2 {
        assert IsHexDigit(h[1]);
      }
    }
    HexIdentifierIsCanonical(h, digits, formatted, h);
  }

  // Serial numbers

  const PLACEHOLDERS: set<string> := {
    "unknown", "none", "null", "n/a", "na", "not specified",
    "default", "default string", "to be filled by o.e.m.", "123456789",
    "0123456789", "serial", "serialnumber"
  }

  function Lowered(s: string): string {
    seq(|s|, i requires 0 <= i < |s| => Lower(s[i]))
  }

  predicate Printable(c: char) {
    32 <= c as int < 127
  }

  /** Text that can tell one device from another. */
  predicate Trustworthy(text: Option<string>) {
    && text.Some? && text.value != ""
    && text.value[0] != ' ' && text.value[|text.value| - 1] != ' '
    && (forall i :: 0 <= i < |text.value| ==> Printable(text.value[i]))
    && Lowered(text.value) !in PLACEHOLDERS
    && !Only(Lowered(text.value), '0') && !Only(Lowered(text.value), 'f')
  }

  /** A word that stands for a missing serial number or model, in whatever case. */
  predicate StandsIn(s: string) {
    || Matches(s, "unknown") || Matches(s, "none") || Matches(s, "null") || Matches(s, "n/a") || Matches(s, "na")
    || Matches(s, "not specified") || Matches(s, "default") || Matches(s, "default string") || Matches(s, "to be filled by o.e.m.")
    || Matches(s, "123456789") || Matches(s, "0123456789") || Matches(s, "serial") || Matches(s, "serialnumber")
  }

  lemma StandsInIs(s: string)
    ensures StandsIn(s) <==> Lowered(s) in PLACEHOLDERS
  {
    hide Lowered, Matches;
    forall p ensures Matches(s, p) <==> Lowered(s) == p {
      MatchesIs(s, p);
    }
  }

  lemma RunsAre(s: string)
    ensures Only(Lowered(s), '0') <==> forall i :: 0 <= i < |s| ==> s[i] == '0'
    ensures Only(Lowered(s), 'f') <==> forall i :: 0 <= i < |s| ==> s[i] == 'f' || s[i] == 'F'
  {
    forall i | 0 <= i < |s| ensures (Lowered(s)[i] == '0' <==> s[i] == '0') && (Lowered(s)[i] == 'f' <==> s[i] == 'f' || s[i] == 'F') {
    }
  }

  /** Text is trusted exactly when it is printable, is not padded, and is no stand-in and no
      run of zeros or of the letter f. */
  lemma TrustworthyIs(s: string)
    ensures Trustworthy(Some(s)) <==>
      && s != "" && s[0] != ' ' && s[|s| - 1] != ' ' && !StandsIn(s)
      && (forall i :: 0 <= i < |s| ==> ' ' <= s[i] <= '~')
      && (exists i :: 0 <= i < |s| && s[i] != '0')
      && (exists i :: 0 <= i < |s| && s[i] != 'f' && s[i] != 'F')
  {
    StandsInIs(s);
    RunsAre(s);
    hide Lowered, Only, StandsIn;
  }

  /** `s` is `p` but for the case of its letters. */
  predicate Matches(s: string, p: string) {
    |s| == |p| && forall i :: 0 <= i < |s| ==> (s[i] == p[i] && !('A' <= p[i] <= 'Z')) || ('A' <= s[i] <= 'Z' && s[i] - 'A' + 'a' == p[i])
  }

  lemma MatchesIs(s: string, p: string)
    ensures Matches(s, p) <==> Lowered(s) == p
  {
    forall i | 0 <= i < |s| && i < |p| ensures Lowered(s)[i] == p[i] <==>
      (s[i] == p[i] && !('A' <= p[i] <= 'Z')) || ('A' <= s[i] <= 'Z' && s[i] - 'A' + 'a' == p[i])
    {
    }
  }

  method IsTrustworthy(text: Option<string>) returns (result: bool)
    ensures result == Trustworthy(text)
  {
    if text.None? || text.value == "" || text.value[0] == ' ' || text.value[|text.value| - 1] == ' ' {
      return false;
    }
    var lower := "";
    for i := 0 to |text.value|
      invariant |lower| == i
      invariant forall j :: 0 <= j < i ==> lower[j] == Lower(text.value[j]) && Printable(text.value[j])
    {
      if !Printable(text.value[i]) {
        return false;
      }
      lower := lower + [Lower(text.value[i])];
    }
    assert lower == Lowered(text.value);
    result := lower !in PLACEHOLDERS && !Only(lower, '0') && !Only(lower, 'f');
  }

  // The fallback fingerprint

  /** The length, a colon, the text. */
  function Component(value: string): string {
    Decimal(|value|) + (":" + value)
  }

  function Fingerprint(serial: string, model: string, capacity: nat): string {
    "prod:serial:" + (Component(serial) + (Component(model) + (":" + Decimal(capacity))))
  }

  lemma ComponentFree(a: string, b: string, x: string, y: string)
    requires Component(a) + x == Component(b) + y
    ensures a == b && x == y
  {
    assert Component(a) + x == Decimal(|a|) + (":" + a + x);
    assert Component(b) + y == Decimal(|b|) + (":" + b + y);
    DecimalPrefix(|a|, |b|, ":" + a + x, ":" + b + y);
    var n := |a|;
    assert (":" + a + x)[1..n + 1] == a && (":" + b + y)[1..n + 1] == b;
    assert (":" + a + x)[n + 1..] == x && (":" + b + y)[n + 1..] == y;
  }

  /** Fingerprints are equal only for the same serial number, model and capacity. */
  lemma FingerprintInjective(serial: string, model: string, capacity: nat, serial': string, model': string, capacity': nat)
    requires Fingerprint(serial, model, capacity) == Fingerprint(serial', model', capacity')
    ensures serial == serial' && model == model' && capacity == capacity'
  {
    var x, x' := Component(model) + (":" + Decimal(capacity)), Component(model') + (":" + Decimal(capacity'));
    var p := "prod:serial:";
    assert (p + (Component(serial) + x))[|p|..] == Component(serial) + x;
    assert (p + (Component(serial') + x'))[|p|..] == Component(serial') + x';
    ComponentFree(serial, serial', x, x');
    ComponentFree(model, model', ":" + Decimal(capacity), ":" + Decimal(capacity'));
    assert (":" + Decimal(capacity))[1..] == Decimal(capacity) && (":" + Decimal(capacity'))[1..] == Decimal(capacity');
    DecimalInjective(capacity, capacity');
  }

  // Paths

  predicate Contains(s: string, part: string) {
    exists i :: 0 <= i <= |s| - |part| && PartAt(s, part, i)
  }

  predicate PartAt(s: string, part: string, i: nat)
    requires i <= |s| - |part|
  {
    s[i..i + |part|] == part
  }

  /** A usable device path: below /dev/, in normal form, without control characters. */
  predicate ValidPath(path: Option<string>) {
    && path.Some? && "/dev/" <= path.value && |path.value| > 5
    && path.value[|path.value| - 1] != '/' && !Contains(path.value, "//")
    && !Contains(path.value + "/", "/../") && !Contains(path.value + "/", "/./")
    && forall i :: 0 <= i < |path.value| ==> path.value[i] as int >= 32 && path.value[i] as int != 127
  }

  /** The characters between a slash at `i` and the next slash, or the end, at `j`. */
  predicate Segment(p: string, i: nat, j: nat) {
    i < j <= |p| && p[i] == '/' && (j == |p| || p[j] == '/') && forall k :: i < k < j ==> p[k] != '/'
  }

  ghost predicate NoSegment(p: string, part: string) {
    forall i: nat, j: nat :: Segment(p, i, j) ==> p[i + 1..j] != part
  }

  /** A part between slashes is found where the path, closed by a slash, has it. */
  lemma DotSegments(p: string, dots: string)
    requires dots == "." || dots == ".."
    ensures Contains(p + "/", "/" + dots + "/") <==> !NoSegment(p, dots)
  {
    hide PartAt;
    if Contains(p + "/", "/" + dots + "/") {
      var i: nat :| i <= |p + "/"| - |"/" + dots + "/"| && PartAt(p + "/", "/" + dots + "/", i);
      SegmentOfPart(p, dots, i);
    }
    if !NoSegment(p, dots) {
      var i: nat, j: nat :| Segment(p, i, j) && p[i + 1..j] == dots;
      PartOfSegment(p, dots, i, j);
    }
  }

  lemma SegmentOfPart(p: string, dots: string, i: nat)
    requires (dots == "." || dots == "..") && i <= |p + "/"| - |"/" + dots + "/"| && PartAt(p + "/", "/" + dots + "/", i)
    ensures Segment(p, i, i + |dots| + 1) && p[i + 1..i + |dots| + 1] == dots
  {
    var closed, n := p + "/", |dots|;
    var found := closed[i..i + |"/" + dots + "/"|];
    assert found[0] == closed[i] && found[1] == closed[i + 1] && found[n] == closed[i + n] && found[n + 1] == closed[i + n + 1];
  }

  lemma PartOfSegment(p: string, dots: string, i: nat, j: nat)
    requires Segment(p, i, j) && p[i + 1..j] == dots
    ensures |"/" + dots + "/"| + i <= |p + "/"| && PartAt(p + "/", "/" + dots + "/", i)
  {
    var closed, part := p + "/", "/" + dots + "/";
    assert closed[i..i + |part|] == [p[i]] + p[i + 1..j] + [closed[j]];
  }

  lemma EmptySegments(p: string)
    ensures (p != "" && p[|p| - 1] == '/') || Contains(p, "//") <==> !NoSegment(p, "")
  {
    if Contains(p, "//") {
      var i: nat :| i <= |p| - 2 && PartAt(p, "//", i);
      assert p[i..i + 2][0] == p[i] && p[i..i + 2][1] == p[i + 1];
      assert Segment(p, i, i + 1) && p[i + 1..i + 1] == "";
    }
    if p != "" && p[|p| - 1] == '/' {
      assert Segment(p, |p| - 1, |p|) && p[|p|..|p|] == "";
    }
    if !NoSegment(p, "") {
      var i: nat, j: nat :| Segment(p, i, j) && p[i + 1..j] == "";
      assert j == i + 1;
      if j < |p| {
        assert p[i..i + 2] == "//";
        assert PartAt(p, "//", i);
      }
    }
  }

  /** A path is usable exactly when it is below /dev/, none of its parts between slashes is
      empty, `.` or `..`, and it has no control characters. */
  lemma ValidPathIs(p: string)
    ensures ValidPath(Some(p)) <==>
      && "/dev/" <= p && NoSegment(p, "") && NoSegment(p, ".") && NoSegment(p, "..")
      && forall i :: 0 <= i < |p| ==> p[i] as int >= 32 && p[i] as int != 127
  {
    EmptySegments(p);
    DotSegments(p, ".");
    DotSegments(p, "..");
    hide Contains, NoSegment;
    assert "/" + "." + "/" == "/./" && "/" + ".." + "/" == "/../";
    if "/dev/" <= p && |p| == 5 {
      assert p == "/dev/" && p[4] == '/';
    }
  }
}
