/** The orders in which the program keeps its lists, member by member. */
module OrderTheorems {
  import opened Text
  import opened Inventory
  import opened Canonical
  import opened IssueOrder
  import opened Backing
  import opened Ownership

  /** Strings as the program compares them: character by character, a prefix first. */
  predicate Less(s: string, t: string) {
    t != "" && (s == "" || s[0] < t[0] || (s[0] == t[0] && Less(s[1..], t[1..])))
  }

  /** Nothing before something. */
  predicate LessName(a: Option<string>, b: Option<string>) {
    b.Some? && (a.None? || Less(a.value, b.value))
  }

  predicate LessNumber(a: Option<int>, b: Option<int>) {
    b.Some? && (a.None? || a.value < b.value)
  }

  lemma {:induction false} LessIs(s: string, t: string)
    ensures Before(Bytes(s), Bytes(t)) <==> Less(s, t)
  {
    hide Bytes;
    BytesParts(s);
    BytesParts(t);
    if s != "" && t != "" {
      LessIs(s[1..], t[1..]);
    }
  }

  lemma HeadKey(m: int, n: int, x: seq<int>, y: seq<int>)
    ensures Before([m] + x, [n] + y) <==> m < n || (m == n && Before(x, y))
  {
    assert ([m] + x)[1..] == x && ([n] + y)[1..] == y;
  }

  lemma {:induction false} SameHead(a: seq<int>, x: seq<int>, y: seq<int>)
    ensures Before(a + x, a + y) <==> Before(x, y)
  {
    if a == [] {
      assert a + x == x && a + y == y;
    } else {
      SameHead(a[1..], x, y);
      assert (a + x)[1..] == a[1..] + x && (a + y)[1..] == a[1..] + y;
    }
  }

  /** A string decides where it differs; else what follows does. */
  lemma NextKey(s: string, t: string, x: seq<int>, y: seq<int>)
    ensures Before(Bytes(s) + x, Bytes(t) + y) <==> Less(s, t) || (s == t && Before(x, y))
  {
    hide Bytes, Before, Less;
    LessIs(s, t);
    LessIs(t, s);
    if s == t {
      SameHead(Bytes(s), x, y);
      BeforeIrreflexive(Bytes(s));
    } else {
      BytesInjective();
      BeforeTotal(Bytes(s), Bytes(t));
      if Before(Bytes(s), Bytes(t)) {
        FirstKeyDecides(s, t, x, y);
      } else {
        FirstKeyDecides(t, s, y, x);
        BeforeOneWay(Bytes(t) + y, Bytes(s) + x);
      }
    }
  }

  lemma NextName(a: Option<string>, b: Option<string>, x: seq<int>, y: seq<int>)
    ensures Before(NameKey(a) + x, NameKey(b) + y) <==> LessName(a, b) || (a == b && Before(x, y))
  {
    hide Bytes, Before, Less;
    NameKeySplit(a, x);
    NameKeySplit(b, y);
    hide NameKey;
    HeadKey(if a.None? then 0 else 1, if b.None? then 0 else 1, if a.None? then x else Bytes(a.value) + x, if b.None? then y else Bytes(b.value) + y);
    if a.Some? && b.Some? {
      NextKey(a.value, b.value, x, y);
    }
  }

  lemma NextNumber(a: Option<int>, b: Option<int>, x: seq<int>, y: seq<int>)
    ensures Before(NumberKey(a) + x, NumberKey(b) + y) <==> LessNumber(a, b) || (a == b && Before(x, y))
  {
    hide Before;
    var m, n := if a.None? then 0 else a.value, if b.None? then 0 else b.value;
    var p, q := if a.None? then 0 else 1, if b.None? then 0 else 1;
    assert NumberKey(a) + x == [p] + ([m] + x) && NumberKey(b) + y == [q] + ([n] + y);
    HeadKey(p, q, [m] + x, [n] + y);
    HeadKey(m, n, x, y);
  }

  /** Reasons go by code, node, source and detail. */
  lemma ReasonOrder(a: Reason, b: Reason)
    ensures Before(ReasonKey(a), ReasonKey(b)) <==>
      || CodeRank(a.code) < CodeRank(b.code)
      || (a.code == b.code && Less(a.node, b.node))
      || (a.code == b.code && a.node == b.node && Less(a.source, b.source))
      || (a.code == b.code && a.node == b.node && a.source == b.source && Less(a.detail, b.detail))
  {
    hide Bytes, Before, Less, CodeRank;
    if CodeRank(a.code) == CodeRank(b.code) {
      CodeRankInjective(a.code, b.code);
    }
    var x, y := Bytes(a.source) + Bytes(a.detail), Bytes(b.source) + Bytes(b.detail);
    HeadKey(CodeRank(a.code), CodeRank(b.code), Bytes(a.node) + x, Bytes(b.node) + y);
    NextKey(a.node, b.node, x, y);
    NextKey(a.source, b.source, Bytes(a.detail), Bytes(b.detail));
    LessIs(a.detail, b.detail);
  }

  /** Claims go by consumer, use, source and detail. */
  lemma ClaimOrder(a: Claim, b: Claim)
    ensures Before(ClaimKey(a), ClaimKey(b)) <==>
      || Less(a.consumer, b.consumer)
      || (a.consumer == b.consumer && UseRank(a.use) < UseRank(b.use))
      || (a.consumer == b.consumer && a.use == b.use && Less(a.source, b.source))
      || (a.consumer == b.consumer && a.use == b.use && a.source == b.source && Less(a.detail, b.detail))
  {
    hide Bytes, Before, Less, UseRank;
    if UseRank(a.use) == UseRank(b.use) {
      UseRankInjective(a.use, b.use);
    }
    var x, y := Bytes(a.source) + Bytes(a.detail), Bytes(b.source) + Bytes(b.detail);
    NextKey(a.consumer, b.consumer, [UseRank(a.use)] + x, [UseRank(b.use)] + y);
    HeadKey(UseRank(a.use), UseRank(b.use), x, y);
    NextKey(a.source, b.source, Bytes(a.detail), Bytes(b.detail));
    LessIs(a.detail, b.detail);
  }

  /** Edges go by consumer, provider, relation and source. */
  lemma EdgeOrder(a: Edge, b: Edge)
    ensures Before(EdgeKey(a), EdgeKey(b)) <==>
      || Less(a.consumer, b.consumer)
      || (a.consumer == b.consumer && Less(a.provider, b.provider))
      || (a.consumer == b.consumer && a.provider == b.provider && Less(a.relation, b.relation))
      || (a.consumer == b.consumer && a.provider == b.provider && a.relation == b.relation && Less(a.source, b.source))
  {
    hide Bytes, Before, Less;
    var x, y := Bytes(a.relation) + Bytes(a.source), Bytes(b.relation) + Bytes(b.source);
    NextKey(a.consumer, b.consumer, Bytes(a.provider) + x, Bytes(b.provider) + y);
    NextKey(a.provider, b.provider, x, y);
    NextKey(a.relation, b.relation, Bytes(a.source), Bytes(b.source));
    LessIs(a.source, b.source);
  }

  lemma BlockRankInjective(a: BlockIssueCode, b: BlockIssueCode)
    requires BlockCodeRank(a) == BlockCodeRank(b)
    ensures a == b
  {
  }

  lemma DiscoveryRankInjective(a: DiscoveryIssueCode, b: DiscoveryIssueCode)
    requires DiscoveryCodeRank(a) == DiscoveryCodeRank(b)
    ensures a == b
  {
  }

  /** Inventory issues go by code, device and field. */
  lemma BlockIssueOrder(a: BlockIssue, b: BlockIssue)
    ensures Before(BlockIssueKey(a), BlockIssueKey(b)) <==>
      || BlockCodeRank(a.code) < BlockCodeRank(b.code)
      || (a.code == b.code && LessName(a.kernelName, b.kernelName))
      || (a.code == b.code && a.kernelName == b.kernelName && Less(a.field, b.field))
  {
    hide Bytes, Before, Less, NameKey, LessName, BlockCodeRank;
    if BlockCodeRank(a.code) == BlockCodeRank(b.code) {
      BlockRankInjective(a.code, b.code);
    }
    HeadKey(BlockCodeRank(a.code), BlockCodeRank(b.code), NameKey(a.kernelName) + Bytes(a.field), NameKey(b.kernelName) + Bytes(b.field));
    NextName(a.kernelName, b.kernelName, Bytes(a.field), Bytes(b.field));
    LessIs(a.field, b.field);
  }

  /** Discovery issues go by code, node, field, native error and mount. */
  lemma DiscoveryIssueOrder(a: DiscoveryIssue, b: DiscoveryIssue)
    ensures Before(DiscoveryIssueKey(a), DiscoveryIssueKey(b)) <==>
      || DiscoveryCodeRank(a.code) < DiscoveryCodeRank(b.code)
      || (a.code == b.code && Less(a.node, b.node))
      || (a.code == b.code && a.node == b.node && Less(a.field, b.field))
      || (a.code == b.code && a.node == b.node && a.field == b.field && LessNumber(a.nativeError, b.nativeError))
      || (a.code == b.code && a.node == b.node && a.field == b.field && a.nativeError == b.nativeError && LessNumber(a.mountId, b.mountId))
  {
    hide Bytes, Before, Less, NumberKey, LessNumber, DiscoveryCodeRank;
    if DiscoveryCodeRank(a.code) == DiscoveryCodeRank(b.code) {
      DiscoveryRankInjective(a.code, b.code);
    }
    var x, y := NumberKey(a.nativeError) + NumberKey(a.mountId), NumberKey(b.nativeError) + NumberKey(b.mountId);
    HeadKey(DiscoveryCodeRank(a.code), DiscoveryCodeRank(b.code), Bytes(a.node) + (Bytes(a.field) + x), Bytes(b.node) + (Bytes(b.field) + y));
    NextKey(a.node, b.node, Bytes(a.field) + x, Bytes(b.field) + y);
    NextKey(a.field, b.field, x, y);
    NextNumber(a.nativeError, b.nativeError, NumberKey(a.mountId), NumberKey(b.mountId));
    assert NumberKey(a.mountId) + [] == NumberKey(a.mountId) && NumberKey(b.mountId) + [] == NumberKey(b.mountId);
    NextNumber(a.mountId, b.mountId, [], []);
    NothingBefore();
  }

  lemma NothingBefore()
    ensures !Before([], [])
  {
  }
}
