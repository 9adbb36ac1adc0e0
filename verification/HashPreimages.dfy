/** The texts that the intent, evidence and decision digests are taken over (`intent-validator.ts`). */
module HashPreimages {
  import opened Common
  import opened Sorting
  import opened CanonicalJson

  function Ascii(s: string): (t: Text)
    requires forall i | 0 <= i < |s| :: s[i] < 128 as char
    ensures |t| == |s|
  {
    seq(|s|, i requires 0 <= i < |s| => (s[i] as int) as Unit)
  }

  /** JavaScript white space, as `trim` removes it. */
  predicate Blank(u: Unit) {
    || 9 <= u <= 13 || u == 32 || u == 160 || u == 0x1680 || 0x2000 <= u <= 0x200A
    || u == 0x2028 || u == 0x2029 || u == 0x202F || u == 0x205F || u == 0x3000 || u == 0xFEFF
  }

  function Trim(t: Text): Text
    decreases |t|
  {
    if t == [] then t
    else if Blank(t[0]) then Trim(t[1..])
    else if Blank(t[|t| - 1]) then Trim(t[..|t| - 1])
    else t
  }

  function Lower(t: Text): Text {
    seq(|t|, i requires 0 <= i < |t| => if 65 <= t[i] <= 90 then t[i] + 32 else t[i])
  }

  function NormalizeAddress(a: Text): Text { Lower(Trim(a)) }

  // ---- what normalising an address forgets ----

  /** The white space of ECMAScript: tabs, line ends, the byte order mark and the space separators. */
  const WHITE_SPACE: set<int> :=
    {9, 10, 11, 12, 13, 32, 160, 0x1680, 0x2000, 0x2001, 0x2002, 0x2003, 0x2004, 0x2005, 0x2006, 0x2007, 0x2008,
     0x2009, 0x200A, 0x2028, 0x2029, 0x202F, 0x205F, 0x3000, 0xFEFF}

  /** What stands between the outer white space of `a`. */
  predicate Inner(a: Text, i: nat, j: nat) {
    && i <= j <= |a| && (forall k | 0 <= k < |a| && !(i <= k < j) :: a[k] as int in WHITE_SPACE)
    && (i < j ==> a[i] as int !in WHITE_SPACE && a[j - 1] as int !in WHITE_SPACE)
  }

  /** The same units, but for the case of the letters A to Z. */
  predicate SameLetters(s: Text, t: Text) {
    |s| == |t| && forall i | 0 <= i < |s| ::
      || s[i] == t[i] || (65 <= s[i] <= 90 && t[i] == s[i] + 32) || (65 <= t[i] <= 90 && s[i] == t[i] + 32)
  }

  lemma {:induction false} TrimIsInner(a: Text, i: nat, j: nat)
    requires Inner(a, i, j)
    ensures Trim(a) == a[i..j]
    decreases |a|
  {
    BlankIsWhite();
    if a == [] {
    } else if Blank(a[0]) {
      var rest := a[1..];
      var k, l := if i == 0 then 0 else i - 1, if j == 0 then 0 else j - 1;
      assert Inner(rest, k, l);
      TrimIsInner(rest, k, l);
    } else if Blank(a[|a| - 1]) {
      assert j < |a|;
      assert Inner(a[..|a| - 1], i, j);
      TrimIsInner(a[..|a| - 1], i, j);
      assert a[..|a| - 1][i..j] == a[i..j];
    }
  }

  lemma BlankIsWhite()
    ensures forall u: Unit :: Blank(u) <==> u as int in WHITE_SPACE
  {
  }

  /** Every address has an inner part. */
  lemma {:induction false} InnerExists(a: Text)
    ensures exists i: nat, j: nat :: Inner(a, i, j)
    decreases |a|
  {
    if a == [] {
      assert Inner(a, 0, 0);
    } else if a[0] as int in WHITE_SPACE {
      InnerExists(a[1..]);
      var i: nat, j: nat :| Inner(a[1..], i, j);
      assert Inner(a, i + 1, j + 1);
    } else if a[|a| - 1] as int in WHITE_SPACE {
      InnerExists(a[..|a| - 1]);
      var i: nat, j: nat :| Inner(a[..|a| - 1], i, j);
      assert Inner(a, i, j);
    } else {
      assert Inner(a, 0, |a|);
    }
  }

  lemma LowerExact(s: Text, t: Text)
    ensures Lower(s) == Lower(t) <==> SameLetters(s, t)
  {
    if Lower(s) == Lower(t) {
      assert |s| == |Lower(s)| == |t|;
      forall i | 0 <= i < |s|
        ensures s[i] == t[i] || (65 <= s[i] <= 90 && t[i] == s[i] + 32) || (65 <= t[i] <= 90 && s[i] == t[i] + 32)
      {
        assert Lower(s)[i] == Lower(t)[i];
      }
    }
  }

  /** Two addresses normalise alike exactly when they agree up to outer white space and the case of ASCII letters. */
  lemma NormalizeExact(a: Text, b: Text, i: nat, j: nat, k: nat, l: nat)
    requires Inner(a, i, j) && Inner(b, k, l)
    ensures NormalizeAddress(a) == NormalizeAddress(b) <==> SameLetters(a[i..j], b[k..l])
  {
    TrimIsInner(a, i, j);
    TrimIsInner(b, k, l);
    LowerExact(a[i..j], b[k..l]);
  }

  datatype IntentParameters = IntentParameters(
    resourceType: Text,
    resourceId: Text,
    actionType: Text,
    chainId: Option<Text>,
    targetAddress: Option<Text>,
    amount: Option<Text>,
    asset: Option<Text>,
    protocol: Option<Text>)

  predicate ValidParameters(p: IntentParameters) {
    p.chainId.Some? ==> NumberToken(p.chainId.value)
  }

  /** Lower-casing, as a function of the text. */
  type Lowering = Text -> Text

  function NumberOrNull(n: Option<Text>): Value { if n.Some? then Number(n.value) else Null }

  function StrOrNull(s: Option<Text>): Value { if s.Some? then Str(s.value) else Null }

  /** The target address trimmed and lower-cased; how letters beyond ASCII lower-case is left to `lower`. */
  function NormalTarget(lower: Lowering, p: IntentParameters): Option<Text> {
    if p.targetAddress.Some? then Some(lower(Trim(p.targetAddress.value))) else None
  }

  function IntentObject(lower: Lowering, p: IntentParameters): seq<Entry> {
    [Entry(Ascii("resourceType"), Str(p.resourceType)),
     Entry(Ascii("resourceId"), Str(p.resourceId)),
     Entry(Ascii("actionType"), Str(p.actionType)),
     Entry(Ascii("chainId"), NumberOrNull(p.chainId)),
     Entry(Ascii("targetAddress"), StrOrNull(NormalTarget(lower, p))),
     Entry(Ascii("amount"), StrOrNull(p.amount)),
     Entry(Ascii("asset"), StrOrNull(p.asset)),
     Entry(Ascii("protocol"), StrOrNull(p.protocol))]
  }

  function IntentPreimage(lower: Lowering, p: IntentParameters): Text { Canonical(Obj(IntentObject(lower, p))) }

  /** Entries whose keys have pairwise distinct names. */
  lemma IntentObjectWellFormed(lower: Lowering, p: IntentParameters)
    requires ValidParameters(p)
    ensures WellFormed(Obj(IntentObject(lower, p)))
  {
    var keys := Keys(IntentObject(lower, p));
    assert keys[1][0] == 114 && keys[2][0] == 97;
    assert |keys[0]| == 12 && |keys[3]| == 7 && |keys[4]| == 13;
    assert |keys[5]| == 6 && |keys[6]| == 5 && |keys[7]| == 8;
    assert |keys[1]| == 10 && |keys[2]| == 10 && |keys| == 8;
  }

  /** Two objects with one meaning agree, field by field, on what they print. */
  lemma FieldAgrees(a: seq<Entry>, b: seq<Entry>, i: nat)
    requires |a| == |b| && i < |a| && a[i].key == b[i].key
    requires WellFormed(Obj(a)) && WellFormed(Obj(b)) && Shown(a[i]) && Shown(b[i])
    requires MeaningEntries(a) == MeaningEntries(b)
    ensures MeaningOf(a[i].value) == MeaningOf(b[i].value)
  {
    MeaningEntry(a, a[i]);
    MeaningEntry(b, b[i]);
  }

  ghost predicate SameFields(a: seq<Entry>, b: seq<Entry>) {
    |a| == |b| && forall i | 0 <= i < |a| :: a[i].key == b[i].key && Shown(a[i]) && Shown(b[i])
  }

  ghost predicate FieldsMeanTheSame(a: seq<Entry>, b: seq<Entry>) {
    |a| == |b| && forall i | 0 <= i < |a| :: MeaningOf(a[i].value) == MeaningOf(b[i].value)
  }

  lemma FieldsAgree(a: seq<Entry>, b: seq<Entry>)
    requires SameFields(a, b) && WellFormed(Obj(a)) && WellFormed(Obj(b))
    requires Canonical(Obj(a)) == Canonical(Obj(b))
    ensures FieldsMeanTheSame(a, b)
  {
    CanonicalFaithful(Obj(a), Obj(b));
    forall i | 0 <= i < |a| ensures MeaningOf(a[i].value) == MeaningOf(b[i].value) {
      assert a[i].key == b[i].key;
      FieldAgrees(a, b, i);
    }
  }

  lemma NullableShown(lower: Lowering, p: IntentParameters)
    ensures !NumberOrNull(p.chainId).Undefined? && !StrOrNull(NormalTarget(lower, p)).Undefined?
    ensures !StrOrNull(p.amount).Undefined? && !StrOrNull(p.asset).Undefined?
    ensures !StrOrNull(p.protocol).Undefined?
  {
  }

  lemma IntentFieldsComparable(lower: Lowering, p: IntentParameters, q: IntentParameters)
    ensures SameFields(IntentObject(lower, p), IntentObject(lower, q))
  {
    hide Ascii, NormalTarget, NumberOrNull, StrOrNull;
    NullableShown(lower, p);
    NullableShown(lower, q);
  }

  /** The request up to how its target address is spelt. */
  function UpToSpelling(lower: Lowering, p: IntentParameters): IntentParameters {
    p.(targetAddress := NormalTarget(lower, p))
  }

  lemma SameRequestSameObject(lower: Lowering, p: IntentParameters, q: IntentParameters)
    requires UpToSpelling(lower, p) == UpToSpelling(lower, q)
    ensures IntentObject(lower, p) == IntentObject(lower, q)
  {
    hide NormalTarget, Ascii;
    var a, b := UpToSpelling(lower, p), UpToSpelling(lower, q);
    assert a.chainId == b.chainId && a.amount == b.amount && a.asset == b.asset && a.protocol == b.protocol;
  }

  /**
   * An intent's digest text is the same exactly when the request is, up to how its address is spelt;
   * whatever lower-casing does.
   */
  lemma IntentPreimageFaithful(lower: Lowering, p: IntentParameters, q: IntentParameters)
    requires ValidParameters(p) && ValidParameters(q)
    ensures IntentPreimage(lower, p) == IntentPreimage(lower, q) <==> UpToSpelling(lower, p) == UpToSpelling(lower, q)
  {
    hide IntentObject, Canonical, WellFormed, MeaningOf, UpToSpelling, SameFields;
    if IntentPreimage(lower, p) == IntentPreimage(lower, q) {
      IntentObjectWellFormed(lower, p);
      IntentObjectWellFormed(lower, q);
      IntentFieldsComparable(lower, p, q);
      FieldsAgree(IntentObject(lower, p), IntentObject(lower, q));
      IntentFields(lower, p, q);
    }
    if UpToSpelling(lower, p) == UpToSpelling(lower, q) {
      SameRequestSameObject(lower, p, q);
    }
  }

  /**
   * Spelled out: two requests are hashed from one text exactly when they agree on everything but the target address,
   * and both have no target, or targets that agree between their outer white space but for the case of A to Z.
   */
  lemma IntentPreimageExact(p: IntentParameters, q: IntentParameters, i: nat, j: nat, k: nat, l: nat)
    requires ValidParameters(p) && ValidParameters(q)
    requires p.targetAddress.Some? ==> Inner(p.targetAddress.value, i, j)
    requires q.targetAddress.Some? ==> Inner(q.targetAddress.value, k, l)
    ensures IntentPreimage(Lower, p) == IntentPreimage(Lower, q) <==>
      && p.(targetAddress := None) == q.(targetAddress := None)
      && (p.targetAddress.None? <==> q.targetAddress.None?)
      && (p.targetAddress.Some? && q.targetAddress.Some? ==>
            SameLetters(p.targetAddress.value[i..j], q.targetAddress.value[k..l]))
  {
    hide IntentPreimage, Lower, Trim, SameLetters;
    IntentPreimageFaithful(Lower, p, q);
    if p.targetAddress.Some? && q.targetAddress.Some? {
      NormalizeExact(p.targetAddress.value, q.targetAddress.value, i, j, k, l);
    }
  }

  lemma IntentFields(lower: Lowering, p: IntentParameters, q: IntentParameters)
    requires FieldsMeanTheSame(IntentObject(lower, p), IntentObject(lower, q))
    ensures UpToSpelling(lower, p) == UpToSpelling(lower, q)
  {
    hide NormalTarget, Ascii;
    var a, b := IntentObject(lower, p), IntentObject(lower, q);
    assert MeaningOf(a[0].value) == MeaningOf(b[0].value);
    assert MeaningOf(a[1].value) == MeaningOf(b[1].value);
    assert MeaningOf(a[2].value) == MeaningOf(b[2].value);
    assert MeaningOf(a[3].value) == MeaningOf(b[3].value);
    assert MeaningOf(a[4].value) == MeaningOf(b[4].value);
    assert MeaningOf(a[5].value) == MeaningOf(b[5].value);
    assert MeaningOf(a[6].value) == MeaningOf(b[6].value);
    assert MeaningOf(a[7].value) == MeaningOf(b[7].value);
  }

  // ---- evidence snapshots ----

  function Strings(ids: seq<Text>): seq<Value> {
    seq(|ids|, i requires 0 <= i < |ids| => Str(ids[i]))
  }

  function EvidencePreimage(ids: seq<Text>): Text { Canonical(Arr(Strings(Sort(ids, TextLe)))) }

  /** A snapshot's digest text forgets the order of its evidence ids and nothing else. */
  lemma EvidencePreimageFaithful(xs: seq<Text>, ys: seq<Text>)
    ensures EvidencePreimage(xs) == EvidencePreimage(ys) <==> multiset(xs) == multiset(ys)
  {
    TextOrder();
    var a, b := Sort(xs, TextLe), Sort(ys, TextLe);
    if multiset(xs) == multiset(ys) {
      SortPermutation(xs, ys, TextLe);
    } else if EvidencePreimage(xs) == EvidencePreimage(ys) {
      CanonicalFaithful(Arr(Strings(a)), Arr(Strings(b)));
      MeaningItemsPointwise(Strings(a));
      MeaningItemsPointwise(Strings(b));
      forall i | 0 <= i < |a| ensures a[i] == b[i] {
        assert MeaningItems(Strings(a))[i] == MStr(a[i]);
        assert MeaningItems(Strings(b))[i] == MStr(b[i]);
      }
      assert a == b;
      SortCorrect(xs, TextLe);
      SortCorrect(ys, TextLe);
    }
  }

  // ---- decision payloads ----

  datatype DecisionPayload = DecisionPayload(
    result: Text,
    reasonCode: Text,
    policyVersion: Text,
    riskScore: Text,
    parametersHash: Text)

  function PayloadObject(d: DecisionPayload): seq<Entry> {
    [Entry(Ascii("result"), Str(d.result)),
     Entry(Ascii("reasonCode"), Str(d.reasonCode)),
     Entry(Ascii("policyVersion"), Str(d.policyVersion)),
     Entry(Ascii("riskScore"), Number(d.riskScore)),
     Entry(Ascii("parametersHash"), Str(d.parametersHash))]
  }

  function DecisionPreimage(d: DecisionPayload): Text { Canonical(Obj(PayloadObject(d))) }

  lemma PayloadObjectWellFormed(d: DecisionPayload)
    requires NumberToken(d.riskScore)
    ensures WellFormed(Obj(PayloadObject(d)))
  {
    var keys := Keys(PayloadObject(d));
    assert |keys[0]| == 6 && |keys[1]| == 10 && |keys[2]| == 13 && |keys[3]| == 9 && |keys[4]| == 14;
  }

  lemma PayloadFieldsComparable(d: DecisionPayload, e: DecisionPayload)
    ensures SameFields(PayloadObject(d), PayloadObject(e))
  {
    hide Ascii;
  }

  lemma PayloadFields(d: DecisionPayload, e: DecisionPayload)
    requires FieldsMeanTheSame(PayloadObject(d), PayloadObject(e))
    ensures d == e
  {
    hide Ascii;
    var a, b := PayloadObject(d), PayloadObject(e);
    assert MeaningOf(a[0].value) == MeaningOf(b[0].value);
    assert MeaningOf(a[1].value) == MeaningOf(b[1].value);
    assert MeaningOf(a[2].value) == MeaningOf(b[2].value);
    assert MeaningOf(a[3].value) == MeaningOf(b[3].value);
    assert MeaningOf(a[4].value) == MeaningOf(b[4].value);
  }

  /** Editing any field of a stored decision changes the text its digest is taken over. */
  lemma DecisionPreimageFaithful(d: DecisionPayload, e: DecisionPayload)
    requires NumberToken(d.riskScore) && NumberToken(e.riskScore)
    ensures DecisionPreimage(d) == DecisionPreimage(e) <==> d == e
  {
    hide PayloadObject, Canonical, WellFormed, MeaningOf, SameFields;
    if DecisionPreimage(d) == DecisionPreimage(e) {
      PayloadObjectWellFormed(d);
      PayloadObjectWellFormed(e);
      PayloadFieldsComparable(d, e);
      FieldsAgree(PayloadObject(d), PayloadObject(e));
      PayloadFields(d, e);
    }
  }
}
