/**
 * Canonical JSON over UTF-16 code units, and the decoder that shows no two meanings share a text.
 * String quoting follows section 7 of RFC 8259.
 */
module CanonicalJson {
  import opened Common
  import opened Sorting

  /** A UTF-16 code unit, what a JavaScript string is made of. */
  newtype Unit = x: int | 0 <= x < 0x1_0000

  type Text = seq<Unit>

  /**
   * A JavaScript value as `canonicalJson` sees it. A finite number is its shortest decimal token;
   * an object is its entries in insertion order.
   */
  datatype Value =
    | Undefined
    | Null
    | Bool(b: bool)
    | Number(token: Text)
    | NonFinite
    | Str(text: Text)
    | Arr(items: seq<Value>)
    | Obj(entries: seq<Entry>)

  datatype Entry = Entry(key: Text, value: Value)

  /** What a value means as JSON: key order forgotten, absent and unrepresentable values resolved. */
  datatype Meaning =
    | MNull
    | MBool(b: bool)
    | MNumber(token: Text)
    | MStr(text: Text)
    | MArr(items: seq<Meaning>)
    | MObj(entries: map<Text, Meaning>)

  const QUOTE: Unit := 34
  const BACKSLASH: Unit := 92
  const COMMA: Unit := 44
  const COLON: Unit := 58
  const OPEN_ARR: Unit := 91
  const CLOSE_ARR: Unit := 93
  const OPEN_OBJ: Unit := 123
  const CLOSE_OBJ: Unit := 125
  const NULL_TEXT: Text := [110, 117, 108, 108]
  const TRUE_TEXT: Text := [116, 114, 117, 101]
  const FALSE_TEXT: Text := [102, 97, 108, 115, 101]

  /** Digits, signs, point and exponent: what a number token is written with. */
  predicate NumberUnit(u: Unit) {
    48 <= u <= 57 || u == 43 || u == 45 || u == 46 || u == 101
  }

  predicate NumberToken(t: Text) {
    t != [] && (48 <= t[0] <= 57 || t[0] == 45) && forall u | u in t :: NumberUnit(u)
  }

  function Keys(entries: seq<Entry>): seq<Text> {
    seq(|entries|, i requires 0 <= i < |entries| => entries[i].key)
  }

  /** What every JavaScript value satisfies: number tokens are numbers, keys are distinct. */
  ghost predicate WellFormed(v: Value) {
    match v
    case Number(t) => NumberToken(t)
    case Arr(items) => forall x | x in items :: WellFormed(x)
    case Obj(entries) => NoDuplicates(Keys(entries)) && forall e | e in entries :: WellFormed(e.value)
    case _ => true
  }

  // ---- quoting ----

  predicate HighSurrogate(u: Unit) { 0xD800 <= u <= 0xDBFF }

  predicate LowSurrogate(u: Unit) { 0xDC00 <= u <= 0xDFFF }

  function HexDigit(n: int): Unit
    requires 0 <= n < 16
  {
    (if n < 10 then 48 + n else 87 + n) as Unit
  }

  function HexEscape(u: Unit): Text {
    var n := u as int;
    [BACKSLASH, 117, HexDigit(n / 4096), HexDigit(n / 256 % 16), HexDigit(n / 16 % 16), HexDigit(n % 16)]
  }

  /** The two-character escapes: backspace, tab, line feed, form feed, return, quote, backslash. */
  function ShortEscape(u: Unit): Option<Unit> {
    if u == 8 then Some(98) else if u == 9 then Some(116) else if u == 10 then Some(110)
    else if u == 12 then Some(102) else if u == 13 then Some(114)
    else if u == QUOTE then Some(QUOTE) else if u == BACKSLASH then Some(BACKSLASH)
    else None
  }

  /** One unit on its own: short escape, hex escape for controls and lone surrogates, else itself. */
  function EscapeUnit(u: Unit): Text {
    if ShortEscape(u).Some? then [BACKSLASH, ShortEscape(u).value]
    else if u < 32 || HighSurrogate(u) || LowSurrogate(u) then HexEscape(u)
    else [u]
  }

  function Escape(s: Text): Text {
    if s == [] then []
    else if |s| > 1 && HighSurrogate(s[0]) && LowSurrogate(s[1]) then s[..2] + Escape(s[2..])
    else EscapeUnit(s[0]) + Escape(s[1..])
  }

  function Quote(s: Text): Text { [QUOTE] + Escape(s) + [QUOTE] }

  // ---- printing ----

  function UnitCode(u: Unit): int { u as int }

  predicate TextLe(a: Text, b: Text) { LexLe(a, b, UnitCode) }

  function Printed(entries: seq<Entry>): seq<(Text, Text)>
    ensures |Printed(entries)| <= |entries|
  {
    if entries == [] then []
    else if entries[0].value.Undefined? then Printed(entries[1..])
    else [(entries[0].key, Canonical(entries[0].value))] + Printed(entries[1..])
  }

  function PrintedItems(items: seq<Value>): seq<Text>
    ensures |PrintedItems(items)| == |items|
  {
    if items == [] then [] else [Canonical(items[0])] + PrintedItems(items[1..])
  }

  function Joined(parts: seq<Text>): Text {
    if parts == [] then []
    else if |parts| == 1 then parts[0]
    else parts[0] + [COMMA] + Joined(parts[1..])
  }

  predicate KeyLe(a: (Text, Text), b: (Text, Text)) { TextLe(a.0, b.0) }

  function Member(e: (Text, Text)): Text { Quote(e.0) + [COLON] + e.1 }

  function Members(entries: seq<(Text, Text)>): seq<Text>
    ensures |Members(entries)| == |entries|
  {
    seq(|entries|, i requires 0 <= i < |entries| => Member(entries[i]))
  }

  /** `canonicalJson`: keys sorted by code unit, absent entries dropped, no incidental whitespace. */
  function Canonical(v: Value): Text {
    match v
    case Undefined => NULL_TEXT
    case Null => NULL_TEXT
    case NonFinite => NULL_TEXT
    case Bool(b) => if b then TRUE_TEXT else FALSE_TEXT
    case Number(t) => t
    case Str(s) => Quote(s)
    case Arr(items) => [OPEN_ARR] + Joined(PrintedItems(items)) + [CLOSE_ARR]
    case Obj(entries) => [OPEN_OBJ] + Joined(Members(Sort(Printed(entries), KeyLe))) + [CLOSE_OBJ]
  }

  // ---- meaning ----

  function MeaningOf(v: Value): Meaning {
    match v
    case Undefined => MNull
    case Null => MNull
    case NonFinite => MNull
    case Bool(b) => MBool(b)
    case Number(t) => MNumber(t)
    case Str(s) => MStr(s)
    case Arr(items) => MArr(MeaningItems(items))
    case Obj(entries) => MObj(MeaningEntries(entries))
  }

  function MeaningItems(items: seq<Value>): seq<Meaning> {
    if items == [] then [] else [MeaningOf(items[0])] + MeaningItems(items[1..])
  }

  function MeaningEntries(entries: seq<Entry>): map<Text, Meaning> {
    if entries == [] then map[]
    else if entries[0].value.Undefined? then MeaningEntries(entries[1..])
    else MeaningEntries(entries[1..])[entries[0].key := MeaningOf(entries[0].value)]
  }

  // ---- the decoder ----

  function HexValue(u: Unit): Option<int> {
    if 48 <= u <= 57 then Some(u as int - 48)
    else if 97 <= u <= 102 then Some(u as int - 87)
    else None
  }

  function Unescape(u: Unit): Option<Unit> {
    if u == 98 then Some(8) else if u == 116 then Some(9) else if u == 110 then Some(10)
    else if u == 102 then Some(12) else if u == 114 then Some(13)
    else if u == QUOTE then Some(QUOTE) else if u == BACKSLASH then Some(BACKSLASH)
    else None
  }

  /** The unit a text starts with, escaped or not, and what follows it. */
  function ParseUnit(t: Text): (r: Option<(Unit, Text)>)
    ensures r.Some? ==> |r.value.1| < |t|
  {
    if t == [] || t[0] == QUOTE || t[0] < 32 then None
    else if t[0] != BACKSLASH then Some((t[0], t[1..]))
    else if |t| >= 6 && t[1] == 117 then
      var a, b, c, d := HexValue(t[2]), HexValue(t[3]), HexValue(t[4]), HexValue(t[5]);
      if a.Some? && b.Some? && c.Some? && d.Some? then
        Some((HexNumber(a.value, b.value, c.value, d.value), t[6..]))
      else None
    else if |t| >= 2 && Unescape(t[1]).Some? then Some((Unescape(t[1]).value, t[2..]))
    else None
  }

  function HexNumber(a: int, b: int, c: int, d: int): Unit {
    if 0 <= a < 16 && 0 <= b < 16 && 0 <= c < 16 && 0 <= d < 16 then
      (a * 4096 + b * 256 + c * 16 + d) as Unit
    else 0
  }

  /** The rest of a string literal whose opening quote has been read. */
  function ParseString(t: Text): (r: Option<(Text, Text)>)
    ensures r.Some? ==> |r.value.1| < |t|
    decreases |t|
  {
    if t != [] && t[0] == QUOTE then Some(([], t[1..]))
    else
      match ParseUnit(t)
      case None => None
      case Some((u, rest)) =>
        match ParseString(rest)
        case None => None
        case Some((s, after)) => Some(([u] + s, after))
  }

  /** How many number units a text starts with. */
  function NumberSpan(t: Text): (n: nat)
    ensures n <= |t|
  {
    if t != [] && NumberUnit(t[0]) then 1 + NumberSpan(t[1..]) else 0
  }

  function ParseValue(t: Text): (r: Option<(Meaning, Text)>)
    ensures r.Some? ==> |r.value.1| < |t|
    decreases |t|, 1
  {
    if NULL_TEXT <= t then Some((MNull, t[4..]))
    else if TRUE_TEXT <= t then Some((MBool(true), t[4..]))
    else if FALSE_TEXT <= t then Some((MBool(false), t[5..]))
    else if t == [] then None
    else if t[0] == QUOTE then
      var s := ParseString(t[1..]);
      if s.Some? then Some((MStr(s.value.0), s.value.1)) else None
    else if t[0] == OPEN_ARR then
      if |t| > 1 && t[1] == CLOSE_ARR then Some((MArr([]), t[2..])) else
      var a := ParseItems(t[1..]);
      if a.Some? then Some((MArr(a.value.0), a.value.1)) else None
    else if t[0] == OPEN_OBJ then
      if |t| > 1 && t[1] == CLOSE_OBJ then Some((MObj(map[]), t[2..])) else
      var o := ParseMembers(t[1..]);
      if o.Some? then Some((MObj(o.value.0), o.value.1)) else None
    else if NumberSpan(t) > 0 then Some((MNumber(t[..NumberSpan(t)]), t[NumberSpan(t)..]))
    else None
  }

  /** Array items up to and including the closing bracket. */
  function ParseItems(t: Text): (r: Option<(seq<Meaning>, Text)>)
    ensures r.Some? ==> |r.value.1| < |t|
    decreases |t|, 2
  {
    var head := ParseValue(t);
    if head.None? then None else
    var after := head.value.1;
    if after == [] then None
    else if after[0] == CLOSE_ARR then Some(([head.value.0], after[1..]))
    else if after[0] != COMMA then None
    else
      var tail := ParseItems(after[1..]);
      if tail.Some? then Some(([head.value.0] + tail.value.0, tail.value.1)) else None
  }

  /** Object members up to and including the closing brace. */
  function ParseMembers(t: Text): (r: Option<(map<Text, Meaning>, Text)>)
    ensures r.Some? ==> |r.value.1| < |t|
    decreases |t|, 2
  {
    var head := ParseMember(t);
    if head.None? then None else
    var (key, value, after) := head.value;
    if after == [] then None
    else if after[0] == CLOSE_OBJ then Some((map[key := value], after[1..]))
    else if after[0] != COMMA then None
    else
      var tail := ParseMembers(after[1..]);
      if tail.Some? then Some((tail.value.0[key := value], tail.value.1)) else None
  }

  function ParseMember(t: Text): (r: Option<(Text, Meaning, Text)>)
    ensures r.Some? ==> |r.value.2| < |t|
    decreases |t|, 0
  {
    if t == [] || t[0] != QUOTE then None else
    var key := ParseString(t[1..]);
    if key.None? || key.value.1 == [] || key.value.1[0] != COLON then None else
    var value := ParseValue(key.value.1[1..]);
    if value.Some? then Some((key.value.0, value.value.0, value.value.1)) else None
  }

  // ---- decoding undoes quoting ----

  lemma HexRoundTrip(u: Unit, rest: Text)
    ensures ParseUnit(HexEscape(u) + rest) == Some((u, rest))
  {
    var n := u as int;
    HexDigits(n);
    forall d | 0 <= d < 16 ensures HexValue(HexDigit(d)) == Some(d) {}
    var t := HexEscape(u) + rest;
    assert t[6..] == rest;
  }

  lemma HexDigits(n: int)
    requires 0 <= n < 0x1_0000
    ensures 0 <= n / 4096 < 16
    ensures n / 4096 * 4096 + n / 256 % 16 * 256 + n / 16 % 16 * 16 + n % 16 == n
  {
    assert n / 4096 == n / 256 / 16;
    assert n / 256 == n / 16 / 16;
  }

  lemma UnitRoundTrip(u: Unit, rest: Text)
    ensures ParseUnit(EscapeUnit(u) + rest) == Some((u, rest))
    ensures (EscapeUnit(u) + rest)[0] != QUOTE
  {
    if ShortEscape(u).None? && (u < 32 || HighSurrogate(u) || LowSurrogate(u)) {
      HexRoundTrip(u, rest);
    } else {
      var t := EscapeUnit(u) + rest;
      assert t[|EscapeUnit(u)|..] == rest;
    }
  }

  /** Reading a quoted string back gives the string and leaves what followed it. */
  lemma {:induction false} StringRoundTrip(s: Text, rest: Text)
    ensures ParseString(Escape(s) + [QUOTE] + rest) == Some((s, rest))
    decreases |s|
  {
    hide ParseUnit, EscapeUnit;
    var tail := [QUOTE] + rest;
    assert Escape(s) + [QUOTE] + rest == Escape(s) + tail;
    if s == [] {
      assert Escape(s) + tail == tail && tail[1..] == rest;
    } else if |s| > 1 && HighSurrogate(s[0]) && LowSurrogate(s[1]) {
      StringRoundTrip(s[2..], rest);
      var inner := Escape(s[2..]) + tail;
      assert inner == Escape(s[2..]) + [QUOTE] + rest;
      assert Escape(s) + tail == [s[0]] + ([s[1]] + inner);
      PlainUnit(s[1], inner, s[2..], rest);
      PlainUnit(s[0], [s[1]] + inner, [s[1]] + s[2..], rest);
      assert s == [s[0]] + ([s[1]] + s[2..]);
    } else {
      StringRoundTrip(s[1..], rest);
      var inner := Escape(s[1..]) + tail;
      assert inner == Escape(s[1..]) + [QUOTE] + rest;
      assert Escape(s) + tail == EscapeUnit(s[0]) + inner;
      UnitRoundTrip(s[0], inner);
      assert s == [s[0]] + s[1..];
    }
  }

  lemma PlainUnit(u: Unit, t: Text, s: Text, rest: Text)
    requires u >= 32 && u != QUOTE && u != BACKSLASH && ParseString(t) == Some((s, rest))
    ensures ParseString([u] + t) == Some(([u] + s, rest))
  {
    var whole := [u] + t;
    assert whole[1..] == t && whole[0] == u;
  }

  // ---- decoding undoes printing ----

  /** What can follow a value: nothing, or a unit no number token contains. */
  predicate Terminated(rest: Text) { rest == [] || !NumberUnit(rest[0]) }

  /** Reading t back, whatever follows it, gives m. */
  ghost predicate Decodes(t: Text, m: Meaning) {
    forall rest | Terminated(rest) :: ParseValue(t + rest) == Some((m, rest))
  }

  lemma DecodesAt(t: Text, m: Meaning, rest: Text)
    requires Decodes(t, m) && Terminated(rest)
    ensures ParseValue(t + rest) == Some((m, rest))
  {
  }

  /** A decodable text is not empty and does not start with a closing bracket. */
  lemma DecodesStart(t: Text, m: Meaning)
    requires Decodes(t, m)
    ensures t != [] && t[0] != CLOSE_ARR
  {
    DecodesAt(t, m, []);
    assert t + [] == t;
  }

  ghost predicate AllDecode(parts: seq<Text>, ms: seq<Meaning>) {
    |parts| == |ms| && forall i | 0 <= i < |parts| :: Decodes(parts[i], ms[i])
  }

  lemma {:induction false} ItemsRoundTrip(parts: seq<Text>, ms: seq<Meaning>, rest: Text)
    requires AllDecode(parts, ms) && parts != []
    ensures ParseItems(Joined(parts) + [CLOSE_ARR] + rest) == Some((ms, rest))
    decreases |parts|
  {
    hide ParseValue;
    var close := [CLOSE_ARR] + rest;
    assert Decodes(parts[0], ms[0]);
    if |parts| == 1 {
      DecodesAt(parts[0], ms[0], close);
      assert Joined(parts) + [CLOSE_ARR] + rest == parts[0] + close;
      assert close[1..] == rest && ms == [ms[0]];
    } else {
      ItemsRoundTrip(parts[1..], ms[1..], rest);
      var inner := Joined(parts[1..]) + [CLOSE_ARR] + rest;
      DecodesAt(parts[0], ms[0], [COMMA] + inner);
      assert Joined(parts) + [CLOSE_ARR] + rest == parts[0] + ([COMMA] + inner);
      assert ([COMMA] + inner)[1..] == inner && ms == [ms[0]] + ms[1..];
    }
  }

  /** The pairs are the entries of m, each printed so that it decodes. */
  ghost predicate Describes(pairs: seq<(Text, Text)>, m: map<Text, Meaning>) {
    && (forall p | p in pairs :: p.0 in m && Decodes(p.1, m[p.0]))
    && (forall k | k in m :: exists p :: p in pairs && p.0 == k)
  }

  ghost predicate DistinctKeys(pairs: seq<(Text, Text)>) {
    forall i, j | 0 <= i < j < |pairs| :: pairs[i].0 != pairs[j].0
  }

  lemma MemberRoundTrip(p: (Text, Text), m: Meaning, rest: Text)
    requires Decodes(p.1, m) && Terminated(rest)
    ensures ParseMember(Member(p) + rest) == Some((p.0, m, rest))
  {
    hide ParseValue, ParseString, Escape;
    var t := Member(p) + rest;
    var value := [COLON] + (p.1 + rest);
    StringRoundTrip(p.0, value);
    assert t[1..] == Escape(p.0) + [QUOTE] + value;
    assert value[1..] == p.1 + rest;
    DecodesAt(p.1, m, rest);
  }

  lemma TailDescribes(pairs: seq<(Text, Text)>, m: map<Text, Meaning>)
    requires Describes(pairs, m) && DistinctKeys(pairs) && pairs != []
    ensures Describes(pairs[1..], m - {pairs[0].0}) && DistinctKeys(pairs[1..])
  {
    var rest, less := pairs[1..], m - {pairs[0].0};
    forall p | p in rest ensures p.0 in less && Decodes(p.1, less[p.0]) {
      var i :| 0 <= i < |rest| && rest[i] == p;
      assert pairs[i + 1] == p && p in pairs;
    }
    forall k | k in less ensures exists p :: p in rest && p.0 == k {
      var p :| p in pairs && p.0 == k;
      var i :| 0 <= i < |pairs| && pairs[i] == p;
      assert rest[i - 1] == p;
    }
  }

  lemma DescribesHead(pairs: seq<(Text, Text)>, m: map<Text, Meaning>)
    requires Describes(pairs, m)
    ensures pairs == [] ==> m == map[]
    ensures pairs != [] ==> pairs[0].0 in m && Decodes(pairs[0].1, m[pairs[0].0])
  {
    if pairs != [] { assert pairs[0] in pairs; }
  }

  lemma {:induction false} MembersRoundTrip(pairs: seq<(Text, Text)>, m: map<Text, Meaning>, rest: Text)
    requires Describes(pairs, m) && DistinctKeys(pairs) && pairs != []
    ensures ParseMembers(Joined(Members(pairs)) + [CLOSE_OBJ] + rest) == Some((m, rest))
    decreases |pairs|
  {
    hide ParseValue, ParseMember, Member, Decodes, Describes;
    var close := [CLOSE_OBJ] + rest;
    var head, parts := pairs[0], Members(pairs);
    DescribesHead(pairs, m);
    TailDescribes(pairs, m);
    if |pairs| == 1 {
      OnlyEntry(pairs, m);
      MemberRoundTrip(head, m[head.0], close);
      assert Joined(parts) + [CLOSE_OBJ] + rest == Member(head) + close;
      assert close[1..] == rest;
    } else {
      var less := m - {head.0};
      MembersRoundTrip(pairs[1..], less, rest);
      assert parts[1..] == Members(pairs[1..]);
      var inner := Joined(parts[1..]) + [CLOSE_OBJ] + rest;
      MemberRoundTrip(head, m[head.0], [COMMA] + inner);
      assert Joined(parts) + [CLOSE_OBJ] + rest == Member(head) + ([COMMA] + inner);
      assert ([COMMA] + inner)[1..] == inner;
      assert less[head.0 := m[head.0]] == m;
    }
  }

  lemma OnlyEntry(pairs: seq<(Text, Text)>, m: map<Text, Meaning>)
    requires Describes(pairs, m) && |pairs| == 1
    ensures m == map[pairs[0].0 := m[pairs[0].0]]
  {
    assert pairs[0] in pairs;
    forall k | k in m ensures k == pairs[0].0 {
      var p :| p in pairs && p.0 == k;
    }
  }

  lemma {:induction false} NumberSpanToken(t: Text, rest: Text)
    requires (forall u | u in t :: NumberUnit(u)) && Terminated(rest)
    ensures NumberSpan(t + rest) == |t|
  {
    if t == [] {
      assert t + rest == rest;
    } else {
      assert (t + rest)[1..] == t[1..] + rest;
      NumberSpanToken(t[1..], rest);
    }
  }

  lemma NumberDecodes(t: Text)
    requires NumberToken(t)
    ensures Decodes(t, MNumber(t))
  {
    forall rest | Terminated(rest) ensures ParseValue(t + rest) == Some((MNumber(t), rest)) {
      NumberSpanToken(t, rest);
      var whole := t + rest;
      assert whole[..|t|] == t && whole[|t|..] == rest;
      assert whole[0] == t[0];
    }
  }

  lemma WordsDecode()
    ensures Decodes(NULL_TEXT, MNull) && Decodes(TRUE_TEXT, MBool(true)) && Decodes(FALSE_TEXT, MBool(false))
  {
    forall rest | Terminated(rest)
      ensures ParseValue(NULL_TEXT + rest) == Some((MNull, rest))
      ensures ParseValue(TRUE_TEXT + rest) == Some((MBool(true), rest))
      ensures ParseValue(FALSE_TEXT + rest) == Some((MBool(false), rest))
    {
      assert (NULL_TEXT + rest)[4..] == rest;
      assert (TRUE_TEXT + rest)[4..] == rest && (TRUE_TEXT + rest)[0] == 116;
      assert (FALSE_TEXT + rest)[5..] == rest && (FALSE_TEXT + rest)[0] == 102;
    }
  }

  lemma StringDecodes(s: Text)
    ensures Decodes(Quote(s), MStr(s))
  {
    hide ParseString, Escape, ParseItems, ParseMembers, NumberSpan;
    forall rest | Terminated(rest) ensures ParseValue(Quote(s) + rest) == Some((MStr(s), rest)) {
      StringRoundTrip(s, rest);
      var whole := Quote(s) + rest;
      assert whole[1..] == Escape(s) + [QUOTE] + rest && whole[0] == QUOTE;
    }
  }

  lemma JoinedStart(parts: seq<Text>, ms: seq<Meaning>)
    requires AllDecode(parts, ms)
    ensures if parts == [] then ms == [] && Joined(parts) == []
            else Joined(parts) != [] && Joined(parts)[0] != CLOSE_ARR
  {
    hide Decodes;
    if parts != [] {
      assert Decodes(parts[0], ms[0]);
      DecodesStart(parts[0], ms[0]);
    }
  }

  lemma ArrayDecodes(parts: seq<Text>, ms: seq<Meaning>)
    requires AllDecode(parts, ms)
    ensures Decodes([OPEN_ARR] + Joined(parts) + [CLOSE_ARR], MArr(ms))
  {
    hide ParseItems, ParseString, ParseMembers, NumberSpan, AllDecode, Joined;
    JoinedStart(parts, ms);
    var t := [OPEN_ARR] + Joined(parts) + [CLOSE_ARR];
    forall rest | Terminated(rest) ensures ParseValue(t + rest) == Some((MArr(ms), rest)) {
      var whole := t + rest;
      assert whole[0] == OPEN_ARR;
      if parts == [] {
        assert whole[1] == CLOSE_ARR && whole[2..] == rest;
      } else {
        ItemsRoundTrip(parts, ms, rest);
        assert whole[1..] == Joined(parts) + [CLOSE_ARR] + rest;
        assert whole[1] == Joined(parts)[0];
      }
    }
  }

  lemma ObjectDecodes(pairs: seq<(Text, Text)>, m: map<Text, Meaning>)
    requires Describes(pairs, m) && DistinctKeys(pairs)
    ensures Decodes([OPEN_OBJ] + Joined(Members(pairs)) + [CLOSE_OBJ], MObj(m))
  {
    hide ParseItems, ParseString, ParseMembers, NumberSpan, Describes, DistinctKeys;
    DescribesHead(pairs, m);
    var t := [OPEN_OBJ] + Joined(Members(pairs)) + [CLOSE_OBJ];
    forall rest | Terminated(rest) ensures ParseValue(t + rest) == Some((MObj(m), rest)) {
      var whole := t + rest;
      assert whole[0] == OPEN_OBJ;
      if pairs == [] {
        assert whole[1] == CLOSE_OBJ && whole[2..] == rest;
      } else {
        MembersRoundTrip(pairs, m, rest);
        assert whole[1..] == Joined(Members(pairs)) + [CLOSE_OBJ] + rest;
        assert Members(pairs)[0] == Member(pairs[0]);
        assert whole[1] == QUOTE;
      }
    }
  }

  // ---- what the printed entries are ----

  predicate Shown(e: Entry) { !e.value.Undefined? }

  function PairOf(e: Entry): (Text, Text) { (e.key, Canonical(e.value)) }

  lemma {:induction false} PrintedEntry(entries: seq<Entry>, e: Entry)
    requires e in entries && Shown(e)
    ensures PairOf(e) in Printed(entries)
  {
    if entries[0] != e { PrintedEntry(entries[1..], e); }
  }

  lemma {:induction false} PrintedFrom(entries: seq<Entry>, p: (Text, Text)) returns (e: Entry)
    requires p in Printed(entries)
    ensures e in entries && Shown(e) && PairOf(e) == p
  {
    if Shown(entries[0]) && PairOf(entries[0]) == p {
      e := entries[0];
    } else {
      e := PrintedFrom(entries[1..], p);
    }
  }

  lemma KeysTail(entries: seq<Entry>)
    requires NoDuplicates(Keys(entries)) && entries != []
    ensures NoDuplicates(Keys(entries[1..]))
    ensures forall e | e in entries[1..] :: e.key != entries[0].key
  {
    var keys := Keys(entries);
    assert Keys(entries[1..]) == keys[1..];
    forall e | e in entries[1..] ensures e.key != entries[0].key {
      var i :| 0 <= i < |entries[1..]| && entries[1..][i] == e;
      assert keys[i + 1] == e.key && keys[0] == entries[0].key;
    }
  }

  lemma {:induction false} PrintedDistinct(entries: seq<Entry>)
    requires NoDuplicates(Keys(entries))
    ensures DistinctKeys(Printed(entries))
  {
    if entries != [] {
      KeysTail(entries);
      PrintedDistinct(entries[1..]);
      var tail := Printed(entries[1..]);
      forall j | 0 <= j < |tail| ensures tail[j].0 != entries[0].key {
        var e := PrintedFrom(entries[1..], tail[j]);
      }
    }
  }

  lemma {:induction false} MeaningEntry(entries: seq<Entry>, e: Entry)
    requires NoDuplicates(Keys(entries)) && e in entries && Shown(e)
    ensures e.key in MeaningEntries(entries) && MeaningEntries(entries)[e.key] == MeaningOf(e.value)
  {
    KeysTail(entries);
    if entries[0] != e { MeaningEntry(entries[1..], e); }
  }

  lemma {:induction false} MeaningFrom(entries: seq<Entry>, k: Text) returns (e: Entry)
    requires k in MeaningEntries(entries)
    ensures e in entries && Shown(e) && e.key == k
  {
    if Shown(entries[0]) && entries[0].key == k {
      e := entries[0];
    } else {
      e := MeaningFrom(entries[1..], k);
    }
  }

  /** Texts are totally ordered, and only equal texts tie. */
  lemma TextOrder()
    ensures TotalPreorder(TextLe) && Antisymmetric(TextLe)
  {
    forall a, b ensures TextLe(a, b) || TextLe(b, a) { LexLeTotal(a, b, UnitCode); }
    forall a, b, c | TextLe(a, b) && TextLe(b, c) ensures TextLe(a, c) { LexLeTransitive(a, b, c, UnitCode); }
    forall a, b | TextLe(a, b) && TextLe(b, a) ensures a == b { LexLeAntisymmetric(a, b, UnitCode); }
  }

  lemma KeyOrder()
    ensures TotalPreorder(KeyLe)
  {
    hide TextLe;
    TextOrder();
  }

  lemma KeyTies(pairs: seq<(Text, Text)>)
    requires DistinctKeys(pairs)
    ensures TiesIdentical(pairs, KeyLe) && NoDuplicates(pairs)
  {
    forall x, y | x in pairs && y in pairs && KeyLe(x, y) && KeyLe(y, x) ensures x == y {
      TextOrder();
      assert x.0 == y.0;
      var i :| 0 <= i < |pairs| && pairs[i] == x;
      var j :| 0 <= j < |pairs| && pairs[j] == y;
      if i != j { assert false; }
    }
  }

  /** Sorting by key keeps the members and, when no key repeats, their keys distinct. */
  lemma SortedPairs(pairs: seq<(Text, Text)>)
    requires DistinctKeys(pairs)
    ensures DistinctKeys(Sort(pairs, KeyLe))
    ensures forall p :: p in Sort(pairs, KeyLe) <==> p in pairs
  {
    KeyOrder();
    KeyTies(pairs);
    SortMembers(pairs, KeyLe);
    DistinctSorted(pairs, KeyLe);
    var sorted := Sort(pairs, KeyLe);
    forall i, j | 0 <= i < j < |sorted| ensures sorted[i].0 != sorted[j].0 {
      assert sorted[i] in pairs && sorted[j] in pairs && sorted[i] != sorted[j];
    }
  }

  // ---- main results ----

  /** Every canonical text reads back as the meaning of the value it was printed from. */
  lemma {:induction false} RoundTrip(v: Value)
    requires WellFormed(v)
    ensures Decodes(Canonical(v), MeaningOf(v))
    decreases v
  {
    WordsDecode();
    match v
    case Undefined =>
    case Null =>
    case NonFinite =>
    case Bool(b) =>
    case Number(t) => NumberDecodes(t);
    case Str(s) => StringDecodes(s);
    case Arr(items) =>
      forall x | x in items ensures Decodes(Canonical(x), MeaningOf(x)) { RoundTrip(x); }
      ItemsDecode(items);
      ArrayDecodes(PrintedItems(items), MeaningItems(items));
    case Obj(entries) =>
      forall e | e in entries ensures Decodes(Canonical(e.value), MeaningOf(e.value)) { RoundTrip(e.value); }
      EntriesDescribed(entries);
      ObjectDecodes(Sort(Printed(entries), KeyLe), MeaningEntries(entries));
  }

  lemma {:induction false} ItemsDecode(items: seq<Value>)
    requires forall x | x in items :: Decodes(Canonical(x), MeaningOf(x))
    ensures AllDecode(PrintedItems(items), MeaningItems(items))
  {
    hide Decodes;
    if items != [] {
      assert items[0] in items;
      ItemsDecode(items[1..]);
    }
  }

  lemma EntriesDescribed(entries: seq<Entry>)
    requires NoDuplicates(Keys(entries))
    requires forall e | e in entries :: Decodes(Canonical(e.value), MeaningOf(e.value))
    ensures Describes(Sort(Printed(entries), KeyLe), MeaningEntries(entries))
    ensures DistinctKeys(Sort(Printed(entries), KeyLe))
  {
    hide Decodes;
    var m, pairs := MeaningEntries(entries), Printed(entries);
    PrintedDistinct(entries);
    SortedPairs(pairs);
    forall p | p in pairs ensures p.0 in m && Decodes(p.1, m[p.0]) {
      var e := PrintedFrom(entries, p);
      MeaningEntry(entries, e);
    }
    forall k | k in m ensures exists p :: p in Sort(pairs, KeyLe) && p.0 == k {
      var e := MeaningFrom(entries, k);
      PrintedEntry(entries, e);
      assert PairOf(e) in Sort(pairs, KeyLe);
    }
  }

  /** Values of one meaning print alike, whatever the order of their keys at any depth. */
  lemma {:induction false} SameMeaningSameText(v: Value, w: Value)
    requires WellFormed(v) && WellFormed(w) && MeaningOf(v) == MeaningOf(w)
    ensures Canonical(v) == Canonical(w)
    decreases v
  {
    if v.Arr? {
      MeaningItemsPointwise(v.items);
      MeaningItemsPointwise(w.items);
      forall i | 0 <= i < |v.items| ensures Canonical(v.items[i]) == Canonical(w.items[i]) {
        assert MeaningItems(v.items)[i] == MeaningItems(w.items)[i];
        SameMeaningSameText(v.items[i], w.items[i]);
      }
      SameItems(v.items, w.items);
    } else if v.Obj? {
      forall x, y | x in v.entries && y in w.entries && MeaningOf(x.value) == MeaningOf(y.value)
        ensures Canonical(x.value) == Canonical(y.value)
      {
        SameMeaningSameText(x.value, y.value);
      }
      SameEntries(v.entries, w.entries);
    }
  }

  lemma {:induction false} MeaningItemsPointwise(items: seq<Value>)
    ensures |MeaningItems(items)| == |items|
    ensures forall i | 0 <= i < |items| :: MeaningItems(items)[i] == MeaningOf(items[i])
  {
    if items != [] { MeaningItemsPointwise(items[1..]); }
  }

  lemma {:induction false} SameItems(a: seq<Value>, b: seq<Value>)
    requires |a| == |b| && forall i | 0 <= i < |a| :: Canonical(a[i]) == Canonical(b[i])
    ensures PrintedItems(a) == PrintedItems(b)
  {
    if a != [] {
      forall i | 0 <= i < |a[1..]| ensures Canonical(a[1..][i]) == Canonical(b[1..][i]) {
        assert Canonical(a[i + 1]) == Canonical(b[i + 1]);
      }
      SameItems(a[1..], b[1..]);
    }
  }

  ghost predicate AgreeWhereMeaningsAgree(a: seq<Entry>, b: seq<Entry>) {
    forall x, y | x in a && y in b && MeaningOf(x.value) == MeaningOf(y.value) ::
      Canonical(x.value) == Canonical(y.value)
  }

  lemma PrintedWithin(a: seq<Entry>, b: seq<Entry>)
    requires NoDuplicates(Keys(a)) && NoDuplicates(Keys(b)) && AgreeWhereMeaningsAgree(a, b)
    requires MeaningEntries(a) == MeaningEntries(b)
    ensures forall p | p in Printed(a) :: p in Printed(b)
  {
    forall p | p in Printed(a) ensures p in Printed(b) {
      var x := PrintedFrom(a, p);
      MeaningEntry(a, x);
      var y := MeaningFrom(b, x.key);
      MeaningEntry(b, y);
      PrintedEntry(b, y);
    }
  }

  lemma SameEntries(a: seq<Entry>, b: seq<Entry>)
    requires NoDuplicates(Keys(a)) && NoDuplicates(Keys(b)) && AgreeWhereMeaningsAgree(a, b)
    requires MeaningEntries(a) == MeaningEntries(b)
    ensures Sort(Printed(a), KeyLe) == Sort(Printed(b), KeyLe)
  {
    PrintedWithin(a, b);
    PrintedWithin(b, a);
    PrintedDistinct(a);
    PrintedDistinct(b);
    KeyTies(Printed(a));
    KeyTies(Printed(b));
    KeyOrder();
    SameMembersSameContents(Printed(a), Printed(b));
    SortPermutation(Printed(a), Printed(b), KeyLe);
  }

  /** Two values print alike exactly when they mean the same: the form is canonical and unambiguous. */
  lemma CanonicalFaithful(v: Value, w: Value)
    requires WellFormed(v) && WellFormed(w)
    ensures Canonical(v) == Canonical(w) <==> MeaningOf(v) == MeaningOf(w)
  {
    if Canonical(v) == Canonical(w) {
      RoundTrip(v);
      RoundTrip(w);
      DecodesAt(Canonical(v), MeaningOf(v), []);
      DecodesAt(Canonical(w), MeaningOf(w), []);
    } else if MeaningOf(v) == MeaningOf(w) {
      SameMeaningSameText(v, w);
    }
  }

  /** Rearranging an object's entries, or adding and dropping absent ones, changes nothing. */
  lemma KeyOrderIrrelevant(a: seq<Entry>, b: seq<Entry>)
    requires WellFormed(Obj(a)) && WellFormed(Obj(b))
    requires forall e | Shown(e) :: e in a <==> e in b
    ensures Canonical(Obj(a)) == Canonical(Obj(b))
  {
    MeaningWithin(a, b);
    MeaningWithin(b, a);
    assert MeaningEntries(a) == MeaningEntries(b);
    SameMeaningSameText(Obj(a), Obj(b));
  }

  lemma MeaningWithin(a: seq<Entry>, b: seq<Entry>)
    requires NoDuplicates(Keys(a)) && NoDuplicates(Keys(b))
    requires forall e | Shown(e) :: e in a ==> e in b
    ensures forall k | k in MeaningEntries(a) ::
      k in MeaningEntries(b) && MeaningEntries(b)[k] == MeaningEntries(a)[k]
  {
    forall k | k in MeaningEntries(a)
      ensures k in MeaningEntries(b) && MeaningEntries(b)[k] == MeaningEntries(a)[k]
    {
      var e := MeaningFrom(a, k);
      MeaningEntry(a, e);
      MeaningEntry(b, e);
    }
  }
}
