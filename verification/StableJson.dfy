/** The canonical serializer behind the request hash, and a reader that recovers the meaning. */
module StableJson {
  import opened Basics
  import opened Wrappers

  /** A text is a sequence of UTF-16 code units, as in ECMAScript. */
  type CodeUnit = c: int | 0 <= c < 0x1_0000
  type Text = seq<CodeUnit>

  const QUOTE: CodeUnit := 34
  const COMMA: CodeUnit := 44
  const COLON: CodeUnit := 58
  const LBRACKET: CodeUnit := 91
  const BACKSLASH: CodeUnit := 92
  const RBRACKET: CodeUnit := 93
  const LBRACE: CodeUnit := 123
  const RBRACE: CodeUnit := 125
  const NULL: Text := [110, 117, 108, 108]
  const TRUE: Text := [116, 114, 117, 101]
  const FALSE: Text := [102, 97, 108, 115, 101]

  /** A payload as the program holds it: members in insertion order, `undefined` and non-finite numbers
      included. A finite number is identified by the decimal text ECMAScript gives it. */
  datatype Json =
    | Undefined
    | Null
    | NotFinite
    | Bool(truth: bool)
    | Number(lexeme: Text)
    | Str(text: Text)
    | Arr(items: seq<Json>)
    | Obj(members: seq<Member>)

  datatype Member = Member(key: Text, value: Json)

  /** What a payload says: member order is gone, and all that JSON can only write as null is null. */
  datatype Value =
    | VNull
    | VBool(truth: bool)
    | VNumber(lexeme: Text)
    | VString(text: Text)
    | VArray(items: seq<Value>)
    | VObject(members: map<Text, Value>)

  // ---------- payloads ----------

  predicate IsDigit(c: CodeUnit) { 48 <= c <= 57 }

  /** Digits, '+', '-', '.', 'E' and 'e': the units a number may contain. */
  predicate IsNumberUnit(c: CodeUnit) {
    IsDigit(c) || c == 43 || c == 45 || c == 46 || c == 69 || c == 101
  }

  predicate IsNumberLexeme(t: Text) {
    |t| > 0 && (IsDigit(t[0]) || t[0] == 45) && forall i :: 0 <= i < |t| ==> IsNumberUnit(t[i])
  }

  function KeysOf(ms: seq<Member>): (keys: seq<Text>)
    ensures |keys| == |ms| && forall i :: 0 <= i < |ms| ==> keys[i] == ms[i].key
  {
    seq(|ms|, i requires 0 <= i < |ms| => ms[i].key)
  }

  /** What every ECMAScript value satisfies: an object has each key once. */
  predicate WellFormed(v: Json) {
    match v
    case Number(x) => IsNumberLexeme(x)
    case Arr(items) => forall i :: 0 <= i < |items| ==> WellFormed(items[i])
    case Obj(ms) => Distinct(KeysOf(ms)) && forall i :: 0 <= i < |ms| ==> WellFormed(ms[i].value)
    case _ => true
  }

  function Find(ms: seq<Member>, key: Text): (i: nat)
    requires key in KeysOf(ms)
    ensures i < |ms| && ms[i].key == key
  {
    if ms[0].key == key then 0
    else
      assert KeysOf(ms)[1..] == KeysOf(ms[1..]);
      1 + Find(ms[1..], key)
  }

  /** object[key] */
  function At(ms: seq<Member>, key: Text): Json
    requires key in KeysOf(ms)
  {
    ms[Find(ms, key)].value
  }

  /** What a payload says, whatever the order of its members. */
  function Meaning(v: Json): Value {
    match v
    case Undefined => VNull
    case Null => VNull
    case NotFinite => VNull
    case Bool(b) => VBool(b)
    case Number(x) => VNumber(x)
    case Str(t) => VString(t)
    case Arr(items) => VArray(Meanings(items))
    case Obj(ms) => VObject(map k | k in KeysOf(ms) :: Meaning(ms[Find(ms, k)].value))
  }

  function Meanings(items: seq<Json>): (vs: seq<Value>)
    ensures |vs| == |items| && forall i :: 0 <= i < |items| ==> vs[i] == Meaning(items[i])
  {
    if |items| == 0 then [] else [Meaning(items[0])] + Meanings(items[1..])
  }

  // ---------- key order ----------

  /** The code-unit order that Array.prototype.sort uses on strings. */
  predicate Less(a: Text, b: Text) {
    |b| > 0 && (|a| == 0 || a[0] < b[0] || (a[0] == b[0] && Less(a[1..], b[1..])))
  }

  lemma {:induction false} LessTotal(a: Text, b: Text)
    ensures !(Less(a, b) && Less(b, a))
    ensures Less(a, b) || Less(b, a) || a == b
    ensures !Less(a, a)
  {
    if |a| > 0 {
      if |b| > 0 && a[0] == b[0] {
        LessTotal(a[1..], b[1..]);
        if a[1..] == b[1..] { assert a == [a[0]] + a[1..] == b; }
      }
      LessTotal(a[1..], a[1..]);
    }
  }

  lemma {:induction false} LessTransitive(a: Text, b: Text, c: Text)
    requires Less(a, b) && Less(b, c)
    ensures Less(a, c)
  {
    if |a| > 0 && a[0] == b[0] && b[0] == c[0] {
      LessTransitive(a[1..], b[1..], c[1..]);
    }
  }

  predicate Sorted(keys: seq<Text>) {
    forall i, j :: 0 <= i < j < |keys| ==> Less(keys[i], keys[j])
  }

  function Insert(key: Text, sorted: seq<Text>): (r: seq<Text>)
    ensures forall k :: k in r <==> k == key || k in sorted
  {
    if |sorted| == 0 || !Less(sorted[0], key) then [key] + sorted
    else
      assert forall k :: k in sorted <==> k == sorted[0] || k in sorted[1..];
      [sorted[0]] + Insert(key, sorted[1..])
  }

  function SortKeys(keys: seq<Text>): (r: seq<Text>)
    ensures forall k :: k in r <==> k in keys
  {
    if |keys| == 0 then []
    else
      assert forall k :: k in keys <==> k == keys[0] || k in keys[1..];
      Insert(keys[0], SortKeys(keys[1..]))
  }

  lemma {:induction false} InsertSorts(key: Text, sorted: seq<Text>)
    requires Sorted(sorted) && key !in sorted
    ensures Sorted(Insert(key, sorted))
  {
    if |sorted| == 0 {
    } else if !Less(sorted[0], key) {
      LessTotal(sorted[0], key);
      forall k | k in sorted ensures Less(key, k) {
        if k != sorted[0] { LessTransitive(key, sorted[0], k); }
      }
    } else {
      InsertSorts(key, sorted[1..]);
      forall k | k in Insert(key, sorted[1..]) ensures Less(sorted[0], k) {}
    }
  }

  lemma {:induction false} SortKeysSorts(keys: seq<Text>)
    requires Distinct(keys)
    ensures Sorted(SortKeys(keys))
  {
    if |keys| > 0 {
      SortKeysSorts(keys[1..]);
      InsertSorts(keys[0], SortKeys(keys[1..]));
    }
  }

  /** A set of keys has one sorted listing. */
  lemma {:induction false} SortedUnique(a: seq<Text>, b: seq<Text>)
    requires Sorted(a) && Sorted(b)
    requires forall k :: k in a <==> k in b
    ensures a == b
  {
    assert |a| > 0 ==> a[0] in b;
    assert |b| > 0 ==> b[0] in a;
    if |a| > 0 {
      LessTotal(a[0], b[0]);
      assert a[0] == b[0];
      forall k ensures k in a[1..] <==> k in b[1..] {
        LessTotal(k, k);
        assert k in a <==> k == a[0] || k in a[1..];
        assert k in b <==> k == b[0] || k in b[1..];
      }
      SortedUnique(a[1..], b[1..]);
      assert a == [a[0]] + a[1..] && b == [b[0]] + b[1..];
    }
  }

  // ---------- strings ----------

  predicate IsLead(c: CodeUnit) { 0xD800 <= c <= 0xDBFF }
  predicate IsTrail(c: CodeUnit) { 0xDC00 <= c <= 0xDFFF }

  function HexDigit(d: int): CodeUnit
    requires 0 <= d < 16
  {
    if d < 10 then 48 + d else 87 + d
  }

  function HexValue(c: CodeUnit): (r: Option<int>)
    ensures r.Some? ==> 0 <= r.value < 16
  {
    if 48 <= c <= 57 then Some(c - 48)
    else if 97 <= c <= 102 then Some(c - 87)
    else if 65 <= c <= 70 then Some(c - 55)
    else None
  }

  function Hex4(c: CodeUnit): (t: Text)
    ensures |t| == 4
  {
    [HexDigit(c / 4096), HexDigit(c / 256 % 16), HexDigit(c / 16 % 16), HexDigit(c % 16)]
  }

  function ReadHex4(t: Text): Option<CodeUnit>
    requires |t| == 4
  {
    match (HexValue(t[0]), HexValue(t[1]), HexValue(t[2]), HexValue(t[3]))
    case (Some(a), Some(b), Some(c), Some(d)) => Some(((a * 16 + b) * 16 + c) * 16 + d)
    case _ => None
  }

  lemma {:induction false} HexDigitValue(d: int)
    requires 0 <= d < 16
    ensures HexValue(HexDigit(d)) == Some(d)
  {
  }

  lemma {:induction false} ReadHex4Hex4(c: CodeUnit)
    ensures ReadHex4(Hex4(c)) == Some(c)
  {
    var c1 := c / 16;
    var c2 := c1 / 16;
    assert c / 256 == c2 && c / 4096 == c2 / 16;
    HexDigitValue(c % 16);
    HexDigitValue(c1 % 16);
    HexDigitValue(c2 % 16);
    HexDigitValue(c2 / 16);
  }

  /** The unit that stands after the backslash in a two-unit escape, if `c` has one. */
  function ShortEscape(c: CodeUnit): Option<CodeUnit> {
    if c == 34 || c == 92 then Some(c)
    else if c == 8 then Some(98)
    else if c == 9 then Some(116)
    else if c == 10 then Some(110)
    else if c == 12 then Some(102)
    else if c == 13 then Some(114)
    else None
  }

  function EscapeUnit(c: CodeUnit): Text {
    if ShortEscape(c).Some? then [BACKSLASH, ShortEscape(c).value]
    else if c < 32 || IsLead(c) || IsTrail(c) then [BACKSLASH, 117] + Hex4(c)
    else [c]
  }

  /** The body JSON.stringify writes between the quotes: a surrogate pair stands for itself, a
      surrogate on its own is escaped. */
  function Escape(t: Text): Text {
    if |t| == 0 then []
    else if |t| >= 2 && IsLead(t[0]) && IsTrail(t[1]) then t[..2] + Escape(t[2..])
    else EscapeUnit(t[0]) + Escape(t[1..])
  }

  function Quote(t: Text): Text { [QUOTE] + Escape(t) + [QUOTE] }

  /** Section 7 of RFC 8259: the unit a two-unit escape stands for. */
  function ShortUnescape(e: CodeUnit): Option<CodeUnit> {
    if e == 34 || e == 92 || e == 47 then Some(e)
    else if e == 98 then Some(8)
    else if e == 116 then Some(9)
    else if e == 110 then Some(10)
    else if e == 102 then Some(12)
    else if e == 114 then Some(13)
    else None
  }

  /** Reads the body of a string and its closing quote (section 7 of RFC 8259). */
  function ReadString(s: Text): (r: Option<(Text, Text)>)
    ensures r.Some? ==> |r.value.1| < |s|
  {
    if |s| == 0 then None
    else if s[0] == QUOTE then Some(([], s[1..]))
    else if s[0] == BACKSLASH then
      if |s| >= 6 && s[1] == 117 then
        match ReadHex4(s[2..6])
        case None => None
        case Some(c) => Prepend(c, ReadString(s[6..]))
      else if |s| >= 2 && ShortUnescape(s[1]).Some? then Prepend(ShortUnescape(s[1]).value, ReadString(s[2..]))
      else None
    else if s[0] < 32 then None
    else Prepend(s[0], ReadString(s[1..]))
  }

  function Prepend(c: CodeUnit, r: Option<(Text, Text)>): Option<(Text, Text)> {
    if r.None? then None else Some(([c] + r.value.0, r.value.1))
  }

  lemma {:induction false} ReadUnit(c: CodeUnit, rest: Text)
    ensures ReadString(EscapeUnit(c) + rest) == Prepend(c, ReadString(rest))
  {
    var e := EscapeUnit(c);
    var s := e + rest;
    assert s[|e|..] == rest;
    if ShortEscape(c).Some? {
      assert s[0] == BACKSLASH && s[1] == ShortEscape(c).value;
    } else if c < 32 || IsLead(c) || IsTrail(c) {
      ReadHex4Hex4(c);
      assert s[0] == BACKSLASH && s[1] == 117 && s[2..6] == Hex4(c);
    } else {
      assert s[0] == c;
    }
  }

  lemma {:induction false} ReadPair(lead: CodeUnit, trail: CodeUnit, rest: Text)
    requires IsLead(lead) && IsTrail(trail)
    ensures ReadString([lead, trail] + rest) == Prepend(lead, Prepend(trail, ReadString(rest)))
  {
    assert ([trail] + rest)[1..] == rest;
    assert ([lead, trail] + rest)[1..] == [trail] + rest;
  }

  lemma {:induction false} ReadEscape(t: Text, r: Text)
    ensures ReadString(Escape(t) + ([QUOTE] + r)) == Some((t, r))
    decreases |t|
  {
    if |t| == 0 {
      ReadQuote(r);
    } else {
      var n := if |t| >= 2 && IsLead(t[0]) && IsTrail(t[1]) then 2 else 1;
      EscapeFront(t, [QUOTE] + r, n);
      hide Escape, EscapeUnit, ReadString;
      ReadEscape(t[n..], r);
      var rest := Escape(t[n..]) + ([QUOTE] + r);
      if n == 2 { ReadPair(t[0], t[1], rest); } else { ReadUnit(t[0], rest); }
      Rejoin(t, n);
    }
  }

  lemma {:induction false} ReadQuote(r: Text)
    ensures ReadString(Escape([]) + ([QUOTE] + r)) == Some(([], r))
  {
    assert Escape([]) + ([QUOTE] + r) == [QUOTE] + r;
    assert ([QUOTE] + r)[1..] == r;
  }

  lemma {:induction false} Rejoin(t: Text, n: nat)
    requires 1 <= n <= 2 && n <= |t|
    ensures n == 1 ==> [t[0]] + t[1..] == t
    ensures n == 2 ==> [t[0]] + ([t[1]] + t[2..]) == t
  {
  }

  lemma {:induction false} EscapeFront(t: Text, r: Text, n: nat)
    requires |t| > 0 && n == if |t| >= 2 && IsLead(t[0]) && IsTrail(t[1]) then 2 else 1
    ensures Escape(t) + r == (if n == 2 then [t[0], t[1]] else EscapeUnit(t[0])) + (Escape(t[n..]) + r)
  {
    if n == 2 { assert t[..2] == [t[0], t[1]]; }
  }

  // ---------- the serializer ----------

  function Stable(v: Json): Text {
    match v
    case Undefined => NULL
    case Null => NULL
    case NotFinite => NULL
    case Bool(b) => if b then TRUE else FALSE
    case Number(x) => x
    case Str(t) => Quote(t)
    case Arr(items) => [LBRACKET] + Elements(items) + [RBRACKET]
    case Obj(ms) => [LBRACE] + Members(SortKeys(KeysOf(ms)), ms) + [RBRACE]
  }

  /** The elements' texts, joined by commas. */
  function Elements(items: seq<Json>): Text {
    if |items| == 0 then []
    else if |items| == 1 then Stable(items[0])
    else Stable(items[0]) + [COMMA] + Elements(items[1..])
  }

  /** The members with the listed keys, joined by commas. */
  function Members(keys: seq<Text>, ms: seq<Member>): Text
    requires forall k :: k in keys ==> k in KeysOf(ms)
    decreases ms, |keys|
  {
    if |keys| == 0 then []
    else
      var here := Quote(keys[0]) + [COLON] + Stable(ms[Find(ms, keys[0])].value);
      if |keys| == 1 then here else here + [COMMA] + Members(keys[1..], ms)
  }

  // ---------- the reader ----------

  function NumberLength(s: Text): (n: nat)
    ensures n <= |s|
    ensures forall i :: 0 <= i < n ==> IsNumberUnit(s[i])
    ensures n < |s| ==> !IsNumberUnit(s[n])
  {
    if |s| == 0 || !IsNumberUnit(s[0]) then 0 else 1 + NumberLength(s[1..])
  }

  function ReadWord(word: Text, v: Value, s: Text): (r: Option<(Value, Text)>)
    requires |word| > 0
    ensures r.Some? ==> |r.value.1| < |s|
  {
    if word <= s then Some((v, s[|word|..])) else None
  }

  function ReadNumber(s: Text): (r: Option<(Value, Text)>)
    ensures r.Some? ==> |r.value.1| < |s|
  {
    var n := NumberLength(s);
    if IsNumberLexeme(s[..n]) then Some((VNumber(s[..n]), s[n..])) else None
  }

  function OfString(r: Option<(Text, Text)>): Option<(Value, Text)> {
    if r.None? then None else Some((VString(r.value.0), r.value.1))
  }

  function OfArray(r: Option<(seq<Value>, Text)>): Option<(Value, Text)> {
    if r.None? then None else Some((VArray(r.value.0), r.value.1))
  }

  function OfObject(r: Option<(map<Text, Value>, Text)>): Option<(Value, Text)> {
    if r.None? then None else Some((VObject(r.value.0), r.value.1))
  }

  datatype Token = End | Word(word: Text,
      says: Value) | StringStart | ArrayStart | EmptyArray | ObjectStart | EmptyObject | NumberStart

  /** How the next value begins. */
  function Start(s: Text): (k: Token)
    ensures k.Word? ==> |k.word| > 0
    ensures k.End? <==> |s| == 0
    ensures k.EmptyArray? || k.EmptyObject? ==> |s| >= 2
  {
    if |s| == 0 then End
    else if s[0] == NULL[0] then Word(NULL, VNull)
    else if s[0] == TRUE[0] then Word(TRUE, VBool(true))
    else if s[0] == FALSE[0] then Word(FALSE, VBool(false))
    else if s[0] == QUOTE then StringStart
    else if s[0] == LBRACKET then if |s| >= 2 && s[1] == RBRACKET then EmptyArray else ArrayStart
    else if s[0] == LBRACE then if |s| >= 2 && s[1] == RBRACE then EmptyObject else ObjectStart
    else NumberStart
  }

  /** Reads one JSON value from the front of a text that has no white space between tokens. */
  function Decode(s: Text): (r: Option<(Value, Text)>)
    ensures r.Some? ==> |r.value.1| < |s|
    decreases |s|, 0
  {
    match Start(s)
    case End => None
    case Word(word, says) => ReadWord(word, says, s)
    case StringStart => OfString(ReadString(s[1..]))
    case ArrayStart => OfArray(DecodeElements(s[1..]))
    case EmptyArray => Some((VArray([]), s[2..]))
    case ObjectStart => OfObject(DecodeMembers(s[1..]))
    case EmptyObject => Some((VObject(map[]), s[2..]))
    case NumberStart => ReadNumber(s)
  }

  function DecodeElements(s: Text): (r: Option<(seq<Value>, Text)>)
    ensures r.Some? ==> |r.value.1| < |s|
    decreases |s|, 1
  {
    match Decode(s)
    case None => None
    case Some((v, rest)) =>
      if |rest| > 0 && rest[0] == RBRACKET then Some(([v], rest[1..]))
      else if |rest| > 0 && rest[0] == COMMA then
        match DecodeElements(rest[1..])
        case None => None
        case Some((vs, last)) => Some(([v] + vs, last))
      else None
  }

  /** A repeated key keeps its last value. */
  function DecodeMembers(s: Text): (r: Option<(map<Text, Value>, Text)>)
    ensures r.Some? ==> |r.value.1| < |s|
    decreases |s|, 1
  {
    if |s| == 0 || s[0] != QUOTE then None
    else
      match ReadString(s[1..])
      case None => None
      case Some((key, afterKey)) =>
        if |afterKey| == 0 || afterKey[0] != COLON then None
        else
          match Decode(afterKey[1..])
          case None => None
          case Some((v, rest)) =>
            if |rest| > 0 && rest[0] == RBRACE then Some((map[key := v], rest[1..]))
            else if |rest| > 0 && rest[0] == COMMA then AddMember(key, v, DecodeMembers(rest[1..]))
            else None
  }

  function AddMember(key: Text, v: Value, r: Option<(map<Text, Value>, Text)>): Option<(map<Text, Value>, Text)> {
    if r.None? then None else Some((map[key := v] + r.value.0, r.value.1))
  }

  /** What may follow a value: nothing, or a unit no number can contain. */
  predicate Stops(r: Text) { |r| == 0 || !IsNumberUnit(r[0]) }

  lemma {:induction false} NumberLengthStops(x: Text, r: Text)
    requires forall i :: 0 <= i < |x| ==> IsNumberUnit(x[i])
    requires Stops(r)
    ensures NumberLength(x + r) == |x|
  {
    if |x| == 0 {
      assert x + r == r;
    } else {
      assert (x + r)[1..] == x[1..] + r;
      NumberLengthStops(x[1..], r);
    }
  }

  lemma {:induction false} ElementsOpen(items: seq<Json>)
    requires |items| > 0 && WellFormed(items[0])
    ensures |Elements(items)| > 0 && Elements(items)[0] != RBRACKET
  {
    assert |Stable(items[0])| > 0 && Stable(items[0])[0] != RBRACKET;
    assert Elements(items)[0] == Stable(items[0])[0];
  }

  lemma {:induction false} MembersOpen(keys: seq<Text>, ms: seq<Member>)
    requires |keys| > 0 && forall k :: k in keys ==> k in KeysOf(ms)
    ensures |Members(keys, ms)| > 0 && Members(keys, ms)[0] == QUOTE
  {
  }

  lemma {:induction false} ReadWordBack(word: Text, v: Value, r: Text)
    requires |word| > 0
    ensures ReadWord(word, v, word + r) == Some((v, r))
    ensures (word + r)[0] == word[0]
  {
    assert (word + r)[|word|..] == r;
  }

  lemma {:induction false} DecodeNumber(x: Text, r: Text)
    requires IsNumberLexeme(x) && Stops(r)
    ensures Decode(x + r) == Some((VNumber(x), r))
  {
    NumberLengthStops(x, r);
    assert (x + r)[..|x|] == x && (x + r)[|x|..] == r && (x + r)[0] == x[0];
  }

  lemma {:induction false} DecodeString(t: Text, r: Text)
    ensures Decode(Quote(t) + r) == Some((VString(t), r))
  {
    hide Escape, ReadString;
    ReadEscape(t, r);
    assert (Quote(t) + r)[1..] == Escape(t) + ([QUOTE] + r);
  }

  lemma {:induction false} DecodeArray(body: Text, vs: seq<Value>, r: Text)
    requires |body| > 0 && body[0] != RBRACKET && DecodeElements(body) == Some((vs, r))
    ensures Decode([LBRACKET] + body) == Some((VArray(vs), r))
  {
    assert ([LBRACKET] + body)[1..] == body;
  }

  lemma {:induction false} DecodeObject(body: Text, m: map<Text, Value>, r: Text)
    requires |body| > 0 && body[0] != RBRACE && DecodeMembers(body) == Some((m, r))
    ensures Decode([LBRACE] + body) == Some((VObject(m), r))
  {
    assert ([LBRACE] + body)[1..] == body;
  }

  lemma {:induction false} DecodeEmpty(r: Text)
    ensures Decode([LBRACKET, RBRACKET] + r) == Some((VArray([]), r))
    ensures Decode([LBRACE, RBRACE] + r) == Some((VObject(map[]), r))
  {
  }

  /** Reading back the canonical text of a payload, whatever follows it, gives what the payload says. */
  lemma {:induction false} DecodeStable(v: Json, r: Text)
    requires WellFormed(v) && Stops(r)
    ensures Decode(Stable(v) + r) == Some((Meaning(v), r))
    decreases v, 0
  {
    match v
    case Number(x) => DecodeNumber(x, r);
    case Str(t) => DecodeString(t, r);
    case Arr(items) =>
      if |items| == 0 {
        DecodeEmpty(r);
      } else {
        DecodeElementsStable(items, r);
        ElementsOpen(items);
        DecodeArray(Elements(items) + ([RBRACKET] + r), Meanings(items), r);
      }
      Bracketed(LBRACKET, Elements(items), RBRACKET, r);
    case Obj(ms) =>
      var keys := SortKeys(KeysOf(ms));
      if |keys| == 0 {
        DecodeEmpty(r);
      } else {
        DecodeMembersStable(keys, ms, r);
        MembersOpen(keys, ms);
        DecodeObject(Members(keys, ms) + ([RBRACE] + r), MeaningsAt(keys, ms), r);
      }
      MeaningOfObject(ms, keys);
      Bracketed(LBRACE, Members(keys, ms), RBRACE, r);
    case Bool(b) => ReadWordBack(if b then TRUE else FALSE, VBool(b), r);
    case _ => ReadWordBack(NULL, VNull, r);
  }

  lemma {:induction false} Bracketed(open: CodeUnit, body: Text, close: CodeUnit, r: Text)
    ensures [open] + body + [close] + r == [open] + (body + ([close] + r))
    ensures |body| == 0 ==> [open] + body + [close] + r == [open, close] + r
  {
  }

  function MeaningsAt(keys: seq<Text>, ms: seq<Member>): map<Text, Value>
    requires forall k :: k in keys ==> k in KeysOf(ms)
  {
    map k | k in keys :: Meaning(At(ms, k))
  }

  lemma {:induction false} MeaningOfObject(ms: seq<Member>, keys: seq<Text>)
    requires forall k :: k in keys <==> k in KeysOf(ms)
    ensures Meaning(Obj(ms)) == VObject(MeaningsAt(keys, ms))
    ensures |keys| == 0 ==> MeaningsAt(keys, ms) == map[]
  {
    assert Meaning(Obj(ms)).members == MeaningsAt(keys, ms);
  }

  lemma {:induction false} DecodeElementsStable(items: seq<Json>, r: Text)
    requires |items| > 0
    requires forall i :: 0 <= i < |items| ==> WellFormed(items[i])
    ensures DecodeElements(Elements(items) + ([RBRACKET] + r)) == Some((Meanings(items), r))
    decreases items
  {
    if |items| == 1 {
      DecodeStable(items[0], [RBRACKET] + r);
      assert ([RBRACKET] + r)[1..] == r;
      assert Meanings(items) == [Meaning(items[0])];
    } else {
      var rest := Elements(items[1..]) + ([RBRACKET] + r);
      DecodeStable(items[0], [COMMA] + rest);
      assert Elements(items) + ([RBRACKET] + r) == Stable(items[0]) + ([COMMA] + rest);
      assert ([COMMA] + rest)[1..] == rest;
      DecodeElementsStable(items[1..], r);
    }
  }

  lemma {:induction false} DecodeMembersStable(keys: seq<Text>, ms: seq<Member>, r: Text)
    requires |keys| > 0 && forall k :: k in keys ==> k in KeysOf(ms)
    requires forall i :: 0 <= i < |ms| ==> WellFormed(ms[i].value)
    ensures DecodeMembers(Members(keys, ms) + ([RBRACE] + r)) == Some((MeaningsAt(keys, ms), r))
    decreases ms, |keys|
  {
    var v := At(ms, keys[0]);
    var more := if |keys| == 1 then r else Members(keys[1..], ms) + ([RBRACE] + r);
    var rest := [if |keys| == 1 then RBRACE else COMMA] + more;
    var body := Escape(keys[0]) + ([QUOTE] + ([COLON] + (Stable(v) + rest)));
    MembersFront(keys, ms, r, rest, body);
    DecodeMember(keys[0], v, rest);
    assert rest[1..] == more;
    if |keys| > 1 { DecodeMembersStable(keys[1..], ms, r); }
    DecodeOneMember(body, keys[0], [COLON] + (Stable(v) + rest), Meaning(v), rest);
    MeaningsAtFront(keys, ms);
  }

  lemma {:induction false} MeaningsAtFront(keys: seq<Text>, ms: seq<Member>)
    requires |keys| > 0 && forall k :: k in keys ==> k in KeysOf(ms)
    ensures |keys| == 1 ==> MeaningsAt(keys, ms) == map[keys[0] := Meaning(At(ms, keys[0]))]
    ensures |keys| > 1 ==> MeaningsAt(keys, ms) == map[keys[0] := Meaning(At(ms, keys[0]))] + MeaningsAt(keys[1..], ms)
  {
    assert forall k :: k in keys <==> k == keys[0] || k in keys[1..];
  }

  lemma {:induction false} DecodeOneMember(body: Text, key: Text, afterKey: Text, v: Value, rest: Text)
    requires ReadString(body) == Some((key, afterKey))
    requires |afterKey| > 0 && afterKey[0] == COLON && Decode(afterKey[1..]) == Some((v, rest))
    requires |rest| > 0
    ensures rest[0] == RBRACE ==> DecodeMembers([QUOTE] + body) == Some((map[key := v], rest[1..]))
    ensures rest[0] == COMMA ==> DecodeMembers([QUOTE] + body) == AddMember(key, v, DecodeMembers(rest[1..]))
  {
    assert ([QUOTE] + body)[1..] == body;
  }

  lemma {:induction false} MembersFront(keys: seq<Text>, ms: seq<Member>, r: Text, rest: Text, body: Text)
    requires |keys| > 0 && forall k :: k in keys ==> k in KeysOf(ms)
    requires rest == if |keys| == 1 then [RBRACE] + r else [COMMA] + (Members(keys[1..], ms) + ([RBRACE] + r))
    requires body == Escape(keys[0]) + ([QUOTE] + ([COLON] + (Stable(At(ms, keys[0])) + rest)))
    ensures Members(keys, ms) + ([RBRACE] + r) == [QUOTE] + body
  {
    var v := Stable(At(ms, keys[0]));
    var here := Quote(keys[0]) + [COLON] + v;
    assert Members(keys, ms) + ([RBRACE] + r) == here + rest by {
      if |keys| > 1 { Reassociate(here, [COMMA], Members(keys[1..], ms), [RBRACE] + r); }
    }
    Reassociate(Quote(keys[0]), [COLON], v, rest);
    Reassociate([QUOTE], Escape(keys[0]), [QUOTE], [COLON] + (v + rest));
  }

  lemma {:induction false} Reassociate(a: Text, b: Text, c: Text, d: Text)
    ensures a + b + c + d == a + (b + (c + d))
  {
  }

  /** Reading one member's key, colon and value. */
  lemma {:induction false} DecodeMember(key: Text, v: Json, rest: Text)
    requires WellFormed(v) && Stops(rest)
    ensures ReadString(Escape(key) + ([QUOTE] + ([COLON] + (Stable(v) + rest))))
         == Some((key, [COLON] + (Stable(v) + rest)))
    ensures ([COLON] + (Stable(v) + rest))[1..] == Stable(v) + rest
    ensures Decode(Stable(v) + rest) == Some((Meaning(v), rest))
    decreases v, 1
  {
    ReadEscape(key, [COLON] + (Stable(v) + rest));
    DecodeStable(v, rest);
  }

  // ---------- canonical ----------

  lemma {:induction false} SameMeaningSameText(a: Json, b: Json)
    requires WellFormed(a) && WellFormed(b) && Meaning(a) == Meaning(b)
    ensures Stable(a) == Stable(b)
    decreases a
  {
    match Meaning(a)
    case VArray(vs) =>
      forall i | 0 <= i < |vs| ensures Meaning(a.items[i]) == Meaning(b.items[i]) {
        assert vs[i] == Meaning(a.items[i]) && vs[i] == Meaning(b.items[i]);
      }
      SameElements(a.items, b.items);
    case VObject(m) =>
      var ka, kb := KeysOf(a.members), KeysOf(b.members);
      forall k ensures k in ka <==> k in kb {
        assert k in ka <==> k in m;
        assert k in kb <==> k in m;
      }
      SortKeysSorts(ka);
      SortKeysSorts(kb);
      SortedUnique(SortKeys(ka), SortKeys(kb));
      forall k | k in ka ensures Meaning(At(a.members, k)) == Meaning(At(b.members, k)) {
        assert m[k] == Meaning(At(a.members, k)) && m[k] == Meaning(At(b.members, k));
      }
      SameMembers(SortKeys(ka), a.members, b.members);
    case _ =>
  }

  lemma {:induction false} SameElements(xs: seq<Json>, ys: seq<Json>)
    requires |xs| == |ys|
    requires forall i :: 0 <= i < |xs| ==> WellFormed(xs[i]) && WellFormed(ys[i]) && Meaning(xs[i]) == Meaning(ys[i])
    ensures Elements(xs) == Elements(ys)
    decreases xs
  {
    if |xs| > 0 {
      SameMeaningSameText(xs[0], ys[0]);
      SameElements(xs[1..], ys[1..]);
    }
  }

  lemma {:induction false} SameMembers(keys: seq<Text>, xs: seq<Member>, ys: seq<Member>)
    requires forall k :: k in keys ==> k in KeysOf(xs) && k in KeysOf(ys)
    requires forall i :: 0 <= i < |xs| ==> WellFormed(xs[i].value)
    requires forall i :: 0 <= i < |ys| ==> WellFormed(ys[i].value)
    requires forall k :: k in keys ==> Meaning(At(xs, k)) == Meaning(At(ys, k))
    ensures Members(keys, xs) == Members(keys, ys)
    decreases xs, |keys|
  {
    if |keys| > 0 {
      SameMeaningSameText(At(xs, keys[0]), At(ys, keys[0]));
      SameMembers(keys[1..], xs, ys);
    }
  }

  /** The serializer is canonical and injective: equal texts, and so equal hashes, are exactly
      equal requests up to the order of object members at every depth. */
  lemma {:induction false} SameTextIffSameMeaning(a: Json, b: Json)
    requires WellFormed(a) && WellFormed(b)
    ensures Stable(a) == Stable(b) <==> Meaning(a) == Meaning(b)
  {
    DecodeStable(a, []);
    DecodeStable(b, []);
    assert Stable(a) + [] == Stable(a) && Stable(b) + [] == Stable(b);
    if Meaning(a) == Meaning(b) { SameMeaningSameText(a, b); }
  }

  /** Only what must be escaped is: a text of other units stands for itself. */
  lemma {:induction false} EscapesOnlyWhatItMust(t: Text)
    requires forall i :: 0 <= i < |t| ==> t[i] >= 32 && t[i] != 34 && t[i] != 92 && !(0xd800 <= t[i] < 0xe000)
    ensures Escape(t) == t
  {
    if |t| > 0 {
      EscapesOnlyWhatItMust(t[1..]);
      assert t == [t[0]] + t[1..];
    }
  }
}
