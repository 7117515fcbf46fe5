/** JSON values and the canonical text that approval hashes are taken of. */
module JsonText {
  import opened Common
  import opened Texts

  /** Integers every double represents exactly. */
  type SafeInteger = n: int | -0x20_0000_0000_0000 < n < 0x20_0000_0000_0000

  /** A JSON value, or `undefined`. Members are in insertion order. */
  datatype Json =
    | Undefined
    | Null
    | Bool(b: bool)
    | Num(n: SafeInteger)
    | Str(text: Text)
    | Arr(items: seq<Json>)
    | Obj(members: seq<Member>)

  datatype Member = Member(key: Text, value: Json)

  /** No object has the same key twice. */
  ghost predicate Proper(v: Json) {
    match v
    case Arr(items) => forall i | 0 <= i < |items| :: Proper(items[i])
    case Obj(members) =>
      && (forall i | 0 <= i < |members| :: Proper(members[i].value))
      && DistinctKeys(members)
    case _ => true
  }

  ghost predicate DistinctKeys(members: seq<Member>) {
    forall i, j | 0 <= i < j < |members| :: members[i].key != members[j].key
  }

  ghost predicate HasKey(members: seq<Member>, key: Text) {
    exists i :: 0 <= i < |members| && members[i].key == key
  }

  /** Equality up to the order of object members. */
  ghost predicate Same(v: Json, w: Json) {
    match v
    case Arr(items) =>
      w.Arr? && |items| == |w.items| && forall i | 0 <= i < |items| :: Same(items[i], w.items[i])
    case Obj(members) =>
      && w.Obj?
      && (forall key :: HasKey(members, key) <==> HasKey(w.members, key))
      && (forall i, j | 0 <= i < |members| && 0 <= j < |w.members| && members[i].key == w.members[j].key ::
            Same(members[i].value, w.members[j].value))
    case _ => v == w
  }

  // ---------------------------------------------------------------------
  // Tokens

  const QUOTE: CodeUnit := 0x22
  const COMMA: CodeUnit := 0x2C
  const MINUS: CodeUnit := 0x2D
  const COLON: CodeUnit := 0x3A
  const OPEN_BRACKET: CodeUnit := 0x5B
  const BACKSLASH: CodeUnit := 0x5C
  const CLOSE_BRACKET: CodeUnit := 0x5D
  const OPEN_BRACE: CodeUnit := 0x7B
  const CLOSE_BRACE: CodeUnit := 0x7D
  const UNDEFINED: Text := [0x75, 0x6E, 0x64, 0x65, 0x66, 0x69, 0x6E, 0x65, 0x64]
  const NULL: Text := [0x6E, 0x75, 0x6C, 0x6C]
  const TRUE: Text := [0x74, 0x72, 0x75, 0x65]
  const FALSE: Text := [0x66, 0x61, 0x6C, 0x73, 0x65]

  function Digits(n: nat): Text {
    if n < 10 then [0x30 + n] else Digits(n / 10) + [0x30 + n % 10]
  }

  function Decimal(n: int): Text {
    if n < 0 then [MINUS] + Digits(-n) else Digits(n)
  }

  function HexDigit(d: nat): CodeUnit
    requires d < 16
  {
    if d < 10 then 0x30 + d else 0x57 + d
  }

  function UnicodeEscape(u: CodeUnit): Text {
    [BACKSLASH, 0x75, HexDigit(u / 0x1000), HexDigit(u / 0x100 % 0x10), HexDigit(u / 0x10 % 0x10), HexDigit(u % 0x10)]
  }

  predicate HighSurrogate(u: CodeUnit) { 0xD800 <= u < 0xDC00 }

  predicate LowSurrogate(u: CodeUnit) { 0xDC00 <= u < 0xE000 }

  /** One code unit that is not half of a surrogate pair, as section 7 of
      RFC 8259 has it; a lone surrogate is escaped. */
  function EscapeUnit(u: CodeUnit): Text {
    if u == QUOTE || u == BACKSLASH then [BACKSLASH, u]
    else if u == 0x08 then [BACKSLASH, 0x62]
    else if u == 0x09 then [BACKSLASH, 0x74]
    else if u == 0x0A then [BACKSLASH, 0x6E]
    else if u == 0x0C then [BACKSLASH, 0x66]
    else if u == 0x0D then [BACKSLASH, 0x72]
    else if u < 0x20 || HighSurrogate(u) || LowSurrogate(u) then UnicodeEscape(u)
    else [u]
  }

  predicate StartsWithPair(s: Text) {
    |s| >= 2 && HighSurrogate(s[0]) && LowSurrogate(s[1])
  }

  function Escape(s: Text): Text {
    if s == [] then []
    else if StartsWithPair(s) then s[..2] + Escape(s[2..])
    else EscapeUnit(s[0]) + Escape(s[1..])
  }

  function Quote(s: Text): Text {
    [QUOTE] + Escape(s) + [QUOTE]
  }

  // ---------------------------------------------------------------------
  // The canonical text

  predicate KeyBefore(m: Member, n: Member) {
    Before(m.key, n.key)
  }

  lemma MembersAreSmaller(v: Json, sorted: seq<Member>)
    requires v.Obj? && multiset(sorted) == multiset(v.members)
    ensures forall m | m in sorted :: m.value < v
  {
    forall m | m in sorted
      ensures m.value < v
    {
      assert m in multiset(sorted);
      var i :| 0 <= i < |v.members| && v.members[i] == m;
    }
  }

  function StableStringify(v: Json): Text
    decreases v, 1
  {
    match v
    case Undefined => UNDEFINED
    case Null => NULL
    case Bool(b) => if b then TRUE else FALSE
    case Num(n) => Decimal(n)
    case Str(text) => Quote(text)
    case Arr(items) => [OPEN_BRACKET] + StringifyItems(items) + [CLOSE_BRACKET]
    case Obj(members) =>
      SortPermutes(members, KeyBefore);
      MembersAreSmaller(v, SortBy(members, KeyBefore));
      [OPEN_BRACE] + StringifyMembers(SortBy(members, KeyBefore), v) + [CLOSE_BRACE]
  }

  function StringifyItems(items: seq<Json>): Text
    decreases items, 0
  {
    if items == [] then []
    else if |items| == 1 then StableStringify(items[0])
    else StableStringify(items[0]) + [COMMA] + StringifyItems(items[1..])
  }

  function StringifyMembers(members: seq<Member>, ghost owner: Json): Text
    requires forall m | m in members :: m.value < owner
    decreases owner, 0, |members|
  {
    if members == [] then []
    else if |members| == 1 then StringifyMember(members[0], owner)
    else StringifyMember(members[0], owner) + [COMMA] + StringifyMembers(members[1..], owner)
  }

  function StringifyMember(m: Member, ghost owner: Json): Text
    requires m.value < owner
    decreases m.value, 2
  {
    Quote(m.key) + [COLON] + StableStringify(m.value)
  }
}
