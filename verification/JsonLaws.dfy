/** The canonical text is JSON: its tokens, escapes and layout are those of
    RFC 8259, and reading a string back gives the string. */
module JsonLaws {
  import opened Common
  import opened Texts
  import opened JsonText
  import opened JsonCanonical

  // ---------------------------------------------------------------------
  // Strings, as section 7 of RFC 8259 reads them

  /** The value of a hexadecimal digit of either case. */
  function HexValue(u: CodeUnit): Option<nat> {
    if 48 <= u <= 57 then Some(u - 48)
    else if 65 <= u <= 70 then Some(u - 55)
    else if 97 <= u <= 102 then Some(u - 87)
    else None
  }

  function Hex4(t: Text): Option<CodeUnit> {
    if |t| < 4 || exists i :: 0 <= i < 4 && HexValue(t[i]).None? then None
    else
      Some(HexValue(t[0]).value * 4096 + HexValue(t[1]).value * 256 + HexValue(t[2]).value * 16 + HexValue(t[3]).value)
  }

  /** What the letter after a backslash stands for. */
  function Letter(u: CodeUnit): Option<CodeUnit> {
    if u == 34 || u == 92 || u == 47 then Some(u)
    else if u == 98 then Some(8)
    else if u == 102 then Some(12)
    else if u == 110 then Some(10)
    else if u == 114 then Some(13)
    else if u == 116 then Some(9)
    else None
  }

  /** The string that the text between two quotes stands for, if it is well formed. */
  function Unescape(t: Text): Option<Text> {
    if t == [] then Some([])
    else if t[0] == 92 then
      if |t| >= 2 && Letter(t[1]).Some? then Cons(Letter(t[1]).value, Unescape(t[2..]))
      else if |t| >= 6 && t[1] == 117 && Hex4(t[2..6]).Some? then Cons(Hex4(t[2..6]).value, Unescape(t[6..]))
      else None
    else if t[0] < 32 || t[0] == 34 then None
    else Cons(t[0], Unescape(t[1..]))
  }

  function Cons(u: CodeUnit, rest: Option<Text>): Option<Text> {
    if rest.Some? then Some([u] + rest.value) else None
  }

  lemma HexDigitReads(d: nat)
    requires d < 16
    ensures HexValue(HexDigit(d)) == Some(d)
  {
  }

  lemma Hex4Reads(u: CodeUnit)
    ensures Hex4([HexDigit(u / 0x1000), HexDigit(u / 0x100 % 0x10), HexDigit(u / 0x10 % 0x10), HexDigit(u % 0x10)]) == Some(u)
  {
    HexDigitReads(u / 0x1000);
    HexDigitReads(u / 0x100 % 0x10);
    HexDigitReads(u / 0x10 % 0x10);
    HexDigitReads(u % 0x10);
    HexParts(u);
  }

  lemma UnicodeEscapeReads(u: CodeUnit, t: Text)
    ensures Unescape(UnicodeEscape(u) + t) == Cons(u, Unescape(t))
  {
    var e := UnicodeEscape(u) + t;
    assert e[2..6] == [HexDigit(u / 0x1000), HexDigit(u / 0x100 % 0x10), HexDigit(u / 0x10 % 0x10), HexDigit(u % 0x10)];
    Hex4Reads(u);
    assert e[6..] == t;
  }

  lemma EscapeUnitReads(u: CodeUnit, t: Text)
    ensures Unescape(EscapeUnit(u) + t) == Cons(u, Unescape(t))
  {
    var e := EscapeUnit(u);
    if |e| == 6 {
      UnicodeEscapeReads(u, t);
    } else {
      assert (e + t)[|e|..] == t;
    }
  }

  lemma PlainReads(u: CodeUnit, t: Text)
    requires u >= 0xD800
    ensures Unescape([u] + t) == Cons(u, Unescape(t))
  {
    assert ([u] + t)[1..] == t;
  }

  lemma PairReads(u: CodeUnit, v: CodeUnit, t: Text)
    requires u >= 0xD800 && v >= 0xD800
    ensures Unescape([u, v] + t) == Cons(u, Cons(v, Unescape(t)))
  {
    PlainReads(v, t);
    PlainReads(u, [v] + t);
    assert [u, v] + t == [u] + ([v] + t);
  }

  /** Reading a quoted string back gives the string. */
  lemma {:induction false} EscapedReadsBack(s: Text)
    ensures Unescape(Escape(s)) == Some(s)
  {
    if s == [] {
    } else if StartsWithPair(s) {
      EscapedReadsBack(s[2..]);
      PairReads(s[0], s[1], Escape(s[2..]));
      assert s[..2] == [s[0], s[1]] && s == [s[0]] + ([s[1]] + s[2..]);
    } else {
      EscapedReadsBack(s[1..]);
      EscapeUnitReads(s[0], Escape(s[1..]));
      assert s == [s[0]] + s[1..];
    }
  }

  /** Only what must be is escaped, in the shortest form there is, in lower case. */
  lemma EscapesAreShortest(u: CodeUnit)
    ensures var e := EscapeUnit(u);
            && (|e| == 1 <==> u >= 32 && u != 34 && u != 92 && !(0xD800 <= u < 0xE000))
            && (|e| == 2 <==> u == 34 || u == 92 || u == 8 || u == 9 || u == 10 || u == 12 || u == 13)
            && (|e| == 1 || |e| == 2 || |e| == 6) && (|e| > 1 ==> e[0] == 92)
            && (|e| == 6 ==> e[1] == 117 && forall i | 2 <= i < 6 :: 48 <= e[i] <= 57 || 97 <= e[i] <= 102)
  {
  }

  /** A surrogate pair is kept as it is; any other unit is written by itself. */
  lemma EscapedUnitByUnit(s: Text)
    requires s != []
    ensures Escape(s) ==
              if |s| >= 2 && 0xD800 <= s[0] < 0xDC00 <= s[1] < 0xE000 then s[..2] + Escape(s[2..])
              else EscapeUnit(s[0]) + Escape(s[1..])
  {
  }

  // ---------------------------------------------------------------------
  // Numbers

  /** An integer is written with its digits, none of them a leading zero. */
  lemma {:induction false} DigitsExact(n: nat)
    ensures ValueOf(Digits(n)) == n && Digits(n) != [] && (Digits(n)[0] == 48 <==> n == 0) && (n < 10 ==> |Digits(n)| == 1)
    ensures forall i | 0 <= i < |Digits(n)| :: 48 <= Digits(n)[i] <= 57
  {
    DigitsValue(n);
    if n >= 10 { DigitsExact(n / 10); }
  }

  lemma DecimalExact(n: int)
    ensures Decimal(n) == if n < 0 then Ascii("-") + Digits(-n) else Digits(n)
  {
    assert [MINUS] == Ascii("-");
  }

  // ---------------------------------------------------------------------
  // Layout

  function Comma(parts: seq<Text>): Text {
    if parts == [] then []
    else if |parts| == 1 then parts[0]
    else parts[0] + Ascii(",") + Comma(parts[1..])
  }

  function ItemTexts(items: seq<Json>): seq<Text> {
    seq(|items|, i requires 0 <= i < |items| => StableStringify(items[i]))
  }

  function MemberTexts(members: seq<Member>): seq<Text> {
    seq(|members|, i requires 0 <= i < |members| => Quote(members[i].key) + Ascii(":") + StableStringify(members[i].value))
  }

  lemma {:induction false} ItemsLaidOut(items: seq<Json>)
    ensures StringifyItems(items) == Comma(ItemTexts(items))
  {
    assert [COMMA] == Ascii(",");
    if |items| > 1 {
      ItemsLaidOut(items[1..]);
      assert ItemTexts(items)[1..] == ItemTexts(items[1..]);
    }
  }

  lemma {:induction false} MembersLaidOut(members: seq<Member>, owner: Json)
    requires forall m | m in members :: m.value < owner
    ensures StringifyMembers(members, owner) == Comma(MemberTexts(members))
  {
    assert [COMMA] == Ascii(",") && [COLON] == Ascii(":");
    if |members| > 1 {
      assert forall m | m in members[1..] :: m in members;
      MembersLaidOut(members[1..], owner);
      assert MemberTexts(members)[1..] == MemberTexts(members[1..]);
    }
  }

  lemma TokensExact()
    ensures NULL == Ascii("null") && TRUE == Ascii("true") && FALSE == Ascii("false") && UNDEFINED == Ascii("undefined")
    ensures [QUOTE] == [34] && [OPEN_BRACKET] == Ascii("[") && [CLOSE_BRACKET] == Ascii("]")
    ensures [OPEN_BRACE] == Ascii("{") && [CLOSE_BRACE] == Ascii("}")
  {
  }

  /** The text of each kind of value: literals, numbers, quoted strings, items and
      members with commas between, the members in the order of their keys. */
  lemma TextExact(v: Json)
    ensures match v
            case Undefined => StableStringify(v) == Ascii("undefined")
            case Null => StableStringify(v) == Ascii("null")
            case Bool(b) => StableStringify(v) == Ascii(if b then "true" else "false")
            case Num(n) => StableStringify(v) == Decimal(n)
            case Str(text) => StableStringify(v) == [34] + Escape(text) + [34]
            case Arr(items) => StableStringify(v) == Ascii("[") + Comma(ItemTexts(items)) + Ascii("]")
            case Obj(members) =>
              var sorted := SortBy(members, KeyBefore);
              && multiset(sorted) == multiset(members)
              && (forall i, j | 0 <= i < j < |sorted| :: !Before(sorted[j].key, sorted[i].key))
              && StableStringify(v) == Ascii("{") + Comma(MemberTexts(sorted)) + Ascii("}")
  {
    TokensExact();
    match v
    case Arr(items) => ItemsLaidOut(items);
    case Obj(members) =>
      SortPermutes(members, KeyBefore);
      MembersAreSmaller(v, SortBy(members, KeyBefore));
      MembersLaidOut(SortBy(members, KeyBefore), v);
      KeyBeforeIsOrdering();
      SortSorts(members, KeyBefore);
    case _ =>
  }
}
