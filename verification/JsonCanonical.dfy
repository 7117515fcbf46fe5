/** The canonical text determines the value, up to the order of members. */
module JsonCanonical {
  import opened Common
  import opened Texts
  import opened JsonText

  lemma Cancel(a: Text, b: Text, s: Text, t: Text)
    requires a + s == b + t && |a| == |b|
    ensures a == b && s == t
  {
    assert a == (a + s)[..|a|] && b == (b + t)[..|b|];
    assert s == (a + s)[|a|..] && t == (b + t)[|b|..];
  }

  lemma Associate(a: Text, b: Text, c: Text)
    ensures (a + b) + c == a + (b + c)
  {
  }

  // ---------------------------------------------------------------------
  // Numbers

  predicate IsDigit(u: CodeUnit) { 0x30 <= u < 0x3A }

  function ValueOf(digits: Text): int {
    if digits == [] then 0 else ValueOf(digits[..|digits| - 1]) * 10 + digits[|digits| - 1] - 0x30
  }

  lemma {:induction false} DigitsValue(n: nat)
    ensures Digits(n) != [] && ValueOf(Digits(n)) == n
    ensures forall i | 0 <= i < |Digits(n)| :: IsDigit(Digits(n)[i])
  {
    if n < 10 {
      assert Digits(n)[..0] == [];
    } else {
      DigitsValue(n / 10);
      assert Digits(n)[..|Digits(n)| - 1] == Digits(n / 10);
    }
  }

  function UnitAt(s: Text, i: nat): int {
    if i < |s| then s[i] else -1
  }

  lemma RunNoLonger(a: Text, b: Text, s: Text, t: Text)
    requires a + s == b + t && (t == [] || !IsDigit(t[0]))
    requires forall i | 0 <= i < |a| :: IsDigit(a[i])
    ensures |a| <= |b|
  {
    assert UnitAt(a + s, |b|) == UnitAt(b + t, |b|);
  }

  lemma DigitsDetermine(m: nat, n: nat, s: Text, t: Text)
    requires Digits(m) + s == Digits(n) + t
    requires (s == [] || !IsDigit(s[0])) && (t == [] || !IsDigit(t[0]))
    ensures m == n && s == t
  {
    DigitsValue(m);
    DigitsValue(n);
    RunNoLonger(Digits(m), Digits(n), s, t);
    RunNoLonger(Digits(n), Digits(m), t, s);
    Cancel(Digits(m), Digits(n), s, t);
  }

  predicate Stops(s: Text) {
    s == [] || s[0] == COMMA || s[0] == CLOSE_BRACKET || s[0] == CLOSE_BRACE
  }

  lemma DecimalSign(n: int)
    ensures |Decimal(n)| > 0
    ensures Decimal(n)[0] == MINUS <==> n < 0
    ensures Decimal(n)[0] == MINUS || IsDigit(Decimal(n)[0])
  {
    DigitsValue(if n < 0 then -n else n);
  }

  lemma DecimalDetermines(m: int, n: int, s: Text, t: Text)
    requires Decimal(m) + s == Decimal(n) + t && Stops(s) && Stops(t)
    ensures m == n && s == t
  {
    DecimalSign(m);
    DecimalSign(n);
    assert (Decimal(m) + s)[0] == (Decimal(n) + t)[0];
    if m < 0 {
      Associate([MINUS], Digits(-m), s);
      Associate([MINUS], Digits(-n), t);
      Cancel([MINUS], [MINUS], Digits(-m) + s, Digits(-n) + t);
      DigitsDetermine(-m, -n, s, t);
    } else {
      DigitsDetermine(m, n, s, t);
    }
  }

  // ---------------------------------------------------------------------
  // Strings

  lemma HexDetermines(u: CodeUnit, v: CodeUnit)
    requires UnicodeEscape(u) == UnicodeEscape(v)
    ensures u == v
  {
    HexParts(u);
    HexParts(v);
    assert UnicodeEscape(u)[2] == UnicodeEscape(v)[2] && UnicodeEscape(u)[3] == UnicodeEscape(v)[3];
    assert UnicodeEscape(u)[4] == UnicodeEscape(v)[4] && UnicodeEscape(u)[5] == UnicodeEscape(v)[5];
  }

  /** A code unit is told by its four hexadecimal digits. */
  lemma HexParts(u: CodeUnit)
    ensures u == u / 0x1000 * 0x1000 + u / 0x100 % 0x10 * 0x100 + u / 0x10 % 0x10 * 0x10 + u % 0x10
  {
    var a := u / 0x10;
    var b := a / 0x10;
    var c := b / 0x10;
    assert u == a * 0x10 + u % 0x10 && a == b * 0x10 + a % 0x10 && b == c * 0x10 + b % 0x10;
    assert u / 0x100 == b;
    assert u / 0x1000 == c;
  }

  /** What the first code unit, or surrogate pair, of a string is written as. */
  function Head(s: Text): Text
    requires s != []
  {
    if StartsWithPair(s) then s[..2] else EscapeUnit(s[0])
  }

  function Rest(s: Text): Text
    requires s != []
  {
    if StartsWithPair(s) then s[2..] else s[1..]
  }

  lemma UnitDetermines(u: CodeUnit, v: CodeUnit, x: Text, y: Text)
    requires EscapeUnit(u) + x == EscapeUnit(v) + y
    ensures u == v && x == y
  {
    assert (EscapeUnit(u) + x)[0] == (EscapeUnit(v) + y)[0];
    if EscapeUnit(u)[0] == BACKSLASH {
      assert (EscapeUnit(u) + x)[1] == (EscapeUnit(v) + y)[1];
      Cancel(EscapeUnit(u), EscapeUnit(v), x, y);
      if |EscapeUnit(u)| == 6 { HexDetermines(u, v); }
    } else {
      Cancel(EscapeUnit(u), EscapeUnit(v), x, y);
    }
  }

  lemma HeadDetermines(s: Text, t: Text, x: Text, y: Text)
    requires s != [] && t != [] && Head(s) + x == Head(t) + y
    ensures StartsWithPair(s) == StartsWithPair(t) && x == y
    ensures StartsWithPair(s) ==> s[..2] == t[..2]
    ensures !StartsWithPair(s) ==> s[0] == t[0]
  {
    assert (Head(s) + x)[0] == (Head(t) + y)[0];
    if StartsWithPair(s) || StartsWithPair(t) {
      Cancel(Head(s), Head(t), x, y);
    } else {
      UnitDetermines(s[0], t[0], x, y);
    }
  }

  lemma {:induction false} EscapeDetermines(s: Text, t: Text, x: Text, y: Text)
    requires Escape(s) + ([QUOTE] + x) == Escape(t) + ([QUOTE] + y)
    ensures s == t && x == y
    decreases |s|
  {
    var left, right := Escape(s) + ([QUOTE] + x), Escape(t) + ([QUOTE] + y);
    assert left[0] == right[0];
    if s == [] || t == [] {
      assert s == [] && t == [];
      assert left == [QUOTE] + x && right == [QUOTE] + y;
      Cancel([QUOTE], [QUOTE], x, y);
    } else {
      Associate(Head(s), Escape(Rest(s)), [QUOTE] + x);
      Associate(Head(t), Escape(Rest(t)), [QUOTE] + y);
      HeadDetermines(s, t, Escape(Rest(s)) + ([QUOTE] + x), Escape(Rest(t)) + ([QUOTE] + y));
      EscapeDetermines(Rest(s), Rest(t), x, y);
      if StartsWithPair(s) {
        assert s == s[..2] + Rest(s) && t == t[..2] + Rest(t);
      } else {
        assert s == [s[0]] + Rest(s) && t == [t[0]] + Rest(t);
      }
    }
  }

  lemma QuoteDetermines(s: Text, t: Text, x: Text, y: Text)
    requires Quote(s) + x == Quote(t) + y
    ensures s == t && x == y
  {
    assert Quote(s) + x == [QUOTE] + (Escape(s) + ([QUOTE] + x));
    assert Quote(t) + y == [QUOTE] + (Escape(t) + ([QUOTE] + y));
    Cancel([QUOTE], [QUOTE], Escape(s) + ([QUOTE] + x), Escape(t) + ([QUOTE] + y));
    EscapeDetermines(s, t, x, y);
  }

  // ---------------------------------------------------------------------
  // Values

  /** The first code unit of a text tells the kind of the value. */
  lemma FirstUnit(v: Json)
    ensures StableStringify(v) != []
    ensures var u := StableStringify(v)[0];
            && (v.Undefined? <==> u == 0x75) && (v.Null? <==> u == 0x6E)
            && (v == Bool(true) <==> u == 0x74) && (v == Bool(false) <==> u == 0x66)
            && (v.Num? <==> u == MINUS || IsDigit(u)) && (v.Str? <==> u == QUOTE)
            && (v.Arr? <==> u == OPEN_BRACKET) && (v.Obj? <==> u == OPEN_BRACE)
            && !Stops([u])
  {
    if v.Num? { DecimalSign(v.n); }
  }

  /** Two texts that agree up to a stop describe the same value. */
  lemma {:induction false} TextDetermines(v: Json, w: Json, s: Text, t: Text)
    requires Proper(v) && Proper(w) && Stops(s) && Stops(t)
    requires StableStringify(v) + s == StableStringify(w) + t
    ensures Same(v, w) && s == t
    decreases v, 2
  {
    FirstUnit(v);
    FirstUnit(w);
    assert (StableStringify(v) + s)[0] == (StableStringify(w) + t)[0];
    match v
    case Num(n) => DecimalDetermines(n, w.n, s, t);
    case Str(text) => QuoteDetermines(text, w.text, s, t);
    case Arr(_) => ArrayDetermines(v, w, s, t);
    case Obj(_) => ObjectDetermines(v, w, s, t);
    case _ => Cancel(StableStringify(v), StableStringify(w), s, t);
  }

  lemma {:induction false} ArrayDetermines(v: Json, w: Json, s: Text, t: Text)
    requires Proper(v) && Proper(w) && v.Arr? && w.Arr?
    requires StableStringify(v) + s == StableStringify(w) + t
    ensures Same(v, w) && s == t
    decreases v, 1
  {
    var inner, inner' := StringifyItems(v.items), StringifyItems(w.items);
    assert StableStringify(v) + s == [OPEN_BRACKET] + (inner + ([CLOSE_BRACKET] + s));
    assert StableStringify(w) + t == [OPEN_BRACKET] + (inner' + ([CLOSE_BRACKET] + t));
    Cancel([OPEN_BRACKET], [OPEN_BRACKET], inner + ([CLOSE_BRACKET] + s), inner' + ([CLOSE_BRACKET] + t));
    ItemsDetermine(v.items, w.items, s, t);
  }

  /** The text of a non-empty list, split after its first item. */
  lemma ItemsSplit(items: seq<Json>, s: Text)
    requires items != []
    ensures StringifyItems(items) + ([CLOSE_BRACKET] + s) == StableStringify(items[0]) + AfterFirst(items, s)
  {
  }

  lemma ItemsStart(items: seq<Json>, s: Text)
    ensures items == [] <==> (StringifyItems(items) + ([CLOSE_BRACKET] + s))[0] == CLOSE_BRACKET
  {
    if items != [] { FirstUnit(items[0]); }
  }

  lemma {:induction false} ItemsDetermine(items: seq<Json>, others: seq<Json>, s: Text, t: Text)
    requires forall i | 0 <= i < |items| :: Proper(items[i])
    requires forall i | 0 <= i < |others| :: Proper(others[i])
    requires StringifyItems(items) + ([CLOSE_BRACKET] + s) == StringifyItems(others) + ([CLOSE_BRACKET] + t)
    ensures AllSame(items, others) && s == t
    decreases items, 0
  {
    ItemsStart(items, s);
    ItemsStart(others, t);
    if items == [] {
      assert StringifyItems(items) + ([CLOSE_BRACKET] + s) == [CLOSE_BRACKET] + s;
      assert StringifyItems(others) + ([CLOSE_BRACKET] + t) == [CLOSE_BRACKET] + t;
      Cancel([CLOSE_BRACKET], [CLOSE_BRACKET], s, t);
    } else {
      ItemsSplit(items, s);
      ItemsSplit(others, t);
      TextDetermines(items[0], others[0], AfterFirst(items, s), AfterFirst(others, t));
      AfterFirstDetermines(items, others, s, t);
      if |items| > 1 { ItemsDetermine(items[1..], others[1..], s, t); }
      ConsAllSame(items, others);
    }
  }

  ghost predicate AllSame(items: seq<Json>, others: seq<Json>) {
    |items| == |others| && forall i | 0 <= i < |items| :: Same(items[i], others[i])
  }

  lemma ConsAllSame(items: seq<Json>, others: seq<Json>)
    requires items != [] && others != [] && Same(items[0], others[0]) && AllSame(items[1..], others[1..])
    ensures AllSame(items, others)
  {
    assert items == [items[0]] + items[1..] && others == [others[0]] + others[1..];
  }

  lemma AfterFirstDetermines(items: seq<Json>, others: seq<Json>, s: Text, t: Text)
    requires items != [] && others != [] && AfterFirst(items, s) == AfterFirst(others, t)
    ensures |items| == 1 <==> |others| == 1
    ensures |items| == 1 ==> s == t
    ensures |items| > 1 ==>
              StringifyItems(items[1..]) + ([CLOSE_BRACKET] + s) == StringifyItems(others[1..]) + ([CLOSE_BRACKET] + t)
  {
    assert AfterFirst(items, s)[0] == AfterFirst(others, t)[0];
    assert AfterFirst(items, s)[1..] == AfterFirst(others, t)[1..];
  }

  function AfterFirst(items: seq<Json>, s: Text): Text
    requires items != []
  {
    if |items| == 1 then [CLOSE_BRACKET] + s
    else [COMMA] + (StringifyItems(items[1..]) + ([CLOSE_BRACKET] + s))
  }

  // ---------------------------------------------------------------------
  // Objects

  function OrderedMembers(v: Json): seq<Member>
    requires v.Obj?
  {
    SortPermutes(v.members, KeyBefore);
    MembersAreSmaller(v, SortBy(v.members, KeyBefore));
    SortBy(v.members, KeyBefore)
  }

  function Keys(members: seq<Member>): seq<Text> {
    seq(|members|, i requires 0 <= i < |members| => members[i].key)
  }

  ghost predicate StrictlyOrdered(members: seq<Member>) {
    forall i, j | 0 <= i < j < |members| :: Before(members[i].key, members[j].key)
  }

  lemma KeyBeforeIsOrdering()
    ensures Ordering(KeyBefore)
  {
    BeforeIsOrdering();
  }

  /** With distinct keys, a key tells its member. */
  lemma KeyTellsMember(members: seq<Member>, m: Member, n: Member)
    requires DistinctKeys(members) && m in members && n in members && m.key == n.key
    ensures m == n
  {
    var p :| 0 <= p < |members| && members[p] == m;
    var q :| 0 <= q < |members| && members[q] == n;
  }

  lemma DistinctKeysDistinct(members: seq<Member>)
    requires DistinctKeys(members)
    ensures Distinct(members)
  {
  }

  lemma StrictlySorts(members: seq<Member>, a: seq<Member>)
    requires DistinctKeys(members) && multiset(a) == multiset(members) && Sorted(a, KeyBefore)
    ensures StrictlyOrdered(a)
  {
    DistinctKeysDistinct(members);
    PermutationKeepsDistinct(members, a);
    SameMultisetSameElements(a, members);
    forall i, j | 0 <= i < j < |a|
      ensures Before(a[i].key, a[j].key)
    {
      BeforeTotal(a[i].key, a[j].key);
      if a[i].key == a[j].key { KeyTellsMember(members, a[i], a[j]); }
    }
  }

  lemma OrderedMembersProper(v: Json)
    requires v.Obj? && Proper(v)
    ensures var a := OrderedMembers(v);
            && |a| == |v.members| && (forall m :: m in a <==> m in v.members)
            && StrictlyOrdered(a) && (forall m | m in a :: Proper(m.value) && m.value < v)
  {
    var a := OrderedMembers(v);
    SortPermutes(v.members, KeyBefore);
    MembersAreSmaller(v, a);
    SameMultisetSameElements(a, v.members);
    KeyBeforeIsOrdering();
    SortSorts(v.members, KeyBefore);
    StrictlySorts(v.members, a);
    forall m | m in a
      ensures Proper(m.value)
    {
      var p :| 0 <= p < |v.members| && v.members[p] == m;
    }
  }

  ghost predicate Alike(a: seq<Member>, b: seq<Member>) {
    |a| == |b| && forall i | 0 <= i < |a| :: a[i].key == b[i].key && Same(a[i].value, b[i].value)
  }

  function MembersText(v: Json, s: Text): Text
    requires v.Obj?
  {
    SortPermutes(v.members, KeyBefore);
    MembersAreSmaller(v, OrderedMembers(v));
    StringifyMembers(OrderedMembers(v), v) + ([CLOSE_BRACE] + s)
  }

  lemma ObjectText(v: Json, s: Text)
    requires v.Obj?
    ensures StableStringify(v) + s == [OPEN_BRACE] + MembersText(v, s)
  {
    SortPermutes(v.members, KeyBefore);
    MembersAreSmaller(v, OrderedMembers(v));
    var inner := StringifyMembers(OrderedMembers(v), v);
    assert (([OPEN_BRACE] + inner) + [CLOSE_BRACE]) + s == [OPEN_BRACE] + (inner + ([CLOSE_BRACE] + s));
  }

  lemma {:induction false} ObjectDetermines(v: Json, w: Json, s: Text, t: Text)
    requires Proper(v) && Proper(w) && v.Obj? && w.Obj?
    requires StableStringify(v) + s == StableStringify(w) + t
    ensures Same(v, w) && s == t
    decreases v, 1
  {
    ObjectText(v, s);
    ObjectText(w, t);
    Cancel([OPEN_BRACE], [OPEN_BRACE], MembersText(v, s), MembersText(w, t));
    OrderedMembersProper(v);
    OrderedMembersProper(w);
    MembersDetermine(OrderedMembers(v), v, OrderedMembers(w), w, s, t);
    AlikeIsSame(v, w);
  }

  lemma Regroup(key: Text, colon: Text, value: Text, comma: Text, more: Text, end: Text)
    ensures ((key + colon + value) + comma + more) + end == key + (colon + (value + (comma + (more + end))))
  {
  }

  lemma MembersSplit(a: seq<Member>, v: Json, s: Text)
    requires a != [] && forall m | m in a :: m.value < v
    ensures StringifyMembers(a, v) + ([CLOSE_BRACE] + s)
            == Quote(a[0].key) + ([COLON] + (StableStringify(a[0].value) + AfterFirstMember(a, v, s)))
  {
    var key, value := Quote(a[0].key), StableStringify(a[0].value);
    if |a| == 1 {
      Regroup(key, [COLON], value, [], [], [CLOSE_BRACE] + s);
      assert [] + ([] + ([CLOSE_BRACE] + s)) == [CLOSE_BRACE] + s;
      assert (key + [COLON] + value) + [] + [] == key + [COLON] + value;
    } else {
      Regroup(key, [COLON], value, [COMMA], StringifyMembers(a[1..], v), [CLOSE_BRACE] + s);
    }
  }

  lemma AfterFirstMemberDetermines(a: seq<Member>, v: Json, b: seq<Member>, w: Json, s: Text, t: Text)
    requires a != [] && forall m | m in a :: m.value < v
    requires b != [] && forall m | m in b :: m.value < w
    requires AfterFirstMember(a, v, s) == AfterFirstMember(b, w, t)
    ensures |a| == 1 <==> |b| == 1
    ensures |a| == 1 ==> s == t
    ensures |a| > 1 ==>
              StringifyMembers(a[1..], v) + ([CLOSE_BRACE] + s) == StringifyMembers(b[1..], w) + ([CLOSE_BRACE] + t)
  {
    assert AfterFirstMember(a, v, s)[0] == AfterFirstMember(b, w, t)[0];
    assert AfterFirstMember(a, v, s)[1..] == AfterFirstMember(b, w, t)[1..];
  }

  lemma ConsAlike(a: seq<Member>, b: seq<Member>)
    requires a != [] && b != [] && a[0].key == b[0].key && Same(a[0].value, b[0].value) && Alike(a[1..], b[1..])
    ensures Alike(a, b)
  {
    assert a == [a[0]] + a[1..] && b == [b[0]] + b[1..];
  }

  lemma MembersStart(a: seq<Member>, v: Json, s: Text)
    requires forall m | m in a :: m.value < v
    ensures a == [] <==> (StringifyMembers(a, v) + ([CLOSE_BRACE] + s))[0] == CLOSE_BRACE
  {
  }

  lemma {:induction false} MembersDetermine(a: seq<Member>, v: Json, b: seq<Member>, w: Json, s: Text, t: Text)
    requires forall m | m in a :: Proper(m.value) && m.value < v
    requires forall m | m in b :: Proper(m.value) && m.value < w
    requires StringifyMembers(a, v) + ([CLOSE_BRACE] + s) == StringifyMembers(b, w) + ([CLOSE_BRACE] + t)
    ensures Alike(a, b) && s == t
    decreases v, 0, |a|
  {
    MembersStart(a, v, s);
    MembersStart(b, w, t);
    if a == [] {
      assert StringifyMembers(a, v) + ([CLOSE_BRACE] + s) == [CLOSE_BRACE] + s;
      assert StringifyMembers(b, w) + ([CLOSE_BRACE] + t) == [CLOSE_BRACE] + t;
      Cancel([CLOSE_BRACE], [CLOSE_BRACE], s, t);
    } else {
      MembersSplit(a, v, s);
      MembersSplit(b, w, t);
      var x := StableStringify(a[0].value) + AfterFirstMember(a, v, s);
      var y := StableStringify(b[0].value) + AfterFirstMember(b, w, t);
      QuoteDetermines(a[0].key, b[0].key, [COLON] + x, [COLON] + y);
      Cancel([COLON], [COLON], x, y);
      TextDetermines(a[0].value, b[0].value, AfterFirstMember(a, v, s), AfterFirstMember(b, w, t));
      AfterFirstMemberDetermines(a, v, b, w, s, t);
      if |a| > 1 { MembersDetermine(a[1..], v, b[1..], w, s, t); }
      ConsAlike(a, b);
    }
  }

  function AfterFirstMember(a: seq<Member>, ghost v: Json, s: Text): Text
    requires a != [] && forall m | m in a :: m.value < v
  {
    if |a| == 1 then [CLOSE_BRACE] + s
    else [COMMA] + (StringifyMembers(a[1..], v) + ([CLOSE_BRACE] + s))
  }

  lemma AlikeIsSame(v: Json, w: Json)
    requires v.Obj? && w.Obj? && Proper(v) && Proper(w)
    requires Alike(OrderedMembers(v), OrderedMembers(w))
    ensures Same(v, w)
  {
    var a, b := OrderedMembers(v), OrderedMembers(w);
    OrderedMembersProper(v);
    OrderedMembersProper(w);
    forall key
      ensures HasKey(v.members, key) <==> HasKey(w.members, key)
    {
      SameKeys(v, key);
      SameKeys(w, key);
    }
    forall i, j | 0 <= i < |v.members| && 0 <= j < |w.members| && v.members[i].key == w.members[j].key
      ensures Same(v.members[i].value, w.members[j].value)
    {
      assert v.members[i] in a && w.members[j] in b;
      var p :| 0 <= p < |a| && a[p] == v.members[i];
      var q :| 0 <= q < |b| && b[q] == w.members[j];
      BeforeIrreflexive(a[p].key);
    }
  }

  lemma SameKeys(v: Json, key: Text)
    requires v.Obj? && Proper(v)
    ensures HasKey(v.members, key) <==> HasKey(OrderedMembers(v), key)
  {
    var a := OrderedMembers(v);
    OrderedMembersProper(v);
    if HasKey(v.members, key) {
      var i :| 0 <= i < |v.members| && v.members[i].key == key;
      assert v.members[i] in a;
    }
    if HasKey(a, key) {
      var i :| 0 <= i < |a| && a[i].key == key;
      assert a[i] in v.members;
    }
  }

  // ---------------------------------------------------------------------
  // The other direction: equal values have equal texts

  lemma {:induction false} OrderIsUnique(a: seq<Member>, b: seq<Member>)
    requires StrictlyOrdered(a) && StrictlyOrdered(b) && forall key :: HasKey(a, key) <==> HasKey(b, key)
    ensures |a| == |b| && forall i | 0 <= i < |a| :: a[i].key == b[i].key
  {
    if a == [] || b == [] {
      if a != [] { assert HasKey(a, a[0].key); }
      if b != [] { assert HasKey(b, b[0].key); }
    } else {
      assert HasKey(a, a[0].key) && HasKey(b, b[0].key);
      FirstIsLeast(a, b);
      FirstIsLeast(b, a);
      if a[0].key != b[0].key {
        BeforeTransitive(a[0].key, b[0].key, a[0].key);
        BeforeIrreflexive(a[0].key);
      }
      forall key
        ensures HasKey(a[1..], key) <==> HasKey(b[1..], key)
      {
        TailKeys(a, key);
        TailKeys(b, key);
      }
      OrderIsUnique(a[1..], b[1..]);
      assert a == [a[0]] + a[1..] && b == [b[0]] + b[1..];
    }
  }

  lemma FirstIsLeast(a: seq<Member>, b: seq<Member>)
    requires a != [] && b != [] && StrictlyOrdered(a) && HasKey(a, b[0].key)
    ensures a[0].key == b[0].key || Before(a[0].key, b[0].key)
  {
    var i :| 0 <= i < |a| && a[i].key == b[0].key;
  }

  lemma TailKeys(a: seq<Member>, key: Text)
    requires a != [] && StrictlyOrdered(a)
    ensures HasKey(a[1..], key) <==> HasKey(a, key) && key != a[0].key
  {
    if HasKey(a[1..], key) {
      var i :| 0 <= i < |a[1..]| && a[1..][i].key == key;
      assert a[i + 1].key == key;
      BeforeIrreflexive(key);
    }
    if HasKey(a, key) && key != a[0].key {
      var i :| 0 <= i < |a| && a[i].key == key;
      assert a[1..][i - 1].key == key;
    }
  }

  lemma SameIsAlike(v: Json, w: Json)
    requires v.Obj? && w.Obj? && Proper(v) && Proper(w) && Same(v, w)
    ensures Alike(OrderedMembers(v), OrderedMembers(w))
  {
    var a, b := OrderedMembers(v), OrderedMembers(w);
    OrderedMembersProper(v);
    OrderedMembersProper(w);
    forall key
      ensures HasKey(a, key) <==> HasKey(b, key)
    {
      SameKeys(v, key);
      SameKeys(w, key);
    }
    OrderIsUnique(a, b);
    forall k | 0 <= k < |a|
      ensures Same(a[k].value, b[k].value)
    {
      assert a[k] in v.members && b[k] in w.members;
      var i :| 0 <= i < |v.members| && v.members[i] == a[k];
      var j :| 0 <= j < |w.members| && w.members[j] == b[k];
    }
  }

  lemma {:induction false} SameText(v: Json, w: Json)
    requires Proper(v) && Proper(w) && Same(v, w)
    ensures StableStringify(v) == StableStringify(w)
    decreases v, 1
  {
    match v
    case Arr(items) => SameItemsText(items, w.items);
    case Obj(_) =>
      OrderedMembersProper(v);
      OrderedMembersProper(w);
      SameIsAlike(v, w);
      SameMembersText(OrderedMembers(v), v, OrderedMembers(w), w);
    case _ =>
  }

  lemma {:induction false} SameItemsText(items: seq<Json>, others: seq<Json>)
    requires forall i | 0 <= i < |items| :: Proper(items[i])
    requires forall i | 0 <= i < |others| :: Proper(others[i])
    requires AllSame(items, others)
    ensures StringifyItems(items) == StringifyItems(others)
    decreases items, 0
  {
    if items != [] {
      SameText(items[0], others[0]);
      SameItemsText(items[1..], others[1..]);
    }
  }

  lemma {:induction false} SameMembersText(a: seq<Member>, v: Json, b: seq<Member>, w: Json)
    requires forall m | m in a :: Proper(m.value) && m.value < v
    requires forall m | m in b :: Proper(m.value) && m.value < w
    requires Alike(a, b)
    ensures StringifyMembers(a, v) == StringifyMembers(b, w)
    decreases v, 0, |a|
  {
    if a != [] {
      SameText(a[0].value, b[0].value);
      SameMembersText(a[1..], v, b[1..], w);
    }
  }

  /** Two values have the same canonical text exactly when they are equal up to
      the order of object members. */
  lemma StableStringifyCanonical(v: Json, w: Json)
    requires Proper(v) && Proper(w)
    ensures StableStringify(v) == StableStringify(w) <==> Same(v, w)
  {
    if StableStringify(v) == StableStringify(w) {
      assert StableStringify(v) + [] == StableStringify(w) + [];
      TextDetermines(v, w, [], []);
    }
    if Same(v, w) { SameText(v, w); }
  }
}
