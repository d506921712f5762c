/** A reader of JSON text (RFC 8259, sections 3 to 7) that reads every printed value
    back, so the printed text determines the value. */
module JsonReader {
  import opened Runs
  import opened Json

  /** A character as a code unit. */
  function U(c: char): CodeUnit
    requires c as int < 0x10000
  {
    (c as int) as CodeUnit
  }

  predicate OneOf(c: CodeUnit, chars: string)
    requires forall i :: 0 <= i < |chars| ==> chars[i] as int < 0x10000
  {
    exists i :: 0 <= i < |chars| && c == U(chars[i])
  }

  // ---------------------------------------------------------------- strings

  /** The value of a hexadecimal digit, 16 for anything else. */
  function HexValue(c: CodeUnit): CodeUnit {
    if U('0') <= c <= U('9') then c - U('0')
    else if U('a') <= c <= U('f') then c - U('a') + 10
    else if U('A') <= c <= U('F') then c - U('A') + 10
    else 16
  }

  /** The code unit that a two-character escape stands for, given its second character. */
  function ShortEscaped(c: CodeUnit): Option<CodeUnit> {
    if c == U('"') || c == U('\\') || c == U('/') then Some(c)
    else if c == U('b') then Some(8)
    else if c == U('t') then Some(9)
    else if c == U('n') then Some(10)
    else if c == U('f') then Some(12)
    else if c == U('r') then Some(13)
    else None
  }

  datatype Read<T> = Read(value: T, rest: Text)

  /** Four hexadecimal digits. */
  function ReadHex(t: Text): (r: Option<Read<CodeUnit>>)
    ensures r.Some? ==> |t| >= 4 && r.value.rest == t[4..]
  {
    if |t| < 4 || HexValue(t[0]) == 16 || HexValue(t[1]) == 16 || HexValue(t[2]) == 16 || HexValue(t[3]) == 16
    then None
    else Some(Read(HexValue(t[0]) * 4096 + HexValue(t[1]) * 256 + HexValue(t[2]) * 16 + HexValue(t[3]), t[4..]))
  }

  /** One code unit of a string, as it stands or escaped. */
  function ReadUnit(t: Text): (r: Option<Read<CodeUnit>>)
    ensures r.Some? ==> |r.value.rest| < |t|
  {
    if t == [] || t[0] < 0x20 then None
    else if t[0] != U('\\') then Some(Read(t[0], t[1..]))
    else if |t| < 2 then None
    else if t[1] == U('u') then ReadHex(t[2..])
    else if ShortEscaped(t[1]).None? then None
    else Some(Read(ShortEscaped(t[1]).value, t[2..]))
  }

  /** The rest of a string, up to its closing quote. */
  function ReadString(t: Text): (r: Option<Read<Text>>)
    ensures r.Some? ==> |r.value.rest| < |t|
    decreases |t|
  {
    if t == [] then None
    else if t[0] == U('"') then Some(Read([], t[1..]))
    else
      var one := ReadUnit(t);
      if one.None? then None
      else
        var more := ReadString(one.value.rest);
        if more.None? then None else Some(Read([one.value.value] + more.value.value, more.value.rest))
  }

  lemma FourDigits(n: int)
    requires 0 <= n < 0x10000
    ensures n == 4096 * (n / 4096) + 256 * (n / 256 % 16) + 16 * (n / 16 % 16) + n % 16
  {
    assert n / 256 == 16 * (n / 256 / 16) + n / 256 % 16;
    assert n / 256 / 16 == n / 4096;
    assert n / 16 == 16 * (n / 16 / 16) + n / 16 % 16;
    assert n / 16 / 16 == n / 256;
  }

  lemma HexReadsBack(c: CodeUnit, x: Text)
    ensures ReadUnit(UnicodeEscape(c) + x) == Some(Read(c, x))
  {
    var t := UnicodeEscape(c) + x;
    assert t[2..] == UnicodeEscape(c)[2..] + x;
    assert t[2..][4..] == x;
    FourDigits(c as int);
  }

  lemma EscapeReadsBack(c: CodeUnit, x: Text)
    ensures |Escape(c)| > 0 && (Escape(c) + x)[0] != U('"')
    ensures ReadUnit(Escape(c) + x) == Some(Read(c, x))
  {
    if Escape(c) == UnicodeEscape(c) {
      HexReadsBack(c, x);
    } else {
      assert (Escape(c) + x)[|Escape(c)|..] == x;
    }
  }

  /** The rest of a string literal: its body, the closing quote, what follows. */
  function Literal(s: Text, r: Text): Text {
    Body(s) + ([QUOTE] + r)
  }

  lemma LiteralStep(s: Text, r: Text)
    requires s != []
    ensures Literal(s, r) == Token(s) + Literal(s[Width(s)..], r)
  {
  }

  lemma OneUnitMore(t: Text, c: CodeUnit, x: Text, y: Text, r: Text)
    requires t != [] && t[0] != U('"') && ReadUnit(t) == Some(Read(c, x)) && ReadString(x) == Some(Read(y, r))
    ensures ReadString(t) == Some(Read([c] + y, r))
  {
  }

  /** A surrogate pair stands as it is. */
  lemma PairReadsBack(s: Text, x: Text, y: Text, r: Text)
    requires Paired(s) && ReadString(x) == Some(Read(y, r))
    ensures ReadString(s[..2] + x) == Some(Read(s[..2] + y, r))
  {
    var t, u := s[..2] + x, [s[1]] + x;
    assert t[1..] == u && u[1..] == x;
    OneUnitMore(u, s[1], x, y, r);
    OneUnitMore(t, s[0], u, [s[1]] + y, r);
    assert [s[0]] + ([s[1]] + y) == s[..2] + y;
  }

  /** A literal is read back as the string, with what follows it left over. */
  lemma {:induction false} LiteralReadsBack(s: Text, r: Text)
    ensures ReadString(Literal(s, r)) == Some(Read(s, r))
    decreases |s|
  {
    if s == [] {
      assert Literal(s, r)[1..] == r;
    } else {
      var rest := s[Width(s)..];
      LiteralStep(s, r);
      LiteralReadsBack(rest, r);
      if Paired(s) {
        PairReadsBack(s, Literal(rest, r), rest, r);
        assert s == s[..2] + rest;
      } else {
        EscapeReadsBack(s[0], Literal(rest, r));
        OneUnitMore(Literal(s, r), s[0], Literal(rest, r), rest, r);
        assert s == [s[0]] + rest;
      }
    }
  }

  // ----------------------------------------------------------------- values

  predicate NumberChar(c: CodeUnit) {
    OneOf(c, "0123456789+-.eE")
  }

  /** How many of the first characters belong to a number. */
  function NumberLength(t: Text): (n: nat)
    ensures n <= |t|
  {
    if t == [] || !NumberChar(t[0]) then 0 else 1 + NumberLength(t[1..])
  }

  predicate Starts(t: Text, word: string)
    requires forall i :: 0 <= i < |word| ==> word[i] as int < 0x10000
  {
    |word| <= |t| && forall i :: 0 <= i < |word| ==> t[i] == U(word[i])
  }

  function ReadValue(t: Text): (r: Option<Read<Json>>)
    ensures r.Some? ==> |r.value.rest| < |t|
    decreases |t|, 1
  {
    if t == [] then None
    else if t[0] == U('"') then
      var s := ReadString(t[1..]);
      if s.None? then None else Some(Read(Str(s.value.value), s.value.rest))
    else if t[0] == U('[') then
      if Starts(t, "[]") then Some(Read(Arr([]), t[2..]))
      else
        var items := ReadItems(t[1..]);
        if items.None? then None else Some(Read(Arr(items.value.value), items.value.rest))
    else if t[0] == U('{') then
      if Starts(t, "{}") then Some(Read(Obj([]), t[2..]))
      else
        var members := ReadMembers(t[1..]);
        if members.None? then None else Some(Read(Obj(members.value.value), members.value.rest))
    else if Starts(t, "null") then Some(Read(Null, t[4..]))
    else if Starts(t, "true") then Some(Read(Bool(true), t[4..]))
    else if Starts(t, "false") then Some(Read(Bool(false), t[5..]))
    else if NumberLength(t) > 0 then Some(Read(Num(t[..NumberLength(t)]), t[NumberLength(t)..]))
    else None
  }

  /** Items separated by commas, up to the closing bracket. */
  function ReadItems(t: Text): (r: Option<Read<seq<Json>>>)
    ensures r.Some? ==> |r.value.rest| < |t|
    decreases |t|, 2
  {
    var v := ReadValue(t);
    if v.None? || v.value.rest == [] then None
    else if v.value.rest[0] == U(']') then Some(Read([v.value.value], v.value.rest[1..]))
    else if v.value.rest[0] != U(',') then None
    else
      var more := ReadItems(v.value.rest[1..]);
      if more.None? then None else Some(Read([v.value.value] + more.value.value, more.value.rest))
  }

  /** A key, a colon, a value. */
  function ReadMember(t: Text): (r: Option<Read<Member>>)
    ensures r.Some? ==> |r.value.rest| < |t|
    decreases |t|, 2
  {
    if t == [] || t[0] != U('"') then None
    else
      var key := ReadString(t[1..]);
      if key.None? || key.value.rest == [] || key.value.rest[0] != U(':') then None
      else
        var v := ReadValue(key.value.rest[1..]);
        if v.None? then None else Some(Read(Member(key.value.value, v.value.value), v.value.rest))
  }

  /** Members separated by commas, up to the closing brace. */
  function ReadMembers(t: Text): (r: Option<Read<seq<Member>>>)
    ensures r.Some? ==> |r.value.rest| < |t|
    decreases |t|, 3
  {
    var m := ReadMember(t);
    if m.None? || m.value.rest == [] then None
    else if m.value.rest[0] == U('}') then Some(Read([m.value.value], m.value.rest[1..]))
    else if m.value.rest[0] != U(',') then None
    else
      var more := ReadMembers(m.value.rest[1..]);
      if more.None? then None else Some(Read([m.value.value] + more.value.value, more.value.rest))
  }

  /** What can follow a value inside JSON text. */
  predicate Ends(r: Text) {
    r == [] || OneOf(r[0], ",]}")
  }

  // -------------------------------------------------------------- read back

  lemma Shift(a: Text, b: Text, c: Text, d: Text)
    ensures (a + b + c) + d == a + (b + (c + d))
  {
  }

  lemma CharsOfNumbers(c: CodeUnit)
    ensures NumberUnit(c) <==> NumberChar(c)
    ensures OneOf(c, ",]}") ==> !NumberChar(c)
  {
    var chars := "0123456789+-.eE";
    if 48 <= c <= 57 {
      assert c == U(chars[(c - 48) as int]);
    } else if NumberUnit(c) {
      assert c == U(chars[10]) || c == U(chars[11]) || c == U(chars[12]) || c == U(chars[13]) || c == U(chars[14]);
    }
  }

  lemma {:induction false} NumberIsRead(text: Text, r: Text)
    requires Ends(r) && forall i :: 0 <= i < |text| ==> NumberUnit(text[i])
    ensures NumberLength(text + r) == |text|
  {
    if text == [] {
      assert text + r == r;
      if r != [] { CharsOfNumbers(r[0]); }
    } else {
      CharsOfNumbers(text[0]);
      assert (text + r)[1..] == text[1..] + r;
      NumberIsRead(text[1..], r);
    }
  }

  lemma NumberReadsBack(text: Text, r: Text)
    requires NumberText(text) && Ends(r)
    ensures ReadValue(text + r) == Some(Read(Num(text), r))
  {
    NumberIsRead(text, r);
    assert (text + r)[..|text|] == text && (text + r)[|text|..] == r;
    assert (text + r)[0] == text[0];
  }

  lemma WordReadsBack(v: Json, r: Text)
    requires v.Null? || v.Bool?
    ensures ReadValue(Print(v) + r) == Some(Read(v, r))
  {
    var t := Print(v) + r;
    assert t[|Print(v)|..] == r;
    assert v == Null ==> Starts(t, "null");
    assert v == Bool(true) ==> Starts(t, "true");
    assert v == Bool(false) ==> Starts(t, "false");
    assert v != Null ==> t[0] != U('n');
    assert v == Bool(false) ==> t[0] != U('t');
  }

  lemma QuoteReadsBack(s: Text, r: Text)
    ensures Quote(s) + r == [U('"')] + Literal(s, r) && ReadString((Quote(s) + r)[1..]) == Some(Read(s, r))
  {
    assert Quote(s) + r == [QUOTE] + Literal(s, r);
    assert ([QUOTE] + Literal(s, r))[1..] == Literal(s, r);
    LiteralReadsBack(s, r);
  }

  /** What follows the first item of an array: a comma and the other items, or the end. */
  function AfterItem(items: seq<Json>, r: Text): Text
    requires items != []
  {
    if |items| == 1 then [RBRACKET] + r else [COMMA] + (PrintItems(items[1..]) + ([RBRACKET] + r))
  }

  lemma ItemsStep(items: seq<Json>, r: Text)
    requires items != []
    ensures PrintItems(items) + ([RBRACKET] + r) == Print(items[0]) + AfterItem(items, r)
    ensures AfterItem(items, r) != [] && AfterItem(items, r)[0] == if |items| == 1 then U(']') else U(',')
    ensures AfterItem(items, r)[1..] == if |items| == 1 then r else PrintItems(items[1..]) + ([RBRACKET] + r)
  {
    if |items| > 1 {
      Shift(Print(items[0]), [COMMA], PrintItems(items[1..]), [RBRACKET] + r);
    }
  }

  /** What follows the first member of an object. */
  function AfterMember(members: seq<Member>, r: Text): Text
    requires members != []
  {
    if |members| == 1 then [RBRACE] + r else [COMMA] + (PrintMembers(members[1..]) + ([RBRACE] + r))
  }

  lemma MembersStep(members: seq<Member>, r: Text)
    requires members != []
    ensures PrintMembers(members) + ([RBRACE] + r) == PrintMember(members[0]) + AfterMember(members, r)
    ensures AfterMember(members, r) != [] && AfterMember(members, r)[0] == if |members| == 1 then U('}') else U(',')
    ensures AfterMember(members, r)[1..] == if |members| == 1 then r else PrintMembers(members[1..]) + ([RBRACE] + r)
  {
    if |members| > 1 {
      Shift(PrintMember(members[0]), [COMMA], PrintMembers(members[1..]), [RBRACE] + r);
    }
  }

  lemma EndsHere(r: Text)
    requires r != [] && (r[0] == U(',') || r[0] == U(']') || r[0] == U('}'))
    ensures Ends(r)
  {
    var chars := ",]}";
    assert r[0] == U(chars[0]) || r[0] == U(chars[1]) || r[0] == U(chars[2]);
  }

  /** No value starts with a closing bracket. */
  lemma NotClosed(v: Json, r: Text)
    requires WellFormed(v)
    ensures |Print(v)| > 0 && (Print(v) + r)[0] == Print(v)[0] != U(']')
  {
  }

  /** Every printed value is read back, with what follows it left over. */
  lemma {:induction false} ValueReadsBack(v: Json, r: Text)
    requires WellFormed(v) && Ends(r)
    ensures ReadValue(Print(v) + r) == Some(Read(v, r))
    decreases v, 1
  {
    match v
    case Null => WordReadsBack(v, r);
    case Bool(b) => WordReadsBack(v, r);
    case Num(text) => NumberReadsBack(text, r);
    case Str(s) => QuoteReadsBack(s, r);
    case Arr(items) => ArrayReadsBack(items, r);
    case Obj(members) => ObjectReadsBack(members, r);
  }

  lemma {:induction false} ArrayReadsBack(items: seq<Json>, r: Text)
    requires forall i :: 0 <= i < |items| ==> WellFormed(items[i])
    ensures ReadValue(Print(Arr(items)) + r) == Some(Read(Arr(items), r))
    decreases items, 1
  {
    var t := Print(Arr(items)) + r;
    Shift([LBRACKET], PrintItems(items), [RBRACKET], r);
    assert t == [LBRACKET] + (PrintItems(items) + ([RBRACKET] + r));
    assert t[1..] == PrintItems(items) + ([RBRACKET] + r);
    if items == [] {
      assert t[1..] == [RBRACKET] + r && t[2..] == r;
    } else {
      ItemsStep(items, r);
      NotClosed(items[0], AfterItem(items, r));
      assert t[1] == t[1..][0] != U(']');
      ItemsReadBack(items, r);
    }
  }

  lemma {:induction false} ItemsReadBack(items: seq<Json>, r: Text)
    requires items != [] && forall i :: 0 <= i < |items| ==> WellFormed(items[i])
    ensures ReadItems(PrintItems(items) + ([RBRACKET] + r)) == Some(Read(items, r))
    decreases items, 0
  {
    ItemsStep(items, r);
    EndsHere(AfterItem(items, r));
    ValueReadsBack(items[0], AfterItem(items, r));
    if |items| > 1 { ItemsReadBack(items[1..], r); }
    OneItemMore(PrintItems(items) + ([RBRACKET] + r), items[0], AfterItem(items, r), items[1..], r);
    assert items == [items[0]] + items[1..];
  }

  lemma OneItemMore(t: Text, v: Json, after: Text, more: seq<Json>, r: Text)
    requires ReadValue(t) == Some(Read(v, after)) && after != []
    requires if more == [] then after[0] == U(']') && after[1..] == r
             else after[0] == U(',') && ReadItems(after[1..]) == Some(Read(more, r))
    ensures ReadItems(t) == Some(Read([v] + more, r))
  {
    assert more == [] ==> [v] + more == [v];
  }

  lemma OneMemberMore(t: Text, m: Member, after: Text, more: seq<Member>, r: Text)
    requires ReadMember(t) == Some(Read(m, after)) && after != []
    requires if more == [] then after[0] == U('}') && after[1..] == r
             else after[0] == U(',') && ReadMembers(after[1..]) == Some(Read(more, r))
    ensures ReadMembers(t) == Some(Read([m] + more, r))
  {
    assert more == [] ==> [m] + more == [m];
  }

  lemma {:induction false} ObjectReadsBack(members: seq<Member>, r: Text)
    requires forall i :: 0 <= i < |members| ==> WellFormed(members[i].value)
    ensures ReadValue(Print(Obj(members)) + r) == Some(Read(Obj(members), r))
    decreases members, 1
  {
    var t := Print(Obj(members)) + r;
    Shift([LBRACE], PrintMembers(members), [RBRACE], r);
    assert t == [LBRACE] + (PrintMembers(members) + ([RBRACE] + r));
    assert t[1..] == PrintMembers(members) + ([RBRACE] + r);
    if members == [] {
      assert t[1..] == [RBRACE] + r && t[2..] == r;
    } else {
      MembersStep(members, r);
      assert PrintMember(members[0])[0] == QUOTE;
      assert t[1] == t[1..][0] == QUOTE;
      MembersReadBack(members, r);
    }
  }

  lemma {:induction false} MembersReadBack(members: seq<Member>, r: Text)
    requires members != [] && forall i :: 0 <= i < |members| ==> WellFormed(members[i].value)
    ensures ReadMembers(PrintMembers(members) + ([RBRACE] + r)) == Some(Read(members, r))
    decreases members, 0
  {
    MembersStep(members, r);
    EndsHere(AfterMember(members, r));
    MemberReadsBack(members[0], AfterMember(members, r));
    if |members| > 1 { MembersReadBack(members[1..], r); }
    OneMemberMore(PrintMembers(members) + ([RBRACE] + r), members[0], AfterMember(members, r), members[1..], r);
    assert members == [members[0]] + members[1..];
  }

  lemma {:induction false} MemberReadsBack(m: Member, r: Text)
    requires WellFormed(m.value) && Ends(r)
    ensures ReadMember(PrintMember(m) + r) == Some(Read(m, r))
    decreases m, 1
  {
    var after := [COLON] + (Print(m.value) + r);
    Shift(Quote(m.key), [COLON], Print(m.value), r);
    assert PrintMember(m) + r == Quote(m.key) + after;
    QuoteReadsBack(m.key, after);
    assert after[1..] == Print(m.value) + r;
    ValueReadsBack(m.value, r);
  }

  // -------------------------------------------------------------- consequences

  /** JSON.parse of what JSON.stringify printed: the whole text is the value. */
  lemma PrintReadsBack(v: Json)
    requires WellFormed(v)
    ensures ReadValue(Print(v)) == Some(Read(v, []))
  {
    ValueReadsBack(v, []);
    assert Print(v) + [] == Print(v);
  }

  /** A string literal can be read off any text that goes on after it. */
  lemma LiteralUnambiguous(s: Text, t: Text, r: Text, q: Text)
    requires Literal(s, r) == Literal(t, q)
    ensures s == t && r == q
  {
    LiteralReadsBack(s, r);
    LiteralReadsBack(t, q);
  }

  /** Two values whose texts agree up to what may follow a value are equal, and so
      is what follows. */
  lemma ValueUnambiguous(a: Json, b: Json, r: Text, q: Text)
    requires WellFormed(a) && WellFormed(b) && Ends(r) && Ends(q)
    requires Print(a) + r == Print(b) + q
    ensures a == b && r == q
  {
    ValueReadsBack(a, r);
    ValueReadsBack(b, q);
  }

  /** The printed text is an unambiguous encoding of well-formed values. */
  lemma PrintInjective(a: Json, b: Json)
    requires WellFormed(a) && WellFormed(b)
    ensures Print(a) == Print(b) <==> a == b
  {
    PrintReadsBack(a);
    PrintReadsBack(b);
  }

  // ------------------------------------------------------ the text itself

  /** How JSON.stringify writes one code unit: seven short escapes, `\\u00xx` in lower
      case for other controls and for lone surrogates, everything else as it is. */
  lemma EscapesAre(c: CodeUnit)
    ensures c == U('"') ==> Escape(c) == [U('\\'), U('"')]
    ensures c == U('\\') ==> Escape(c) == [U('\\'), U('\\')]
    ensures c == 8 ==> Escape(c) == [U('\\'), U('b')]
    ensures c == 9 ==> Escape(c) == [U('\\'), U('t')]
    ensures c == 10 ==> Escape(c) == [U('\\'), U('n')]
    ensures c == 12 ==> Escape(c) == [U('\\'), U('f')]
    ensures c == 13 ==> Escape(c) == [U('\\'), U('r')]
    ensures (c < 0x20 && c !in {8, 9, 10, 12, 13}) || 0xD800 <= c < 0xE000 ==>
      && |Escape(c)| == 6 && Escape(c)[0] == U('\\') && Escape(c)[1] == U('u')
      && forall i :: 2 <= i < 6 ==> OneOf(Escape(c)[i], "0123456789abcdef")
    ensures c >= 0x20 && c != U('"') && c != U('\\') && !(0xD800 <= c < 0xE000) ==> Escape(c) == [c]
  {
    LowerCase(c / 4096);
    LowerCase(c / 256 % 16);
    LowerCase(c / 16 % 16);
    LowerCase(c % 16);
  }

  lemma LowerCase(d: CodeUnit)
    requires d < 16
    ensures OneOf(HexDigit(d), "0123456789abcdef")
  {
    var digits := "0123456789abcdef";
    assert HexDigit(d) == U(digits[d as int]);
  }
}
