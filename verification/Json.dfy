/** JSON values and their text as JSON.stringify prints it (RFC 8259, sections 3
    to 7; src/events/webhooks/signature.ts:22). */
module Json {

  /** A JavaScript string is a sequence of UTF-16 code units. */
  newtype CodeUnit = n: int | 0 <= n < 0x10000
  type Text = seq<CodeUnit>

  /** A number is represented by its decimal text, an object by its members in
      insertion order. */
  datatype Json =
    | Null
    | Bool(b: bool)
    | Num(text: Text)
    | Str(s: Text)
    | Arr(items: seq<Json>)
    | Obj(members: seq<Member>)

  datatype Member = Member(key: Text, value: Json)

  const QUOTE: CodeUnit := 34
  const COMMA: CodeUnit := 44
  const COLON: CodeUnit := 58
  const LBRACKET: CodeUnit := 91
  const BACKSLASH: CodeUnit := 92
  const RBRACKET: CodeUnit := 93
  const LBRACE: CodeUnit := 123
  const RBRACE: CodeUnit := 125
  const LETTER_U: CodeUnit := 117

  // "null", "true" and "false"
  const NULL: Text := [110, 117, 108, 108]
  const TRUE: Text := [116, 114, 117, 101]
  const FALSE: Text := [102, 97, 108, 115, 101]

  /** A digit, or one of the signs `+ - . e E`. */
  predicate NumberUnit(c: CodeUnit) {
    48 <= c <= 57 || c == 43 || c == 45 || c == 46 || c == 69 || c == 101
  }

  /** The texts numbers are printed as: they start with a digit or a minus sign. */
  ghost predicate NumberText(t: Text) {
    && t != [] && (48 <= t[0] <= 57 || t[0] == 45)
    && forall i :: 0 <= i < |t| ==> NumberUnit(t[i])
  }

  ghost predicate DistinctKeys(members: seq<Member>) {
    forall i, j :: 0 <= i < j < |members| ==> members[i].key != members[j].key
  }

  /** Values that exist: number texts are numbers, an object has each key once. */
  ghost predicate WellFormed(v: Json) {
    match v
    case Num(text) => NumberText(text)
    case Arr(items) => forall i :: 0 <= i < |items| ==> WellFormed(items[i])
    case Obj(members) =>
      DistinctKeys(members) && forall i :: 0 <= i < |members| ==> WellFormed(members[i].value)
    case _ => true
  }

  // ---------------------------------------------------------------- strings

  predicate High(c: CodeUnit) { 0xD800 <= c < 0xDC00 }

  predicate Low(c: CodeUnit) { 0xDC00 <= c < 0xE000 }

  /** The string starts with a surrogate pair. */
  predicate Paired(s: Text) {
    |s| >= 2 && High(s[0]) && Low(s[1])
  }

  function HexDigit(d: CodeUnit): CodeUnit
    requires d < 16
  {
    if d < 10 then 48 + d else 87 + d
  }

  function UnicodeEscape(c: CodeUnit): Text {
    [BACKSLASH, LETTER_U, HexDigit(c / 4096), HexDigit(c / 256 % 16), HexDigit(c / 16 % 16), HexDigit(c % 16)]
  }

  /** The letter of a two-character escape, 0 when there is none: quote, backslash,
      backspace, tab, line feed, form feed, carriage return. */
  function ShortEscape(c: CodeUnit): CodeUnit {
    if c == QUOTE || c == BACKSLASH then c
    else if c == 8 then 98 else if c == 9 then 116 else if c == 10 then 110
    else if c == 12 then 102 else if c == 13 then 114 else 0
  }

  /** One code unit that is not part of a surrogate pair. */
  function Escape(c: CodeUnit): Text {
    if ShortEscape(c) != 0 then [BACKSLASH, ShortEscape(c)]
    else if c < 0x20 || High(c) || Low(c) then UnicodeEscape(c)
    else [c]
  }

  /** The printed form of the first character of the string. */
  function Token(s: Text): Text
    requires s != []
  {
    if Paired(s) then s[..2] else Escape(s[0])
  }

  function Width(s: Text): (w: nat)
    requires s != []
    ensures 1 <= w <= |s|
  {
    if Paired(s) then 2 else 1
  }

  function Body(s: Text): Text {
    if s == [] then [] else Token(s) + Body(s[Width(s)..])
  }

  function Quote(s: Text): Text {
    [QUOTE] + Body(s) + [QUOTE]
  }

  // ----------------------------------------------------------------- values

  function Print(v: Json): Text
    decreases v, 1
  {
    match v
    case Null => NULL
    case Bool(b) => if b then TRUE else FALSE
    case Num(text) => text
    case Str(s) => Quote(s)
    case Arr(items) => [LBRACKET] + PrintItems(items) + [RBRACKET]
    case Obj(members) => [LBRACE] + PrintMembers(members) + [RBRACE]
  }

  function PrintItems(items: seq<Json>): Text
    decreases items, 0
  {
    if items == [] then []
    else if |items| == 1 then Print(items[0])
    else Print(items[0]) + [COMMA] + PrintItems(items[1..])
  }

  function PrintMember(m: Member): Text
    decreases m, 1
  {
    Quote(m.key) + [COLON] + Print(m.value)
  }

  function PrintMembers(members: seq<Member>): Text
    decreases members, 0
  {
    if members == [] then []
    else if |members| == 1 then PrintMember(members[0])
    else PrintMember(members[0]) + [COMMA] + PrintMembers(members[1..])
  }
}
