/** JSON texts (RFC 8259) as syntax trees that record every choice a printer has: white space,
    escapes, member order. The tree's leaves are what the flattener should print. */
module JsonTree {
  import opened Text
  import opened Unicode
  import opened Flattening

  /** One character of a string literal: itself in UTF-8, a two-character escape, a \u escape, or
      a surrogate pair of them. */
  datatype Unit = Raw(point: Point) | Short(letter: char) | Code(digits: string) | Pair(high: string, low: string)

  datatype Value = Str(units: seq<Unit>) | Bare(text: string) | EmptyArr(gap: string) | EmptyObj(gap: string)
                 | Arr(items: Items) | Obj(fields: Fields)

  /** A value between white space. */
  datatype Padded = Padded(before: string, value: Value, after: string)

  datatype Items = LastItem(item: Padded) | MoreItems(item: Padded, rest: Items)

  datatype Field = Field(before: string, key: seq<Unit>, gap: string, member: Padded)

  datatype Fields = LastField(field: Field) | MoreFields(field: Field, more: Fields)

  // ---- well-formedness ----

  predicate IsHex(c: char) {
    '0' <= c <= '9' || 'a' <= c <= 'f' || 'A' <= c <= 'F'
  }

  predicate FourHex(h: string) {
    |h| == 4 && IsHex(h[0]) && IsHex(h[1]) && IsHex(h[2]) && IsHex(h[3])
  }

  /** The value of a hexadecimal digit. */
  function Nibble(c: char): (v: nat)
    requires IsHex(c)
    ensures v < 16
  {
    if c <= '9' then c as int - 0x30 else if c <= 'F' then c as int - 0x37 else c as int - 0x57
  }

  /** The code unit that four hexadecimal digits denote. */
  function CodeUnit(h: string): (v: nat)
    requires FourHex(h)
    ensures v <= 0xFFFF
  {
    0x1000 * Nibble(h[0]) + 0x100 * Nibble(h[1]) + 0x10 * Nibble(h[2]) + Nibble(h[3])
  }

  predicate HighSurrogate(h: string) {
    FourHex(h) && 0xD800 <= CodeUnit(h) <= 0xDBFF
  }

  predicate LowSurrogate(h: string) {
    FourHex(h) && 0xDC00 <= CodeUnit(h) <= 0xDFFF
  }

  /** Section 7 of RFC 8259, lone surrogates included: any four digits make a \\u escape. */
  predicate UnitOk(u: Unit) {
    match u
    case Raw(v) => Scalar(v) && v >= 32 && v != 0x22 && v != 0x5C
    case Short(e) => e == '"' || e == '\\' || e == '/' || e == 'b' || e == 'f' || e == 'n' || e == 'r' || e == 't'
    case Code(h) => FourHex(h)
    case Pair(h, l) => HighSurrogate(h) && LowSurrogate(l)
  }

  /** Two \\u escapes in a row that read as one surrogate pair. */
  predicate Merges(u: Unit, v: Unit) {
    u.Code? && v.Code? && HighSurrogate(u.digits) && LowSurrogate(v.digits)
  }

  /** A high half is never followed by a low half of its own: the two are a Pair. */
  predicate Unmerged(us: seq<Unit>) {
    |us| >= 2 ==> !Merges(us[0], us[1]) && Unmerged(us[1..])
  }

  predicate UnitsOk(us: seq<Unit>) {
    (forall k | 0 <= k < |us| :: UnitOk(us[k])) && Unmerged(us)
  }

  /** White space, section 2 of RFC 8259. */
  predicate Blank(t: string) {
    forall k | 0 <= k < |t| :: t[k] == ' ' || t[k] == '\t' || t[k] == '\n' || t[k] == '\r'
  }

  /** The characters of true, false, null and of numbers. */
  predicate BareChar(c: char) {
    'a' <= c <= 'z' || 'A' <= c <= 'Z' || '0' <= c <= '9' || c == '+' || c == '-' || c == '.'
  }

  predicate BareOk(t: string) {
    t != "" && forall k | 0 <= k < |t| :: BareChar(t[k])
  }

  predicate ValueOk(v: Value) {
    match v
    case Str(us) => UnitsOk(us)
    case Bare(t) => BareOk(t)
    case EmptyArr(gap) => Blank(gap)
    case EmptyObj(gap) => Blank(gap)
    case Arr(items) => ItemsOk(items)
    case Obj(fields) => FieldsOk(fields)
  }

  predicate GapsOk(p: Padded) {
    Blank(p.before) && Blank(p.after)
  }

  predicate ItemsOk(items: Items) {
    GapsOk(items.item) && ValueOk(items.item.value) && (items.MoreItems? ==> ItemsOk(items.rest))
  }

  predicate KeyOk(f: Field) {
    Blank(f.before) && UnitsOk(f.key) && Blank(f.gap) && GapsOk(f.member)
  }

  predicate FieldsOk(fields: Fields) {
    KeyOk(fields.field) && ValueOk(fields.field.member.value) && (fields.MoreFields? ==> FieldsOk(fields.more))
  }

  // ---- what a text means ----

  /** The code point that a character of a literal denotes; a lone surrogate denotes itself. */
  function PointOf(u: Unit): Point
    requires UnitOk(u)
  {
    match u
    case Raw(v) => v
    case Short(e) =>
      if e == 'b' then 8 else if e == 't' then 9 else if e == 'n' then 10 else if e == 'f' then 12
      else if e == 'r' then 13 else if e == '/' then 0x2F else if e == '\\' then 0x5C else 0x22
    case Code(h) => CodeUnit(h)
    case Pair(h, l) => 0x10000 + 0x400 * (CodeUnit(h) - 0xD800) + (CodeUnit(l) - 0xDC00)
  }

  function Points(us: seq<Unit>): (ps: seq<Point>)
    requires UnitsOk(us)
    ensures |ps| == |us| && forall k | 0 <= k < |us| :: ps[k] == PointOf(us[k])
  {
    if us == [] then [] else [PointOf(us[0])] + Points(us[1..])
  }

  /** A string as the flattener shows it: UTF-8, with each control character as a space and a
      lone surrogate in the three-byte form that UTF-8 would give it. */
  function Shown(us: seq<Unit>): string
    requires UnitsOk(us)
  {
    Encode(Points(us))
  }

  /** A string of control characters shows as so many blanks. */
  lemma {:induction false} ControlsShowBlank(us: seq<Unit>)
    requires UnitsOk(us) && forall k | 0 <= k < |us| :: PointOf(us[k]) < 32
    ensures |Shown(us)| == |us| && forall c | c in Shown(us) :: c == ' '
  {
    hide PointOf, UnitOk;
    if us == [] {
    } else {
      ControlsShowBlank(us[1..]);
      assert Shown(us) == " " + Shown(us[1..]);
    }
  }

  /** A scalar and the keys and indices that lead to it. */
  datatype Leaf = Leaf(steps: seq<string>, value: string)

  /** The scalars of a value, in order. */
  function Leaves(steps: seq<string>, v: Value): seq<Leaf>
    requires ValueOk(v)
    decreases v
  {
    match v
    case Str(us) => [Leaf(steps, Shown(us))]
    case Bare(t) => [Leaf(steps, t)]
    case EmptyArr(_) => []
    case EmptyObj(_) => []
    case Arr(items) => ItemLeaves(steps, 0, items)
    case Obj(fields) => FieldLeaves(steps, fields)
  }

  function ItemLeaves(steps: seq<string>, index: nat, items: Items): seq<Leaf>
    requires ItemsOk(items)
    decreases items
  {
    Leaves(steps + [Dec(index)], items.item.value)
    + if items.MoreItems? then ItemLeaves(steps, index + 1, items.rest) else []
  }

  function FieldLeaves(steps: seq<string>, fields: Fields): seq<Leaf>
    requires FieldsOk(fields)
    decreases fields
  {
    Leaves(steps + [Shown(fields.field.key)], fields.field.member.value)
    + if fields.MoreFields? then FieldLeaves(steps, fields.more) else []
  }

  /** The path column: each step after a slash. */
  function PathOf(steps: seq<string>): string {
    if steps == [] then "" else PathOf(steps[..|steps| - 1]) + "/" + steps[|steps| - 1]
  }

  /** The lines that present a list of leaves. */
  function Lines(leaves: seq<Leaf>): seq<Line> {
    if leaves == [] then [] else [Line(PathOf(leaves[0].steps), leaves[0].value)] + Lines(leaves[1..])
  }

  lemma {:induction false} LinesAppend(a: seq<Leaf>, b: seq<Leaf>)
    ensures Lines(a + b) == Lines(a) + Lines(b)
  {
    if a == [] {
      assert a + b == b;
    } else {
      assert (a + b)[1..] == a[1..] + b;
      LinesAppend(a[1..], b);
    }
  }

  // ---- printing ----

  function PrintUnit(u: Unit): string {
    match u
    case Raw(v) => Utf8(v)
    case Short(e) => ['\\', e]
    case Code(h) => "\\u" + h
    case Pair(h, l) => "\\u" + h + "\\u" + l
  }

  function PrintUnits(us: seq<Unit>): string {
    if us == [] then "" else PrintUnit(us[0]) + PrintUnits(us[1..])
  }

  function Quoted(us: seq<Unit>): (t: string)
    ensures |t| >= 2 && t[0] == '"'
  {
    "\"" + PrintUnits(us) + "\""
  }

  function Print(v: Value): string {
    match v
    case Str(us) => Quoted(us)
    case Bare(t) => t
    case EmptyArr(gap) => "[" + gap + "]"
    case EmptyObj(gap) => "{" + gap + "}"
    case Arr(items) => "[" + PrintItems(items) + "]"
    case Obj(fields) => "{" + PrintFields(fields) + "}"
  }

  function PrintPadded(p: Padded): string {
    p.before + Print(p.value) + p.after
  }

  function PrintItems(items: Items): string {
    PrintPadded(items.item) + if items.MoreItems? then "," + PrintItems(items.rest) else ""
  }

  function PrintField(f: Field): string {
    f.before + Quoted(f.key) + f.gap + ":" + PrintPadded(f.member)
  }

  function PrintFields(fields: Fields): string {
    PrintField(fields.field) + if fields.MoreFields? then "," + PrintFields(fields.more) else ""
  }
}
