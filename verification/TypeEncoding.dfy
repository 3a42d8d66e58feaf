/**
 Type encodings: the grammar of what compilers emit, how it is written down, and the
 scanner that finds where an encoding ends.
 */
module TypeEncoding {
  import opened Wrappers

  // ----- the grammar -----

  datatype Type =
    | Simple(c: char)
    | Object(kind: ObjectKind)
    | Complex(c: char)
    | Qualified(q: char, item: Type)
    | Pointer(to: Type)
    | Array(count: nat, item: Type)
    | Record(union: bool, name: string, body: Body)
    | Bits(offset: nat, c: char, width: nat)

  datatype ObjectKind = Any | Named(name: string) | Block | BlockOf(signature: string)

  /** A structure or union may be opaque; fields may be labelled. */
  datatype Body = Opaque | Defined(fields: Fields)
  datatype Fields = NoFields | Field(caption: Option<string>, item: Type, rest: Fields)

  const NUL := 0 as char

  predicate IsSimple(c: char) {
    c in "Ddfcislq" || c in "CSILQB#:*" || c == '?' || c == 'v'
  }

  predicate IsComplex(c: char) {
    c in "Ddfcislq" || c in "CSILQ"
  }

  predicate IsQualifier(c: char) {
    c in "rnNoORV"
  }

  predicate IsDigit(c: char) {
    '0' <= c <= '9'
  }

  function Close(union: bool): char {
    if union then ')' else '}'
  }

  // ----- how it is written down -----

  function Digits(n: nat): string {
    var d := '0' + (n % 10) as char;
    if n < 10 then [d] else Digits(n / 10) + [d]
  }

  function Quoted(text: string): string {
    "\"" + text + "\""
  }

  function PrintObject(kind: ObjectKind): string {
    match kind
    case Any => "@"
    case Named(name) => "@" + Quoted(name)
    case Block => "@?"
    case BlockOf(signature) => "@?<" + signature + ">"
  }

  function Print(t: Type): string
    decreases t
  {
    match t
    case Simple(c) => [c]
    case Object(kind) => PrintObject(kind)
    case Complex(c) => ['j', c]
    case Qualified(q, item) => [q] + Print(item)
    case Pointer(to) => "^" + Print(to)
    case Array(count, item) => "[" + Digits(count) + Print(item) + "]"
    case Record(union, name, body) => (if union then "(" else "{") + name + PrintBody(union, body)
    case Bits(offset, c, width) => "b" + Digits(offset) + [c] + Digits(width)
  }

  function PrintBody(union: bool, body: Body): string
    decreases body
  {
    match body
    case Opaque => [Close(union)]
    case Defined(fields) => "=" + PrintFields(union, fields)
  }

  /** The fields and the closing bracket. */
  function PrintFields(union: bool, fields: Fields): string
    decreases fields
  {
    match fields
    case NoFields => [Close(union)]
    case Field(caption, item, rest) => PrintCaption(caption) + Print(item) + PrintFields(union, rest)
  }

  function PrintCaption(caption: Option<string>): string {
    if caption.Some? then Quoted(caption.value) else ""
  }

  /** The type that is written last. */
  function Tail(t: Type): Type {
    match t
    case Qualified(_, item) => Tail(item)
    case Pointer(to) => Tail(to)
    case _ => t
  }

  /** What may follow a type without being taken for a part of it. */
  predicate MayFollow(t: Type, c: char) {
    match Tail(t)
    case Object(Any) => c != '?' && c != '"'
    case Object(Block) => c != '<'
    case Bits(_, _, _) => !IsDigit(c)
    case _ => true
  }

  /** What compilers emit; a bare `@` is not followed by a labelled field or by `?`. */
  predicate WellFormed(t: Type)
    decreases t
  {
    match t
    case Simple(c) => IsSimple(c)
    case Object(Named(name)) => '"' !in name
    case Object(BlockOf(signature)) => '>' !in signature
    case Object(_) => true
    case Complex(c) => IsComplex(c)
    case Qualified(q, item) => IsQualifier(q) && WellFormed(item)
    case Pointer(to) => WellFormed(to)
    case Array(_, item) => WellFormed(item)
    case Record(union, name, body) =>
      '=' !in name && Close(union) !in name && (body.Defined? ==> FieldsOk(union, body.fields))
    case Bits(_, c, _) => IsSimple(c)
  }

  predicate FieldsOk(union: bool, fields: Fields)
    decreases fields
  {
    match fields
    case NoFields => true
    case Field(caption, item, rest) =>
      && (caption.Some? ==> '"' !in caption.value)
      && WellFormed(item) && MayFollow(item, First(PrintFields(union, rest))) && FieldsOk(union, rest)
  }

  function First(text: string): char {
    if text == "" then NUL else text[0]
  }

  // ----- the scanner -----

  /** The character at a place; the string ends with a NUL. */
  function At(s: string, i: nat): char {
    if i < |s| then s[i] else NUL
  }

  function SkipQualifiers(s: string, i: nat): (r: nat)
    requires i <= |s|
    ensures i <= r <= |s|
    decreases |s| - i
  {
    if i < |s| && IsQualifier(s[i]) then SkipQualifiers(s, i + 1) else i
  }

  function SkipDigits(s: string, i: nat): (r: nat)
    requires i <= |s|
    ensures i <= r <= |s|
    decreases |s| - i
  {
    if i < |s| && IsDigit(s[i]) then SkipDigits(s, i + 1) else i
  }

  /** The first place from `i` on that holds `c`; there is no result if the scanner would run off the end. */
  function Find(s: string, i: nat, c: char): (r: Option<nat>)
    ensures r.Some? ==> i <= r.value < |s| && s[r.value] == c
    decreases |s| - i
  {
    if i >= |s| then None else if s[i] == c then Some(i) else Find(s, i + 1, c)
  }

  function After(place: Option<nat>): Option<nat> {
    if place.Some? then Some(place.value + 1) else None
  }

  /** The end of an object type that begins at `i`. */
  function SkipObject(s: string, i: nat): (r: Option<nat>)
    requires i < |s|
    ensures r.Some? ==> i < r.value <= |s|
  {
    if At(s, i + 1) == '?' && i + 1 < |s| then
      if At(s, i + 2) == '<' && i + 2 < |s| then After(Find(s, i + 3, '>')) else Some(i + 2)
    else if At(s, i + 1) == '"' && i + 1 < |s| then After(Find(s, i + 2, '"'))
    else Some(i + 1)
  }

  /** Where the name of a structure ends: at the closing bracket, if it is opaque, or at `=`. */
  function SkipName(s: string, i: nat, close: char): (r: Option<nat>)
    ensures r.Some? ==> i <= r.value < |s| && (s[r.value] == close || s[r.value] == '=')
    decreases |s| - i
  {
    if i >= |s| then None else if s[i] == close || s[i] == '=' then Some(i) else SkipName(s, i + 1, close)
  }

  /** Which of the two functions is scanning; they differ in how they read bit-fields. */
  datatype Mode = Size | Align

  function ScanType(s: string, i: nat, m: Mode): (r: Option<nat>)
    requires i <= |s|
    ensures r.Some? ==> i < r.value <= |s|
    decreases |s| - i, 3, if m.Size? then 1 else 0
  {
    var j := SkipQualifiers(s, i);
    if j >= |s| then None
    else if IsSimple(s[j]) then Some(j + 1)
    else if s[j] == '@' then SkipObject(s, j)
    else if s[j] == 'j' then
      if IsComplex(At(s, j + 1)) then Some(j + 2)
      else if j + 1 < |s| then ScanRecord(s, j + 1, '}', m) else None
    else if s[j] == '{' then
      if m.Size? && ScanType(s, j, Align).None? then None else ScanRecord(s, j, '}', m)
    else if s[j] == '(' then ScanRecord(s, j, ')', m)
    else if s[j] == '[' then ScanArray(s, j, m)
    else if s[j] == 'b' then ScanBits(s, j, m)
    else if s[j] == '^' then ScanType(s, j + 1, m)
    else None
  }

  function ScanArray(s: string, j: nat, m: Mode): (r: Option<nat>)
    requires j < |s|
    ensures r.Some? ==> j < r.value <= |s|
    decreases |s| - j, 1, 0
  {
    var element := ScanType(s, SkipDigits(s, j + 1), m);
    if element.Some? && element.value < |s| then Some(element.value + 1) else None
  }

  function ScanBits(s: string, j: nat, m: Mode): (r: Option<nat>)
    requires j < |s|
    ensures r.Some? ==> j < r.value <= |s|
    decreases |s| - j, 1, 0
  {
    var k := SkipDigits(s, j + 1);
    match m
    case Size => if k < |s| then Some(SkipDigits(s, k + 1)) else None
    case Align =>
      var element := ScanType(s, k, Align);
      if element.Some? then Some(SkipDigits(s, element.value)) else None
  }

  function ScanRecord(s: string, j: nat, close: char, m: Mode): (r: Option<nat>)
    requires j < |s|
    ensures r.Some? ==> j < r.value <= |s|
    decreases |s| - j, 2, 0
  {
    var k := SkipName(s, j + 1, close);
    if k.None? then None
    else if s[k.value] == close then Some(k.value + 1)
    else ScanFields(s, k.value + 1, close, m)
  }

  function ScanFields(s: string, k: nat, close: char, m: Mode): (r: Option<nat>)
    requires k <= |s|
    ensures r.Some? ==> k < r.value <= |s|
    decreases |s| - k, 5, 0
  {
    if k >= |s| then None
    else if s[k] == close then Some(k + 1)
    else
      var from := if s[k] == '"' then After(Find(s, k + 1, '"')) else Some(k);
      if from.None? then None
      else
        var field := ScanType(s, from.value, m);
        if field.None? then None else ScanFields(s, field.value, close, m)
  }

  // ----- what is written down is read back -----

  /** `text` stands in `s` at `i`. */
  ghost predicate Reads(s: string, i: nat, text: string) {
    i + |text| <= |s| && s[i..i + |text|] == text
  }

  lemma ReadsPlus(s: string, i: nat, a: string, b: string)
    requires Reads(s, i, a + b)
    ensures Reads(s, i, a) && Reads(s, i + |a|, b)
  {
    var w := s[i..i + |a + b|];
    assert w[..|a|] == a && w[|a|..] == b;
    assert s[i..i + |a|] == w[..|a|];
    assert s[i + |a|..i + |a| + |b|] == w[|a|..];
  }

  lemma ReadsChar(s: string, i: nat, text: string, k: nat)
    requires Reads(s, i, text) && k < |text|
    ensures i + k < |s| && s[i + k] == text[k]
  {
    assert s[i..i + |text|][k] == s[i + k];
  }

  lemma {:induction false} DigitsAreDigits(n: nat)
    ensures |Digits(n)| > 0 && forall k :: 0 <= k < |Digits(n)| ==> IsDigit(Digits(n)[k])
    decreases n
  {
    if n >= 10 {
      DigitsAreDigits(n / 10);
    }
  }

  lemma {:induction false} SkipsDigits(s: string, i: nat, d: string)
    requires Reads(s, i, d) && forall k :: 0 <= k < |d| ==> IsDigit(d[k])
    requires !IsDigit(At(s, i + |d|))
    ensures SkipDigits(s, i) == i + |d|
    decreases |d|
  {
    if d != [] {
      ReadsChar(s, i, d, 0);
      assert d == [d[0]] + d[1..];
      ReadsPlus(s, i, [d[0]], d[1..]);
      SkipsDigits(s, i + 1, d[1..]);
    }
  }

  lemma {:induction false} Finds(s: string, i: nat, text: string, c: char)
    requires Reads(s, i, text) && c !in text && i + |text| < |s| && s[i + |text|] == c
    ensures Find(s, i, c) == Some(i + |text|)
    decreases |text|
  {
    if text != [] {
      ReadsChar(s, i, text, 0);
      assert text == [text[0]] + text[1..];
      ReadsPlus(s, i, [text[0]], text[1..]);
      Finds(s, i + 1, text[1..], c);
    }
  }

  lemma {:induction false} FindsName(s: string, i: nat, name: string, close: char)
    requires Reads(s, i, name) && close !in name && '=' !in name && i + |name| < |s|
    requires s[i + |name|] == close || s[i + |name|] == '='
    ensures SkipName(s, i, close) == Some(i + |name|)
    decreases |name|
  {
    if name != [] {
      ReadsChar(s, i, name, 0);
      assert name == [name[0]] + name[1..];
      ReadsPlus(s, i, [name[0]], name[1..]);
      FindsName(s, i + 1, name[1..], close);
    }
  }

  /** The first character of a type is no digit, no quotation mark and no closing bracket. */
  lemma {:induction false} FirstChar(t: Type)
    requires WellFormed(t)
    ensures |Print(t)| > 0
    ensures var c := Print(t)[0]; !IsDigit(c) && c != '"' && c != '}' && c != ')' && c != ']' && c != '<' && c != NUL
  {
    match t
    case Qualified(_, item) => FirstChar(item);
    case Object(kind) => assert PrintObject(kind)[0] == '@';
    case _ =>
  }

  lemma QualifierSkipped(s: string, i: nat, m: Mode)
    requires i < |s| && IsQualifier(s[i])
    ensures ScanType(s, i, m) == ScanType(s, i + 1, m)
  {
    assert SkipQualifiers(s, i) == SkipQualifiers(s, i + 1);
  }

  lemma ScansObject(kind: ObjectKind, s: string, i: nat, m: Mode)
    requires WellFormed(Object(kind)) && Reads(s, i, PrintObject(kind))
    requires MayFollow(Object(kind), At(s, i + |PrintObject(kind)|))
    ensures ScanType(s, i, m) == Some(i + |PrintObject(kind)|)
  {
    hide Reads, Find, ScanType, SkipObject, Quoted;
    match kind
    case Any =>
      ReadsChar(s, i, "@", 0);
      SkipsShort(s, i);
      ScanTypeObject(s, i, m);
    case Named(name) =>
      ReadsPlus(s, i, "@", Quoted(name));
      ReadsChar(s, i, "@", 0);
      ScansCaption(name, s, i + 1);
      SkipsNamed(s, i, i + 1 + |Quoted(name)|);
      ScanTypeObject(s, i, m);
    case Block =>
      ReadsChar(s, i, "@?", 0);
      ReadsChar(s, i, "@?", 1);
      SkipsShort(s, i);
      ScanTypeObject(s, i, m);
    case BlockOf(signature) => ScansBlock(signature, s, i, m);
  }

  lemma ScansBlock(signature: string, s: string, i: nat, m: Mode)
    requires Reads(s, i, PrintObject(BlockOf(signature))) && '>' !in signature
    ensures ScanType(s, i, m) == Some(i + |PrintObject(BlockOf(signature))|)
  {
    hide Reads, Find, ScanType, SkipObject;
    ReadsPlus(s, i, "@?<" + signature, ">");
    ReadsPlus(s, i, "@?<", signature);
    ReadsBlock(s, i, signature);
    SkipsBlock(s, i, i + 3 + |signature|);
    ScanTypeObject(s, i, m);
  }

  lemma ReadsBlock(s: string, i: nat, signature: string)
    requires Reads(s, i, "@?<") && Reads(s, i + 3, signature) && Reads(s, i + 3 + |signature|, ">") && '>' !in signature
    ensures i + 2 < |s| && s[i] == '@' && s[i + 1] == '?' && s[i + 2] == '<'
    ensures Find(s, i + 3, '>') == Some(i + 3 + |signature|)
  {
    hide Reads, Find;
    ReadsChar(s, i, "@?<", 0);
    ReadsChar(s, i, "@?<", 1);
    ReadsChar(s, i, "@?<", 2);
    ReadsChar(s, i + 3 + |signature|, ">", 0);
    Finds(s, i + 3, signature, '>');
  }

  lemma SkipsShort(s: string, i: nat)
    requires i < |s|
    ensures At(s, i + 1) != '?' && At(s, i + 1) != '"' ==> SkipObject(s, i) == Some(i + 1)
    ensures i + 1 < |s| && s[i + 1] == '?' && At(s, i + 2) != '<' ==> SkipObject(s, i) == Some(i + 2)
  {
  }

  lemma SkipsNamed(s: string, i: nat, end: nat)
    requires i + 1 < |s| && s[i + 1] == '"' && After(Find(s, i + 2, '"')) == Some(end)
    ensures SkipObject(s, i) == Some(end)
  {
  }

  lemma SkipsBlock(s: string, i: nat, end: nat)
    requires i + 2 < |s| && s[i + 1] == '?' && s[i + 2] == '<' && Find(s, i + 3, '>') == Some(end)
    ensures SkipObject(s, i) == Some(end + 1)
  {
  }

  lemma ScanTypeObject(s: string, i: nat, m: Mode)
    requires i < |s| && s[i] == '@'
    ensures ScanType(s, i, m) == SkipObject(s, i)
  {
    assert SkipQualifiers(s, i) == i;
  }

  lemma ScansCaption(text: string, s: string, k: nat)
    requires Reads(s, k, Quoted(text)) && '"' !in text
    ensures k < |s| && s[k] == '"' && After(Find(s, k + 1, '"')) == Some(k + |Quoted(text)|)
  {
    hide Reads, Find;
    ReadsPlus(s, k, "\"" + text, "\"");
    ReadsPlus(s, k, "\"", text);
    ReadsChar(s, k, "\"", 0);
    ReadsChar(s, k + 1 + |text|, "\"", 0);
    Finds(s, k + 1, text, '"');
  }

  lemma ScansSimple(s: string, i: nat, c: char, m: Mode)
    requires IsSimple(c) && i < |s| && s[i] == c
    ensures ScanType(s, i, m) == Some(i + 1) && !IsDigit(c)
  {
    assert SkipQualifiers(s, i) == i;
  }

  lemma ScansBits(offset: nat, c: char, width: nat, s: string, i: nat, m: Mode)
    requires IsSimple(c) && Reads(s, i, Print(Bits(offset, c, width)))
    requires !IsDigit(At(s, i + |Print(Bits(offset, c, width))|))
    ensures ScanType(s, i, m) == Some(i + |Print(Bits(offset, c, width))|)
  {
    hide Reads, Digits, SkipDigits, ScanType, ScanBits;
    var d, w := Digits(offset), Digits(width);
    ReadsPlus(s, i, "b" + d + [c], w);
    ReadsPlus(s, i, "b" + d, [c]);
    ReadsPlus(s, i, "b", d);
    ReadsChar(s, i, "b", 0);
    var k := i + 1 + |d|;
    ReadsChar(s, k, [c], 0);
    DigitsAreDigits(offset);
    DigitsAreDigits(width);
    ScansSimple(s, k, c, Align);
    SkipsDigits(s, i + 1, d);
    SkipsDigits(s, k + 1, w);
    ScanBitsEnd(s, i, m, k);
    ScanTypeBits(s, i, m);
  }

  lemma ScanBitsEnd(s: string, i: nat, m: Mode, k: nat)
    requires i < |s| && SkipDigits(s, i + 1) == k && k < |s| && ScanType(s, k, Align) == Some(k + 1)
    ensures ScanBits(s, i, m) == Some(SkipDigits(s, k + 1))
  {
    hide ScanType, SkipDigits;
  }

  lemma ScanTypeBits(s: string, i: nat, m: Mode)
    requires i < |s| && s[i] == 'b'
    ensures ScanType(s, i, m) == ScanBits(s, i, m)
  {
    assert SkipQualifiers(s, i) == i;
  }

  lemma ScanTypeArray(s: string, i: nat, m: Mode)
    requires i < |s| && s[i] == '['
    ensures ScanType(s, i, m) == ScanArray(s, i, m)
  {
    assert SkipQualifiers(s, i) == i;
  }

  lemma ScanTypePointer(s: string, i: nat, m: Mode)
    requires i < |s| && s[i] == '^'
    ensures ScanType(s, i, m) == ScanType(s, i + 1, m)
  {
    assert SkipQualifiers(s, i) == i;
  }

  lemma ScanTypeComplex(s: string, i: nat, m: Mode)
    requires i + 1 < |s| && s[i] == 'j' && IsComplex(s[i + 1])
    ensures ScanType(s, i, m) == Some(i + 2)
  {
    assert SkipQualifiers(s, i) == i;
  }

  lemma ScanTypeRecord(s: string, i: nat, union: bool, m: Mode)
    requires i < |s| && s[i] == (if union then '(' else '{') && ScanType(s, i, Align).Some?
    ensures ScanType(s, i, m) == ScanRecord(s, i, Close(union), m)
  {
    assert SkipQualifiers(s, i) == i;
  }

  /**
   The scanner, in either mode, stops exactly where a printed type ends, whatever stands
   around it.
   */
  lemma {:induction false} ScansType(t: Type, s: string, i: nat, m: Mode)
    requires WellFormed(t) && Reads(s, i, Print(t)) && MayFollow(t, At(s, i + |Print(t)|))
    ensures ScanType(s, i, m) == Some(i + |Print(t)|)
    decreases t, 1
  {
    hide Reads, ScanType, IsSimple, IsComplex, IsQualifier, PrintObject;
    match t
    case Simple(c) =>
      ReadsChar(s, i, [c], 0);
      ScansSimple(s, i, c, m);
    case Object(kind) => ScansObject(kind, s, i, m);
    case Complex(c) =>
      ReadsChar(s, i, ['j', c], 0);
      ReadsChar(s, i, ['j', c], 1);
      ScanTypeComplex(s, i, m);
    case Qualified(q, item) =>
      ReadsPlus(s, i, [q], Print(item));
      ReadsChar(s, i, [q], 0);
      QualifierSkipped(s, i, m);
      ScansType(item, s, i + 1, m);
    case Pointer(to) =>
      ReadsPlus(s, i, "^", Print(to));
      ReadsChar(s, i, "^", 0);
      ScanTypePointer(s, i, m);
      ScansType(to, s, i + 1, m);
    case Array(count, item) => ScansArray(count, item, s, i, m);
    case Record(union, name, body) => ScansRecord(union, name, body, s, i, m);
    case Bits(offset, c, width) => ScansBits(offset, c, width, s, i, m);
  }

  lemma {:induction false} ScansArray(count: nat, item: Type, s: string, i: nat, m: Mode)
    requires WellFormed(item) && Reads(s, i, Print(Array(count, item)))
    ensures ScanType(s, i, m) == Some(i + |Print(Array(count, item))|)
    decreases item, 2
  {
    hide Reads, Digits, SkipDigits, ScanType, WellFormed;
    var d, e := Digits(count), Print(item);
    ReadsPlus(s, i, "[" + d + e, "]");
    ReadsPlus(s, i, "[" + d, e);
    ReadsPlus(s, i, "[", d);
    ReadsChar(s, i, "[", 0);
    var k := i + 1 + |d|;
    ReadsChar(s, k + |e|, "]", 0);
    FirstChar(item);
    ReadsChar(s, k, e, 0);
    DigitsAreDigits(count);
    SkipsDigits(s, i + 1, d);
    ScansType(item, s, k, m);
    ScanTypeArray(s, i, m);
  }

  lemma {:induction false} ScansRecord(union: bool, name: string, body: Body, s: string, i: nat, m: Mode)
    requires WellFormed(Record(union, name, body)) && Reads(s, i, Print(Record(union, name, body)))
    ensures ScanType(s, i, m) == Some(i + |Print(Record(union, name, body))|)
    decreases body, 3
  {
    hide Reads, ScanType, ScanRecord;
    var open := if union then "(" else "{";
    ReadsPlus(s, i, open + name, PrintBody(union, body));
    ReadsPlus(s, i, open, name);
    ReadsChar(s, i, open, 0);
    ScansBody(union, name, body, s, i, Align);
    ScanAlignRecord(s, i, union);
    ScansBody(union, name, body, s, i, m);
    ScanTypeRecord(s, i, union, m);
  }

  lemma ScanAlignRecord(s: string, i: nat, union: bool)
    requires i < |s| && s[i] == (if union then '(' else '{')
    ensures ScanType(s, i, Align) == ScanRecord(s, i, Close(union), Align)
  {
    assert SkipQualifiers(s, i) == i;
  }

  lemma {:induction false} ScansBody(union: bool, name: string, body: Body, s: string, i: nat, m: Mode)
    requires WellFormed(Record(union, name, body)) && i < |s|
    requires Reads(s, i + 1, name) && Reads(s, i + 1 + |name|, PrintBody(union, body))
    ensures ScanRecord(s, i, Close(union), m) == Some(i + 1 + |name| + |PrintBody(union, body)|)
    decreases body, 2
  {
    hide Reads, SkipName, ScanFields, FieldsOk;
    var k := i + 1 + |name|;
    if body.Defined? {
      ReadsPlus(s, k, "=", PrintFields(union, body.fields));
      ReadsChar(s, k, "=", 0);
      ScansFields(union, body.fields, s, k + 1, m);
    } else {
      ReadsChar(s, k, [Close(union)], 0);
    }
    FindsName(s, i + 1, name, Close(union));
  }

  lemma {:induction false} ScansFields(union: bool, fields: Fields, s: string, k: nat, m: Mode)
    requires FieldsOk(union, fields) && Reads(s, k, PrintFields(union, fields))
    ensures ScanFields(s, k, Close(union), m) == Some(k + |PrintFields(union, fields)|)
    decreases fields, 2
  {
    hide Reads, ScanType, Find, WellFormed, MayFollow, ScanFields, Print, Quoted;
    match fields
    case NoFields =>
      ReadsChar(s, k, [Close(union)], 0);
      ScanNoFields(s, k, Close(union), m);
    case Field(caption, item, rest) =>
      var c, e, r := PrintCaption(caption), Print(item), PrintFields(union, rest);
      ReadsPlus(s, k, c + e, r);
      ReadsPlus(s, k, c, e);
      var from := k + |c|;
      FirstChar(item);
      ReadsChar(s, from, e, 0);
      FieldsPrinted(union, rest);
      ReadsChar(s, from + |e|, r, 0);
      if caption.Some? {
        ScansCaption(caption.value, s, k);
      }
      ScansType(item, s, from, m);
      ScanField(s, k, Close(union), m, from, from + |e|);
      ScansFields(union, rest, s, from + |e|, m);
  }

  lemma ScanNoFields(s: string, k: nat, close: char, m: Mode)
    requires k < |s| && s[k] == close
    ensures ScanFields(s, k, close, m) == Some(k + 1)
  {
  }

  /** One field, which begins at `k` with a caption or at `from` with its type. */
  lemma ScanField(s: string, k: nat, close: char, m: Mode, from: nat, end: nat)
    requires k < |s| && s[k] != close && from <= |s| && ScanType(s, from, m) == Some(end)
    requires if s[k] == '"' then After(Find(s, k + 1, '"')) == Some(from) else from == k
    ensures end <= |s| && ScanFields(s, k, close, m) == ScanFields(s, end, close, m)
  {
    hide ScanType;
  }

  lemma FieldsPrinted(union: bool, fields: Fields)
    ensures |PrintFields(union, fields)| > 0
  {
    if fields.Field? && fields.caption.None? {
      TypePrinted(fields.item);
    }
  }

  lemma {:induction false} TypePrinted(t: Type)
    ensures |Print(t)| > 0
  {
  }

  // ----- signatures -----

  /** A type in a method signature and the frame offset after it. */
  datatype Part = Part(item: Type, frame: nat)

  function PrintPart(part: Part): string {
    Print(part.item) + Digits(part.frame)
  }

  function PrintSignature(parts: seq<Part>): string {
    if parts == [] then "" else PrintPart(parts[0]) + PrintSignature(parts[1..])
  }

  /** The return type comes first; no type ends in a bit-field, whose width would run into the offset. */
  predicate SignatureOk(parts: seq<Part>) {
    forall k :: 0 <= k < |parts| ==> WellFormed(parts[k].item) && !Tail(parts[k].item).Bits?
  }

  /** `objc_skip_argspec` */
  function SkipArgument(s: string, i: nat): (r: Option<nat>)
    requires i <= |s|
    ensures r.Some? ==> i < r.value <= |s|
  {
    var end := ScanType(s, i, Size);
    if end.Some? then Some(SkipDigits(s, end.value)) else None
  }

  /** The number of types from `i` to the end; `None` if the scanner aborts. */
  function CountTypes(s: string, i: nat): Option<nat>
    requires i <= |s|
    decreases |s| - i
  {
    if i == |s| then Some(0)
    else
      var next := SkipArgument(s, i);
      if next.None? then None
      else
        var count := CountTypes(s, next.value);
        if count.Some? then Some(count.value + 1) else None
  }

  datatype Place = Start(at: nat) | Null | Abort

  /** Where the type `index` places after the one at `i` starts; null if it would be at the end or beyond. */
  function SkipTypes(s: string, i: nat, index: nat): Place
    requires i <= |s|
    decreases index
  {
    var next := SkipArgument(s, i);
    if next.None? then Abort
    else if next.value == |s| then Null
    else if index == 0 then Start(next.value)
    else SkipTypes(s, next.value, index - 1)
  }

  lemma SkipsArgument(part: Part, s: string, i: nat)
    requires WellFormed(part.item) && !Tail(part.item).Bits?
    requires Reads(s, i, PrintPart(part)) && !IsDigit(At(s, i + |PrintPart(part)|))
    ensures SkipArgument(s, i) == Some(i + |PrintPart(part)|)
  {
    hide Reads, ScanType, WellFormed, Print, Digits, SkipDigits;
    var e, d := Print(part.item), Digits(part.frame);
    ReadsPlus(s, i, e, d);
    DigitsAreDigits(part.frame);
    ReadsChar(s, i + |e|, d, 0);
    DigitFollows(part.item, d[0]);
    ScansType(part.item, s, i, Size);
    SkipsDigits(s, i + |e|, d);
  }

  lemma DigitFollows(t: Type, c: char)
    requires IsDigit(c) && !Tail(t).Bits?
    ensures MayFollow(t, c)
  {
  }

  /** What follows a part is the next part, which begins with no digit, or the end. */
  lemma PartFollows(parts: seq<Part>, s: string, i: nat)
    requires SignatureOk(parts) && Reads(s, i, PrintSignature(parts)) && i + |PrintSignature(parts)| == |s|
    ensures !IsDigit(At(s, i)) && (parts == [] <==> i == |s|)
  {
    hide Reads, Print, Digits, WellFormed;
    if parts != [] {
      FirstChar(parts[0].item);
      ReadsPlus(s, i, PrintPart(parts[0]), PrintSignature(parts[1..]));
      ReadsPlus(s, i, Print(parts[0].item), Digits(parts[0].frame));
      ReadsChar(s, i, Print(parts[0].item), 0);
    }
  }

  /** One step over a signature is one type of it. */
  lemma SkipsPart(parts: seq<Part>, s: string, i: nat)
    requires SignatureOk(parts) && parts != [] && Reads(s, i, PrintSignature(parts))
    requires i + |PrintSignature(parts)| == |s|
    ensures var next := i + |PrintPart(parts[0])|;
      && SkipArgument(s, i) == Some(next) && SignatureOk(parts[1..])
      && Reads(s, next, PrintSignature(parts[1..])) && next + |PrintSignature(parts[1..])| == |s|
  {
    hide Reads, PrintPart, WellFormed, SkipArgument;
    ReadsPlus(s, i, PrintPart(parts[0]), PrintSignature(parts[1..]));
    PartFollows(parts[1..], s, i + |PrintPart(parts[0])|);
    SkipsArgument(parts[0], s, i);
  }

  /** The types of a signature are counted right. */
  lemma {:induction false} CountsTypes(parts: seq<Part>, s: string, i: nat)
    requires SignatureOk(parts) && Reads(s, i, PrintSignature(parts)) && i + |PrintSignature(parts)| == |s|
    ensures CountTypes(s, i) == Some(|parts|)
    decreases |parts|
  {
    hide Reads, SkipArgument, PrintPart, WellFormed;
    PartFollows(parts, s, i);
    if parts != [] {
      SkipsPart(parts, s, i);
      CountsTypes(parts[1..], s, i + |PrintPart(parts[0])|);
    }
  }

  /** Where the `k`-th type of a signature starts. */
  function StartOf(parts: seq<Part>, k: nat): nat
    requires k <= |parts|
  {
    if k == 0 then 0 else |PrintPart(parts[0])| + StartOf(parts[1..], k - 1)
  }

  /** Skipping types leads to the start of the right one, or to null just if there are not so many. */
  lemma {:induction false} SkipsTypes(parts: seq<Part>, s: string, i: nat, index: nat)
    requires SignatureOk(parts) && parts != [] && Reads(s, i, PrintSignature(parts))
    requires i + |PrintSignature(parts)| == |s|
    ensures SkipTypes(s, i, index) == if index + 1 < |parts| then Start(i + StartOf(parts, index + 1)) else Null
    decreases index
  {
    hide Reads, SkipArgument, PrintPart, WellFormed;
    SkipsPart(parts, s, i);
    var next := i + |PrintPart(parts[0])|;
    PartFollows(parts[1..], s, next);
    if index == 0 {
      assert StartOf(parts, 1) == |PrintPart(parts[0])|;
    } else if parts[1..] != [] {
      SkipsTypes(parts[1..], s, next, index - 1);
    }
  }

  /**
   For every signature `parts` of a return type and arguments: the number of arguments is
   right, and parameter `index` starts at the argument of that number, if there is one.
   */
  lemma SignatureReadsBack(parts: seq<Part>, index: nat)
    requires SignatureOk(parts) && parts != []
    ensures var s := PrintSignature(parts); CountTypes(s, 0) == Some(|parts|)
    ensures var s := PrintSignature(parts);
      SkipTypes(s, 0, index) == if index < |parts| - 1 then Start(StartOf(parts, index + 1)) else Null
  {
    hide PrintSignature, SkipTypes, CountTypes, WellFormed;
    var s := PrintSignature(parts);
    assert s[0..|s|] == s;
    CountsTypes(parts, s, 0);
    SkipsTypes(parts, s, 0, index);
  }

  /** Both functions of the scanner consume the same. */
  lemma SizeAndAlignAgree(t: Type, s: string, i: nat)
    requires WellFormed(t) && Reads(s, i, Print(t)) && MayFollow(t, At(s, i + |Print(t)|))
    ensures ScanType(s, i, Size) == ScanType(s, i, Align) == Some(i + |Print(t)|)
  {
    ScansType(t, s, i, Size);
    ScansType(t, s, i, Align);
  }

  lemma {:induction false} SkipsAtLeast(s: string, i: nat, d: string)
    requires Reads(s, i, d) && forall k :: 0 <= k < |d| ==> IsDigit(d[k])
    requires IsDigit(At(s, i + |d|)) && i + |d| < |s|
    ensures SkipDigits(s, i) > i + |d|
    decreases |d|
  {
    hide Reads;
    if d != [] {
      ReadsChar(s, i, d, 0);
      assert d == [d[0]] + d[1..];
      ReadsPlus(s, i, [d[0]], d[1..]);
      SkipsAtLeast(s, i + 1, d[1..]);
    }
  }

  lemma BitsRunOn(offset: nat, c: char, width: nat, s: string, i: nat, m: Mode)
    requires IsSimple(c) && Reads(s, i, Print(Bits(offset, c, width)))
    requires IsDigit(At(s, i + |Print(Bits(offset, c, width))|))
    ensures ScanType(s, i, m) != Some(i + |Print(Bits(offset, c, width))|)
  {
    hide Reads, Digits, SkipDigits, ScanType, ScanBits;
    var d, w := Digits(offset), Digits(width);
    ReadsPlus(s, i, "b" + d + [c], w);
    ReadsPlus(s, i, "b" + d, [c]);
    ReadsPlus(s, i, "b", d);
    ReadsChar(s, i, "b", 0);
    var k := i + 1 + |d|;
    ReadsChar(s, k, [c], 0);
    DigitsAreDigits(offset);
    DigitsAreDigits(width);
    ScansSimple(s, k, c, Align);
    SkipsDigits(s, i + 1, d);
    SkipsAtLeast(s, k + 1, w);
    ScanBitsEnd(s, i, m, k);
    ScanTypeBits(s, i, m);
  }

  lemma ObjectRunsOn(kind: ObjectKind, s: string, i: nat, m: Mode)
    requires Reads(s, i, PrintObject(kind)) && i + |PrintObject(kind)| < |s|
    requires !MayFollow(Object(kind), s[i + |PrintObject(kind)|])
    ensures ScanType(s, i, m) != Some(i + |PrintObject(kind)|)
  {
    hide Reads;
    ReadsChar(s, i, PrintObject(kind), 0);
    if kind.Block? {
      ReadsChar(s, i, PrintObject(kind), 1);
    }
    ScanTypeObject(s, i, m);
  }

  lemma QualifiedIsItem(q: char, item: Type, s: string, i: nat, m: Mode)
    requires WellFormed(Qualified(q, item)) && Reads(s, i, Print(Qualified(q, item)))
    ensures Reads(s, i + 1, Print(item)) && |Print(Qualified(q, item))| == 1 + |Print(item)|
    ensures i < |s| && ScanType(s, i, m) == ScanType(s, i + 1, m)
  {
    hide Reads, ScanType;
    ReadsPlus(s, i, [q], Print(item));
    ReadsChar(s, i, [q], 0);
    QualifierSkipped(s, i, m);
  }

  lemma PointerIsTarget(to: Type, s: string, i: nat, m: Mode)
    requires Reads(s, i, Print(Pointer(to)))
    ensures Reads(s, i + 1, Print(to)) && |Print(Pointer(to))| == 1 + |Print(to)|
    ensures i < |s| && ScanType(s, i, m) == ScanType(s, i + 1, m)
  {
    hide Reads, ScanType;
    ReadsPlus(s, i, "^", Print(to));
    ReadsChar(s, i, "^", 0);
    ScanTypePointer(s, i, m);
  }

  /**
   What may follow a type is exactly what keeps the scanner from running on: a bare `@`
   is misread before `?` or a caption, `@?` before `<`, and a bit-field before a digit.
   */
  lemma {:induction false} ScansTypeExactly(t: Type, s: string, i: nat, m: Mode)
    requires WellFormed(t) && Reads(s, i, Print(t)) && i + |Print(t)| < |s|
    ensures ScanType(s, i, m) == Some(i + |Print(t)|) <==> MayFollow(t, s[i + |Print(t)|])
    decreases t
  {
    hide Reads, ScanType;
    if MayFollow(t, s[i + |Print(t)|]) {
      ScansType(t, s, i, m);
    } else {
      match t
      case Qualified(q, item) =>
        QualifiedIsItem(q, item, s, i, m);
        ScansTypeExactly(item, s, i + 1, m);
      case Pointer(to) =>
        PointerIsTarget(to, s, i, m);
        ScansTypeExactly(to, s, i + 1, m);
      case Object(kind) => ObjectRunsOn(kind, s, i, m);
      case Bits(offset, c, width) => BitsRunOn(offset, c, width, s, i, m);
    }
  }

  // ----- in the characters themselves -----

  /**
   What the scanner makes of each character that can begin a type: one of a simple type is
   consumed as such, a qualifier and a pointer's mark are passed over, and one that begins
   no type is not understood.
   */
  lemma FirstCharacter(s: string, i: nat, m: Mode)
    requires i < |s|
    ensures s[i] in "DdfcislqCSILQB#:*?v" ==> ScanType(s, i, m) == Some(i + 1)
    ensures s[i] in "rnNoORV^" ==> ScanType(s, i, m) == ScanType(s, i + 1, m)
    ensures s[i] == 'j' && i + 1 < |s| && s[i + 1] in "DdfcislqCSILQ" ==> ScanType(s, i, m) == Some(i + 2)
    ensures s[i] !in "DdfcislqCSILQB#:*?v" && s[i] !in "rnNoORV^" && s[i] !in "@j{([b" ==> ScanType(s, i, m).None?
  {
    hide ScanType, IsSimple, IsQualifier, IsComplex;
    Kinds(s[i]);
    if IsSimple(s[i]) {
      ScansSimple(s, i, s[i], m);
    } else if IsQualifier(s[i]) {
      QualifierSkipped(s, i, m);
    } else if s[i] == '^' {
      ScanTypePointer(s, i, m);
    } else if s[i] !in "@j{([b" {
      NoType(s, i, m);
    } else if s[i] == 'j' && i + 1 < |s| {
      Kinds(s[i + 1]);
      if IsComplex(s[i + 1]) {
        ScanTypeComplex(s, i, m);
      }
    }
  }

  lemma Kinds(c: char)
    ensures IsSimple(c) <==> c in "DdfcislqCSILQB#:*?v"
    ensures IsQualifier(c) <==> c in "rnNoORV"
    ensures IsComplex(c) <==> c in "DdfcislqCSILQ"
    ensures IsDigit(c) <==> c in "0123456789"
  {
  }

  lemma NoType(s: string, i: nat, m: Mode)
    requires i < |s| && !IsSimple(s[i]) && !IsQualifier(s[i]) && s[i] != '^' && s[i] !in "@j{([b"
    ensures ScanType(s, i, m).None?
  {
    assert SkipQualifiers(s, i) == i;
  }

  /** How some types are written down. */
  lemma Written()
    ensures Print(Qualified('r', Pointer(Simple('c')))) == "r^c"
    ensures Print(Object(Named("NSString"))) == "@\"NSString\"" && Print(Object(Block)) == "@?"
    ensures Print(Array(12, Simple('i'))) == "[12i]"
    ensures var fields := Field(Some("x"), Simple('d'), Field(None, Simple('B'), NoFields));
      Print(Record(false, "P", Defined(fields))) == "{P=\"x\"dB}" && Print(Record(true, "U", Opaque)) == "(U)"
    ensures Print(Bits(0, 'I', 3)) == "b0I3"
  {
    assert Digits(12) == "12" && Digits(0) == "0" && Digits(3) == "3";
  }
}
