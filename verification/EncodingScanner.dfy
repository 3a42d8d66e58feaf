/**
 The scanner as loops over a cursor, proved against the functions of `TypeEncoding`.
 `None` stands for a call to `abort` and for running past the end of the string.
 */
module EncodingScanner {
  import opened Wrappers
  import opened TypeEncoding

  /** `objc_skip_type_qualifiers` */
  method SkipTypeQualifiers(s: string, i: nat) returns (t: nat)
    requires i <= |s|
    ensures t == SkipQualifiers(s, i)
  {
    t := i;
    while t < |s| && s[t] in "rnNoORV"
      invariant i <= t <= |s| && SkipQualifiers(s, i) == SkipQualifiers(s, t)
    {
      t := t + 1;
    }
  }

  /** `strtol`, as far as it moves the cursor over what compilers emit. */
  method SkipNumber(s: string, i: nat) returns (t: nat)
    requires i <= |s|
    ensures t == SkipDigits(s, i)
  {
    t := i;
    while t < |s| && IsDigit(s[t])
      invariant i <= t <= |s| && SkipDigits(s, i) == SkipDigits(s, t)
    {
      t := t + 1;
    }
  }

  method SkipTo(s: string, i: nat, c: char) returns (t: Option<nat>)
    ensures t == Find(s, i, c)
  {
    var k := i;
    while k < |s| && s[k] != c
      invariant i <= k && Find(s, i, c) == Find(s, k, c)
    {
      k := k + 1;
    }
    t := if k < |s| then Some(k) else None;
  }

  /** `skip_object_extended_qualifiers`, and the step over the last character that its callers add. */
  method SkipObjectExtended(s: string, i: nat) returns (t: Option<nat>)
    requires i < |s|
    ensures t == SkipObject(s, i)
  {
    if i + 1 < |s| && s[i + 1] == '?' {
      if i + 2 < |s| && s[i + 2] == '<' {
        t := SkipTo(s, i + 3, '>');
        return After(t);
      }
      return Some(i + 2);
    }
    if i + 1 < |s| && s[i + 1] == '"' {
      t := SkipTo(s, i + 2, '"');
      return After(t);
    }
    return Some(i + 1);
  }

  /** The callback that is handed to the parsers of arrays and records. */
  method Callback(s: string, i: nat, m: Mode) returns (end: Option<nat>)
    requires i <= |s|
    ensures end == ScanType(s, i, m)
    decreases |s| - i, 4, 0
  {
    match m
    case Size => end := SizeofType(s, i);
    case Align => end := AlignofType(s, i);
  }

  /** `parse_array` */
  method ParseArray(s: string, j: nat, m: Mode) returns (end: Option<nat>)
    requires j < |s|
    ensures end == ScanArray(s, j, m)
    decreases |s| - j, 1, 0
  {
    var t := SkipNumber(s, j + 1);
    end := Callback(s, t, m);
    if end.Some? && end.value < |s| {
      return Some(end.value + 1);
    }
    return None;
  }

  /** `parse_struct_or_union` */
  method ParseRecord(s: string, j: nat, close: char, m: Mode) returns (end: Option<nat>)
    requires j < |s|
    ensures end == ScanRecord(s, j, close, m)
    decreases |s| - j, 2, 0
  {
    var t := j;
    while true
      invariant j <= t < |s| && SkipName(s, j + 1, close) == SkipName(s, t + 1, close)
      decreases |s| - t
    {
      t := t + 1;
      if t >= |s| {
        return None;
      }
      if s[t] == close {
        return Some(t + 1);
      }
      if s[t] == '=' {
        break;
      }
    }
    end := ParseFields(s, t + 1, close, m);
  }

  /** The loop over the fields. */
  method ParseFields(s: string, k: nat, close: char, m: Mode) returns (end: Option<nat>)
    requires k <= |s|
    ensures end == ScanFields(s, k, close, m)
    decreases |s| - k, 5, 0
  {
    var t := k;
    while t < |s| && s[t] != close
      invariant k <= t <= |s| && ScanFields(s, k, close, m) == ScanFields(s, t, close, m)
      decreases |s| - t
    {
      var from := t;
      if s[t] == '"' {
        var quote := SkipTo(s, t + 1, '"');
        if quote.None? {
          return None;
        }
        from := quote.value + 1;
      }
      var field := Callback(s, from, m);
      if field.None? {
        return None;
      }
      t := field.value;
    }
    return if t < |s| then Some(t + 1) else None;
  }

  /** `sizeof_type`: where the type at `i` ends. */
  method SizeofType(s: string, i: nat) returns (end: Option<nat>)
    requires i <= |s|
    ensures end == ScanType(s, i, Size)
    decreases |s| - i, 3, 1
  {
    var t := SkipTypeQualifiers(s, i);
    if t >= |s| {
      return None;
    }
    if IsSimple(s[t]) {
      return Some(t + 1);
    }
    match s[t]
    case '@' => end := SkipObjectExtended(s, t);
    case 'j' =>
      t := t + 1;
      if IsComplex(At(s, t)) {
        return Some(t + 1);
      }
      // No case applies, and control falls through to that of a structure.
      if t >= |s| {
        return None;
      }
      end := ParseRecord(s, t, '}', Size);
    case '{' =>
      end := ParseRecord(s, t, '}', Size);
      // The size is rounded up to the alignment of the whole structure.
      var align := AlignofType(s, t);
      if align.None? {
        return None;
      }
    case '[' => end := ParseArray(s, t, Size);
    case '(' => end := ParseRecord(s, t, ')', Size);
    case 'b' =>
      t := SkipNumber(s, t + 1);
      if t >= |s| {
        return None;
      }
      t := SkipNumber(s, t + 1);
      return Some(t);
    case '^' => end := SizeofType(s, t + 1);
    case _ => end := None;
  }

  /** `alignof_type` */
  method AlignofType(s: string, i: nat) returns (end: Option<nat>)
    requires i <= |s|
    ensures end == ScanType(s, i, Align)
    decreases |s| - i, 3, 0
  {
    var t := SkipTypeQualifiers(s, i);
    if t >= |s| {
      return None;
    }
    if IsSimple(s[t]) {
      return Some(t + 1);
    }
    match s[t]
    case '@' => end := SkipObjectExtended(s, t);
    case 'j' =>
      t := t + 1;
      if IsComplex(At(s, t)) {
        return Some(t + 1);
      }
      if t >= |s| {
        return None;
      }
      end := ParseRecord(s, t, '}', Align);
    case '{' => end := ParseRecord(s, t, '}', Align);
    case '(' => end := ParseRecord(s, t, ')', Align);
    case '[' => end := ParseArray(s, t, Align);
    case 'b' =>
      t := SkipNumber(s, t + 1);
      end := AlignofType(s, t);
      if end.Some? {
        t := SkipNumber(s, end.value);
        return Some(t);
      }
    case '^' => end := AlignofType(s, t + 1);
    case _ => end := None;
  }

  /** `objc_skip_argspec` */
  method SkipArgspec(s: string, i: nat) returns (end: Option<nat>)
    requires i <= |s|
    ensures end == SkipArgument(s, i)
  {
    end := SizeofType(s, i);
    if end.Some? {
      var t := SkipNumber(s, end.value);
      end := Some(t);
    }
  }

  const UINT := 0x1_0000_0000

  method CountAll(s: string) returns (n: Option<nat>)
    ensures n == CountTypes(s, 0)
  {
    hide SkipArgument;
    var t: nat, count: nat := 0, 0;
    while t < |s|
      invariant t <= |s|
      invariant CountTypes(s, 0) ==
        if CountTypes(s, t).Some? then Some(count + CountTypes(s, t).value) else None
      decreases |s| - t
    {
      var next := SkipArgspec(s, t);
      if next.None? {
        return None;
      }
      t := next.value;
      count := count + 1;
    }
    n := Some(count);
  }

  /** `method_getNumberOfArguments`: one less than the number of types, in 32 bits. */
  method NumberOfArguments(s: string) returns (n: Option<nat>)
    ensures CountTypes(s, 0).None? <==> n.None?
    ensures n.Some? ==> n.value == (CountTypes(s, 0).value + UINT - 1) % UINT
    ensures forall parts {:trigger SignatureOk(parts)} ::
      parts != [] && |parts| <= UINT && SignatureOk(parts) && s == PrintSignature(parts) ==> n == Some(|parts| - 1)
  {
    hide CountTypes, SignatureOk, PrintSignature;
    var count := CountAll(s);
    if count.None? {
      n := None;
    } else {
      n := Some((count.value + UINT - 1) % UINT);
    }
    forall parts | parts != [] && |parts| <= UINT && SignatureOk(parts) && s == PrintSignature(parts)
      ensures n == Some(|parts| - 1)
    {
      SignatureReadsBack(parts, 0);
    }
  }

  method FindStart(s: string, index: nat) returns (place: Place)
    ensures place == SkipTypes(s, 0, index)
  {
    hide SkipArgument;
    var t: nat, i: nat := 0, 0;
    while i <= index
      invariant t <= |s| && i <= index + 1
      invariant SkipTypes(s, 0, index) == if i <= index then SkipTypes(s, t, index - i) else Start(t)
    {
      var next := SkipArgspec(s, t);
      if next.None? {
        return Abort;
      }
      t := next.value;
      if t == |s| {
        return Null;
      }
      i := i + 1;
    }
    return Start(t);
  }

  /** `findParameterStart` */
  method FindParameterStart(s: string, index: nat) returns (place: Place)
    ensures place == SkipTypes(s, 0, index)
    ensures forall parts {:trigger SignatureOk(parts)} ::
      parts != [] && SignatureOk(parts) && s == PrintSignature(parts) ==>
        place == if index < |parts| - 1 then Start(StartOf(parts, index + 1)) else Null
  {
    hide SkipTypes, SignatureOk, PrintSignature;
    place := FindStart(s, index);
    forall parts | parts != [] && SignatureOk(parts) && s == PrintSignature(parts)
      ensures place == if index < |parts| - 1 then Start(StartOf(parts, index + 1)) else Null
    {
      SignatureReadsBack(parts, index);
    }
  }
}
