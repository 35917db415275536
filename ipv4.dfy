/** The IPv4 address of Behavioral/Mediator/IPv4Address.h: a 32-bit value
    (section 3.2 of RFC 791) read from and written as dotted-decimal text
    (section 2.1 of RFC 1123).

    The parsing constructor is a loop over `address`, `start` and `end`; it is
    the method Parse, proved equal to the declarative ParseSpec: split the text
    at every '.', visit the fields four times cyclically (the loop's `start =
    end + 1` wraps to 0 after the last field), stop at the first bad field, and
    accept only when the fourth visit was the last field. */
module IPv4 {
  import opened Common
  import opened Decimal

  datatype IPv4Address = IPv4Address(address: u32)

  /** `std::runtime_error` thrown by the constructor, and `std::invalid_argument`
      thrown by `std::stoul` on a field without digits. */
  datatype ParseError = Malformed | InvalidArgument

  // ---------------------------------------------------------------- text helpers

  /** `s.find_first_of('.', start)`; None is `npos`. */
  function FindDot(s: string, start: nat): (r: Option<nat>)
    requires start <= |s|
    ensures r.Some? ==> start <= r.value < |s| && s[r.value] == '.'
    ensures r.Some? ==> forall i :: start <= i < r.value ==> s[i] != '.'
    ensures r.None? ==> forall i :: start <= i < |s| ==> s[i] != '.'
    decreases |s| - start
  {
    if start == |s| then None
    else if s[start] == '.' then Some(start)
    else FindDot(s, start + 1)
  }

  /** The text cut at every '.'; always at least one field. */
  function Split(s: string): (fs: seq<string>)
    ensures |fs| >= 1
    decreases |s|
  {
    match FindDot(s, 0)
    case None => [s]
    case Some(k) => [s[..k]] + Split(s[k + 1..])
  }

  predicate NoDot(s: string)
  {
    forall i :: 0 <= i < |s| ==> s[i] != '.'
  }

  /** Cutting `a.rest` where a holds no '.' gives a, then the fields of rest. */
  lemma SplitDot(a: string, rest: string)
    requires NoDot(a)
    ensures Split(a + "." + rest) == [a] + Split(rest)
  {
    var s := a + "." + rest;
    var k := FindDot(s, 0);
    assert s[|a|] == '.';
    assert k == Some(|a|);
    assert s[..|a|] == a && s[|a| + 1..] == rest;
  }

  lemma SplitNoDot(a: string)
    requires NoDot(a)
    ensures Split(a) == [a]
  {
    assert FindDot(a, 0).None?;
  }

  /** Searching from `start` in s is searching from 0 in the rest of s. */
  lemma {:induction false} FindDotFrom(s: string, start: nat, i: nat)
    requires start <= i <= |s|
    ensures FindDot(s, i) == match FindDot(s[start..], i - start)
                             case None => None
                             case Some(k) => Some(k + start)
    decreases |s| - i
  {
    if i < |s| {
      assert s[start..][i - start] == s[i];
      FindDotFrom(s, start, i + 1);
    }
  }

  // ---------------------------------------------------------------- std::stoul

  predicate IsSpace(c: char)
  {
    c == ' ' || 9 <= c as int <= 13
  }

  function SkipSpaces(f: string): (r: string)
    ensures |r| <= |f|
  {
    if |f| > 0 && IsSpace(f[0]) then SkipSpaces(f[1..]) else f
  }

  function DigitPrefix(u: string): (d: string)
    ensures AllDigits(d) && |d| <= |u| && d == u[..|d|]
  {
    if |u| > 0 && IsDigit(u[0]) then [u[0]] + DigitPrefix(u[1..]) else []
  }

  /** `std::stoul` on a field of at most three characters: leading white space,
      an optional sign, then the longest run of digits; None when there is no
      digit (`std::invalid_argument`).  A '-' negates in `unsigned long`. */
  function Stoul(f: string): (r: Option<nat>)
    requires |f| <= 3
    ensures AllDigits(f) && |f| >= 1 ==> r == Some(DigitsValue(f))
  {
    var t := SkipSpaces(f);
    var negative := |t| > 0 && t[0] == '-';
    var u := if |t| > 0 && (t[0] == '+' || t[0] == '-') then t[1..] else t;
    var d := DigitPrefix(u);
    if d == [] then None
    else
      var v := DigitsValue(d);
      assert AllDigits(f) && |f| >= 1 ==> t == f && u == f && d == f by {
        if AllDigits(f) && |f| >= 1 {
          assert !IsSpace(f[0]) && t == f;
          DigitPrefixAll(f);
        }
      }
      Some(if negative then (TWO_64 - v % TWO_64) % TWO_64 else v)
  }

  lemma {:induction false} DigitPrefixAll(u: string)
    requires AllDigits(u)
    ensures DigitPrefix(u) == u
  {
    if |u| > 0 {
      DigitPrefixAll(u[1..]);
    }
  }

  /** The number of bytes a character takes in UTF-8, the encoding the
      `std::string` holds the text in. */
  function Utf8Width(c: char): (w: nat)
    ensures 1 <= w <= 4
    ensures w == 1 <==> c as int < 0x80
  {
    if c as int < 0x80 then 1
    else if c as int < 0x800 then 2
    else if c as int < 0x1_0000 then 3
    else 4
  }

  /** `std::string::length()`: the length of the text in bytes. */
  function ByteLength(s: string): (n: nat)
    ensures |s| <= n
  {
    if s == [] then 0 else Utf8Width(s[0]) + ByteLength(s[1..])
  }

  /** The byte length is the number of characters exactly when every
      character is ASCII. */
  lemma {:induction false} AsciiByteLength(s: string)
    ensures ByteLength(s) == |s| <==> forall i :: 0 <= i < |s| ==> s[i] as int < 0x80
  {
    if s != [] {
      AsciiByteLength(s[1..]);
      assert forall i :: 1 <= i < |s| ==> s[i] == s[1..][i - 1];
    }
  }

  /** A field of digits takes one byte per character. */
  lemma DigitsByteLength(f: string)
    requires AllDigits(f)
    ensures ByteLength(f) == |f|
  {
    AsciiByteLength(f);
  }

  /** One field as the loop body checks it: 1 to 3 bytes long, `stoul` stored
      into a `uint32_t`, at most 255. */
  function FieldValue(f: string): (r: Result<nat, ParseError>)
    ensures r.Ok? ==> r.value < 256 && 1 <= |f| <= ByteLength(f) <= 3
    ensures |f| == 0 || ByteLength(f) > 3 ==> r == Err(Malformed)
    ensures 1 <= |f| <= 3 && AllDigits(f) ==>
      r == if DigitsValue(f) <= 255 then Ok(DigitsValue(f)) else Err(Malformed)
  {
    assert AllDigits(f) ==> ByteLength(f) == |f| by {
      if AllDigits(f) {
        DigitsByteLength(f);
      }
    }
    if ByteLength(f) > 3 || |f| == 0 then Err(Malformed)
    else
      assert AllDigits(f) ==> DigitsValue(f) % TWO_32 == DigitsValue(f) by {
        if AllDigits(f) {
          DigitsField(f);
        }
      }
      match Stoul(f)
      case None => Err(InvalidArgument)
      case Some(v) => var byte := v % TWO_32; if byte > 255 then Err(Malformed) else Ok(byte)
  }

  /** A field of one to three digits is below 1000. */
  lemma DigitsField(f: string)
    requires 1 <= |f| <= 3 && AllDigits(f)
    ensures DigitsValue(f) < 1000
  {
    DigitsValueBound(f);
    if |f| == 1 {
      assert Pow10(1) == 10;
    } else if |f| == 2 {
      assert Pow10(2) == 100;
    } else {
      assert Pow10(3) == 1000;
    }
  }

  // ---------------------------------------------------------------- the specification

  /** Which field the j-th pass of the loop reads when the text has n fields:
      the next one, or field 0 again after the last. */
  function VisitIndex(n: nat, j: nat): (k: nat)
    requires n >= 1
    ensures k < n
  {
    if j == 0 then 0
    else if VisitIndex(n, j - 1) == n - 1 then 0
    else VisitIndex(n, j - 1) + 1
  }

  /** The four fields the loop reads, in order. */
  function Visited(fs: seq<string>): (vs: seq<string>)
    requires |fs| >= 1
    ensures |vs| == 4
  {
    seq(4, j requires 0 <= j < 4 => fs[VisitIndex(|fs|, j)])
  }

  /** The values of the fields, or the first error among them. */
  function FieldValues(vs: seq<string>): (r: Result<seq<nat>, ParseError>)
    ensures r.Ok? ==> |r.value| == |vs| && forall i :: 0 <= i < |vs| ==> r.value[i] < 256
    ensures r.Ok? ==> forall i :: 0 <= i < |vs| ==> FieldValue(vs[i]) == Ok(r.value[i])
    ensures r.Err? ==> exists i :: 0 <= i < |vs| && FieldValue(vs[i]) == Err(r.error)
  {
    if vs == [] then Ok([])
    else
      match FieldValues(vs[..|vs| - 1])
      case Err(e) => Err(e)
      case Ok(bs) =>
        match FieldValue(vs[|vs| - 1])
        case Err(e) => Err(e)
        case Ok(v) => Ok(bs + [v])
  }

  /** `1 << (8 * i)`, the weight of byte position i (0 = least significant). */
  function Weight(i: nat): (w: nat)
    requires i <= 4
  {
    if i == 0 then 1 else if i == 1 then 0x100 else if i == 2 then 0x1_0000
    else if i == 3 then 0x100_0000 else TWO_32
  }

  /** `byte << (8 * i)`. */
  function Shifted(b: nat, i: nat): nat
    requires i < 4
  {
    if i == 0 then b else if i == 1 then b * 0x100 else if i == 2 then b * 0x1_0000
    else b * 0x100_0000
  }

  /** Bytes placed most significant first: the loop's `address |= byte << (8 * i)`
      for i = 3, 2, 1, 0 over the first |bs| bytes.  Each byte lands on bits no
      other byte uses, so the `|=` adds. */
  function Pack(bs: seq<nat>): (a: nat)
    requires |bs| <= 4
  {
    if bs == [] then 0
    else Pack(bs[..|bs| - 1]) + Shifted(bs[|bs| - 1], 4 - |bs|)
  }

  /** The bytes packed so far leave room below 2^32 for the positions still free. */
  lemma {:induction false} PackBound(bs: seq<nat>)
    requires |bs| <= 4 && forall i :: 0 <= i < |bs| ==> bs[i] < 256
    ensures Pack(bs) + Weight(4 - |bs|) <= TWO_32
  {
    if bs != [] {
      PackBound(bs[..|bs| - 1]);
    }
  }

  function ParseSpec(s: string): Result<IPv4Address, ParseError>
  {
    var fs := Split(s);
    match FieldValues(Visited(fs))
    case Err(e) => Err(e)
    case Ok(bs) =>
      if VisitIndex(|fs|, 3) == |fs| - 1 then
        PackBound(bs);
        Ok(IPv4Address(Pack(bs)))
      else Err(Malformed)
  }

  // ---------------------------------------------------------------- the parser

  /** One search for the next '.' from the start of field k: it ends at npos
      exactly for the last field, cuts out field k, and leaves the rest split
      into the later fields. */
  lemma NextField(s: string, start: nat, fs: seq<string>, k: nat)
    requires start <= |s| && k < |fs|
    requires Split(s[start..]) == fs[k..]
    ensures var e := FindDot(s, start);
      && (e.None? <==> k == |fs| - 1)
      && (if e.Some? then s[start..e.value] else s[start..]) == fs[k]
      && (e.Some? ==> Split(s[e.value + 1..]) == fs[k + 1..])
  {
    var t := s[start..];
    FindDotFrom(s, start, start);
    assert t[0..] == t;
    assert fs[k..][0] == fs[k];
    match FindDot(t, 0)
    case None =>
      assert Split(t) == [t];
    case Some(p) =>
      assert Split(t) == [t[..p]] + Split(t[p + 1..]);
      assert s[start..start + p] == t[..p];
      assert s[start + p + 1..] == t[p + 1..];
      assert fs[k..][1..] == fs[k + 1..];
  }

  /** Pass j of the loop over the text s: the field it cuts out is the j-th
      visited one, its search ends at npos exactly on the last field, and the
      next pass starts where the field after it (or field 0) begins. */
  lemma NextPass(s: string, start: nat, j: nat)
    requires j < 4 && start <= |s|
    requires Split(s[start..]) == Split(s)[VisitIndex(|Split(s)|, j)..]
    ensures var e := FindDot(s, start);
      var next := if e.Some? then e.value + 1 else 0;
      && (if e.Some? then s[start..e.value] else s[start..]) == Visited(Split(s))[j]
      && (e.None? <==> VisitIndex(|Split(s)|, j) == |Split(s)| - 1)
      && next <= |s|
      && Split(s[next..]) == Split(s)[VisitIndex(|Split(s)|, j + 1)..]
  {
    var fs := Split(s);
    var k := VisitIndex(|fs|, j);
    NextField(s, start, fs, k);
    if FindDot(s, start).None? {
      assert s[0..] == s && fs[0..] == fs;
    }
  }

  /** The fields are read in order and the first bad one decides the error. */
  lemma {:induction false} FieldValuesFirstError(vs: seq<string>, j: nat)
    requires j < |vs| && FieldValue(vs[j]).Err?
    requires forall m :: 0 <= m < j ==> FieldValue(vs[m]).Ok?
    ensures FieldValues(vs) == Err(FieldValue(vs[j]).error)
    decreases |vs|
  {
    if j < |vs| - 1 {
      FieldValuesFirstError(vs[..|vs| - 1], j);
    } else {
      FieldValuesAllOk(vs[..|vs| - 1]);
    }
  }

  /** When every field is good, the values are read in order. */
  lemma {:induction false} FieldValuesAllOk(vs: seq<string>)
    requires forall m :: 0 <= m < |vs| ==> FieldValue(vs[m]).Ok?
    ensures FieldValues(vs).Ok?
    ensures forall m :: 0 <= m < |vs| ==> FieldValues(vs).value[m] == FieldValue(vs[m]).value
    decreases |vs|
  {
    if vs != [] {
      FieldValuesAllOk(vs[..|vs| - 1]);
    }
  }

  lemma PackNext(bs: seq<nat>, b: nat)
    requires |bs| < 4
    ensures Pack(bs + [b]) == Pack(bs) + Shifted(b, 3 - |bs|)
  {
    var c := bs + [b];
    assert c[..|c| - 1] == bs && c[|c| - 1] == b;
  }

  /** The three checks the loop body makes on one field, in the order it makes them. */
  method ReadField(field: string) returns (r: Result<nat, ParseError>)
    ensures r == FieldValue(field)
  {
    if ByteLength(field) > 3 || |field| == 0 {
      return Err(Malformed);
    }
    var value := Stoul(field);
    if value.None? {
      return Err(InvalidArgument);
    }
    var byte := value.value % TWO_32;
    if byte > 255 {
      return Err(Malformed);
    }
    return Ok(byte);
  }

  /** What the loop holds after some passes. */
  datatype PassState = PassState(start: nat, end: Option<nat>, bytes: seq<nat>, address: nat)

  /** The loop run for j passes (its `i` is then 3 - j): each pass searches for
      the next '.', checks the field it cuts out and ors its byte in at
      position 3 - (passes before it); the first bad field stops it. */
  function Passes(s: string, j: nat): (r: Result<PassState, ParseError>)
    requires j <= 4
    ensures r.Ok? ==> r.value.start <= |s| && |r.value.bytes| == j
  {
    if j == 0 then Ok(PassState(0, Some(0), [], 0))
    else
      match Passes(s, j - 1)
      case Err(e) => Err(e)
      case Ok(p) => Pass(s, p, j - 1)
  }

  /** Pass j + 1 from state p. */
  function Pass(s: string, p: PassState, j: nat): (r: Result<PassState, ParseError>)
    requires j < 4 && p.start <= |s|
    ensures r.Ok? ==> r.value.start <= |s| && |r.value.bytes| == |p.bytes| + 1
  {
    var end := FindDot(s, p.start);
    match FieldValue(PassField(s, p))
    case Err(e) => Err(e)
    case Ok(b) =>
      Ok(PassState(if end.Some? then end.value + 1 else 0, end, p.bytes + [b],
                   p.address + Shifted(b, 3 - j)))
  }

  /** The field pass j + 1 cuts out after j good passes. */
  function PassField(s: string, p: PassState): string
    requires p.start <= |s|
  {
    var end := FindDot(s, p.start);
    if end.Some? then s[p.start..end.value] else s[p.start..]
  }

  /** One more pass after j good ones. */
  lemma PassesStep(s: string, j: nat, p: PassState)
    requires j < 4 && Passes(s, j) == Ok(p)
    ensures Passes(s, j + 1) == Pass(s, p, j)
  {
  }

  /** The bytes ored in so far leave the positions still to come free. */
  lemma {:induction false} PassesAddressBound(s: string, j: nat)
    requires j <= 4 && Passes(s, j).Ok?
    ensures Passes(s, j).value.address + Weight(4 - j) <= TWO_32
  {
    if j > 0 {
      PassesAddressBound(s, j - 1);
    }
  }

  /** After j good passes the loop stands at the start of the field VisitIndex
      names, and the last search ended at npos exactly when the field it cut
      was the last one. */
  lemma {:induction false} PassesCursor(s: string, j: nat)
    requires j <= 4 && Passes(s, j).Ok?
    ensures var fs := Split(s); var p := Passes(s, j).value;
      && Split(s[p.start..]) == fs[VisitIndex(|fs|, j)..]
      && (j > 0 ==> (p.end.None? <==> VisitIndex(|fs|, j - 1) == |fs| - 1))
  {
    var fs := Split(s);
    if j == 0 {
      assert s[0..] == s && fs[0..] == fs;
    } else {
      var p := Passes(s, j - 1).value;
      PassesStep(s, j - 1, p);
      PassesCursor(s, j - 1);
      NextPass(s, p.start, j - 1);
    }
  }

  /** Pass j + 1 reads the (j + 1)-th visited field. */
  lemma PassFieldVisited(s: string, j: nat)
    requires j < 4 && Passes(s, j).Ok?
    ensures PassField(s, Passes(s, j).value) == Visited(Split(s))[j]
  {
    PassesCursor(s, j);
    NextPass(s, Passes(s, j).value.start, j);
  }

  /** After j good passes the address holds the bytes, packed. */
  lemma {:induction false} PassesPacked(s: string, j: nat)
    requires j <= 4 && Passes(s, j).Ok?
    ensures Passes(s, j).value.address == Pack(Passes(s, j).value.bytes)
  {
    if j > 0 {
      var p := Passes(s, j - 1).value;
      var b := FieldValue(PassField(s, p));
      PassesStep(s, j - 1, p);
      PassesPacked(s, j - 1);
      PackNext(p.bytes, b.value);
    }
  }

  /** After j good passes the bytes are the values of the first j visited fields. */
  lemma {:induction false} PassesBytes(s: string, j: nat)
    requires j <= 4 && Passes(s, j).Ok?
    ensures forall m :: 0 <= m < j ==>
      FieldValue(Visited(Split(s))[m]) == Ok(Passes(s, j).value.bytes[m])
  {
    if j > 0 {
      var p := Passes(s, j - 1).value;
      var b := FieldValue(PassField(s, p));
      PassesStep(s, j - 1, p);
      var q := Passes(s, j).value;
      var vs := Visited(Split(s));
      assert b.Ok? && q.bytes == p.bytes + [b.value];
      PassesBytes(s, j - 1);
      PassFieldVisited(s, j - 1);
      forall m | 0 <= m < j
        ensures FieldValue(vs[m]) == Ok(q.bytes[m])
      {
        if m < j - 1 {
          assert q.bytes[m] == p.bytes[m];
        } else {
          assert q.bytes[m] == b.value;
        }
      }
    }
  }

  /** A bad pass carries the error of the first bad visited field. */
  lemma {:induction false} PassesError(s: string, j: nat)
    requires 0 < j <= 4 && Passes(s, j).Err?
    ensures FieldValues(Visited(Split(s))) == Err(Passes(s, j).error)
    decreases j
  {
    if Passes(s, j - 1).Err? {
      PassesErrorNext(s, j - 1);
      PassesError(s, j - 1);
    } else {
      FirstFailingPass(s, j - 1);
    }
  }

  /** The first pass that fails reports the first bad field. */
  lemma FirstFailingPass(s: string, k: nat)
    requires k < 4 && Passes(s, k).Ok? && Passes(s, k + 1).Err?
    ensures FieldValues(Visited(Split(s))) == Err(Passes(s, k + 1).error)
  {
    var p := Passes(s, k).value;
    PassesStep(s, k, p);
    PassesBytes(s, k);
    PassFieldVisited(s, k);
    var vs := Visited(Split(s));
    assert FieldValue(vs[k]) == Err(Passes(s, k + 1).error);
    FieldValuesFirstError(vs, k);
  }

  /** A failed pass is passed on unchanged by the next. */
  lemma PassesErrorNext(s: string, j: nat)
    requires j < 4 && Passes(s, j).Err?
    ensures Passes(s, j + 1) == Passes(s, j)
  {
  }

  /** Once a pass fails, the loop's result is that failure. */
  lemma {:induction false} PassesErrorStays(s: string, j: nat)
    requires j <= 4 && Passes(s, j).Err?
    ensures Passes(s, 4) == Passes(s, j)
    decreases 4 - j
  {
    if j < 4 {
      PassesErrorNext(s, j);
      PassesErrorStays(s, j + 1);
    }
  }

  /** The four passes compute the specification. */
  lemma PassesMeetSpec(s: string)
    ensures Passes(s, 4).Err? ==> ParseSpec(s) == Err(Passes(s, 4).error)
    ensures Passes(s, 4).Ok? && Passes(s, 4).value.end.Some? ==> ParseSpec(s) == Err(Malformed)
    ensures Passes(s, 4).Ok? && Passes(s, 4).value.end.None? ==>
      Passes(s, 4).value.address < TWO_32 && ParseSpec(s) == Ok(IPv4Address(Passes(s, 4).value.address))
  {
    var vs := Visited(Split(s));
    if Passes(s, 4).Err? {
      PassesError(s, 4);
    } else {
      var p := Passes(s, 4).value;
      PassesCursor(s, 4);
      PassesBytes(s, 4);
      PassesPacked(s, 4);
      FieldValuesAllOk(vs);
      assert FieldValues(vs).value == p.bytes;
      PackBound(p.bytes);
    }
  }

  /** The parsing constructor `IPv4Address(const std::string&)`. */
  method Parse(s: string) returns (r: Result<IPv4Address, ParseError>)
    ensures r == ParseSpec(s)
  {
    r := ParseFields(s);
    PassesMeetSpec(s);
  }

  /** The constructor's loop over the four fields, against the passes it makes. */
  method ParseFields(s: string) returns (r: Result<IPv4Address, ParseError>)
    ensures Passes(s, 4).Err? ==> r == Err(Passes(s, 4).error)
    ensures Passes(s, 4).Ok? ==> (r.Ok? <==> Passes(s, 4).value.end.None?)
    ensures Passes(s, 4).Ok? && r.Ok? ==> r.value.address == Passes(s, 4).value.address
    ensures Passes(s, 4).Ok? && r.Err? ==> r.error == Malformed
  {
    ghost var bs: seq<nat> := [];
    var address: nat := 0;
    var start: nat := 0;
    var end: Option<nat> := Some(0);
    var i := 3;
    while i >= 0
      invariant -1 <= i <= 3
      invariant Passes(s, 3 - i) == Ok(PassState(start, end, bs, address))
    {
      ghost var old_end := end;
      end := FindDot(s, start);
      var field := if end.Some? then s[start..end.value] else s[start..];
      ghost var p := PassState(start, old_end, bs, address);
      assert field == PassField(s, p);
      var byte := ReadField(field);
      PassesStep(s, 3 - i, p);
      if byte.Err? {
        PassesErrorStays(s, 4 - i);
        return Err(byte.error);
      }
      start := if end.Some? then end.value + 1 else 0;
      bs := bs + [byte.value];
      address := address + Shifted(byte.value, i);
      ghost var q := Passes(s, 4 - i);
      assert q.Ok?;
      assert q.value.start == start;
      assert q.value.end == end;
      assert q.value.bytes == bs;
      assert q.value.address == address;
      i := i - 1;
    }
    if end.Some? {
      return Err(Malformed);
    }
    PassesAddressBound(s, 4);
    return Ok(IPv4Address(address));
  }

  // ---------------------------------------------------------------- properties of the parser

  /** Fields joined by '.'. */
  function Dotted(fs: seq<string>): (s: string)
    requires |fs| >= 1
    decreases |fs|
  {
    if |fs| == 1 then fs[0] else fs[0] + "." + Dotted(fs[1..])
  }

  /** '.'-free fields joined by '.' split back into those fields. */
  lemma {:induction false} SplitDotted(fs: seq<string>)
    requires |fs| >= 1 && forall i :: 0 <= i < |fs| ==> NoDot(fs[i])
    ensures Split(Dotted(fs)) == fs
    decreases |fs|
  {
    if |fs| == 1 {
      SplitNoDot(fs[0]);
    } else {
      SplitDotted(fs[1..]);
      SplitDot(fs[0], Dotted(fs[1..]));
    }
  }

  /** With four fields the loop visits each once, in order. */
  lemma VisitFour(fs: seq<string>)
    requires |fs| == 4
    ensures Visited(fs) == fs && VisitIndex(4, 3) == 3
  {
    assert VisitIndex(4, 1) == 1 && VisitIndex(4, 2) == 2 && VisitIndex(4, 3) == 3;
  }

  /** The four bytes, most significant first, as one 32-bit value. */
  function Join(v3: nat, v2: nat, v1: nat, v0: nat): nat
  {
    v3 * 0x100_0000 + v2 * 0x1_0000 + v1 * 0x100 + v0
  }

  /** A text of exactly four good fields parses to their bytes, the first field
      most significant. */
  lemma {:induction false} ParseFourFields(s: string)
    requires |Split(s)| == 4
    requires forall m :: 0 <= m < 4 ==> FieldValue(Split(s)[m]).Ok?
    ensures var fs := Split(s);
      ParseSpec(s) == Ok(IPv4Address(Join(FieldValue(fs[0]).value, FieldValue(fs[1]).value,
                                          FieldValue(fs[2]).value, FieldValue(fs[3]).value)))
  {
    var fs := Split(s);
    VisitFour(fs);
    FieldValuesAllOk(fs);
    var bs := FieldValues(fs).value;
    assert bs == [bs[0], bs[1], bs[2], bs[3]];
    PackFour(bs[0], bs[1], bs[2], bs[3]);
    PackBound(bs);
  }

  /** Four bytes packed by the loop are the joined value. */
  lemma PackFour(v3: nat, v2: nat, v1: nat, v0: nat)
    ensures Pack([v3, v2, v1, v0]) == Join(v3, v2, v1, v0)
  {
    PackNext([], v3);
    assert [] + [v3] == [v3];
    PackNext([v3], v2);
    assert [v3] + [v2] == [v3, v2];
    PackNext([v3, v2], v1);
    assert [v3, v2] + [v1] == [v3, v2, v1];
    PackNext([v3, v2, v1], v0);
    assert [v3, v2, v1] + [v0] == [v3, v2, v1, v0];
  }

  /** The text is rejected exactly when a visited field is bad or the fourth
      visit was not of the last field; only texts of one, two or four fields can
      be accepted. */
  lemma ParseAccepts(s: string)
    ensures var fs := Split(s);
      ParseSpec(s).Ok? <==>
        (forall m :: 0 <= m < 4 ==> FieldValue(Visited(fs)[m]).Ok?) && VisitIndex(|fs|, 3) == |fs| - 1
  {
    FieldValuesOk(Visited(Split(s)));
  }

  /** The fields' values are read exactly when every field is good. */
  lemma {:induction false} FieldValuesOk(vs: seq<string>)
    ensures FieldValues(vs).Ok? <==> forall m :: 0 <= m < |vs| ==> FieldValue(vs[m]).Ok?
    decreases |vs|
  {
    if vs != [] {
      var p := vs[..|vs| - 1];
      FieldValuesOk(p);
      assert forall m :: 0 <= m < |p| ==> p[m] == vs[m];
    }
  }

  /** The fourth visit is of the last field exactly for one, two or four fields. */
  lemma FourthVisitLast(n: nat)
    requires n >= 1
    ensures VisitIndex(n, 3) == n - 1 <==> n in {1, 2, 4}
  {
    if n == 1 {
      assert VisitIndex(1, 1) == 0 && VisitIndex(1, 2) == 0;
    } else if n == 2 {
      assert VisitIndex(2, 1) == 1 && VisitIndex(2, 2) == 0;
    } else if n == 3 {
      assert VisitIndex(3, 1) == 1;
      assert VisitIndex(3, 2) == 2;
    } else {
      assert VisitIndex(n, 1) == 1;
      assert VisitIndex(n, 2) == 2;
    }
  }

  /** Only texts of one, two or four fields can be accepted. */
  lemma AcceptedFieldCounts(s: string)
    ensures ParseSpec(s).Ok? ==> |Split(s)| in {1, 2, 4}
  {
    ParseAccepts(s);
    FourthVisitLast(|Split(s)|);
  }

  /** Three fields, or five and more, are always rejected. */
  lemma ThreeOrManyFieldsRejected(s: string)
    requires |Split(s)| == 3 || |Split(s)| >= 5
    ensures ParseSpec(s).Err?
  {
    AcceptedFieldCounts(s);
  }

  /** With four fields, an empty field or one longer than three bytes that
      comes first among the bad ones is reported as malformed. */
  lemma BadLengthRejected(s: string, j: nat)
    requires |Split(s)| == 4 && j < 4
    requires |Split(s)[j]| == 0 || ByteLength(Split(s)[j]) > 3
    requires forall m :: 0 <= m < j ==> FieldValue(Split(s)[m]).Ok?
    ensures ParseSpec(s) == Err(Malformed)
  {
    VisitFour(Split(s));
    FieldValuesFirstError(Split(s), j);
  }

  /** A field of three characters that takes four bytes is too long: "12é" is
      rejected although "12" is a good value. */
  lemma MultiByteFieldRejected()
    ensures ParseSpec("1.1.1.12\U{e9}") == Err(Malformed)
  {
    var fs := ["1", "1", "1", "12\U{e9}"];
    SplitDotted(fs);
    assert Dotted(fs) == "1.1.1.12\U{e9}";
    assert ByteLength(fs[3]) == 4;
    BadLengthRejected("1.1.1.12\U{e9}", 3);
  }

  /** With four fields, a first bad field whose value exceeds 255 is reported as
      malformed. */
  lemma LargeValueRejected(s: string, j: nat)
    requires |Split(s)| == 4 && j < 4
    requires 1 <= |Split(s)[j]| <= 3 && AllDigits(Split(s)[j]) && DigitsValue(Split(s)[j]) > 255
    requires forall m :: 0 <= m < j ==> FieldValue(Split(s)[m]).Ok?
    ensures ParseSpec(s) == Err(Malformed)
  {
    VisitFour(Split(s));
    FieldValuesFirstError(Split(s), j);
  }

  /** The wrap of `start` to 0: a single field is read four times, so "a" is
      taken as "a.a.a.a". */
  lemma OneFieldRepeats(a: string)
    requires NoDot(a)
    ensures ParseSpec(a) == ParseSpec(Dotted([a, a, a, a]))
  {
    SplitNoDot(a);
    SplitDotted([a, a, a, a]);
    assert VisitIndex(1, 1) == 0 && VisitIndex(1, 2) == 0 && VisitIndex(1, 3) == 0;
    assert Visited([a]) == [a, a, a, a];
    VisitFour([a, a, a, a]);
  }

  /** Two fields are read twice each, so "a.b" is taken as "a.b.a.b". */
  lemma TwoFieldsRepeat(a: string, b: string)
    requires NoDot(a) && NoDot(b)
    ensures ParseSpec(Dotted([a, b])) == ParseSpec(Dotted([a, b, a, b]))
  {
    SplitDotted([a, b]);
    SplitDotted([a, b, a, b]);
    assert VisitIndex(2, 1) == 1 && VisitIndex(2, 2) == 0 && VisitIndex(2, 3) == 1;
    assert Visited([a, b]) == [a, b, a, b];
    VisitFour([a, b, a, b]);
  }

  // ---------------------------------------------------------------- the formatter

  /** `(address >> (8 * k)) & 0xFF`. */
  function ByteOf(a: u32, k: nat): (b: nat)
    requires k < 4
    ensures b < 256
  {
    (a / Weight(k)) % 256
  }

  /** `operator std::string`: the four bytes in decimal, most significant first,
      joined by '.'. */
  function Format(a: IPv4Address): (s: string)
  {
    Dotted([NatToString(ByteOf(a.address, 3)), NatToString(ByteOf(a.address, 2)),
            NatToString(ByteOf(a.address, 1)), NatToString(ByteOf(a.address, 0))])
  }

  /** The four bytes put back together give the address. */
  lemma JoinBytes(a: u32)
    ensures Join(ByteOf(a, 3), ByteOf(a, 2), ByteOf(a, 1), ByteOf(a, 0)) == a
  {
    var q1 := a / 0x100;
    var q2 := q1 / 0x100;
    var q3 := q2 / 0x100;
    assert a == q1 * 0x100 + a % 0x100;
    assert q1 == q2 * 0x100 + q1 % 0x100;
    assert q2 == q3 * 0x100 + q2 % 0x100;
    assert q3 < 0x100;
    assert a / 0x1_0000 == q2;
    assert a / 0x100_0000 == q3;
  }

  /** Splitting a joined value gives back its bytes. */
  lemma BytesOfJoin(v3: nat, v2: nat, v1: nat, v0: nat)
    requires v3 < 256 && v2 < 256 && v1 < 256 && v0 < 256
    ensures Join(v3, v2, v1, v0) < TWO_32
    ensures var a := Join(v3, v2, v1, v0);
      ByteOf(a, 3) == v3 && ByteOf(a, 2) == v2 && ByteOf(a, 1) == v1 && ByteOf(a, 0) == v0
  {
    var a := Join(v3, v2, v1, v0);
    assert a == ((v3 * 0x100 + v2) * 0x100 + v1) * 0x100 + v0;
    assert a / 0x100 == (v3 * 0x100 + v2) * 0x100 + v1;
    assert a / 0x1_0000 == v3 * 0x100 + v2;
    assert a / 0x100_0000 == v3;
  }

  /** The decimal form of a byte is a good field with that value. */
  lemma ByteField(b: nat)
    requires b < 256
    ensures NoDot(NatToString(b)) && FieldValue(NatToString(b)) == Ok(b)
  {
    var d := NatToString(b);
    assert Pow10(3) == 1000;
    NatToStringLength(b, 3);
    DigitsValueOfNatToString(b);
    assert forall i :: 0 <= i < |d| ==> IsDigit(d[i]);
  }

  /** Parsing the formatted address gives the address back, for every value. */
  lemma ParseFormat(a: IPv4Address)
    ensures ParseSpec(Format(a)) == Ok(a)
  {
    FormatFields(a);
    ParseFourFields(Format(a));
    JoinBytes(a.address);
  }

  /** The formatted text has four good fields, holding the bytes. */
  lemma FormatFields(a: IPv4Address)
    ensures var fs := Split(Format(a));
      && |fs| == 4
      && (forall k :: 0 <= k < 4 ==> FieldValue(fs[k]) == Ok(ByteOf(a.address, 3 - k)))
  {
    var x := a.address;
    var ds := [NatToString(ByteOf(x, 3)), NatToString(ByteOf(x, 2)),
               NatToString(ByteOf(x, 1)), NatToString(ByteOf(x, 0))];
    forall k | 0 <= k < 4
      ensures NoDot(ds[k]) && FieldValue(ds[k]) == Ok(ByteOf(x, 3 - k))
    {
      var b := ByteOf(x, 3 - k);
      assert ds[k] == NatToString(b);
      ByteField(b);
    }
    assert Format(a) == Dotted(ds);
    SplitDotted(ds);
    assert Split(Format(a)) == ds;
  }

  /** A field as the formatter writes it: decimal digits, no leading zero, at
      most 255. */
  predicate CanonicalByte(d: string)
  {
    Canonical(d) && DigitsValue(d) <= 255
  }

  /** Joining the fields of a text with '.' gives the text back. */
  lemma {:induction false} DottedSplit(s: string)
    ensures Dotted(Split(s)) == s
    decreases |s|
  {
    match FindDot(s, 0)
    case None =>
    case Some(k) =>
      var fs := Split(s);
      assert fs == [s[..k]] + Split(s[k + 1..]);
      assert fs[1..] == Split(s[k + 1..]);
      DottedSplit(s[k + 1..]);
      assert s == s[..k] + "." + s[k + 1..];
  }

  /** Formatting a parsed text of four canonical fields gives the text back. */
  lemma FormatParse(s: string, d3: string, d2: string, d1: string, d0: string)
    requires Split(s) == [d3, d2, d1, d0]
    requires CanonicalByte(d3) && CanonicalByte(d2) && CanonicalByte(d1) && CanonicalByte(d0)
    ensures ParseSpec(s).Ok? && Format(ParseSpec(s).value) == s
  {
    CanonicalByteField(d3);
    CanonicalByteField(d2);
    CanonicalByteField(d1);
    CanonicalByteField(d0);
    ParseFourFields(s);
    FormatOfJoin(DigitsValue(d3), DigitsValue(d2), DigitsValue(d1), DigitsValue(d0));
    CanonicalFieldsText(s, d3, d2, d1, d0);
  }

  /** A text of four canonical fields is the decimal forms of their values, joined. */
  lemma CanonicalFieldsText(s: string, d3: string, d2: string, d1: string, d0: string)
    requires Split(s) == [d3, d2, d1, d0]
    requires CanonicalByte(d3) && CanonicalByte(d2) && CanonicalByte(d1) && CanonicalByte(d0)
    ensures Dotted([NatToString(DigitsValue(d3)), NatToString(DigitsValue(d2)),
                    NatToString(DigitsValue(d1)), NatToString(DigitsValue(d0))]) == s
  {
    NatToStringOfDigitsValue(d3);
    NatToStringOfDigitsValue(d2);
    NatToStringOfDigitsValue(d1);
    NatToStringOfDigitsValue(d0);
    DottedSplit(s);
  }

  /** The formatter writes the bytes of a joined value back in order. */
  lemma FormatOfJoin(v3: nat, v2: nat, v1: nat, v0: nat)
    requires v3 < 256 && v2 < 256 && v1 < 256 && v0 < 256
    ensures Join(v3, v2, v1, v0) < TWO_32
    ensures Format(IPv4Address(Join(v3, v2, v1, v0)))
      == Dotted([NatToString(v3), NatToString(v2), NatToString(v1), NatToString(v0)])
  {
    BytesOfJoin(v3, v2, v1, v0);
  }

  /** A canonical byte is a '.'-free good field with its own value. */
  lemma CanonicalByteField(d: string)
    requires CanonicalByte(d)
    ensures NoDot(d) && FieldValue(d) == Ok(DigitsValue(d))
  {
    NatToStringOfDigitsValue(d);
    ByteField(DigitsValue(d));
  }

  /** Formatting is one-to-one. */
  lemma FormatInjective(a: IPv4Address, b: IPv4Address)
    requires Format(a) == Format(b)
    ensures a == b
  {
    ParseFormat(a);
    ParseFormat(b);
  }

  // ---------------------------------------------------------------- ++ and ==

  /** Prefix `++`: the address plus one, modulo 2^32; postfix `++` leaves this
      value behind and returns the old one. */
  function Increment(a: IPv4Address): (r: IPv4Address)
    ensures r != a
    ensures a.address < TWO_32 - 1 ==> r.address == a.address + 1
    ensures a.address == TWO_32 - 1 ==> r.address == 0
  {
    IPv4Address((a.address + 1) % TWO_32)
  }

  /** One step back, modulo 2^32. */
  function Decrement(a: IPv4Address): IPv4Address
  {
    IPv4Address((a.address + TWO_32 - 1) % TWO_32)
  }

  /** `++` never loses an address: stepping back undoes it, and it undoes a step back. */
  lemma IncrementInverse(a: IPv4Address)
    ensures Decrement(Increment(a)) == a && Increment(Decrement(a)) == a
  {
  }

  /** `operator==`, member and free. */
  function Equals(left: IPv4Address, right: IPv4Address): (r: bool)
    ensures r <==> left.address == right.address
    ensures r <==> left == right
  {
    left.address == right.address
  }

  /** `std::hash<IPv4Address>`: the hash of the 32-bit value, which the standard
      library in use takes to be the value itself. */
  function Hash(a: IPv4Address): (h: nat)
    ensures h < TWO_32
  {
    a.address
  }

  /** Equal addresses hash alike, and with this hash only equal ones do. */
  lemma HashFollowsEquality(a: IPv4Address, b: IPv4Address)
    ensures Hash(a) == Hash(b) <==> Equals(a, b)
  {
  }
}
