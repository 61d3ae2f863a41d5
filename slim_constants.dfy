/** The serialiser that turns Python values into SLiM `-d` constant
    definitions: `key=asX(c(v1,v2,...))` for scalars and vectors and
    `key=matrix(asX(c(...)), nrow=R, ncol=C, byrow=T)` for matrices. */
module SlimConstants {
  import opened Wrappers
  import opened Text
  import opened Decimal

  /** The exceptions the SLiM wrapper raises. */
  datatype SlimError =
    | UnsupportedDtype(key: string, kind: char)  // ValueError in parse_ndarray / parse_matrix
    | UnsupportedType(key: string)               // ValueError in parse_key_value
    | BothSources                                // TypeError: model_source and model_code both given
    | NoSource                                   // TypeError: neither given
    | BadSourceType                              // TypeError: model_source neither str nor Path
    | ModelCheckFailed                           // ValueError: `slim -c` rejected the script
    | ConstantsNotDict                           // TypeError: constants is not a dict
    | SeedNotInteger                             // ValueError: int(seed) failed
    | SlimFailed                                 // CalledProcessError: slim exited non-zero under check=True
  {
    predicate IsTypeError()
    {
      BothSources? || NoSource? || BadSourceType? || ConstantsNotDict?
    }
  }

  /** One byte of a numpy byte string. */
  type Byte = b: int | 0 <= b < 256

  /** The elements of a numpy array in C (row-major) order, by dtype kind.
      Float elements are held as the text Python's `str()` gives them;
      integers, booleans, unicode strings and byte strings as values. */
  datatype ColumnData =
    | Floats(floatTexts: seq<string>)       // dtype kind 'f'
    | Ints(ints: seq<int>)                  // dtype kind 'i'
    | Bools(flags: seq<bool>)               // dtype kind 'b'
    | Unicode(strs: seq<string>)            // dtype kind 'U'
    | Bytes(byteStrings: seq<seq<Byte>>)    // dtype kind 'S'
    | OtherKind(otherKind: char, count: nat) // any other kind: 'u', 'c', 'O', 'M', ...

  predicate SupportedKind(k: char)
  {
    k == 'f' || k == 'i' || k == 'b' || k == 'U' || k == 'S'
  }

  /** An `OtherKind` column never claims one of the five supported kinds. */
  type Column = c: ColumnData | !(c.OtherKind? && SupportedKind(c.otherKind)) witness Ints([])

  /** numpy's `dtype.kind`. */
  function Kind(c: Column): char
  {
    match c
    case Floats(_) => 'f'
    case Ints(_) => 'i'
    case Bools(_) => 'b'
    case Unicode(_) => 'U'
    case Bytes(_) => 'S'
    case OtherKind(k, _) => k
  }

  function Size(c: Column): nat
  {
    match c
    case Floats(t) => |t|
    case Ints(v) => |v|
    case Bools(b) => |b|
    case Unicode(s) => |s|
    case Bytes(t) => |t|
    case OtherKind(_, n) => n
  }

  function Product(dims: seq<nat>): nat
  {
    if |dims| == 0 then 1 else dims[0] * Product(dims[1..])
  }

  /** A numpy array: its shape and its elements in row-major order. */
  datatype RawNdArray = NdArray(shape: seq<nat>, data: Column)

  type NdArray = a: RawNdArray | Size(a.data) == Product(a.shape) witness NdArray([0], Ints([]))

  /** What `np.asarray(val)` makes of a Python value: an array, or an exception. */
  datatype PyValue = Converts(converted: NdArray) | ConversionFails

  /** The SLiM conversion function chosen for each supported dtype kind. */
  function AsFunction(k: char): string
    requires SupportedKind(k)
  {
    if k == 'f' then "asFloat"
    else if k == 'i' then "asInteger"
    else if k == 'b' then "asLogical"
    else "asString"
  }

  function Quoted(s: string): string
  {
    "'" + s + "'"
  }

  /** A lower-case hexadecimal digit. */
  function HexDigit(d: nat): char
    requires d < 16
  {
    if d < 10 then ('0' as int + d) as char else ('a' as int + d - 10) as char
  }

  /** How Python's bytes repr writes one byte between quotes `q`: the
      quote and the backslash escaped, tab, newline and carriage return by
      name, other bytes outside printable ASCII as `\xhh`. */
  function EscapedByte(b: Byte, q: Byte): string
  {
    if b == q || b == 92 then ['\\', b as char]
    else if b == 9 then "\\t"
    else if b == 10 then "\\n"
    else if b == 13 then "\\r"
    else if b < 32 || b >= 127 then ['\\', 'x', HexDigit(b / 16), HexDigit(b % 16)]
    else [b as char]
  }

  function Escaped(v: seq<Byte>, q: Byte): string
  {
    if |v| == 0 then "" else EscapedByte(v[0], q) + Escaped(v[1..], q)
  }

  /** Python's `str()` of a bytes value: `b` and the escaped bytes between
      single quotes, or between double quotes when the bytes hold a single
      quote and no double quote. */
  function BytesText(v: seq<Byte>): string
  {
    var q: Byte := if 39 in v && 34 !in v then 34 else 39;
    "b" + [q as char] + Escaped(v, q) + [q as char]
  }

  /** The text of each element between the commas of `c(...)`. */
  function ElementTexts(c: Column): (r: seq<string>)
    requires SupportedKind(Kind(c))
    ensures |r| == Size(c)
  {
    match c
    case Floats(t) => t
    case Ints(v) => seq(|v|, i requires 0 <= i < |v| => IntText(v[i]))
    case Bools(b) => seq(|b|, i requires 0 <= i < |b| => if b[i] then "T" else "F")
    case Unicode(s) => seq(|s|, i requires 0 <= i < |s| => Quoted(s[i]))
    case Bytes(t) => seq(|t|, i requires 0 <= i < |t| => Quoted(BytesText(t[i])))
  }

  function VectorCall(fn: string, values: string): string
  {
    fn + "(c(" + values + "))"
  }

  /** parse_ndarray: the definition of a one-dimensional array. */
  function ParseNdarray(key: string, val: Column): (r: Result<string, SlimError>)
    ensures r.Ok? <==> SupportedKind(Kind(val))
    ensures r.Err? ==> r.error == UnsupportedDtype(key, Kind(val))
    ensures r.Ok? ==>
      r.value == key + "=" + VectorCall(AsFunction(Kind(val)), Join(",", ElementTexts(val)))
  {
    match val
    case Floats(t) => Ok(key + "=" + VectorCall("asFloat", Join(",", t)))
    case Ints(v) => Ok(key + "=" + VectorCall("asInteger", Join(",", ElementTexts(val))))
    case Bools(b) => Ok(key + "=" + VectorCall("asLogical", Join(",", ElementTexts(val))))
    case Unicode(s) => Ok(key + "=" + VectorCall("asString", Join(",", ElementTexts(val))))
    case Bytes(t) => Ok(key + "=" + VectorCall("asString", Join(",", ElementTexts(val))))
    case OtherKind(k, _) => Err(UnsupportedDtype(key, k))
  }

  /** parse_matrix: the definition of an array of two (or more) dimensions,
      its elements read in row-major order and its shape taken from the
      first two dimensions. */
  function ParseMatrix(key: string, val: NdArray): (r: Result<string, SlimError>)
    requires |val.shape| >= 2
    ensures r.Ok? <==> SupportedKind(Kind(val.data))
    ensures r.Err? ==> r.error == UnsupportedDtype(key, Kind(val.data))
  {
    var dims := val.shape;
    var kind := Kind(val.data);
    if SupportedKind(kind) then
      Ok(key + "=matrix(" + VectorCall(AsFunction(kind), Join(",", ElementTexts(val.data)))
         + ", nrow=" + NatText(dims[0]) + ", ncol=" + NatText(dims[1]) + ", byrow=T)")
    else
      Err(UnsupportedDtype(key, kind))
  }

  /** The `try: ... except Exception: pass` of parse_key_value: any failure
      inside becomes the generic "Unsupported type" error. */
  function Guarded(key: string, r: Result<string, SlimError>): Result<string, SlimError>
  {
    if r.Ok? then r else Err(UnsupportedType(key))
  }

  /** parse_key_value: a scalar (0-d), a non-empty vector or a non-empty
      2-d array of a supported kind is serialised; anything else is a
      ValueError. */
  function ParseKeyValue(key: string, val: PyValue): (r: Result<string, SlimError>)
    ensures r.Err? ==> r.error == UnsupportedType(key)
    ensures r.Ok? <==>
      && val.Converts?
      && SupportedKind(Kind(val.converted.data))
      && |val.converted.shape| <= 2
      && Size(val.converted.data) > 0
    ensures r.Ok? && |val.converted.shape| <= 1 ==> r == ParseNdarray(key, val.converted.data)
    ensures r.Ok? && |val.converted.shape| == 2 ==> r == ParseMatrix(key, val.converted)
  {
    match val
    case ConversionFails => Err(UnsupportedType(key))
    case Converts(a) =>
      var ndim := |a.shape|;
      var kind := Kind(a.data);
      if ndim == 0 && SupportedKind(kind) then
        // np.array([val]) is the one-element vector holding the same element
        Guarded(key, ParseNdarray(key, a.data))
      else if ndim == 1 && Size(a.data) > 0 && SupportedKind(kind) then
        Guarded(key, ParseNdarray(key, a.data))
      else if ndim == 2 && Size(a.data) > 0 && SupportedKind(kind) then
        Guarded(key, ParseMatrix(key, a))
      else
        Err(UnsupportedType(key))
  }

  // ---------------------------------------------------------------------
  // Reading a definition back

  /** Splits `key=fn(c(v1,...,vn))` into `fn` and the element texts. */
  function DecodeVector(key: string, def: string): Option<(string, seq<string>)>
  {
    if !StartsWith(def, key + "=") then None
    else
      var rest := def[|key| + 1..];
      var fn := PrefixBefore(rest, '(');
      var head := fn + "(c(";
      if StartsWith(rest, head) && |head| + 2 <= |rest| && rest[|rest| - 2..] == "))"
      then Some((fn, Split(rest[|head|..|rest| - 2], ',')))
      else None
  }

  predicate CommaFreeElements(c: Column)
    requires SupportedKind(Kind(c))
  {
    forall i :: 0 <= i < Size(c) ==> ',' !in ElementTexts(c)[i]
  }

  /** Integer and boolean elements never contain the separator. */
  lemma IntsAndBoolsCommaFree(c: Column)
    requires c.Ints? || c.Bools?
    ensures CommaFreeElements(c)
  {
  }

  /** Reading back `key=fn(c(values))` gives `fn` and the pieces of `values`. */
  lemma DecodeVectorCall(key: string, fn: string, values: string)
    requires '(' !in fn
    ensures DecodeVector(key, key + "=" + VectorCall(fn, values)) == Some((fn, Split(values, ',')))
  {
    var rest := fn + "(c(" + values + "))";
    var def := key + "=" + VectorCall(fn, values);
    assert def == (key + "=") + rest;
    assert StartsWith(def, key + "=");
    assert def[|key| + 1..] == rest;
    assert rest == fn + ['('] + ("c(" + values + "))");
    PrefixBeforeOf(fn, '(', "c(" + values + "))");
    var head := fn + "(c(";
    assert rest == head + values + "))";
    assert rest[..|head|] == head;
    assert rest[|rest| - 2..] == "))";
    assert rest[|head|..|rest| - 2] == values;
  }

  /** The definition of a non-empty vector names the conversion function
      of its dtype kind and lists every element, in order; reading it back
      recovers both (as long as no element text holds a comma). */
  lemma VectorRoundTrip(key: string, c: Column)
    requires SupportedKind(Kind(c)) && Size(c) > 0 && CommaFreeElements(c)
    ensures ParseNdarray(key, c).Ok?
    ensures DecodeVector(key, ParseNdarray(key, c).value)
         == Some((AsFunction(Kind(c)), ElementTexts(c)))
  {
    var fn := AsFunction(Kind(c));
    assert '(' !in fn;
    DecodeVectorCall(key, fn, Join(",", ElementTexts(c)));
    SplitJoin(ElementTexts(c), ',');
  }

  /** A matrix definition is the vector definition of the row-major
      flattening, wrapped in `matrix(...)` with its row and column counts;
      it lists exactly rows times columns values. */
  lemma MatrixWrapsVector(key: string, val: NdArray)
    requires |val.shape| == 2 && SupportedKind(Kind(val.data))
    ensures |ElementTexts(val.data)| == val.shape[0] * val.shape[1]
    ensures ParseMatrix(key, val)
         == Ok(key + "=matrix(" + ParseNdarray(key, val.data).value[|key| + 1..]
               + ", nrow=" + NatText(val.shape[0]) + ", ncol=" + NatText(val.shape[1]) + ", byrow=T)")
  {
    ProductOfTwo(val.shape);
    var call := VectorCall(AsFunction(Kind(val.data)), Join(",", ElementTexts(val.data)));
    var v := ParseNdarray(key, val.data).value;
    assert v == (key + "=") + call;
    assert v[|key| + 1..] == call;
  }

  lemma ProductOfTwo(s: seq<nat>)
    requires |s| == 2
    ensures Product(s) == s[0] * s[1]
  {
    assert s[1..][1..] == [];
    assert Product(s[1..]) == s[1];
  }

  /** Text SLiM reads back unchanged inside a string literal: no quote,
      which would end the literal, and no backslash, which would start an
      escape sequence. */
  predicate PlainString(s: string)
  {
    '\'' !in s && '\\' !in s
  }

  /** A single-quoted string literal whose body SLiM reads as written. */
  predicate IsPlainLiteral(t: string)
  {
    |t| >= 2 && t[0] == '\'' && t[|t| - 1] == '\'' && PlainString(t[1..|t| - 1])
  }

  /** The column SLiM's conversion function `fn` makes of the element texts. */
  function DecodeColumn(fn: string, items: seq<string>): Option<Column>
  {
    if fn == "asFloat" then Some(Floats(items))
    else if fn == "asInteger" then
      if forall i :: 0 <= i < |items| ==> ParseIntText(items[i]).Some?
      then Some(Ints(seq(|items|, i requires 0 <= i < |items| => ParseIntText(items[i]).value)))
      else None
    else if fn == "asLogical" then
      if forall i :: 0 <= i < |items| ==> items[i] == "T" || items[i] == "F"
      then Some(Bools(seq(|items|, i requires 0 <= i < |items| => items[i] == "T")))
      else None
    else if fn == "asString" then
      if forall i :: 0 <= i < |items| ==> IsPlainLiteral(items[i])
      then Some(Unicode(seq(|items|, i requires 0 <= i < |items| && IsPlainLiteral(items[i]) => items[i][1..|items[i]| - 1])))
      else None
    else None
  }

  /** The column a `key=fn(c(...))` definition stands for. */
  function ReadVector(key: string, def: string): Option<Column>
  {
    match DecodeVector(key, def)
    case None => None
    case Some((fn, items)) => DecodeColumn(fn, items)
  }

  /** Serialising a non-empty vector and reading the definition back passes
      float texts through unchanged and gives the same elements of the same
      kind for integers, booleans and plain strings. A string holding a quote ends its literal early, and a
      byte string is written as its Python repr `b'...'`, whose quotes do
      the same: neither reads back. */
  lemma ConstantRoundTrip(key: string, c: Column)
    requires SupportedKind(Kind(c)) && Size(c) > 0 && CommaFreeElements(c)
    ensures ParseNdarray(key, c).Ok?
    ensures c.Floats? || c.Ints? || c.Bools? ==> ReadVector(key, ParseNdarray(key, c).value) == Some(c)
    ensures c.Unicode? && (forall i :: 0 <= i < |c.strs| ==> PlainString(c.strs[i])) ==>
      ReadVector(key, ParseNdarray(key, c).value) == Some(c)
    ensures c.Unicode? && (exists i :: 0 <= i < |c.strs| && '\'' in c.strs[i]) ==>
      ReadVector(key, ParseNdarray(key, c).value) == None
    ensures c.Bytes? ==> ReadVector(key, ParseNdarray(key, c).value) == None
  {
    VectorRoundTrip(key, c);
    match c
    case Floats(t) =>
    case Ints(v) => IntsRoundTrip(v);
    case Bools(b) => BoolsRoundTrip(b);
    case Unicode(strs) =>
      if forall i :: 0 <= i < |strs| ==> PlainString(strs[i]) {
        QuotedRoundTrip(strs);
      } else if exists i :: 0 <= i < |strs| && '\'' in strs[i] {
        var i :| 0 <= i < |strs| && '\'' in strs[i];
        QuoteEndsLiteral(strs, i);
      }
    case Bytes(t) => BytesNeverReadBack(t);
  }

  lemma IntsRoundTrip(v: seq<int>)
    ensures DecodeColumn("asInteger", ElementTexts(Ints(v))) == Some(Ints(v))
  {
    var items := ElementTexts(Ints(v));
    forall i | 0 <= i < |items| ensures ParseIntText(items[i]) == Some(v[i]) {
      IntTextRoundTrip(v[i]);
    }
    assert seq(|items|, i requires 0 <= i < |items| => ParseIntText(items[i]).value) == v;
  }

  lemma BoolsRoundTrip(b: seq<bool>)
    ensures DecodeColumn("asLogical", ElementTexts(Bools(b))) == Some(Bools(b))
  {
    var items := ElementTexts(Bools(b));
    assert seq(|items|, i requires 0 <= i < |items| => items[i] == "T") == b;
  }

  /** Plain strings read back through `asString` as the same strings. */
  lemma QuotedRoundTrip(strs: seq<string>)
    requires forall i :: 0 <= i < |strs| ==> PlainString(strs[i])
    ensures DecodeColumn("asString", ElementTexts(Unicode(strs))) == Some(Unicode(strs))
  {
    var items := ElementTexts(Unicode(strs));
    forall i | 0 <= i < |items| ensures IsPlainLiteral(items[i]) && items[i][1..|items[i]| - 1] == strs[i] {
      assert items[i] == "'" + strs[i] + "'";
      assert items[i][1..|items[i]| - 1] == strs[i];
    }
    assert seq(|items|, i requires 0 <= i < |items| && IsPlainLiteral(items[i]) => items[i][1..|items[i]| - 1]) == strs;
  }

  /** A string holding a quote does not read back: its literal ends early. */
  lemma QuoteEndsLiteral(strs: seq<string>, i: nat)
    requires i < |strs| && '\'' in strs[i]
    ensures DecodeColumn("asString", ElementTexts(Unicode(strs))) == None
  {
    var items := ElementTexts(Unicode(strs));
    assert items[i] == "'" + strs[i] + "'";
    assert items[i][1..|items[i]| - 1] == strs[i];
    assert !IsPlainLiteral(items[i]);
  }

  /** Python's repr of a bytes value always holds a single quote: its own
      delimiter, or, between double quotes, a quote byte of the value. */
  lemma BytesTextHasQuote(v: seq<Byte>)
    ensures '\'' in BytesText(v)
  {
    var q: Byte := if 39 in v && 34 !in v then 34 else 39;
    var text := BytesText(v);
    if q == 39 {
      assert text[1] == '\'';
    } else {
      var k :| 0 <= k < |v| && v[k] == 39;
      EscapedKeepsQuote(v, q, k);
      assert text == ("b" + [q as char]) + Escaped(v, q) + [q as char];
    }
  }

  lemma {:induction false} EscapedKeepsQuote(v: seq<Byte>, q: Byte, k: nat)
    requires q != 39 && k < |v| && v[k] == 39
    ensures '\'' in Escaped(v, q)
  {
    if k == 0 {
      assert EscapedByte(v[0], q) == "'";
      assert Escaped(v, q)[0] == '\'';
    } else {
      assert v[1..][k - 1] == v[k];
      EscapedKeepsQuote(v[1..], q, k - 1);
    }
  }

  /** Byte-string elements never read back through `asString`: the quote
      inside their repr ends the literal. */
  lemma BytesNeverReadBack(t: seq<seq<Byte>>)
    requires |t| > 0
    ensures DecodeColumn("asString", ElementTexts(Bytes(t))) == None
  {
    var items := ElementTexts(Bytes(t));
    BytesTextHasQuote(t[0]);
    assert items[0] == "'" + BytesText(t[0]) + "'";
    assert items[0][1..|items[0]| - 1] == BytesText(t[0]);
    assert !IsPlainLiteral(items[0]);
  }

  // ---------------------------------------------------------------------
  // Byte strings written as their decoded text

  /** The text of a byte string decoded one byte per character (Latin-1). */
  function Decoded(v: seq<Byte>): (r: string)
    ensures |r| == |v|
  {
    seq(|v|, i requires 0 <= i < |v| => v[i] as char)
  }

  /** The element texts with byte strings written as their decoded text
      between quotes; every other kind as before. */
  function DecodedElementTexts(c: Column): (r: seq<string>)
    requires SupportedKind(Kind(c))
    ensures |r| == Size(c)
    ensures !c.Bytes? ==> r == ElementTexts(c)
  {
    if c.Bytes? then
      seq(|c.byteStrings|, i requires 0 <= i < |c.byteStrings| => Quoted(Decoded(c.byteStrings[i])))
    else ElementTexts(c)
  }

  /** parse_ndarray with byte strings decoded before they are quoted. */
  function ParseNdarrayDecoded(key: string, val: Column): (r: Result<string, SlimError>)
    ensures r.Ok? <==> SupportedKind(Kind(val))
    ensures r.Err? ==> r.error == UnsupportedDtype(key, Kind(val))
    ensures !val.Bytes? ==> r == ParseNdarray(key, val)
  {
    if SupportedKind(Kind(val)) then
      Ok(key + "=" + VectorCall(AsFunction(Kind(val)), Join(",", DecodedElementTexts(val))))
    else Err(UnsupportedDtype(key, Kind(val)))
  }

  /** Decoded byte strings read back through `asString` as their text. */
  lemma DecodedBytesRoundTrip(key: string, t: seq<seq<Byte>>)
    requires |t| > 0
    requires forall i :: 0 <= i < |t| ==> PlainString(Decoded(t[i])) && ',' !in Decoded(t[i])
    ensures ParseNdarrayDecoded(key, Bytes(t)).Ok?
    ensures ReadVector(key, ParseNdarrayDecoded(key, Bytes(t)).value)
         == Some(Unicode(seq(|t|, i requires 0 <= i < |t| => Decoded(t[i]))))
  {
    var strs := seq(|t|, i requires 0 <= i < |t| => Decoded(t[i]));
    var items := DecodedElementTexts(Bytes(t));
    assert items == ElementTexts(Unicode(strs));
    assert Split(Join(",", items), ',') == items by {
      forall i | 0 <= i < |items| ensures ',' !in items[i] {
        assert items[i] == "'" + strs[i] + "'";
      }
      SplitJoin(items, ',');
    }
    DecodeVectorCall(key, "asString", Join(",", items));
    QuotedRoundTrip(strs);
  }

  /** As written, the byte string b"abc" is written `'b'abc''` and does not
      read back. */
  lemma BytesElementAsWritten()
    ensures ElementTexts(Bytes([[97, 98, 99]])) == ["'b'abc''"]
    ensures ParseNdarray("k", Bytes([[97, 98, 99]])) == Ok("k=asString(c('b'abc''))")
    ensures ReadVector("k", ParseNdarray("k", Bytes([[97, 98, 99]])).value) == None
  {
    AbcWrittenText();
    ConstantRoundTrip("k", Bytes([[97, 98, 99]]));
  }

  lemma AbcWrittenText()
    ensures ElementTexts(Bytes([[97, 98, 99]])) == ["'b'abc''"]
    ensures ParseNdarray("k", Bytes([[97, 98, 99]])) == Ok("k=asString(c('b'abc''))")
  {
    AbcTexts();
    OneByteString("k", [97, 98, 99]);
    AbcDefinitionText();
  }

  lemma AbcDefinitionText()
    ensures Quoted("b'abc'") == "'b'abc''"
    ensures "k" + "=" + VectorCall("asString", Quoted("b'abc'")) == "k=asString(c('b'abc''))"
  {
    assert VectorCall("asString", "'b'abc''") == "asString(c('b'abc''))";
    assert "k" + "=" + "asString(c('b'abc''))" == "k=asString(c('b'abc''))";
  }

  /** The definition of a vector holding one byte string. */
  lemma OneByteString(key: string, v: seq<Byte>)
    ensures ElementTexts(Bytes([v])) == [Quoted(BytesText(v))]
    ensures ParseNdarray(key, Bytes([v]))
         == Ok(key + "=" + VectorCall("asString", Quoted(BytesText(v))))
  {
    var written := ElementTexts(Bytes([v]));
    assert |written| == 1 && written[0] == Quoted(BytesText(v));
    assert Join(",", written) == Quoted(BytesText(v));
  }

  /** Decoded, the byte string b"abc" is written `'abc'` and reads back as
      "abc". */
  lemma BytesElementDecoded()
    ensures ParseNdarrayDecoded("k", Bytes([[97, 98, 99]])) == Ok("k=asString(c('abc'))")
    ensures ReadVector("k", ParseNdarrayDecoded("k", Bytes([[97, 98, 99]])).value) == Some(Unicode(["abc"]))
  {
    var v: seq<Byte> := [97, 98, 99];
    DecodedAbcText();
    assert Decoded(v) == "abc" by { AbcTexts(); }
    assert PlainString("abc") && ',' !in "abc";
    DecodedBytesRoundTrip("k", [v]);
    assert seq(1, i requires 0 <= i < 1 => Decoded([v][i])) == ["abc"];
  }

  lemma DecodedAbcText()
    ensures ParseNdarrayDecoded("k", Bytes([[97, 98, 99]])) == Ok("k=asString(c('abc'))")
  {
    AbcTexts();
    OneDecodedByteString("k", [97, 98, 99]);
    AbcDecodedDefinitionText();
  }

  /** The corrected definition of a vector holding one byte string. */
  lemma OneDecodedByteString(key: string, v: seq<Byte>)
    ensures ParseNdarrayDecoded(key, Bytes([v]))
         == Ok(key + "=" + VectorCall("asString", Quoted(Decoded(v))))
  {
    var decoded := DecodedElementTexts(Bytes([v]));
    assert |decoded| == 1 && decoded[0] == Quoted(Decoded(v));
    assert Join(",", decoded) == Quoted(Decoded(v));
  }

  lemma AbcDecodedDefinitionText()
    ensures "k" + "=" + VectorCall("asString", Quoted("abc")) == "k=asString(c('abc'))"
  {
    assert VectorCall("asString", "'abc'") == "asString(c('abc'))";
    assert "k" + "=" + "asString(c('abc'))" == "k=asString(c('abc'))";
  }

  lemma AbcTexts()
    ensures BytesText([97, 98, 99]) == "b'abc'"
    ensures Decoded([97, 98, 99]) == "abc"
  {
    var v: seq<Byte> := [97, 98, 99];
    assert Escaped(v, 39) == "abc" by {
      assert v[1..] == [98, 99] && v[1..][1..] == [99] && v[1..][1..][1..] == [];
    }
  }

  /** A 0-d value gives the same definition as the one-element vector
      that holds it. */
  lemma ScalarAsVector(key: string, c: Column)
    requires Size(c) == 1
    ensures ParseKeyValue(key, Converts(NdArray([], c)))
         == ParseKeyValue(key, Converts(NdArray([1], c)))
  {
  }
}
