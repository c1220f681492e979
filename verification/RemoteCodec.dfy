/** The tagged encoding of Python values for remote calls: the client's copy, the copy
    installed in the remote interpreter, and what holds of the two together. */
module Base64 {
  import opened Basics

  type digit = x: int | 0 <= x < 64

  // The alphabet of section 4 of RFC 4648.
  function Letter(d: digit): char {
    if d < 26 then 'A' + d as char
    else if d < 52 then 'a' + (d - 26) as char
    else if d < 62 then '0' + (d - 52) as char
    else if d == 62 then '+' else '/'
  }

  function Digit(c: char): Option<digit> {
    if 'A' <= c <= 'Z' then Some(c as int - 'A' as int)
    else if 'a' <= c <= 'z' then Some(c as int - 'a' as int + 26)
    else if '0' <= c <= '9' then Some(c as int - '0' as int + 52)
    else if c == '+' then Some(62)
    else if c == '/' then Some(63)
    else None
  }

  function Encode(b: seq<byte>): string {
    if b == [] then ""
    else if |b| == 1 then [Letter(b[0] / 4), Letter(b[0] % 4 * 16), '=', '=']
    else if |b| == 2 then [Letter(b[0] / 4), Letter(b[0] % 4 * 16 + b[1] / 16), Letter(b[1] % 16 * 4), '=']
    else [Letter(b[0] / 4), Letter(b[0] % 4 * 16 + b[1] / 16), Letter(b[1] % 16 * 4 + b[2] / 64), Letter(b[2] % 64)]
         + Encode(b[3..])
  }

  function Decode(s: string): Option<seq<byte>> {
    if s == "" then Some([])
    else if |s| < 4 then None
    else
      var d0, d1, d2, d3 := Digit(s[0]), Digit(s[1]), Digit(s[2]), Digit(s[3]);
      if d0.None? || d1.None? then None
      else if d2.Some? && d3.Some? then
        var rest := Decode(s[4..]);
        if rest.None? then None
        else Some(Triple(d0.value, d1.value, d2.value, d3.value) + rest.value)
      else if |s| > 4 || s[3] != '=' then None
      else if d2.Some? then Some(Triple(d0.value, d1.value, d2.value, 0)[..2])
      else if s[2] == '=' then Some(Triple(d0.value, d1.value, 0, 0)[..1])
      else None
  }

  function Triple(d0: digit, d1: digit, d2: digit, d3: digit): (r: seq<byte>)
    ensures |r| == 3
  {
    [d0 * 4 + d1 / 16, d1 % 16 * 16 + d2 / 4, d2 % 4 * 64 + d3]
  }

  lemma DigitOfLetter(d: digit)
    ensures Digit(Letter(d)) == Some(d)
  {
  }

  lemma TripleOfSplit(x: byte, y: byte, z: byte)
    ensures Triple(x / 4, x % 4 * 16 + y / 16, y % 16 * 4 + z / 64, z % 64) == [x, y, z]
    ensures Triple(x / 4, x % 4 * 16 + y / 16, y % 16 * 4, 0)[..2] == [x, y]
    ensures Triple(x / 4, x % 4 * 16, 0, 0)[..1] == [x]
  {
  }

  lemma DecodeGroup(d0: digit, d1: digit, d2: digit, d3: digit, rest: string)
    requires Decode(rest).Some?
    ensures Decode([Letter(d0), Letter(d1), Letter(d2), Letter(d3)] + rest) ==
        Some(Triple(d0, d1, d2, d3) + Decode(rest).value)
  {
    var s := [Letter(d0), Letter(d1), Letter(d2), Letter(d3)] + rest;
    DigitOfLetter(d0); DigitOfLetter(d1); DigitOfLetter(d2); DigitOfLetter(d3);
    assert s[0] == Letter(d0) && s[1] == Letter(d1) && s[2] == Letter(d2) && s[3] == Letter(d3);
    assert s[4..] == rest;
  }

  lemma DecodePadded(d0: digit, d1: digit, d2: digit)
    ensures Decode([Letter(d0), Letter(d1), '=', '=']) == Some(Triple(d0, d1, 0, 0)[..1])
    ensures Decode([Letter(d0), Letter(d1), Letter(d2), '=']) == Some(Triple(d0, d1, d2, 0)[..2])
  {
    DigitOfLetter(d0); DigitOfLetter(d1); DigitOfLetter(d2);
  }

  lemma RoundTripShort(b: seq<byte>)
    requires 0 < |b| < 3
    ensures Decode(Encode(b)) == Some(b)
  {
    hide Decode, Triple, Letter;
    var y := if 1 < |b| then b[1] else 0;
    TripleOfSplit(b[0], y, 0);
    DecodePadded(b[0] / 4, b[0] % 4 * 16 + y / 16, y % 16 * 4);
    assert b == if |b| == 1 then [b[0]] else [b[0], b[1]];
  }

  lemma {:induction false} RoundTrip(b: seq<byte>)
    ensures Decode(Encode(b)) == Some(b)
  {
    if 0 < |b| < 3 {
      RoundTripShort(b);
    } else if b != [] {
      hide Decode, Triple, Letter;
      RoundTrip(b[3..]);
      TripleOfSplit(b[0], b[1], b[2]);
      DecodeGroup(b[0] / 4, b[0] % 4 * 16 + b[1] / 16, b[1] % 16 * 4 + b[2] / 64, b[2] % 64, Encode(b[3..]));
      assert b == [b[0], b[1], b[2]] + b[3..];
    }
  }

  const UPPER: string := "ABCDEFGHIJKLMNOPQRSTUVWXYZ"
  const LOWER: string := "abcdefghijklmnopqrstuvwxyz"
  const NUMERALS: string := "0123456789"

  /** The letters are those of the standard alphabet, in its order. */
  lemma LettersAreTheAlphabet(d: digit)
    ensures Letter(d) == (UPPER + LOWER + NUMERALS + "+/")[d]
  {
    if d < 26 {
      assert Letter(d) == UPPER[d];
    } else if d < 52 {
      assert Letter(d) == LOWER[d - 26];
    } else if d < 62 {
      assert Letter(d) == NUMERALS[d - 52];
    }
  }

  // Three bytes as one number, the first the highest.
  function Number(x: int, y: int, z: int): int {
    x * 65536 + y * 256 + z
  }

  // The four base-64 digits of a 24-bit number.
  function Quad(n: int): (q: string)
    requires 0 <= n < 0x100_0000
    ensures |q| == 4
  {
    [Letter(n / 262144), Letter(n / 4096 % 64), Letter(n / 64 % 64), Letter(n % 64)]
  }

  lemma Digits(x: int, y: int, z: int)
    requires 0 <= x < 256 && 0 <= y < 256 && 0 <= z < 256
    ensures var n := Number(x, y, z);
            && n / 262144 == x / 4 && n / 4096 % 64 == x % 4 * 16 + y / 16
            && n / 64 % 64 == y % 16 * 4 + z / 64 && n % 64 == z % 64
  {
    var n := Number(x, y, z);
    assert n / 262144 == x / 4;
    assert n / 4096 == x * 16 + y / 16;
    assert n / 64 == x * 1024 + y * 4 + z / 64;
  }

  lemma QuadOf(x: byte, y: byte, z: byte)
    ensures 0 <= Number(x, y, z) < 0x100_0000
    ensures Quad(Number(x, y, z))
         == [Letter(x / 4), Letter(x % 4 * 16 + y / 16), Letter(y % 16 * 4 + z / 64), Letter(z % 64)]
  {
    Digits(x, y, z);
    assert 0 <= Number(x, y, z) < 0x100_0000;
    hide Number, Letter;
  }

  /** Three bytes at a time are written as one number, the first byte the highest; what is
      left over is written as if zeros followed, with `=` for the letters that only hold them. */
  lemma EncodesBigEndian(x: byte, y: byte, z: byte, rest: seq<byte>)
    ensures 0 <= Number(x, y, z) < 0x100_0000 && Encode([x, y, z] + rest) == Quad(Number(x, y, z)) + Encode(rest)
    ensures 0 <= Number(x, y, 0) < 0x100_0000 && Encode([x, y]) == Quad(Number(x, y, 0))[..3] + "="
    ensures 0 <= Number(x, 0, 0) < 0x100_0000 && Encode([x]) == Quad(Number(x, 0, 0))[..2] + "=="
  {
    hide Encode, Quad, Number;
    ThreeBytes(x, y, z, rest);
    TwoBytes(x, y);
    OneByte(x);
  }

  lemma ThreeBytes(x: byte, y: byte, z: byte, rest: seq<byte>)
    ensures 0 <= Number(x, y, z) < 0x100_0000 && Encode([x, y, z] + rest) == Quad(Number(x, y, z)) + Encode(rest)
  {
    QuadOf(x, y, z);
    hide Letter, Quad, Number;
    assert ([x, y, z] + rest)[3..] == rest;
  }

  lemma TwoBytes(x: byte, y: byte)
    ensures 0 <= Number(x, y, 0) < 0x100_0000 && Encode([x, y]) == Quad(Number(x, y, 0))[..3] + "="
  {
    QuadOf(x, y, 0);
    hide Letter, Quad, Number;
    assert [x, y][0] == x && [x, y][1] == y;
  }

  lemma OneByte(x: byte)
    ensures 0 <= Number(x, 0, 0) < 0x100_0000 && Encode([x]) == Quad(Number(x, 0, 0))[..2] + "=="
  {
    QuadOf(x, 0, 0);
    hide Letter, Quad, Number;
  }
}

module RemoteCodec {
  import opened Basics
  import Base64

  datatype Key = StrKey(text: string) | OtherKey(id: int)

  // A Python value by its exact type. A dictionary is its items in insertion order.
  datatype PyValue =
    | PNone
    | PBool(b: bool)
    | PInt(i: int)
    | PFloat(finite: bool, bits: int)
    | PStr(text: string)
    | PBytes(data: seq<byte>)
    | PList(items: seq<PyValue>)
    | PTuple(items: seq<PyValue>)
    | PDict(entries: seq<Entry>)
    | POther(id: int)

  datatype Entry = Entry(key: Key, item: PyValue)

  datatype Error = TypeError | ValueError

  datatype Result<+T> = Ok(value: T) | Err(error: Error)
  {
    predicate IsFailure() { Err? }
    function PropagateFailure<U>(): Result<U> requires Err? { Err(error) }
    function Extract(): T requires Ok? { value }
  }

  const BYTES_TAG := "$bytes"
  const TUPLE_TAG := "$tuple"
  const DICT_TAG := "$dict"

  predicate Reserved(key: Key) {
    key == StrKey(BYTES_TAG) || key == StrKey(TUPLE_TAG) || key == StrKey(DICT_TAG)
  }

  predicate HasReserved(es: seq<Entry>) {
    exists k | 0 <= k < |es| :: Reserved(es[k].key)
  }

  predicate SoleKey(es: seq<Entry>, tag: string) {
    |es| == 1 && es[0].key == StrKey(tag)
  }

  function Wrapped(tag: string, item: PyValue): PyValue {
    PDict([Entry(StrKey(tag), item)])
  }

  function Pairs(es: seq<Entry>): seq<PyValue>
    requires forall k | 0 <= k < |es| :: es[k].key.StrKey?
  {
    if es == [] then [] else [PList([PStr(es[0].key.text), es[0].item])] + Pairs(es[1..])
  }

  // ------------------------------------------------------- the client's copy

  function Encode(v: PyValue): Result<PyValue>
    decreases v
  {
    match v
    case PNone => Ok(v)
    case PBool(_) => Ok(v)
    case PInt(_) => Ok(v)
    case PStr(_) => Ok(v)
    case PFloat(finite, _) => if finite then Ok(v) else Err(ValueError)
    case PBytes(data) => Ok(Wrapped(BYTES_TAG, PStr(Base64.Encode(data))))
    case PList(items) => var out :- EncodeAll(items); Ok(PList(out))
    case PTuple(items) => var out :- EncodeAll(items); Ok(Wrapped(TUPLE_TAG, PList(out)))
    case PDict(entries) =>
      var out :- EncodeEntries(entries);
      if HasReserved(entries) then Ok(Wrapped(DICT_TAG, PList(Pairs(out)))) else Ok(PDict(out))
    case POther(_) => Err(TypeError)
  }

  function EncodeAll(vs: seq<PyValue>): (r: Result<seq<PyValue>>)
    ensures r.Ok? ==> |r.value| == |vs|
    decreases vs
  {
    if vs == [] then Ok([]) else
    var head :- Encode(vs[0]);
    var tail :- EncodeAll(vs[1..]);
    Ok([head] + tail)
  }

  function EncodeEntries(es: seq<Entry>): (r: Result<seq<Entry>>)
    ensures r.Ok? ==> |r.value| == |es| && forall k | 0 <= k < |es| :: es[k].key.StrKey? && r.value[k].key == es[k].key
    decreases es
  {
    if es == [] then Ok([]) else
    if !es[0].key.StrKey? then Err(TypeError) else
    assert (es[0] decreases to es[0].item);
    var item :- Encode(es[0].item);
    var tail :- EncodeEntries(es[1..]);
    Ok([Entry(es[0].key, item)] + tail)
  }

  function Decode(v: PyValue): Result<PyValue>
    decreases v, 0
  {
    match v
    case PNone => Ok(v)
    case PBool(_) => Ok(v)
    case PInt(_) => Ok(v)
    case PStr(_) => Ok(v)
    case PFloat(finite, _) => if finite then Ok(v) else Err(ValueError)
    case PList(items) => var out :- DecodeAll(items); Ok(PList(out))
    case PDict(es) =>
      if SoleKey(es, BYTES_TAG) then
        if !es[0].item.PStr? then Err(TypeError) else
        var data := Base64.Decode(es[0].item.text);
        if data.None? then Err(ValueError) else Ok(PBytes(data.value))
      else if SoleKey(es, TUPLE_TAG) then
        if !es[0].item.PList? then Err(TypeError) else
        var out :- DecodeAll(es[0].item.items);
        Ok(PTuple(out))
      else if SoleKey(es, DICT_TAG) then
        if !es[0].item.PList? then Err(TypeError) else
        var out :- DecodePairs(es[0].item.items, {});
        Ok(PDict(out))
      else if HasReserved(es) then Err(ValueError)
      else if exists k | 0 <= k < |es| :: !es[k].key.StrKey? then Err(TypeError)
      else
        var out :- DecodeEntries(es);
        Ok(PDict(out))
    case _ => Err(TypeError)
  }

  function DecodeAll(vs: seq<PyValue>): Result<seq<PyValue>>
    decreases vs, 0
  {
    if vs == [] then Ok([]) else
    var head :- Decode(vs[0]);
    var tail :- DecodeAll(vs[1..]);
    Ok([head] + tail)
  }

  function DecodeEntries(es: seq<Entry>): (r: Result<seq<Entry>>)
    ensures r.Ok? ==> |r.value| == |es| && forall k | 0 <= k < |es| :: r.value[k].key == es[k].key
    decreases es, 0
  {
    if es == [] then Ok([]) else
    assert (es[0] decreases to es[0].item);
    var item :- Decode(es[0].item);
    var tail :- DecodeEntries(es[1..]);
    Ok([Entry(es[0].key, item)] + tail)
  }

  predicate IsPair(v: PyValue) {
    v.PList? && |v.items| == 2 && v.items[0].PStr?
  }

  // `seen` holds the keys decoded so far.
  function DecodePairs(vs: seq<PyValue>, seen: set<string>): Result<seq<Entry>>
    decreases vs, 0
  {
    if vs == [] then Ok([]) else
    if !IsPair(vs[0]) then Err(TypeError) else
    var key := vs[0].items[0].text;
    if key in seen then Err(ValueError) else
    var item :- Decode(vs[0].items[1]);
    var tail :- DecodePairs(vs[1..], seen + {key});
    Ok([Entry(StrKey(key), item)] + tail)
  }

  // -------------------------------------------------- what may be encoded

  // What Python guarantees of a dictionary: no key twice.
  ghost predicate Distinct(es: seq<Entry>) {
    forall j, k | 0 <= j < k < |es| :: es[j].key != es[k].key
  }

  /** None, bool, int, finite float, str, bytes, and lists, tuples and string-keyed
      dictionaries of these. */
  ghost predicate Supported(v: PyValue) {
    match v
    case PFloat(finite, _) => finite
    case PList(items) => forall k | 0 <= k < |items| :: Supported(items[k])
    case PTuple(items) => forall k | 0 <= k < |items| :: Supported(items[k])
    case PDict(es) => forall k | 0 <= k < |es| :: es[k].key.StrKey? && Supported(es[k].item)
    case POther(_) => false
    case _ => true
  }

  ghost predicate Proper(v: PyValue) {
    match v
    case PList(items) => forall k | 0 <= k < |items| :: Proper(items[k])
    case PTuple(items) => forall k | 0 <= k < |items| :: Proper(items[k])
    case PDict(es) => Distinct(es) && forall k | 0 <= k < |es| :: Proper(es[k].item)
    case _ => true
  }

  // ------------------------------------------------------------ round trip

  lemma {:induction false} EncodesExactlySupported(v: PyValue)
    ensures Encode(v).Ok? <==> Supported(v)
    decreases v
  {
    match v
    case PList(items) => EncodesAllSupported(items);
    case PTuple(items) => EncodesAllSupported(items);
    case PDict(es) => EncodesEntriesSupported(es);
    case _ =>
  }

  lemma {:induction false} EncodesAllSupported(vs: seq<PyValue>)
    ensures EncodeAll(vs).Ok? <==> forall k | 0 <= k < |vs| :: Supported(vs[k])
    decreases vs
  {
    if vs != [] {
      EncodesExactlySupported(vs[0]);
      EncodesAllSupported(vs[1..]);
      assert forall k | 0 < k < |vs| :: vs[k] == vs[1..][k - 1];
    }
  }

  lemma {:induction false} EncodesEntriesSupported(es: seq<Entry>)
    ensures EncodeEntries(es).Ok? <==> forall k | 0 <= k < |es| :: es[k].key.StrKey? && Supported(es[k].item)
    decreases es
  {
    if es != [] {
      assert (es[0] decreases to es[0].item);
      EncodesExactlySupported(es[0].item);
      EncodesEntriesSupported(es[1..]);
      assert forall k | 0 < k < |es| :: es[k] == es[1..][k - 1];
    }
  }

  /** Decoding what was encoded gives the value back, whatever it nests and whatever keys
      its dictionaries use. */
  lemma {:induction false} RoundTrip(v: PyValue)
    requires Proper(v) && Encode(v).Ok?
    ensures Decode(Encode(v).value) == Ok(v)
    decreases v, 0
  {
    match v
    case PBytes(data) => Base64.RoundTrip(data);
    case PList(items) => RoundTripAll(items);
    case PTuple(items) => RoundTripAll(items);
    case PDict(es) =>
      RoundTripEntries(es);
      if HasReserved(es) { RoundTripPairs(es, {}); }
      hide EncodeEntries, DecodeEntries, DecodePairs;
      DictDecoded(es, EncodeEntries(es).value);
    case _ =>
  }

  // What a dictionary's encoding is decoded to, by way of its entries' encodings `out`.
  lemma DictDecoded(es: seq<Entry>, out: seq<Entry>)
    requires |out| == |es| && forall k | 0 <= k < |es| :: es[k].key.StrKey? && out[k].key == es[k].key
    requires DecodeEntries(out) == Ok(es) && (HasReserved(es) ==> DecodePairs(Pairs(out), {}) == Ok(es))
    ensures Decode(if HasReserved(es) then Wrapped(DICT_TAG, PList(Pairs(out))) else PDict(out)) == Ok(PDict(es))
  {
    hide Pairs, DecodeEntries, DecodePairs;
    if HasReserved(es) {
      var w := Wrapped(DICT_TAG, PList(Pairs(out)));
      assert SoleKey(w.entries, DICT_TAG) && !SoleKey(w.entries, TUPLE_TAG) && !SoleKey(w.entries, BYTES_TAG);
    } else {
      assert !HasReserved(out);
      if |out| == 1 { assert !Reserved(out[0].key); }
    }
  }

  lemma {:induction false} RoundTripAll(vs: seq<PyValue>)
    requires (forall k | 0 <= k < |vs| :: Proper(vs[k])) && EncodeAll(vs).Ok?
    ensures DecodeAll(EncodeAll(vs).value) == Ok(vs)
    decreases vs, 0
  {
    if vs != [] {
      RoundTrip(vs[0]);
      RoundTripAll(vs[1..]);
      assert EncodeAll(vs).value[1..] == EncodeAll(vs[1..]).value;
      assert vs == [vs[0]] + vs[1..];
    }
  }

  lemma {:induction false} RoundTripEntries(es: seq<Entry>)
    requires (forall k | 0 <= k < |es| :: Proper(es[k].item)) && EncodeEntries(es).Ok?
    ensures DecodeEntries(EncodeEntries(es).value) == Ok(es)
    decreases es, 0
  {
    if es != [] {
      assert (es[0] decreases to es[0].item);
      RoundTrip(es[0].item);
      RoundTripEntries(es[1..]);
      assert EncodeEntries(es).value[1..] == EncodeEntries(es[1..]).value;
      assert es == [es[0]] + es[1..];
    }
  }

  lemma {:induction false} RoundTripPairs(es: seq<Entry>, seen: set<string>)
    requires Distinct(es) && (forall k | 0 <= k < |es| :: Proper(es[k].item)) && EncodeEntries(es).Ok?
    requires forall k | 0 <= k < |es| :: es[k].key.StrKey? ==> es[k].key.text !in seen
    ensures DecodePairs(Pairs(EncodeEntries(es).value), seen) == Ok(es)
    decreases es, 0
  {
    if es != [] {
      var out, rest := EncodeEntries(es).value, es[1..];
      assert (es[0] decreases to es[0].item);
      RoundTrip(es[0].item);
      assert forall k | 0 <= k < |rest| :: rest[k] == es[k + 1];
      RoundTripPairs(rest, seen + {es[0].key.text});
      assert out[1..] == EncodeEntries(rest).value;
      assert Pairs(out)[1..] == Pairs(out[1..]);
      assert es == [es[0]] + rest;
    }
  }

  /** No two values share an encoding. */
  lemma EncodingIsInjective(v: PyValue, w: PyValue)
    requires Proper(v) && Proper(w) && Encode(v).Ok? && Encode(w) == Encode(v)
    ensures v == w
  {
    RoundTrip(v);
    RoundTrip(w);
  }

  /** A reserved key beside others, or over something of the wrong form, is refused. */
  lemma StrayTagsAreRefused(es: seq<Entry>)
    ensures HasReserved(es) && |es| != 1 ==> Decode(PDict(es)) == Err(ValueError)
    ensures |es| == 1 && es[0].key == StrKey("$bytes") && !es[0].item.PStr? ==> Decode(PDict(es)) == Err(TypeError)
    ensures |es| == 1 && (es[0].key == StrKey("$tuple") || es[0].key == StrKey("$dict")) && !es[0].item.PList? ==>
              Decode(PDict(es)) == Err(TypeError)
  {
  }

  /** A dictionary without reserved keys is encoded with its own keys, in its own order, each
      of its values encoded. */
  lemma {:induction false} PlainKeepsItsShape(es: seq<Entry>)
    requires EncodeEntries(es).Ok?
    ensures var out := EncodeEntries(es).value;
            && |out| == |es|
            && (forall k | 0 <= k < |es| :: out[k].key == es[k].key && Encode(es[k].item) == Ok(out[k].item))
            && ((forall k | 0 <= k < |es| ::
                   es[k].key != StrKey("$bytes") && es[k].key != StrKey("$tuple") && es[k].key != StrKey("$dict")) ==>
                 Encode(PDict(es)) == Ok(PDict(out)))
  {
    EntriesEncoded(es);
    hide EncodeEntries;
  }

  lemma {:induction false} EntriesEncoded(es: seq<Entry>)
    requires EncodeEntries(es).Ok?
    ensures var out := EncodeEntries(es).value;
            |out| == |es| && forall k | 0 <= k < |es| ::
                out[k].key == es[k].key && Encode(es[k].item) == Ok(out[k].item)
  {
    if es != [] {
      EntriesEncoded(es[1..]);
      assert forall k | 0 < k < |es| :: es[k] == es[1..][k - 1];
    }
  }

  lemma {:induction false} ItemsEncoded(vs: seq<PyValue>)
    requires EncodeAll(vs).Ok?
    ensures var out := EncodeAll(vs).value;
            && |out| == |vs| && (forall k | 0 <= k < |vs| :: Encode(vs[k]) == Ok(out[k]))
            && Encode(PList(vs)) == Ok(PList(out))
            && Encode(PTuple(vs)) == Ok(PDict([Entry(StrKey("$tuple"), PList(out))]))
  {
    if vs != [] {
      ItemsEncoded(vs[1..]);
      assert forall k | 0 < k < |vs| :: vs[k] == vs[1..][k - 1];
    }
  }

  /** Bytes go out as base64 under their tag, and what JSON has goes out as itself. */
  lemma LeavesEncoded(v: PyValue)
    ensures v.PBytes? ==> Encode(v) == Ok(PDict([Entry(StrKey("$bytes"), PStr(Base64.Encode(v.data)))]))
    ensures v.PNone? || v.PBool? || v.PInt? || v.PStr? || (v.PFloat? && v.finite) ==> Encode(v) == Ok(v)
  {
  }

  // ---------------------------------------------------- shape on the wire

  /** Plain JSON in which a reserved tag occurs only as the sole key of a wrapper. */
  ghost predicate OnWire(v: PyValue) {
    match v
    case PNone => true
    case PBool(_) => true
    case PInt(_) => true
    case PStr(_) => true
    case PFloat(finite, _) => finite
    case PList(items) => forall k | 0 <= k < |items| :: OnWire(items[k])
    case PDict(es) =>
      && Distinct(es)
      && (forall k | 0 <= k < |es| :: es[k].key.StrKey? && OnWire(es[k].item))
      && (HasReserved(es) ==> |es| == 1)
    case _ => false
  }

  lemma {:induction false} EncodedIsOnWire(v: PyValue)
    requires Proper(v) && Encode(v).Ok?
    ensures OnWire(Encode(v).value)
    decreases v
  {
    match v
    case PList(items) => EncodedAllOnWire(items);
    case PTuple(items) => EncodedAllOnWire(items);
    case PDict(es) =>
      EncodedEntriesOnWire(es);
      var out := EncodeEntries(es).value;
      PairsOnWire(out);
    case _ =>
  }

  lemma {:induction false} EncodedAllOnWire(vs: seq<PyValue>)
    requires (forall k | 0 <= k < |vs| :: Proper(vs[k])) && EncodeAll(vs).Ok?
    ensures forall k | 0 <= k < |vs| :: OnWire(EncodeAll(vs).value[k])
    decreases vs
  {
    if vs != [] {
      EncodedIsOnWire(vs[0]);
      EncodedAllOnWire(vs[1..]);
    }
  }

  lemma {:induction false} EncodedEntriesOnWire(es: seq<Entry>)
    requires (forall k | 0 <= k < |es| :: Proper(es[k].item)) && EncodeEntries(es).Ok?
    ensures forall k | 0 <= k < |es| :: OnWire(EncodeEntries(es).value[k].item)
    decreases es
  {
    if es != [] {
      assert (es[0] decreases to es[0].item);
      EncodedIsOnWire(es[0].item);
      EncodedEntriesOnWire(es[1..]);
    }
  }

  lemma {:induction false} PairsOnWire(es: seq<Entry>)
    requires forall k | 0 <= k < |es| :: es[k].key.StrKey? && OnWire(es[k].item)
    ensures forall k | 0 <= k < |Pairs(es)| :: OnWire(Pairs(es)[k])
  {
    if es != [] { PairsOnWire(es[1..]); }
  }

  // ----------------------------------------------------- the remote's copy

  function RemoteEncode(v: PyValue): Result<PyValue>
    decreases v
  {
    match v
    case PNone => Ok(v)
    case PBool(_) => Ok(v)
    case PInt(_) => Ok(v)
    case PStr(_) => Ok(v)
    case PFloat(finite, _) => if !finite then Err(ValueError) else Ok(v)
    case PBytes(data) => Ok(Wrapped("$bytes", PStr(Base64.Encode(data))))
    case PList(items) => var out :- RemoteEncodeAll(items); Ok(PList(out))
    case PTuple(items) => var out :- RemoteEncodeAll(items); Ok(Wrapped("$tuple", PList(out)))
    case PDict(entries) =>
      var out :- RemoteEncodeEntries(entries);
      if HasReserved(entries) then Ok(Wrapped("$dict", PList(Pairs(out)))) else Ok(PDict(out))
    case POther(_) => Err(TypeError)
  }

  function RemoteEncodeAll(vs: seq<PyValue>): Result<seq<PyValue>>
    decreases vs
  {
    if vs == [] then Ok([]) else
    var head :- RemoteEncode(vs[0]);
    var tail :- RemoteEncodeAll(vs[1..]);
    Ok([head] + tail)
  }

  function RemoteEncodeEntries(es: seq<Entry>): (r: Result<seq<Entry>>)
    ensures r.Ok? ==> |r.value| == |es| && forall k | 0 <= k < |es| :: es[k].key.StrKey? && r.value[k].key == es[k].key
    decreases es
  {
    if es == [] then Ok([]) else
    if !es[0].key.StrKey? then Err(TypeError) else
    assert (es[0] decreases to es[0].item);
    var item :- RemoteEncode(es[0].item);
    var tail :- RemoteEncodeEntries(es[1..]);
    Ok([Entry(es[0].key, item)] + tail)
  }

  // Unlike the client's, this copy takes dictionary keys of any type.
  function RemoteDecode(v: PyValue): Result<PyValue>
    decreases v, 0
  {
    match v
    case PNone => Ok(v)
    case PBool(_) => Ok(v)
    case PInt(_) => Ok(v)
    case PStr(_) => Ok(v)
    case PFloat(finite, _) => if !finite then Err(ValueError) else Ok(v)
    case PList(items) => var out :- RemoteDecodeAll(items); Ok(PList(out))
    case PDict(es) =>
      if SoleKey(es, "$bytes") then
        if !es[0].item.PStr? then Err(TypeError) else
        var data := Base64.Decode(es[0].item.text);
        if data.None? then Err(ValueError) else Ok(PBytes(data.value))
      else if SoleKey(es, "$tuple") then
        if !es[0].item.PList? then Err(TypeError) else
        var out :- RemoteDecodeAll(es[0].item.items);
        Ok(PTuple(out))
      else if SoleKey(es, "$dict") then
        if !es[0].item.PList? then Err(TypeError) else
        var out :- RemoteDecodePairs(es[0].item.items, {});
        Ok(PDict(out))
      else if HasReserved(es) then Err(ValueError)
      else
        var out :- RemoteDecodeEntries(es);
        Ok(PDict(out))
    case _ => Err(TypeError)
  }

  function RemoteDecodeAll(vs: seq<PyValue>): Result<seq<PyValue>>
    decreases vs, 0
  {
    if vs == [] then Ok([]) else
    var head :- RemoteDecode(vs[0]);
    var tail :- RemoteDecodeAll(vs[1..]);
    Ok([head] + tail)
  }

  function RemoteDecodeEntries(es: seq<Entry>): Result<seq<Entry>>
    decreases es, 0
  {
    if es == [] then Ok([]) else
    assert (es[0] decreases to es[0].item);
    var item :- RemoteDecode(es[0].item);
    var tail :- RemoteDecodeEntries(es[1..]);
    Ok([Entry(es[0].key, item)] + tail)
  }

  function RemoteDecodePairs(vs: seq<PyValue>, seen: set<string>): Result<seq<Entry>>
    decreases vs, 0
  {
    if vs == [] then Ok([]) else
    if !IsPair(vs[0]) then Err(TypeError) else
    var key := vs[0].items[0].text;
    if key in seen then Err(ValueError) else
    var item :- RemoteDecode(vs[0].items[1]);
    var tail :- RemoteDecodePairs(vs[1..], seen + {key});
    Ok([Entry(StrKey(key), item)] + tail)
  }

  /** The two encoders are the same function, errors included. */
  lemma {:induction false} EncodersAgree(v: PyValue)
    ensures RemoteEncode(v) == Encode(v)
    decreases v
  {
    match v
    case PList(items) => EncodersAgreeAll(items);
    case PTuple(items) => EncodersAgreeAll(items);
    case PDict(es) => EncodersAgreeEntries(es);
    case _ =>
  }

  lemma {:induction false} EncodersAgreeAll(vs: seq<PyValue>)
    ensures RemoteEncodeAll(vs) == EncodeAll(vs)
    decreases vs
  {
    if vs != [] { EncodersAgree(vs[0]); EncodersAgreeAll(vs[1..]); }
  }

  lemma {:induction false} EncodersAgreeEntries(es: seq<Entry>)
    ensures RemoteEncodeEntries(es) == EncodeEntries(es)
    decreases es
  {
    if es != [] {
      assert (es[0] decreases to es[0].item);
      EncodersAgree(es[0].item);
      EncodersAgreeEntries(es[1..]);
    }
  }

  // Every dictionary in it has only string keys, as JSON text guarantees.
  ghost predicate StringKeyed(v: PyValue) {
    match v
    case PList(items) => forall k | 0 <= k < |items| :: StringKeyed(items[k])
    case PDict(es) => forall k | 0 <= k < |es| :: es[k].key.StrKey? && StringKeyed(es[k].item)
    case _ => true
  }

  /** On what JSON text can carry the two decoders agree, errors included. */
  lemma {:induction false} DecodersAgree(v: PyValue)
    requires StringKeyed(v)
    ensures RemoteDecode(v) == Decode(v)
    decreases v, 0
  {
    match v
    case PList(items) => DecodersAgreeAll(items);
    case PDict(es) =>
      if SoleKey(es, TUPLE_TAG) && es[0].item.PList? {
        assert StringKeyed(es[0].item);
        DecodersAgreeAll(es[0].item.items);
      } else if SoleKey(es, DICT_TAG) && es[0].item.PList? {
        assert StringKeyed(es[0].item);
        DecodersAgreePairs(es[0].item.items, {});
      } else {
        DecodersAgreeEntries(es);
      }
    case _ =>
  }

  lemma {:induction false} DecodersAgreeAll(vs: seq<PyValue>)
    requires forall k | 0 <= k < |vs| :: StringKeyed(vs[k])
    ensures RemoteDecodeAll(vs) == DecodeAll(vs)
    decreases vs, 0
  {
    if vs != [] { DecodersAgree(vs[0]); DecodersAgreeAll(vs[1..]); }
  }

  lemma {:induction false} DecodersAgreeEntries(es: seq<Entry>)
    requires forall k | 0 <= k < |es| :: StringKeyed(es[k].item)
    ensures RemoteDecodeEntries(es) == DecodeEntries(es)
    decreases es, 0
  {
    if es != [] {
      assert (es[0] decreases to es[0].item);
      DecodersAgree(es[0].item);
      DecodersAgreeEntries(es[1..]);
    }
  }

  lemma {:induction false} DecodersAgreePairs(vs: seq<PyValue>, seen: set<string>)
    requires forall k | 0 <= k < |vs| :: StringKeyed(vs[k])
    ensures RemoteDecodePairs(vs, seen) == DecodePairs(vs, seen)
    decreases vs, 0
  {
    if vs != [] && IsPair(vs[0]) {
      assert StringKeyed(vs[0]) && StringKeyed(vs[0].items[1]);
      DecodersAgree(vs[0].items[1]);
      DecodersAgreePairs(vs[1..], seen + {vs[0].items[0].text});
    }
  }

  // The client's copy only accepts values with string keys throughout.
  lemma {:induction false} DecodedIsStringKeyed(v: PyValue)
    requires Decode(v).Ok?
    ensures StringKeyed(v)
    decreases v, 0
  {
    match v
    case PList(items) => DecodedAllStringKeyed(items);
    case PDict(es) =>
      if SoleKey(es, BYTES_TAG) {
      } else if SoleKey(es, TUPLE_TAG) {
        DecodedAllStringKeyed(es[0].item.items);
      } else if SoleKey(es, DICT_TAG) {
        DecodedPairsStringKeyed(es[0].item.items, {});
      } else {
        DecodedEntriesStringKeyed(es);
      }
    case _ =>
  }

  lemma {:induction false} DecodedAllStringKeyed(vs: seq<PyValue>)
    requires DecodeAll(vs).Ok?
    ensures forall k | 0 <= k < |vs| :: StringKeyed(vs[k])
    decreases vs, 0
  {
    if vs != [] {
      DecodedIsStringKeyed(vs[0]);
      DecodedAllStringKeyed(vs[1..]);
      assert forall k | 0 < k < |vs| :: vs[k] == vs[1..][k - 1];
    }
  }

  lemma {:induction false} DecodedEntriesStringKeyed(es: seq<Entry>)
    requires DecodeEntries(es).Ok?
    ensures forall k | 0 <= k < |es| :: StringKeyed(es[k].item)
    decreases es, 0
  {
    if es != [] {
      assert (es[0] decreases to es[0].item);
      DecodedIsStringKeyed(es[0].item);
      DecodedEntriesStringKeyed(es[1..]);
      assert forall k | 0 < k < |es| :: es[k] == es[1..][k - 1];
    }
  }

  lemma {:induction false} DecodedPairsStringKeyed(vs: seq<PyValue>, seen: set<string>)
    requires DecodePairs(vs, seen).Ok?
    ensures forall k | 0 <= k < |vs| :: StringKeyed(vs[k])
    decreases vs, 0
  {
    if vs != [] {
      assert (vs[0] decreases to vs[0].items[1]);
      DecodedIsStringKeyed(vs[0].items[1]);
      DecodedPairsStringKeyed(vs[1..], seen + {vs[0].items[0].text});
      assert forall k | 0 < k < |vs| :: vs[k] == vs[1..][k - 1];
    }
  }

  /** On every value: the client decodes exactly what the remote decodes and has only string
      keys, and where the remote decodes, the two agree exactly on string keys. */
  lemma DecodersAgreeExactly(v: PyValue)
    ensures Decode(v).Ok? <==> RemoteDecode(v).Ok? && StringKeyed(v)
    ensures RemoteDecode(v).Ok? ==> (RemoteDecode(v) == Decode(v) <==> StringKeyed(v))
  {
    if Decode(v).Ok? { DecodedIsStringKeyed(v); }
    if StringKeyed(v) { DecodersAgree(v); }
  }

  // A value with another key, which JSON cannot carry, does tell them apart.
  lemma DecodersDifferOnOtherKeys(id: int)
    ensures var v := PDict([Entry(OtherKey(id), PNone)]);
            Decode(v) == Err(TypeError) && RemoteDecode(v) == Ok(v)
  {
    var es := [Entry(OtherKey(id), PNone)];
    assert !es[0].key.StrKey? && !HasReserved(es);
    assert RemoteDecodeEntries(es[1..]) == Ok([]) && [es[0]] + [] == es;
    assert RemoteDecodeEntries(es) == Ok([es[0]] + []);
  }

  /** Whatever the client decodes is a value that may be sent. */
  lemma {:induction false} DecodedIsSupported(v: PyValue)
    requires Decode(v).Ok?
    ensures Supported(Decode(v).value)
    decreases v, 0
  {
    match v
    case PList(items) => DecodedAllSupported(items);
    case PDict(es) =>
      if SoleKey(es, TUPLE_TAG) && es[0].item.PList? {
        DecodedAllSupported(es[0].item.items);
      } else if SoleKey(es, DICT_TAG) && es[0].item.PList? {
        DecodedPairsSupported(es[0].item.items, {});
      } else if !SoleKey(es, BYTES_TAG) {
        DecodedEntriesSupported(es);
      }
    case _ =>
  }

  lemma {:induction false} DecodedAllSupported(vs: seq<PyValue>)
    requires DecodeAll(vs).Ok?
    ensures forall k | 0 <= k < |DecodeAll(vs).value| :: Supported(DecodeAll(vs).value[k])
    decreases vs, 0
  {
    if vs != [] { DecodedIsSupported(vs[0]); DecodedAllSupported(vs[1..]); }
  }

  lemma {:induction false} DecodedEntriesSupported(es: seq<Entry>)
    requires DecodeEntries(es).Ok?
    ensures forall k | 0 <= k < |DecodeEntries(es).value| :: Supported(DecodeEntries(es).value[k].item)
    decreases es, 0
  {
    if es != [] {
      assert (es[0] decreases to es[0].item);
      DecodedIsSupported(es[0].item);
      DecodedEntriesSupported(es[1..]);
    }
  }

  lemma {:induction false} DecodedPairsSupported(vs: seq<PyValue>, seen: set<string>)
    requires DecodePairs(vs, seen).Ok?
    ensures forall k | 0 <= k < |DecodePairs(vs, seen).value| ::
              DecodePairs(vs, seen).value[k].key.StrKey? && Supported(DecodePairs(vs, seen).value[k].item)
    decreases vs, 0
  {
    if vs != [] {
      DecodedIsSupported(vs[0].items[1]);
      DecodedPairsSupported(vs[1..], seen + {vs[0].items[0].text});
    }
  }

  lemma {:induction false} OnWireIsStringKeyed(v: PyValue)
    requires OnWire(v)
    ensures StringKeyed(v)
  {
    match v
    case PList(items) => forall k | 0 <= k < |items| ensures StringKeyed(items[k]) { OnWireIsStringKeyed(items[k]); }
    case PDict(es) => forall k | 0 <= k < |es| ensures StringKeyed(es[k].item) { OnWireIsStringKeyed(es[k].item); }
    case _ =>
  }

  // --------------------------------------------------------------- one call

  // What the remote wraps a function's result in.
  function WrapResult(v: PyValue): Result<PyValue> {
    var out :- RemoteEncode(v);
    Ok(PDict([Entry(StrKey("version"), PInt(1)), Entry(StrKey("value"), out)]))
  }

  function Lookup(es: seq<Entry>, name: string): PyValue
    requires exists k | 0 <= k < |es| :: es[k].key == StrKey(name)
  {
    if es[0].key == StrKey(name) then es[0].item else Lookup(es[1..], name)
  }

  predicate HasKey(es: seq<Entry>, name: string) {
    exists k | 0 <= k < |es| :: es[k].key == StrKey(name)
  }

  // What Python finds equal to one; the float by its bits in double precision.
  predicate EqualsOne(v: PyValue) {
    v == PInt(1) || v == PBool(true) || v == PFloat(true, 0x3FF0_0000_0000_0000)
  }

  // The client's reading of it; any failure is one connection error, here `None`.
  function DecodeResult(v: PyValue): Option<PyValue> {
    if !v.PDict? || |v.entries| != 2 || !HasKey(v.entries, "version") || !HasKey(v.entries, "value") then None
    else if !EqualsOne(Lookup(v.entries, "version")) then None
    else
      match Decode(Lookup(v.entries, "value"))
      case Ok(r) => Some(r)
      case Err(_) => None
  }

  // What the client finds in what the remote wrapped.
  lemma Unwrapped(out: PyValue)
    ensures var es := [Entry(StrKey("version"), PInt(1)), Entry(StrKey("value"), out)];
            && HasKey(es, "version") && HasKey(es, "value")
            && Lookup(es, "version") == PInt(1) && Lookup(es, "value") == out
  {
    var es := [Entry(StrKey("version"), PInt(1)), Entry(StrKey("value"), out)];
    assert es[0].key == StrKey("version") && es[1].key == StrKey("value");
    assert |"version"| != |"value"|;
    assert es[1..][0].key == StrKey("value");
  }

  /** A result is only read from a dictionary of exactly a version that equals one and a value
      that decodes, and then as that value. */
  lemma ResultIsChecked(v: PyValue)
    ensures DecodeResult(v).Some? <==>
        exists version, out ::
          && (v == PDict([Entry(StrKey("version"), version), Entry(StrKey("value"), out)])
              || v == PDict([Entry(StrKey("value"), out), Entry(StrKey("version"), version)]))
          && EqualsOne(version) && Decode(out).Ok?
  {
    hide Decode;
    if DecodeResult(v).Some? {
      var es := v.entries;
      EnvelopeOf(es);
      assert v == PDict(es) && es == [es[0], es[1]];
    }
    forall version, out |
      && (v == PDict([Entry(StrKey("version"), version), Entry(StrKey("value"), out)])
          || v == PDict([Entry(StrKey("value"), out), Entry(StrKey("version"), version)]))
      && EqualsOne(version) && Decode(out).Ok?
      ensures DecodeResult(v).Some?
    {
      var es := v.entries;
      assert es[0].key == StrKey("version") || es[1].key == StrKey("version");
      assert es[0].key == StrKey("value") || es[1].key == StrKey("value");
      EnvelopeOf(es);
    }
  }

  lemma EnvelopeOf(es: seq<Entry>)
    requires |es| == 2 && HasKey(es, "version") && HasKey(es, "value")
    ensures || (es[0].key == StrKey("version") && es[1].key == StrKey("value")
                && Lookup(es, "version") == es[0].item && Lookup(es, "value") == es[1].item)
            || (es[0].key == StrKey("value") && es[1].key == StrKey("version")
                && Lookup(es, "version") == es[1].item && Lookup(es, "value") == es[0].item)
  {
    assert |"version"| != |"value"|;
    assert es[1..][0] == es[1];
  }

  lemma ResultRoundTrip(result: PyValue)
    requires Proper(result) && Supported(result)
    ensures WrapResult(result).Ok? && DecodeResult(WrapResult(result).value) == Some(result)
  {
    EncodesExactlySupported(result);
    EncodersAgree(result);
    RoundTrip(result);
    var out := Encode(result).value;
    hide Encode, RemoteEncode, Decode, Supported, Proper;
    Unwrapped(out);
    assert WrapResult(result) == Ok(PDict([Entry(StrKey("version"), PInt(1)), Entry(StrKey("value"), out)]));
    hide HasKey, Lookup;
  }

  /** An argument survives the way out and a result the way back. */
  lemma CallRoundTrip(argument: PyValue, result: PyValue)
    requires Proper(argument) && Supported(argument)
    requires Proper(result) && Supported(result)
    ensures Encode(argument).Ok? && RemoteDecode(Encode(argument).value) == Ok(argument)
    ensures WrapResult(result).Ok? && DecodeResult(WrapResult(result).value) == Some(result)
  {
    ResultRoundTrip(result);
    hide WrapResult, DecodeResult;
    EncodesExactlySupported(argument);
    RoundTrip(argument);
    EncodedIsOnWire(argument);
    OnWireIsStringKeyed(Encode(argument).value);
    DecodersAgree(Encode(argument).value);
  }
}
