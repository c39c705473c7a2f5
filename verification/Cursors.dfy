/** Page cursors: store/cursor.go. The JSON and base64 of a token are a codec taken to be faithful. */
module Cursors {
  import opened Powers
  import Decimals

  datatype Result<T> = Ok(value: T) | Err(error: Error)

  datatype Error =
    | NullOrUnorderable | StringTooLong | NoRID | WrongKind | OutOfRange | TokenTooLong
    | NotAToken | OtherVersion | OtherOrder | NoTieBreak

  /** A boundary value; times and floating-point numbers are not part of this model. */
  datatype Value = Null | Str(s: string) | Bool(b: bool) | Int(i: int) | Uint(u: nat)

  datatype Kind = KStr | KBool | KInt | KUint

  datatype Spec = Spec(kind: Kind, bits: nat)

  datatype Token = Token(version: int, field: string, desc: bool, kind: Kind, value: string, rid: string)

  datatype Unread = Unreadable | Read(token: Token)

  datatype Codec = Codec(write: Token -> string, read: string -> Unread)

  ghost predicate Faithful(codec: Codec) {
    forall t :: codec.read(codec.write(t)) == Read(t) && codec.write(t) != ""
  }

  const VERSION := 1
  const MAX_TOKEN := 4096
  const MAX_VALUE := 1024

  // ---------- Texts of values ----------

  function Utf8Len(s: string): nat {
    if s == "" then 0
    else
      var n := |s| - 1;
      Utf8Len(s[..n]) + (if s[n] < '\U{80}' then 1 else if s[n] < '\U{800}' then 2 else if s[n] < '\U{10000}' then 3 else 4)
  }

  /** Where s has characters from `least` on. */
  ghost function From(s: string, least: char): set<nat> {
    set i: nat | i < |s| && least <= s[i]
  }

  /** One byte for every character, and one more for each from U+0080, U+0800 and U+10000 on. */
  lemma {:induction false} Utf8Bytes(s: string)
    ensures Utf8Len(s) == |s| + |From(s, '\U{80}')| + |From(s, '\U{800}')| + |From(s, '\U{10000}')|
    decreases |s|
  {
    LastFrom(s, '\U{80}');
    LastFrom(s, '\U{800}');
    LastFrom(s, '\U{10000}');
    if s != "" {
      Utf8Bytes(s[..|s| - 1]);
    }
  }

  lemma LastFrom(s: string, least: char)
    ensures |From(s, least)| == if s == "" then 0 else |From(s[..|s| - 1], least)| + if least <= s[|s| - 1] then 1 else 0
  {
    if s != "" {
      var n := |s| - 1;
      assert From(s, least) == From(s[..n], least) + if least <= s[n] then {n} else {};
    } else {
      assert From(s, least) == {};
    }
  }

  function FormatInt(i: int): string {
    if i < 0 then "-" + Decimals.Text(-i) else Decimals.Text(i)
  }

  predicate AllDigits(s: string) {
    s != "" && forall k :: 0 <= k < |s| ==> Decimals.Digit(s[k])
  }

  /** A bit width of 0 means 64. */
  function Width(bits: nat): nat {
    if bits == 0 then 64 else bits
  }

  predicate FitsInt(i: int, bits: nat) {
    -(Pow2(Width(bits) - 1) as int) <= i < Pow2(Width(bits) - 1)
  }

  predicate FitsUint(u: nat, bits: nat) {
    u < Pow2(Width(bits))
  }

  /** The ranges of Go's integers; those of no width of their own have 64 bits. */
  lemma WidthsAre(i: int, u: nat)
    ensures FitsInt(i, 8) <==> -0x80 <= i <= 0x7f
    ensures FitsInt(i, 16) <==> -0x8000 <= i <= 0x7fff
    ensures FitsInt(i, 32) <==> -0x8000_0000 <= i <= 0x7fff_ffff
    ensures FitsInt(i, 64) <==> -0x8000_0000_0000_0000 <= i <= 0x7fff_ffff_ffff_ffff
    ensures FitsUint(u, 8) <==> u <= 0xff
    ensures FitsUint(u, 16) <==> u <= 0xffff
    ensures FitsUint(u, 32) <==> u <= 0xffff_ffff
    ensures FitsUint(u, 64) <==> u <= 0xffff_ffff_ffff_ffff
    ensures (FitsInt(i, 0) <==> FitsInt(i, 64)) && (FitsUint(u, 0) <==> FitsUint(u, 64))
  {
    hide Pow2;
    WidePowers();
  }

  /** strconv.ParseInt in base 10. */
  function ParseInt(text: string, bits: nat): Result<Value> {
    var signed := text != "" && (text[0] == '-' || text[0] == '+');
    var digits := if signed then text[1..] else text;
    if !AllDigits(digits) then Err(OutOfRange)
    else
      var n := if signed && text[0] == '-' then -(Decimals.Value(digits) as int) else Decimals.Value(digits);
      if FitsInt(n, bits) then Ok(Int(n)) else Err(OutOfRange)
  }

  /** strconv.ParseUint in base 10. */
  function ParseUint(text: string, bits: nat): Result<Value> {
    if AllDigits(text) && FitsUint(Decimals.Value(text), bits) then Ok(Uint(Decimals.Value(text))) else Err(OutOfRange)
  }

  function ParseBool(text: string): Result<Value> {
    if text in {"1", "t", "T", "TRUE", "true", "True"} then Ok(Bool(true))
    else if text in {"0", "f", "F", "FALSE", "false", "False"} then Ok(Bool(false))
    else Err(OutOfRange)
  }

  function EncodeValue(v: Value): Result<(Kind, string)> {
    match v
    case Null => Err(NullOrUnorderable)
    case Str(s) => if Utf8Len(s) > MAX_VALUE then Err(StringTooLong) else Ok((KStr, s))
    case Bool(b) => Ok((KBool, if b then "true" else "false"))
    case Int(i) => Ok((KInt, FormatInt(i)))
    case Uint(u) => Ok((KUint, Decimals.Text(u)))
  }

  function DecodeValue(kind: Kind, text: string, bits: nat): Result<Value> {
    match kind
    case KStr => Ok(Str(text))
    case KBool => ParseBool(text)
    case KInt => ParseInt(text, bits)
    case KUint => ParseUint(text, bits)
  }

  /** The values a field of this width can hold. */
  predicate Fits(v: Value, bits: nat) {
    match v
    case Int(i) => FitsInt(i, bits)
    case Uint(u) => FitsUint(u, bits)
    case _ => true
  }

  lemma IntRoundTrip(i: int, bits: nat)
    ensures ParseInt(FormatInt(i), bits) == if FitsInt(i, bits) then Ok(Int(i)) else Err(OutOfRange)
  {
    hide FitsInt;
    var n, text := if i < 0 then -i else i, FormatInt(i);
    Decimals.ValueOfText(n);
    assert i < 0 ==> text[1..] == Decimals.Text(n);
    assert i >= 0 ==> text == Decimals.Text(n) && Decimals.Digit(text[0]);
  }

  /** A value that is written reads back as itself exactly when the field can hold it. */
  lemma ValueRoundTrip(v: Value, bits: nat)
    requires EncodeValue(v).Ok?
    ensures var (kind, text) := EncodeValue(v).value;
            DecodeValue(kind, text, bits) == if Fits(v, bits) then Ok(v) else Err(OutOfRange)
  {
    match v {
      case Int(i) => IntRoundTrip(i, bits);
      case Uint(u) => Decimals.ValueOfText(u);
      case _ =>
    }
  }

  // ---------- Tokens ----------

  function EncodeCursor(codec: Codec, v: Value, rid: string, field: string, desc: bool, spec: Spec): Result<string> {
    if rid == "" then Err(NoRID)
    else
      match EncodeValue(v)
      case Err(e) => Err(e)
      case Ok((kind, text)) =>
        if kind != spec.kind then Err(WrongKind)
        else if DecodeValue(kind, text, spec.bits).Err? then Err(OutOfRange)
        else
          var token := codec.write(Token(VERSION, field, desc, kind, text, rid));
          if |token| > MAX_TOKEN then Err(TokenTooLong) else Ok(token)
  }

  function DecodeCursor(codec: Codec, token: string, field: string, desc: bool, spec: Spec): Result<(Value, string)> {
    if |token| > MAX_TOKEN then Err(TokenTooLong)
    else
      match codec.read(token)
      case Unreadable => Err(NotAToken)
      case Read(t) =>
        if t.version != VERSION then Err(OtherVersion)
        else if t.field != field || t.desc != desc then Err(OtherOrder)
        else if t.rid == "" then Err(NoTieBreak)
        else if t.kind != spec.kind then Err(WrongKind)
        else
          match DecodeValue(t.kind, t.value, spec.bits)
          case Err(e) => Err(e)
          case Ok(v) => Ok((v, t.rid))
  }

  function KindOf(v: Value): Kind {
    match v
    case Bool(_) => KBool
    case Int(_) => KInt
    case Uint(_) => KUint
    case _ => KStr
  }

  /** Whatever text a token carries, what is read of it is a value of the kind that the field can hold. */
  lemma ReadValueFits(kind: Kind, text: string, bits: nat)
    ensures match DecodeValue(kind, text, bits)
            case Ok(v) => !v.Null? && KindOf(v) == kind && Fits(v, bits)
            case Err(_) => kind != KStr
  {
  }

  /** Which tokens a page accepts, whoever made them, and the boundary it then continues behind. */
  lemma CursorIsAccepted(codec: Codec, token: string, field: string, desc: bool, spec: Spec)
    ensures DecodeCursor(codec, token, field, desc, spec).Ok? <==>
      && |token| <= 4096 && codec.read(token).Read?
      && var t := codec.read(token).token;
         && t.version == 1 && t.field == field && t.desc == desc && t.rid != ""
         && t.kind == spec.kind && DecodeValue(spec.kind, t.value, spec.bits).Ok?
    ensures match DecodeCursor(codec, token, field, desc, spec)
            case Err(_) => true
            case Ok((v, rid)) =>
              && rid == codec.read(token).token.rid && rid != "" && KindOf(v) == spec.kind && Fits(v, spec.bits)
              && DecodeValue(spec.kind, codec.read(token).token.value, spec.bits) == Ok(v)
  {
    if codec.read(token).Read? {
      ReadValueFits(spec.kind, codec.read(token).token.value, spec.bits);
    }
  }

  /**
   A cursor that was issued is read back as the boundary it was issued for,
   under exactly the order, direction and kind it was issued for, by a field
   wide enough.
   */
  lemma CursorRoundTrip(codec: Codec, v: Value, rid: string, field: string, desc: bool, spec: Spec,
                        field': string, desc': bool, spec': Spec)
    requires Faithful(codec) && EncodeCursor(codec, v, rid, field, desc, spec).Ok?
    ensures var token := EncodeCursor(codec, v, rid, field, desc, spec).value;
            && token != ""
            && DecodeCursor(codec, token, field, desc, spec) == Ok((v, rid))
            && (DecodeCursor(codec, token, field', desc', spec').Ok? <==>
                  field' == field && desc' == desc && spec'.kind == spec.kind && Fits(v, spec'.bits))
  {
    ValueRoundTrip(v, spec.bits);
    ValueRoundTrip(v, spec'.bits);
  }

  /** Which rows a cursor can be issued after. */
  lemma CursorIsIssued(codec: Codec, v: Value, rid: string, field: string, desc: bool, spec: Spec)
    requires Faithful(codec)
    ensures EncodeCursor(codec, v, rid, field, desc, spec).Ok? <==>
      && rid != "" && !v.Null? && KindOf(v) == spec.kind && Fits(v, spec.bits)
      && (v.Str? ==> Utf8Len(v.s) <= 1024)
      && |codec.write(Token(1, field, desc, KindOf(v), EncodeValue(v).value.1, rid))| <= 4096
  {
    if EncodeValue(v).Ok? {
      ValueRoundTrip(v, spec.bits);
    }
  }
}
