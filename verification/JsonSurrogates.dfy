/** Well-formed UTF-16 in JSON escapes: validJSONSurrogates
    (services/core/paper_bundle.go:65-97), against sections 7 and 8.2 of RFC 8259.
  */
module JsonSurrogates {
  import opened Results

  type byte = bv8

  const BACKSLASH: byte := 0x5C
  const LETTER_U: byte := 0x75

  /******* The escapes of a text *******/

  /** One unit of the text: a byte or an escape that is no code unit, a \u escape, or a
      \u that four hex digits do not follow. */
  datatype Token = Plain | Code(value: int) | Broken

  function HexValue(b: byte): (v: Option<int>)
    ensures v.Some? ==> 0 <= v.value < 16
  {
    if 0x30 <= b <= 0x39 then Some((b - 0x30) as int)
    else if 0x41 <= b <= 0x46 then Some((b - 0x41) as int + 10)
    else if 0x61 <= b <= 0x66 then Some((b - 0x61) as int + 10)
    else None
  }

  /** The value of four hex digits: strconv.ParseUint(s, 16, 16). */
  function Hex4(s: seq<byte>): (v: Option<int>)
    requires |s| == 4
    ensures v.Some? ==> 0 <= v.value < 0x10000
  {
    var a :- HexValue(s[0]);
    var b :- HexValue(s[1]);
    var c :- HexValue(s[2]);
    var d :- HexValue(s[3]);
    Some(((a * 16 + b) * 16 + c) * 16 + d)
  }

  /** The units of a text, an escaped backslash counting as one. */
  function Tokens(raw: seq<byte>): seq<Token> {
    if raw == [] then []
    else if raw[0] != BACKSLASH then [Plain] + Tokens(raw[1..])
    else if |raw| == 1 then [Plain]
    else if raw[1] != LETTER_U then [Plain] + Tokens(raw[2..])
    else if |raw| < 6 || Hex4(raw[2..6]).None? then [Broken]
    else [Code(Hex4(raw[2..6]).value)] + Tokens(raw[6..])
  }

  predicate IsHigh(t: Token) {
    t.Code? && 0xD800 <= t.value <= 0xDBFF
  }

  predicate IsLow(t: Token) {
    t.Code? && 0xDC00 <= t.value <= 0xDFFF
  }

  /** No broken escape; a high surrogate is directly followed by an escaped low one, and a
      low one directly follows a high one. */
  predicate Fits(t: seq<Token>, i: int)
    requires 0 <= i < |t|
  {
    && t[i] != Broken && (IsHigh(t[i]) ==> i + 1 < |t| && IsLow(t[i + 1])) && (IsLow(t[i]) ==> i > 0 && IsHigh(t[i - 1]))
  }

  /** Every escape is four hex digits and together they are well-formed UTF-16. */
  predicate WellFormed(tokens: seq<Token>) {
    forall i :: 0 <= i < |tokens| ==> Fits(tokens, i)
  }

  /******* The scanner *******/

  /** validJSONSurrogates: one pass that moves by the length of each unit. */
  method ValidSurrogates(raw: array<byte>) returns (ok: bool)
    ensures ok <==> WellFormed(Tokens(raw[..]))
  {
    hide Hex4;
    var i := 0;
    assert raw[0..] == raw[..];
    while i < raw.Length
      invariant 0 <= i <= raw.Length
      invariant WellFormed(Tokens(raw[..])) <==> WellFormed(Tokens(raw[i..]))
      decreases raw.Length - i
    {
      ghost var rest := raw[i..];
      if raw[i] != BACKSLASH {
        assert rest[1..] == raw[i + 1..];
        PlainFirst(Tokens(raw[i + 1..]));
        i := i + 1;
        continue;
      }
      if i + 1 >= raw.Length {
        PlainFirst([]);
        assert [Plain] + [] == [Plain];
        return true;
      }
      if raw[i + 1] != LETTER_U {
        assert rest[2..] == raw[i + 2..];
        PlainFirst(Tokens(raw[i + 2..]));
        i := i + 2;
        continue;
      }
      if i + 5 >= raw.Length {
        BrokenFirst();
        return false;
      }
      assert rest[2..6] == raw[i + 2..i + 6] && rest[6..] == raw[i + 6..];
      var code := Hex4(raw[i + 2..i + 6]);
      if code.None? {
        BrokenFirst();
        return false;
      }
      var after := i + 6;
      CodeFirst(code.value, Tokens(raw[after..]));
      if 0xDC00 <= code.value <= 0xDFFF {
        return false;
      }
      if 0xD800 <= code.value <= 0xDBFF {
        FirstIsLow(raw[after..]);
        ghost var tail := raw[after..];
        if after + 5 >= raw.Length || raw[after] != BACKSLASH || raw[after + 1] != LETTER_U {
          return false;
        }
        assert tail[2..6] == raw[after + 2..after + 6] && tail[6..] == raw[after + 6..];
        var low := Hex4(raw[after + 2..after + 6]);
        if low.None? || low.value < 0xDC00 || low.value > 0xDFFF {
          return false;
        }
        assert ([Code(low.value)] + Tokens(raw[after + 6..]))[1..] == Tokens(raw[after + 6..]);
        i := after + 6;
      } else {
        i := after;
      }
    }
    assert raw[i..] == [];
    ok := true;
  }

  lemma PlainFirst(t: seq<Token>)
    ensures WellFormed([Plain] + t) <==> WellFormed(t)
  {
    Shifted(Plain, t);
  }

  /** Prefixing a unit that is no surrogate shifts the rest and changes nothing. */
  lemma Shifted(head: Token, t: seq<Token>)
    requires head != Broken && !IsHigh(head) && !IsLow(head)
    ensures WellFormed([head] + t) <==> WellFormed(t)
  {
    var all := [head] + t;
    assert forall i :: 0 <= i < |t| ==> all[i + 1] == t[i];
    if WellFormed(all) {
      forall i | 0 <= i < |t|
        ensures Fits(t, i)
      {
        assert Fits(all, i + 1);
      }
    }
    if WellFormed(t) {
      forall i | 0 <= i < |all|
        ensures Fits(all, i)
      {
        if i > 0 {
          assert Fits(t, i - 1);
        }
      }
    }
  }

  lemma BrokenFirst()
    ensures !WellFormed([Broken])
  {
    assert !Fits([Broken], 0);
  }

  /** What a code unit in front asks of the rest. */
  lemma CodeFirst(code: int, t: seq<Token>)
    ensures IsLow(Code(code)) ==> !WellFormed([Code(code)] + t)
    ensures IsHigh(Code(code)) ==> (WellFormed([Code(code)] + t) <==> t != [] && IsLow(t[0]) && WellFormed(t[1..]))
    ensures !IsLow(Code(code)) && !IsHigh(Code(code)) ==> (WellFormed([Code(code)] + t) <==> WellFormed(t))
  {
    var all := [Code(code)] + t;
    assert all[0] == Code(code);
    if IsHigh(Code(code)) {
      if t != [] && IsLow(t[0]) {
        PairFirst(code, t);
      } else {
        assert WellFormed(all) ==> Fits(all, 0);
        assert t != [] ==> all[1] == t[0];
      }
    } else if IsLow(Code(code)) {
      assert WellFormed(all) ==> Fits(all, 0);
    } else {
      Shifted(Code(code), t);
    }
  }

  lemma PairFirst(code: int, t: seq<Token>)
    requires IsHigh(Code(code)) && t != [] && IsLow(t[0])
    ensures WellFormed([Code(code)] + t) <==> WellFormed(t[1..])
  {
    var all, rest := [Code(code)] + t, t[1..];
    assert all[0] == Code(code) && all[1] == t[0];
    assert forall i :: 0 <= i < |rest| ==> all[i + 2] == rest[i];
    if WellFormed(all) {
      forall i | 0 <= i < |rest|
        ensures Fits(rest, i)
      {
        assert Fits(all, i + 2);
      }
    }
    if WellFormed(rest) {
      forall i | 0 <= i < |all|
        ensures Fits(all, i)
      {
        if i > 1 {
          assert Fits(rest, i - 2);
        }
      }
    }
  }

  /** A text starts with an escaped low surrogate exactly when these six bytes say so. */
  lemma FirstIsLow(raw: seq<byte>)
    ensures Tokens(raw) != [] && IsLow(Tokens(raw)[0]) <==>
      |raw| >= 6 && raw[0] == BACKSLASH && raw[1] == LETTER_U && Hex4(raw[2..6]).Some? && 0xDC00 <= Hex4(raw[2..6]).value <= 0xDFFF
  {
    hide Hex4;
  }

  /******* Spelling and reading *******/

  /** A byte that is no backslash, a backslash and what it escapes, or four hex digits. */
  datatype Unit = Byte(plain: byte) | Pair(escaped: byte) | Escape(a: byte, b: byte, c: byte, d: byte)

  const DIGITS: seq<byte> := [0x30, 0x31, 0x32, 0x33, 0x34, 0x35, 0x36, 0x37, 0x38, 0x39, 0x61, 0x62, 0x63, 0x64, 0x65, 0x66]
  const CAPITALS: seq<byte> := [0x41, 0x42, 0x43, 0x44, 0x45, 0x46]

  lemma SmallDigits()
    ensures forall n :: 0 <= n < 10 ==> HexValue(DIGITS[n]) == Some(n)
  {}

  lemma LetterDigits()
    ensures forall n :: 10 <= n < 16 ==> HexValue(DIGITS[n]) == Some(n) && HexValue(CAPITALS[n - 10]) == Some(n)
  {}

  predicate Spellable(u: Unit) {
    match u
    case Byte(b) => b != 0x5C
    case Pair(b) => b != 0x75
    case Escape(a, b, c, d) => HexValue(a).Some? && HexValue(b).Some? && HexValue(c).Some? && HexValue(d).Some?
  }

  function Spelled(u: Unit): seq<byte> {
    match u
    case Byte(b) => [b]
    case Pair(b) => [0x5C, b]
    case Escape(a, b, c, d) => [0x5C, 0x75, a, b, c, d]
  }

  function Text(units: seq<Unit>): seq<byte> {
    if units == [] then [] else Spelled(units[0]) + Text(units[1..])
  }

  function TokenOf(u: Unit): Token
    requires Spellable(u)
  {
    match u
    case Escape(a, b, c, d) => Code(HexValue(a).value * 4096 + HexValue(b).value * 256 + HexValue(c).value * 16 + HexValue(d).value)
    case _ => Plain
  }

  function TokensOf(units: seq<Unit>): (r: seq<Token>)
    requires forall u :: u in units ==> Spellable(u)
    ensures |r| == |units| && forall i :: 0 <= i < |r| ==> r[i] == TokenOf(units[i])
  {
    seq(|units|, i requires 0 <= i < |units| => TokenOf(units[i]))
  }

  lemma EscapeReads(a: byte, b: byte, c: byte, d: byte, rest: seq<byte>)
    requires Spellable(Escape(a, b, c, d))
    ensures Tokens([0x5C, 0x75, a, b, c, d] + rest) == [TokenOf(Escape(a, b, c, d))] + Tokens(rest)
  {
    var text := [0x5C, 0x75, a, b, c, d] + rest;
    assert text[6..] == rest && text[2..6] == [a, b, c, d];
    hide HexValue;
  }

  lemma UnitReads(u: Unit, rest: seq<byte>)
    requires Spellable(u)
    ensures Tokens(Spelled(u) + rest) == [TokenOf(u)] + Tokens(rest)
  {
    hide HexValue, Hex4;
    assert (Spelled(u) + rest)[|Spelled(u)|..] == rest;
    if u.Escape? {
      EscapeReads(u.a, u.b, u.c, u.d, rest);
    }
  }

  /** Any text spelled unit by unit is read back unit by unit. */
  lemma {:induction false} TextReads(units: seq<Unit>)
    requires forall u :: u in units ==> Spellable(u)
    ensures Tokens(Text(units)) == TokensOf(units)
  {
    hide Spellable, Spelled, TokenOf, Tokens;
    if units == [] {
      NothingRead();
    } else {
      assert units[0] in units && forall u :: u in units[1..] ==> u in units;
      TextReads(units[1..]);
      UnitReads(units[0], Text(units[1..]));
      assert TokensOf(units) == [TokenOf(units[0])] + TokensOf(units[1..]);
    }
  }

  lemma NothingRead()
    ensures Tokens([]) == []
  {}
}
