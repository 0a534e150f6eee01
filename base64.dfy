/** Base64 as Node's Buffer does it. Encoding (`buf.toString("base64")`)
    follows section 4 of RFC 4648: the standard alphabet, with `=` padding.
    Decoding (`Buffer.from(s, "base64")`) is lenient: it accepts the
    standard and the URL-safe alphabets (section 5 of RFC 4648), skips every
    other character, stops at the first `=`, and turns a trailing group of
    two or three symbols into one or two bytes (a lone trailing symbol gives
    nothing). It never fails. */
module Base64 {
  import opened Js

  /** A 6-bit value, the index of one base64 symbol. */
  type Sextet = x: int | 0 <= x < 64

  /** The symbol for a value, from the alphabet of Table 1 in RFC 4648. */
  function Symbol(v: Sextet): char
  {
    if v < 26 then ('A' as int + v) as char
    else if v < 52 then ('a' as int + (v - 26)) as char
    else if v < 62 then ('0' as int + (v - 52)) as char
    else if v == 62 then '+'
    else '/'
  }

  /** The value of a symbol in the decoder's table, or None for a
      character the decoder skips. */
  function ValueOf(c: char): Option<Sextet>
  {
    if 'A' <= c <= 'Z' then Some(c as int - 'A' as int)
    else if 'a' <= c <= 'z' then Some(c as int - 'a' as int + 26)
    else if '0' <= c <= '9' then Some(c as int - '0' as int + 52)
    else if c == '+' || c == '-' then Some(62)
    else if c == '/' || c == '_' then Some(63)
    else None
  }

  /** The decoder reads every symbol it emits as the value it stands for. */
  lemma SymbolValue(v: Sextet)
    ensures ValueOf(Symbol(v)) == Some(v)
    ensures Symbol(v) != '='
  {
  }

  // ---------------------------------------------------------------------
  // Encoding

  /** Three bytes (or the last one or two) as four (three, two) sextets:
      the bits of the bytes, most significant first, cut into sixes, the
      last one filled with zero bits. */
  function ToSextets(b: seq<byte>): (v: seq<Sextet>)
    decreases |b|
  {
    if |b| >= 3 then
      var x, y, z := b[0] as int, b[1] as int, b[2] as int;
      [x / 4, (x % 4) * 16 + y / 16, (y % 16) * 4 + z / 64, z % 64] + ToSextets(b[3..])
    else if |b| == 2 then
      var x, y := b[0] as int, b[1] as int;
      [x / 4, (x % 4) * 16 + y / 16, (y % 16) * 4]
    else if |b| == 1 then
      var x := b[0] as int;
      [x / 4, (x % 4) * 16]
    else []
  }

  function Symbols(v: seq<Sextet>): (s: string)
    ensures |s| == |v|
    ensures forall i :: 0 <= i < |v| ==> s[i] == Symbol(v[i])
  {
    if v == [] then [] else [Symbol(v[0])] + Symbols(v[1..])
  }

  /** The padding that completes the last group of four symbols. */
  function Padding(n: nat): string
  {
    if n % 3 == 1 then "==" else if n % 3 == 2 then "=" else ""
  }

  /** `buf.toString("base64")`. */
  function Encode(b: seq<byte>): string
  {
    Symbols(ToSextets(b)) + Padding(|b|)
  }

  // ---------------------------------------------------------------------
  // Decoding

  /** The symbol values the decoder reads: those before the first `=`,
      skipping characters outside its table. */
  function Sextets(s: string): seq<Sextet>
  {
    if s == [] || s[0] == '=' then []
    else
      match ValueOf(s[0])
      case Some(v) => [v] + Sextets(s[1..])
      case None => Sextets(s[1..])
  }

  /** Groups of four sextets as three bytes; a trailing group of three or
      two gives two or one byte, a single trailing sextet nothing. */
  function FromSextets(v: seq<Sextet>): seq<byte>
    decreases |v|
  {
    if |v| >= 4 then
      var p, q, r, t := v[0] as int, v[1] as int, v[2] as int, v[3] as int;
      [(p * 4 + q / 16) as byte, ((q % 16) * 16 + r / 4) as byte, ((r % 4) * 64 + t) as byte]
        + FromSextets(v[4..])
    else if |v| == 3 then
      var p, q, r := v[0] as int, v[1] as int, v[2] as int;
      [(p * 4 + q / 16) as byte, ((q % 16) * 16 + r / 4) as byte]
    else if |v| == 2 then
      var p, q := v[0] as int, v[1] as int;
      [(p * 4 + q / 16) as byte]
    else []
  }

  /** `Buffer.from(s, "base64")`. */
  function Decode(s: string): seq<byte>
  {
    FromSextets(Sextets(s))
  }

  // ---------------------------------------------------------------------
  // Properties

  /** The arithmetic of one group: cutting three bytes into four sextets
      and regrouping them gives the bytes back, and likewise for a last
      group of two bytes or one. */
  lemma GroupRoundTrip(x: int, y: int, z: int)
    requires 0 <= x < 256 && 0 <= y < 256 && 0 <= z < 256
    ensures (x / 4) * 4 + ((x % 4) * 16 + y / 16) / 16 == x
    ensures (((x % 4) * 16 + y / 16) % 16) * 16 + ((y % 16) * 4 + z / 64) / 4 == y
    ensures (((y % 16) * 4 + z / 64) % 4) * 64 + z % 64 == z
    ensures (x / 4) * 4 + ((x % 4) * 16) / 16 == x
  {
  }

  /** The six-bit cut of each group is undone by the decoder's regrouping. */
  lemma {:induction false} FromToSextets(b: seq<byte>)
    ensures FromSextets(ToSextets(b)) == b
    decreases |b|
  {
    if |b| >= 3 {
      var x, y, z := b[0] as int, b[1] as int, b[2] as int;
      GroupRoundTrip(x, y, z);
      var v := ToSextets(b);
      assert v[4..] == ToSextets(b[3..]);
      FromToSextets(b[3..]);
      assert FromSextets(v) == [b[0], b[1], b[2]] + FromSextets(v[4..]);
      assert b == [b[0], b[1], b[2]] + b[3..];
    } else if |b| == 2 {
      GroupRoundTrip(b[0] as int, b[1] as int, 0);
      assert b == [b[0], b[1]];
    } else if |b| == 1 {
      GroupRoundTrip(b[0] as int, 0, 0);
      assert b == [b[0]];
    }
  }

  /** The decoder reads back exactly the values of the emitted symbols: the
      padding is where it stops. */
  lemma {:induction false} SextetsOfSymbols(v: seq<Sextet>, pad: string)
    requires pad == [] || pad[0] == '='
    ensures Sextets(Symbols(v) + pad) == v
  {
    if v == [] {
      assert Symbols(v) + pad == pad;
    } else {
      var s := Symbols(v) + pad;
      SymbolValue(v[0]);
      assert s[0] == Symbol(v[0]);
      assert s[1..] == Symbols(v[1..]) + pad;
      SextetsOfSymbols(v[1..], pad);
    }
  }

  /** Decoding an encoding gives back the bytes. */
  lemma DecodeEncode(b: seq<byte>)
    ensures Decode(Encode(b)) == b
  {
    SextetsOfSymbols(ToSextets(b), Padding(|b|));
    FromToSextets(b);
  }

  /** A canonical encoding (one the encoder produces) is reproduced by
      decoding it and encoding the result. */
  lemma CanonicalEcho(s: string, b: seq<byte>)
    requires s == Encode(b)
    ensures Encode(Decode(s)) == s
  {
    DecodeEncode(b);
  }

  /** The encoding has four symbols per started group of three bytes. */
  lemma {:induction false} EncodeLength(b: seq<byte>)
    ensures |Encode(b)| == 4 * ((|b| + 2) / 3)
    decreases |b|
  {
    SymbolCount(b);
  }

  lemma {:induction false} SymbolCount(b: seq<byte>)
    ensures |ToSextets(b)| + |Padding(|b|)| == 4 * ((|b| + 2) / 3)
    decreases |b|
  {
    if |b| >= 3 {
      var n := |b| - 3;
      SymbolCount(b[3..]);
      SextetsStep(b);
      PaddingPeriodic(n);
      DivStep(n);
    }
  }

  lemma SextetsStep(b: seq<byte>)
    requires |b| >= 3
    ensures |ToSextets(b)| == 4 + |ToSextets(b[3..])|
  {
  }

  lemma PaddingPeriodic(n: nat)
    ensures Padding(n + 3) == Padding(n)
  {
    assert (n + 3) % 3 == n % 3;
  }

  lemma DivStep(n: nat)
    ensures (n + 3 + 2) / 3 == (n + 2) / 3 + 1
  {
  }

  /** Every character of an encoding is the pad character or a symbol of
      the alphabet of Table 1 in RFC 4648 (never a URL-safe one). */
  lemma EncodeAlphabet(b: seq<byte>)
    ensures forall i :: 0 <= i < |Encode(b)| ==>
              Encode(b)[i] == '=' || (ValueOf(Encode(b)[i]).Some? && Encode(b)[i] != '-' && Encode(b)[i] != '_')
  {
    var v := ToSextets(b);
    forall i | 0 <= i < |v| ensures ValueOf(Symbols(v)[i]).Some? {
      SymbolValue(v[i]);
    }
  }
}
