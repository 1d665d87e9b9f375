/**
 Base64 as section 4 of RFC 4648 defines it: three bytes become four symbols of a
 64-letter alphabet, and a final group of one or two bytes is padded with '='.
 */
module Base64 {
  import opened Prelude

  type Byte = b: int | 0 <= b < 256
  type Bytes = seq<Byte>
  type Sextet = v: int | 0 <= v < 64
  datatype Symbol = Digit(v: Sextet) | Pad

  function Spell(symbol: Symbol): char {
    match symbol
    case Pad => '='
    case Digit(v) =>
      if v < 26 then 'A' + v as char
      else if v < 52 then 'a' + (v - 26) as char
      else if v < 62 then '0' + (v - 52) as char
      else if v == 62 then '+' else '/'
  }

  function Read(c: char): Option<Symbol> {
    if 'A' <= c <= 'Z' then Some(Digit(c as int - 'A' as int))
    else if 'a' <= c <= 'z' then Some(Digit(c as int - 'a' as int + 26))
    else if '0' <= c <= '9' then Some(Digit(c as int - '0' as int + 52))
    else if c == '+' then Some(Digit(62))
    else if c == '/' then Some(Digit(63))
    else if c == '=' then Some(Pad)
    else None
  }

  /** The four symbols of a group of one, two or three bytes. */
  function PackGroup(g: Bytes): (s: seq<Symbol>)
    requires 1 <= |g| <= 3
    ensures |s| == 4
  {
    var x := g[0] as int;
    var y := if |g| > 1 then g[1] as int else 0;
    var z := if |g| > 2 then g[2] as int else 0;
    [Digit(x / 4), Digit(x % 4 * 16 + y / 16),
     if |g| > 1 then Digit(y % 16 * 4 + z / 64) else Pad,
     if |g| > 2 then Digit(z % 64) else Pad]
  }

  function GroupSize(b: Bytes): nat {
    if |b| < 3 then |b| else 3
  }

  function Pack(b: Bytes): (s: seq<Symbol>) {
    if |b| == 0 then [] else PackGroup(b[..GroupSize(b)]) + Pack(b[GroupSize(b)..])
  }

  function Encode(b: Bytes): string {
    SpellAll(Pack(b))
  }

  function SpellAll(s: seq<Symbol>): (t: string)
    ensures |t| == |s|
  {
    seq(|s|, i requires 0 <= i < |s| => Spell(s[i]))
  }

  /** Padding is accepted only in the last group. */
  function UnpackGroup(s: seq<Symbol>, last: bool): Option<Bytes>
    requires |s| == 4
  {
    if s[0].Pad? || s[1].Pad? || (s[2].Pad? && s[3].Digit?) || (s[3].Pad? && !last) then None
    else
      var p, q := s[0].v as int, s[1].v as int;
      var first: Byte := p * 4 + q / 16;
      if s[2].Pad? then Some([first]) else
      var r := s[2].v as int;
      var second: Byte := q % 16 * 16 + r / 4;
      if s[3].Pad? then Some([first, second]) else
      var third: Byte := r % 4 * 64 + s[3].v as int;
      Some([first, second, third])
  }

  function Unpack(s: seq<Symbol>): (b: Option<Bytes>) {
    if |s| == 0 then Some([])
    else if |s| < 4 then None
    else
      match (UnpackGroup(s[..4], |s| == 4), Unpack(s[4..]))
      case (Some(head), Some(tail)) => Some(head + tail)
      case _ => None
  }

  function ReadAll(t: string): (s: Option<seq<Symbol>>) {
    if exists i | 0 <= i < |t| :: Read(t[i]).None? then None
    else Some(seq(|t|, i requires 0 <= i < |t| && Read(t[i]).Some? => Read(t[i]).value))
  }

  function Decode(t: string): (b: Option<Bytes>) {
    match ReadAll(t)
    case None => None
    case Some(symbols) => Unpack(symbols)
  }

  lemma ReadInvertsSpell(symbol: Symbol)
    ensures Read(Spell(symbol)) == Some(symbol)
  {
  }

  lemma ReadAllInvertsSpellAll(s: seq<Symbol>)
    ensures ReadAll(SpellAll(s)) == Some(s)
  {
    forall i | 0 <= i < |s| ensures Read(SpellAll(s)[i]) == Some(s[i]) {
      ReadInvertsSpell(s[i]);
    }
    var read := ReadAll(SpellAll(s));
    assert read.value == s;
  }

  lemma UnpackInvertsPackGroup(g: Bytes, last: bool)
    requires 1 <= |g| <= 3
    requires |g| < 3 ==> last
    ensures UnpackGroup(PackGroup(g), last) == Some(g)
  {
    assert g == if |g| == 1 then [g[0]] else if |g| == 2 then [g[0], g[1]] else [g[0], g[1], g[2]];
  }

  lemma {:induction false} PackLength(b: Bytes)
    ensures |Pack(b)| == 4 * ((|b| + 2) / 3)
  {
    if |b| > 0 {
      PackLength(b[GroupSize(b)..]);
    }
  }

  lemma {:induction false} UnpackInvertsPack(b: Bytes)
    ensures Unpack(Pack(b)) == Some(b)
  {
    if |b| > 0 {
      var head, tail := b[..GroupSize(b)], b[GroupSize(b)..];
      UnpackInvertsPack(tail);
      PackLength(tail);
      assert Pack(b)[..4] == PackGroup(head) && Pack(b)[4..] == Pack(tail);
      UnpackInvertsPackGroup(head, |Pack(b)| == 4);
      assert b == head + tail;
    }
  }

  /** The length law, and decoding inverts encoding on every byte string. */
  lemma EncodeLaws(b: Bytes)
    ensures |Encode(b)| == 4 * ((|b| + 2) / 3)
    ensures Decode(Encode(b)) == Some(b)
  {
    PackLength(b);
    UnpackInvertsPack(b);
    ReadAllInvertsSpellAll(Pack(b));
  }

  // ---- the coding of the RFC itself ----

  const UPPER := "ABCDEFGHIJKLMNOPQRSTUVWXYZ"
  const LOWER := "abcdefghijklmnopqrstuvwxyz"
  const ALPHABET := UPPER + LOWER + "0123456789" + "+/"

  lemma LettersInOrder(v: nat)
    requires v < 26
    ensures UPPER[v] == 'A' + v as char && LOWER[v] == 'a' + v as char
    ensures v < 10 ==> "0123456789"[v] == '0' + v as char
  {
  }

  /** The digits are spelled by Table 1 of RFC 4648. */
  lemma SpellsAlphabet(v: Sextet)
    ensures |ALPHABET| == 64 && Spell(Digit(v)) == ALPHABET[v] && Spell(Pad) == '='
  {
    LettersInOrder(if v < 26 then v else if v < 52 then v - 26 else if v < 62 then v - 52 else 0);
  }

  /** A character is read as the one symbol it spells, and any other is refused. */
  lemma ReadsExactly(c: char, symbol: Symbol)
    ensures Read(c) == Some(symbol) <==> c == Spell(symbol)
  {
  }

  /** The symbols of a group, first to last, hold the bits of its bytes, first to last, filled up with zeros. */
  lemma GroupHoldsBits(g: Bytes)
    requires 1 <= |g| <= 3
    ensures forall i | 0 <= i < 4 :: PackGroup(g)[i].Digit? == (i <= |g|)
    ensures var s := PackGroup(g);
            var x: int := g[0];
            match |g|
            case 1 => s[0].v * 64 + s[1].v == x * 16
            case 2 => (s[0].v * 64 + s[1].v) * 64 + s[2].v == (x * 256 + g[1]) * 4
            case _ => ((s[0].v * 64 + s[1].v) * 64 + s[2].v) * 64 + s[3].v == (x * 256 + g[1]) * 256 + g[2]
  {
  }

  /** Groups are coded one after the other, and only the last may be short. */
  lemma GroupsFollow(g: Bytes, b: Bytes)
    requires |g| == 3
    ensures Encode(g + b) == Encode(g) + Encode(b)
  {
    assert (g + b)[..3] == g && (g + b)[3..] == b;
    assert g[..3] == g && g[3..] == [] && Pack(g) == PackGroup(g);
  }

  /** Decoding takes exactly the texts of whole groups whose padding, if any, is at most two symbols at the end. */
  lemma {:induction false} UnpacksExactly(s: seq<Symbol>)
    ensures Unpack(s).Some? <==>
              && |s| % 4 == 0
              && forall i | 0 <= i < |s| && s[i].Pad? :: i >= |s| - 2 && s[|s| - 1].Pad?
    decreases |s|
  {
    if |s| >= 4 {
      var head, tail := s[..4], s[4..];
      UnpacksExactly(tail);
      assert forall i | 0 <= i < 4 :: head[i] == s[i];
      assert forall i | 4 <= i < |s| :: s[i] == tail[i - 4];
      assert forall i | 0 <= i < |tail| :: tail[i] == s[i + 4];
    }
  }

  /** What a group decodes to is coded by the same symbols, but for bits of the last one that no byte takes. */
  lemma GroupAgrees(s: seq<Symbol>, last: bool)
    requires |s| == 4 && UnpackGroup(s, last).Some?
    ensures var b := UnpackGroup(s, last).value;
            && 1 <= |b| <= 3 && PackGroup(b)[..|b|] == s[..|b|]
            && (|b| == 3 ==> PackGroup(b) == s)
            && forall i | |b| < i < 4 :: s[i].Pad?
  {
  }
}
