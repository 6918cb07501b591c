/** Padded base64 over an alphabet of 64 symbols (section 4 of RFC 4648), and the URL-safe
    alphabet (section 5): bytes to six-bit groups, groups to symbols, padding to quanta. */
module Base64Url {
  import opened Common

  type Sextet = v: int | 0 <= v < 64

  const PAD: Byte := '=' as int
  const CR: Byte := 13
  const LF: Byte := 10

  // ---------------------------------------------------------------------------
  // Bytes and six-bit groups
  // ---------------------------------------------------------------------------

  function Group1(b0: Byte, b1: Byte): Sextet {
    b0 % 4 * 16 + b1 / 16
  }

  function Group2(b1: Byte, b2: Byte): Sextet {
    b1 % 16 * 4 + b2 / 64
  }

  function Byte0(g0: Sextet, g1: Sextet): Byte {
    var high: int, low: int := g0, g1;
    high * 4 + low / 16
  }

  function Byte1(g1: Sextet, g2: Sextet): Byte {
    var high: int, low: int := g1, g2;
    high % 16 * 16 + low / 4
  }

  function Byte2(g2: Sextet, g3: Sextet): Byte {
    var high: int, low: int := g2, g3;
    high % 4 * 64 + low
  }

  lemma Regroup(b0: Byte, b1: Byte, b2: Byte)
    ensures Byte0(b0 / 4, Group1(b0, b1)) == b0
    ensures Byte1(Group1(b0, b1), Group2(b1, b2)) == b1
    ensures Byte2(Group2(b1, b2), b2 % 64) == b2
  {
  }

  /** Three bytes give four groups; one or two left over give two or three, zero-filled. */
  function Split(raw: Text): seq<Sextet> {
    if |raw| == 0 then []
    else if |raw| == 1 then [raw[0] / 4, Group1(raw[0], 0)]
    else if |raw| == 2 then [raw[0] / 4, Group1(raw[0], raw[1]), Group2(raw[1], 0)]
    else [raw[0] / 4, Group1(raw[0], raw[1]), Group2(raw[1], raw[2]), raw[2] % 64] + Split(raw[3..])
  }

  /** Bits beyond the last whole byte are not looked at. */
  function Join(g: seq<Sextet>): Text {
    if |g| <= 1 then []
    else if |g| == 2 then [Byte0(g[0], g[1])]
    else if |g| == 3 then [Byte0(g[0], g[1]), Byte1(g[1], g[2])]
    else [Byte0(g[0], g[1]), Byte1(g[1], g[2]), Byte2(g[2], g[3])] + Join(g[4..])
  }

  lemma JoinSplitOne(b0: Byte)
    ensures Join(Split([b0])) == [b0]
  {
    Regroup(b0, 0, 0);
    assert Split([b0]) == [b0 / 4, Group1(b0, 0)];
  }

  lemma JoinSplitTwo(b0: Byte, b1: Byte)
    ensures Join(Split([b0, b1])) == [b0, b1]
  {
    Regroup(b0, b1, 0);
    assert Split([b0, b1]) == [b0 / 4, Group1(b0, b1), Group2(b1, 0)];
  }

  lemma {:induction false} JoinSplit(raw: Text)
    ensures Join(Split(raw)) == raw
  {
    if |raw| == 1 {
      JoinSplitOne(raw[0]);
      assert raw == [raw[0]];
    } else if |raw| == 2 {
      JoinSplitTwo(raw[0], raw[1]);
      assert raw == [raw[0], raw[1]];
    } else if |raw| >= 3 {
      JoinSplit(raw[3..]);
      Regroup(raw[0], raw[1], raw[2]);
      assert Split(raw)[4..] == Split(raw[3..]);
      assert raw == [raw[0], raw[1], raw[2]] + raw[3..];
    }
  }

  /** Padding that completes the last quantum of four. */
  function Padding(raw: Text): Text {
    if |raw| % 3 == 1 then [PAD, PAD] else if |raw| % 3 == 2 then [PAD] else []
  }

  lemma {:induction false} SplitLength(raw: Text)
    ensures (|Split(raw)| + |Padding(raw)|) % 4 == 0
  {
    if |raw| < 3 {
    } else {
      SplitLength(raw[3..]);
      assert |Split(raw)| == 4 + |Split(raw[3..])|;
      assert |raw| % 3 == |raw[3..]| % 3;
    }
  }

  // ---------------------------------------------------------------------------
  // Groups and symbols
  // ---------------------------------------------------------------------------

  /** The symbols of an encoding, by value: all different, none of them padding or a break. */
  predicate IsAlphabet(symbols: Text) {
    && |symbols| == 64
    && (forall i, j | 0 <= i < j < 64 :: symbols[i] != symbols[j])
    && forall i | 0 <= i < 64 :: symbols[i] != PAD && symbols[i] != CR && symbols[i] != LF
  }

  /** A-Z, a-z, 0-9, '-' and '_'. */
  function UrlSymbol(v: Sextet): Byte {
    if v < 26 then 'A' as int + v
    else if v < 52 then 'a' as int + v - 26
    else if v < 62 then '0' as int + v - 52
    else if v == 62 then '-' as int
    else '_' as int
  }

  function Url(): (symbols: Text)
    ensures IsAlphabet(symbols)
    ensures forall v | 0 <= v < 64 ::
              || 'A' as int <= symbols[v] <= 'Z' as int || 'a' as int <= symbols[v] <= 'z' as int
              || '0' as int <= symbols[v] <= '9' as int || symbols[v] == '-' as int || symbols[v] == '_' as int
  {
    seq(64, v requires 0 <= v < 64 => UrlSymbol(v))
  }

  /** The value of a symbol, found by scanning the alphabet. */
  function FindSymbol(symbols: Text, b: Byte, n: nat): (v: Option<Sextet>)
    requires n <= |symbols| == 64
    ensures v.Some? ==> symbols[v.value] == b
    ensures v.None? ==> forall i | 0 <= i < n :: symbols[i] != b
  {
    if n == 0 then None else if symbols[n - 1] == b then Some(n - 1) else FindSymbol(symbols, b, n - 1)
  }

  function Value(symbols: Text, b: Byte): Option<Sextet>
    requires IsAlphabet(symbols)
  {
    FindSymbol(symbols, b, 64)
  }

  function Show(symbols: Text, g: seq<Sextet>): (r: Text)
    requires IsAlphabet(symbols)
    ensures |r| == |g| && forall i | 0 <= i < |g| :: r[i] == symbols[g[i]]
  {
    seq(|g|, i requires 0 <= i < |g| => symbols[g[i]])
  }

  function ReadSymbols(symbols: Text, text: Text): Option<seq<Sextet>>
    requires IsAlphabet(symbols)
  {
    if text == [] then Some([])
    else
      match (Value(symbols, text[0]), ReadSymbols(symbols, text[1..]))
      case (Some(v), Some(rest)) => Some([v] + rest)
      case _ => None
  }

  lemma SymbolValue(symbols: Text, v: Sextet)
    requires IsAlphabet(symbols)
    ensures Value(symbols, symbols[v]) == Some(v)
  {
    var found := FindSymbol(symbols, symbols[v], 64);
    assert found.Some? && symbols[found.value] == symbols[v];
  }

  lemma {:induction false} ReadShown(symbols: Text, g: seq<Sextet>)
    requires IsAlphabet(symbols)
    ensures ReadSymbols(symbols, Show(symbols, g)) == Some(g)
  {
    if g == [] {
    } else {
      ReadShown(symbols, g[1..]);
      assert Show(symbols, g)[1..] == Show(symbols, g[1..]);
      SymbolValue(symbols, g[0]);
      assert g == [g[0]] + g[1..];
    }
  }

  // ---------------------------------------------------------------------------
  // Texts
  // ---------------------------------------------------------------------------

  function Encode(symbols: Text, raw: Text): Text
    requires IsAlphabet(symbols)
  {
    Show(symbols, Split(raw)) + Padding(raw)
  }

  /** The decoder skips line breaks wherever they stand. */
  function SkipBreaks(text: Text): Text {
    if text == [] then []
    else if text[0] == CR || text[0] == LF then SkipBreaks(text[1..])
    else [text[0]] + SkipBreaks(text[1..])
  }

  /** At most two padding characters, and only at the end. */
  function StripPadding(text: Text): Text {
    var n := |text|;
    if n >= 2 && text[n - 1] == PAD && text[n - 2] == PAD then text[..n - 2]
    else if n >= 1 && text[n - 1] == PAD then text[..n - 1]
    else text
  }

  function Decode(symbols: Text, text: Text): Option<Text>
    requires IsAlphabet(symbols)
  {
    var quanta := SkipBreaks(text);
    if |quanta| % 4 != 0 then None
    else
      match ReadSymbols(symbols, StripPadding(quanta))
      case None => None
      case Some(g) => Some(Join(g))
  }

  lemma {:induction false} NoBreaks(text: Text)
    requires forall i | 0 <= i < |text| :: text[i] != CR && text[i] != LF
    ensures SkipBreaks(text) == text
  {
    if text == [] {
    } else {
      NoBreaks(text[1..]);
    }
  }

  lemma StripPads(text: Text, pads: Text)
    requires pads == [] || pads == [PAD] || pads == [PAD, PAD]
    requires text != [] ==> text[|text| - 1] != PAD
    ensures StripPadding(text + pads) == text
  {
    assert (text + pads)[..|text|] == text;
  }

  lemma SymbolIsText(symbols: Text, v: Sextet)
    requires IsAlphabet(symbols)
    ensures |symbols| == 64 && symbols[v] != CR && symbols[v] != LF
  {
  }

  lemma {:induction false} ReadOverBreaks(symbols: Text, g: seq<Sextet>, pads: Text)
    requires IsAlphabet(symbols)
    requires pads == [] || pads == [PAD] || pads == [PAD, PAD]
    ensures SkipBreaks(Show(symbols, g) + pads) == Show(symbols, g) + pads
  {
    hide IsAlphabet;
    if g == [] {
      NoBreaks(pads);
      assert Show(symbols, g) + pads == pads;
    } else {
      SymbolIsText(symbols, g[0]);
      ReadOverBreaks(symbols, g[1..], pads);
      assert (Show(symbols, g) + pads)[1..] == Show(symbols, g[1..]) + pads;
    }
  }

  lemma StripShown(symbols: Text, g: seq<Sextet>, pads: Text)
    requires IsAlphabet(symbols)
    requires pads == [] || pads == [PAD] || pads == [PAD, PAD]
    ensures StripPadding(Show(symbols, g) + pads) == Show(symbols, g)
  {
    StripPads(Show(symbols, g), pads);
  }

  lemma DecodeShown(symbols: Text, g: seq<Sextet>, pads: Text)
    requires IsAlphabet(symbols) && (|g| + |pads|) % 4 == 0
    requires pads == [] || pads == [PAD] || pads == [PAD, PAD]
    ensures Decode(symbols, Show(symbols, g) + pads) == Some(Join(g))
  {
    hide SkipBreaks, StripPadding, ReadSymbols, Join, IsAlphabet;
    ReadOverBreaks(symbols, g, pads);
    StripShown(symbols, g, pads);
    ReadShown(symbols, g);
  }

  lemma RoundTrip(symbols: Text, raw: Text)
    requires IsAlphabet(symbols)
    ensures Decode(symbols, Encode(symbols, raw)) == Some(raw)
  {
    SplitLength(raw);
    DecodeShown(symbols, Split(raw), Padding(raw));
    JoinSplit(raw);
  }

  lemma ShowOne(v: Sextet)
    ensures Show(Url(), [v]) == [UrlSymbol(v)]
  {
  }

  lemma OneQuantum(b0: Byte, b1: Byte, b2: Byte)
    ensures Split([b0, b1, b2]) == [b0 / 4, Group1(b0, b1), Group2(b1, b2), b2 % 64]
  {
    assert [b0, b1, b2][3..] == [];
  }

  /** Test vectors of RFC 4648, section 10, and the two symbols of section 5. */
  lemma KnownEncodings()
    ensures Encode(Url(), Ascii("")) == Ascii("")
    ensures Encode(Url(), Ascii("f")) == Ascii("Zg==")
    ensures Encode(Url(), Ascii("fo")) == Ascii("Zm8=")
    ensures Encode(Url(), Ascii("foo")) == Ascii("Zm9v")
    ensures Encode(Url(), [0xfb, 0xff]) == Ascii("-_8=")
  {
    OneQuantum('f' as int, 'o' as int, 'o' as int);
    assert Ascii("foo") == ['f' as int, 'o' as int, 'o' as int];
    assert Split(Ascii("f")) == [25, 32];
    assert Split(Ascii("fo")) == [25, 38, 60];
    assert Split(Ascii("foo")) == [25, 38, 61, 47];
    assert Split([0xfb, 0xff]) == [62, 63, 60];
  }
}
