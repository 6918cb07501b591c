/** The pagination cursor: base64url of "<RFC 3339 time>|<id>". */
module Cursor {
  import opened Common
  import opened Timestamp
  import Base64Url

  const BAR: Byte := '|' as int

  /** The instant has a four-digit year in the zone it is rendered in. */
  predicate Representable(t: Instant, offset: int) {
    ValidOffset(offset) && InRange(t + offset * MINUTE)
  }

  /** The instant's calendar reading in its zone. */
  function Reading(t: Instant, offset: int): (c: Civil)
    requires Representable(t, offset)
    ensures ValidCivil(c) && LocalNanos(c) == t + offset * MINUTE
  {
    CivilRoundTrip(t + offset * MINUTE);
    ToCivil(t + offset * MINUTE)
  }

  /** The text inside the cursor. */
  function Raw(c: Civil, offset: int, id: Text): (raw: Text)
    requires ValidCivil(c) && ValidOffset(offset)
    ensures raw != []
  {
    Format(c, offset) + [BAR] + id
  }

  function Encode(t: Instant, offset: int, id: Text): Text
    requires Representable(t, offset)
  {
    Base64Url.Encode(Base64Url.Url(), Raw(Reading(t, offset), offset, id))
  }

  /** The position of the first bar, or the length. */
  function FindBar(raw: Text): (n: nat)
    ensures n <= |raw| && (n < |raw| ==> raw[n] == BAR)
  {
    if raw == [] || raw[0] == BAR then 0 else 1 + FindBar(raw[1..])
  }

  function DecodeRaw(raw: Text): Option<(Instant, Text)> {
    var n := FindBar(raw);
    if n == |raw| then None
    else
      match Parse(raw[..n])
      case None => None
      case Some((c, offset)) => Some((LocalNanos(c) - offset * MINUTE, raw[n + 1..]))
  }

  function Decode(cursor: Text): Option<(Instant, Text)> {
    match Base64Url.Decode(Base64Url.Url(), cursor)
    case None => None
    case Some(raw) => DecodeRaw(raw)
  }

  lemma FormatHasNoBar(c: Civil, offset: int)
    requires ValidCivil(c) && ValidOffset(offset)
    ensures BAR !in Format(c, offset)
  {
    assert BAR !in FormatDateTime(c);
    assert BAR !in FormatZone(offset);
    if c.nano > 0 {
      var all := Digits(c.nano, 9);
      var kept := TrimZeros(all);
      assert forall i | 0 <= i < |kept| :: kept[i] == all[i];
    }
    assert BAR !in FormatFraction(c.nano);
  }

  lemma {:induction false} FirstBar(text: Text, id: Text)
    requires BAR !in text
    ensures FindBar(text + [BAR] + id) == |text|
  {
    var raw := text + [BAR] + id;
    if text == [] {
    } else {
      FirstBar(text[1..], id);
      assert raw[1..] == text[1..] + [BAR] + id;
      assert raw[0] == text[0] && text[0] in text;
    }
  }

  lemma DecodeParts(text: Text, id: Text, c: Civil, offset: int)
    requires BAR !in text && 0 <= c.year && 1 <= c.month && Parse(text) == Some((c, offset))
    ensures DecodeRaw(text + [BAR] + id) == Some((LocalNanos(c) - offset * MINUTE, id))
  {
    var raw := text + [BAR] + id;
    FirstBar(text, id);
    assert raw[..|text|] == text && raw[|text| + 1..] == id;
  }

  lemma RawRoundTrip(c: Civil, offset: int, id: Text)
    requires ValidCivil(c) && ValidOffset(offset)
    ensures DecodeRaw(Raw(c, offset, id)) == Some((LocalNanos(c) - offset * MINUTE, id))
  {
    FormatHasNoBar(c, offset);
    FormatRoundTrip(c, offset);
    DecodeParts(Format(c, offset), id, c, offset);
  }

  lemma DecodeEncoded(raw: Text)
    requires raw != []
    ensures Decode(Base64Url.Encode(Base64Url.Url(), raw)) == DecodeRaw(raw)
    ensures Base64Url.Encode(Base64Url.Url(), raw) != []
  {
    Base64Url.RoundTrip(Base64Url.Url(), raw);
  }

  /** Decoding gives back the instant and the id, whatever zone the instant was rendered in
      and whatever the id contains, bars included. */
  lemma RoundTrip(t: Instant, offset: int, id: Text)
    requires Representable(t, offset)
    ensures Decode(Encode(t, offset, id)) == Some((t, id))
    ensures Encode(t, offset, id) != []
  {
    hide Raw, DecodeRaw, Decode;
    var c := Reading(t, offset);
    DecodeEncoded(Raw(c, offset, id));
    RawRoundTrip(c, offset, id);
  }

  /** What a cursor contains: the time's text, a bar and the id. */
  lemma CursorText(t: Instant, offset: int, id: Text)
    requires Representable(t, offset)
    ensures Base64Url.Decode(Base64Url.Url(), Encode(t, offset, id)) ==
            Some(Format(Reading(t, offset), offset) + ['|' as int] + id)
  {
    Base64Url.RoundTrip(Base64Url.Url(), Raw(Reading(t, offset), offset, id));
  }

  /** Different keys have different cursors. */
  lemma Injective(t: Instant, offset: int, id: Text, t': Instant, offset': int, id': Text)
    requires Representable(t, offset) && Representable(t', offset')
    ensures Encode(t, offset, id) == Encode(t', offset', id') ==> t == t' && id == id'
  {
    RoundTrip(t, offset, id);
    RoundTrip(t', offset', id');
  }
}
