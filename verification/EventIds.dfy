/** Event ids: 32 bytes, written as 64 lowercase hexadecimal digits. Text is given as its bytes. */
module EventIds {
  import opened Domain

  newtype u8 = x: int | 0 <= x < 0x100

  const BYTES: nat := 32

  predicate Canonical(c: u8) {
    0x30 <= c <= 0x39 || 0x61 <= c <= 0x66
  }

  /** The digit for a half byte. */
  function Encode(half: u8): (c: u8)
    requires half < 16
    ensures Canonical(c)
  {
    if half < 10 then 0x30 + half else 0x61 + (half - 10)
  }

  function Decode(c: u8): (half: Option<u8>)
    ensures half.Some? ==> half.value < 16
  {
    if 0x30 <= c <= 0x39 then Some(c - 0x30) else if 0x61 <= c <= 0x66 then Some(c - 0x61 + 10) else None
  }

  lemma DigitsAre(half: u8)
    requires half < 16
    ensures Encode(half) as char == "0123456789abcdef"[half] && Decode(Encode(half)) == Some(half)
  {}

  predicate WellFormedHex(value: seq<u8>) {
    |value| == 2 * BYTES && forall i :: 0 <= i < |value| ==> Canonical(value[i])
  }

  /** The text of some bytes: two digits for each, the high one first. */
  ghost predicate Spells(value: seq<u8>, bytes: seq<u8>) {
    && |value| == 2 * |bytes|
    && forall i :: 0 <= i < |bytes| ==>
                     && value[2 * i] == Encode(bytes[i] / 16)
                     && value[2 * i + 1] == Encode(bytes[i] % 16)
  }

  method ToHex(bytes: seq<u8>) returns (value: seq<u8>)
    requires |bytes| == BYTES
    ensures Spells(value, bytes) && WellFormedHex(value)
  {
    value := [];
    var i := 0;
    while i < |bytes|
      invariant 0 <= i <= |bytes| && Spells(value, bytes[..i])
      invariant forall j :: 0 <= j < |value| ==> Canonical(value[j])
    {
      value := value + [Encode(bytes[i] / 16)];
      value := value + [Encode(bytes[i] % 16)];
      i := i + 1;
    }
    assert bytes[..i] == bytes;
  }

  /** Accepts exactly the canonical texts and returns the one id that each spells. */
  method FromHex(value: seq<u8>) returns (r: Option<seq<u8>>)
    ensures r.Some? <==> WellFormedHex(value)
    ensures r.Some? ==> |r.value| == BYTES && Spells(value, r.value)
  {
    if !WellFormedHex(value) { return None; }
    var bytes := new u8[BYTES];
    var i := 0;
    while i < BYTES
      invariant 0 <= i <= BYTES && bytes.Length == BYTES
      invariant forall j :: 0 <= j < i ==>
                              value[2 * j] == Encode(bytes[j] / 16) && value[2 * j + 1] == Encode(bytes[j] % 16)
    {
      var high, low := Decode(value[2 * i]), Decode(value[2 * i + 1]);
      assert Canonical(value[2 * i]) && Canonical(value[2 * i + 1]);
      bytes[i] := high.value * 16 + low.value;
      i := i + 1;
    }
    r := Some(bytes[..]);
  }

  /** A text spells one id only, and an id has one text only, so each method undoes the other: what `FromHex`
      returns for the text of an id is that id, and `ToHex` gives back every accepted text. */
  lemma SpellingIsUnique(value: seq<u8>, bytes: seq<u8>, other: seq<u8>)
    requires Spells(value, bytes) && Spells(value, other)
    ensures bytes == other
  {}

  lemma TextIsUnique(bytes: seq<u8>, value: seq<u8>, other: seq<u8>)
    requires Spells(value, bytes) && Spells(other, bytes)
    ensures value == other
  {
    forall i | 0 <= i < |value| ensures value[i] == other[i] {
      var j := i / 2;
      assert value[2 * j] == other[2 * j] && value[2 * j + 1] == other[2 * j + 1];
      assert i == 2 * j || i == 2 * j + 1;
    }
  }
}
