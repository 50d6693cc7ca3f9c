/**
 The worked example of the front-matter filter, carried through the whole
 pipeline: the text is split on commas, each piece is trimmed, and repeats
 and names off the allow-list are dropped.
 */

/**
 The example text, spelled out one character at a time. The module imports
 nothing, so the literal never meets `Split` or `Trim`: next to those
 recursive functions a string literal makes the verifier unfold them on the
 literal, which is costly. The spelling is read off the literal a few
 characters per lemma because each such lookup walks the literal's
 construction, and a single lemma for all 29 characters is expensive; the
 rest of the proof uses only the character facts.
 */
module ExampleText {
  /** The worked example's text, character by character. */
  predicate SpellsExample(raw: string) {
    && |raw| == 29
    && raw[0] == 'i' && raw[1] == 'd' && raw[2] == ','
    && raw[3] == ' ' && raw[4] == 'n' && raw[5] == 'a' && raw[6] == 'm' && raw[7] == 'e' && raw[8] == ','
    && raw[9] == ' ' && raw[10] == 'i' && raw[11] == 'd' && raw[12] == ','
    && raw[13] == ' ' && raw[14] == 'b' && raw[15] == 'o' && raw[16] == 'g' && raw[17] == 'u' && raw[18] == 's'
    && raw[19] == ','
    && raw[20] == ' ' && raw[21] == 'd' && raw[22] == 'i' && raw[23] == 's' && raw[24] == 't'
    && raw[25] == 'a' && raw[26] == 'n' && raw[27] == 'c' && raw[28] == 'e'
  }

  lemma ExampleSpelling(raw: string)
    requires raw == "id, name, id, bogus, distance"
    ensures SpellsExample(raw)
  {
    ExampleSpellingId(raw);
    ExampleSpellingName(raw);
    ExampleSpellingSecondId(raw);
    ExampleSpellingBack(raw);
  }

  lemma ExampleSpellingId(raw: string)
    requires raw == "id, name, id, bogus, distance"
    ensures raw[0] == 'i' && raw[1] == 'd' && raw[2] == ','
  {
  }

  lemma ExampleSpellingName(raw: string)
    requires raw == "id, name, id, bogus, distance"
    ensures raw[3] == ' ' && raw[4] == 'n' && raw[5] == 'a' && raw[6] == 'm' && raw[7] == 'e' && raw[8] == ','
  {
  }

  lemma ExampleSpellingSecondId(raw: string)
    requires raw == "id, name, id, bogus, distance"
    ensures raw[9] == ' ' && raw[10] == 'i' && raw[11] == 'd' && raw[12] == ','
  {
  }

  lemma ExampleSpellingBack(raw: string)
    requires raw == "id, name, id, bogus, distance"
    ensures |raw| == 29
    ensures raw[13] == ' ' && raw[14] == 'b' && raw[15] == 'o' && raw[16] == 'g' && raw[17] == 'u' && raw[18] == 's'
    ensures raw[19] == ','
    ensures raw[20] == ' ' && raw[21] == 'd' && raw[22] == 'i' && raw[23] == 's' && raw[24] == 't'
    ensures raw[25] == 'a' && raw[26] == 'n' && raw[27] == 'c' && raw[28] == 'e'
  {
  }
}

module WorkedExample {
  import opened Text
  import opened SettingsSchema
  import opened FrontMatter
  import opened ExampleText

  /** The worked example: repeats and unknown names are dropped, order is kept. */
  lemma FilterExample(raw: string)
    requires raw == "id, name, id, bogus, distance"
    ensures Filter(raw) == ["id", "name", "distance"]
  {
    ExampleSpelling(raw);
    ExampleShape(raw);
    ExampleWords(raw);
    ExampleCandidates(raw);
    assert Candidates(raw) == ["id", "name", "id", "bogus", "distance"];
    ExampleKeep(["id", "name", "id", "bogus", "distance"]);
  }

  lemma ExampleKeep(c: seq<string>)
    requires c == ["id", "name", "id", "bogus", "distance"]
    ensures KeepFirstAllowed(c) == ["id", "name", "distance"]
  {
    var r := ["id", "name", "distance"];
    ExampleMembers(c, r);
    ExampleOrder(c, r);
    FirstOccurrenceOrderIsUnique(c, KeepFirstAllowed(c), r);
  }

  lemma ExampleMembers(c: seq<string>, r: seq<string>)
    requires c == ["id", "name", "id", "bogus", "distance"]
    requires r == ["id", "name", "distance"]
    ensures forall x :: x in r <==> x in AllowList && x in c
  {
    assert AllowList[0] == "id" && AllowList[2] == "name" && AllowList[8] == "distance";
    assert "bogus" !in AllowList;
    forall x
      ensures x in r <==> x in AllowList && x in c
    {
      assert x in c <==> x == "id" || x == "name" || x == "bogus" || x == "distance";
      assert x in r <==> x == "id" || x == "name" || x == "distance";
    }
  }

  lemma ExampleOrder(c: seq<string>, r: seq<string>)
    requires c == ["id", "name", "id", "bogus", "distance"]
    requires r == ["id", "name", "distance"]
    ensures InFirstOccurrenceOrder(c, r)
  {
    assert IndexOf(c, "id") == 0;
    assert IndexOf(c, "name") == 1;
    assert IndexOf(c, "distance") == 4;
  }

  /**
   The shape of the example text that the split and the trims depend on:
   four separators, five separator-free pieces, and a single space in front
   of every piece after the first.
   */
  predicate ExampleShaped(raw: string) {
    && |raw| == 29
    && raw[2] == Separator && raw[8] == Separator && raw[12] == Separator && raw[19] == Separator
    && Separator !in raw[..2] && Separator !in raw[3..8] && Separator !in raw[9..12]
    && Separator !in raw[13..19] && Separator !in raw[20..]
    && raw[3] == ' ' && raw[9] == ' ' && raw[13] == ' ' && raw[20] == ' '
    && IsTrimmed(raw[..2]) && IsTrimmed(raw[4..8]) && IsTrimmed(raw[10..12])
    && IsTrimmed(raw[14..19]) && IsTrimmed(raw[21..])
  }

  lemma ExampleShape(raw: string)
    requires SpellsExample(raw)
    ensures ExampleShaped(raw)
  {
  }

  lemma ExampleWords(raw: string)
    requires SpellsExample(raw)
    ensures raw[..2] == "id" && raw[4..8] == "name" && raw[10..12] == "id"
    ensures raw[14..19] == "bogus" && raw[21..] == "distance"
  {
  }

  lemma ExampleCandidates(raw: string)
    requires ExampleShaped(raw)
    ensures Candidates(raw) == [raw[..2], raw[4..8], raw[10..12], raw[14..19], raw[21..]]
  {
    ExamplePieces(raw);
    ExampleTrims(raw);
    var c := Candidates(raw);
    assert c[0] == raw[..2] && c[1] == raw[4..8] && c[2] == raw[10..12] && c[3] == raw[14..19] && c[4] == raw[21..];
  }

  lemma ExamplePieces(raw: string)
    requires ExampleShaped(raw)
    ensures Split(raw, Separator) == [raw[..2], raw[3..8], raw[9..12], raw[13..19], raw[20..]]
  {
    assert raw[0..] == raw;
    SplitFrom(raw, 0, 2, Separator);
    SplitFrom(raw, 3, 8, Separator);
    SplitFrom(raw, 9, 12, Separator);
    SplitFrom(raw, 13, 19, Separator);
    SplitWithoutSeparator(raw[20..], Separator);
  }

  lemma ExampleTrims(raw: string)
    requires ExampleShaped(raw)
    ensures Trim(raw[..2]) == raw[..2] && Trim(raw[3..8]) == raw[4..8] && Trim(raw[9..12]) == raw[10..12]
    ensures Trim(raw[13..19]) == raw[14..19] && Trim(raw[20..]) == raw[21..]
  {
    assert raw[20..29] == raw[20..] && raw[21..29] == raw[21..];
    TrimIsIdentityIffTrimmed(raw[..2]);
    SpacedPiece(raw, 3, 8);
    SpacedPiece(raw, 9, 12);
    SpacedPiece(raw, 13, 19);
    SpacedPiece(raw, 20, 29);
  }

  lemma SpacedPiece(raw: string, i: nat, j: nat)
    requires i + 1 < j <= |raw| && raw[i] == ' ' && IsTrimmed(raw[i + 1..j])
    ensures Trim(raw[i..j]) == raw[i + 1..j]
  {
    assert raw[i..j][1..] == raw[i + 1..j];
    TrimOneSpace(raw[i..j]);
  }
}
