/**
 * tools/native-js-invocation-site.py: from a UTF-8 byte offset in a captured script to
 * the UTF-16 anchor by which the browser names the function. A digest stands for the
 * text it was taken of, so equal digests mean equal texts.
 */
module InvocationSite {
  import opened Outcomes
  import opened LittleEndian
  import opened Sequences
  import opened Unicode
  import Decimals

  const SITE_LIMIT: nat := 8
  const FILE_LIMIT: nat := 4096
  const PAREN: Byte := 0x28
  const BOM: seq<Byte> := [0xEF, 0xBB, 0xBF]

  datatype SiteError = ArtifactId | NotUtf8 | Outside | Boundary | NotParen | Count | Duplicate | FileSize

  /** `source` is the UTF-16 text whose digest the browser computes, without a byte order mark. */
  datatype Site = Site(anchor: nat, artifactId: string, artifact: seq<Byte>, byteOffset: int, source: seq<Unit>) {
    function SourceLength(): nat { |source| }
  }

  function BomLength(raw: seq<Byte>): nat { if BOM <= raw then 3 else 0 }

  function WithoutBom(text: seq<nat>): seq<nat> { if text != [] && text[0] == 0xFEFF then text[1..] else text }

  function SiteFromBytes(raw: seq<Byte>, artifactId: string, byteOffset: int): Result<Site, SiteError> {
    if !Decimals.CanonicalId(artifactId) then Refused(ArtifactId)
    else match Decode(raw)
      case None => Refused(NotUtf8)
      case Some(decoded) =>
        var bom, text := BomLength(raw), WithoutBom(decoded);
        if !(bom <= byteOffset < |raw|) then Refused(Outside)
        else match Decode(raw[bom..byteOffset])
          case None => Refused(Boundary)
          case Some(prefix) =>
            assert |prefix| < |text| && Plain(text) && Plain(prefix) by { Located(raw, byteOffset); }
            if text[|prefix|] != PAREN then Refused(NotParen)
            else Ok(Site(|Utf16(prefix)|, artifactId, raw, byteOffset, Utf16(text)))
  }

  predicate Plain(text: seq<nat>) { forall cp | cp in text :: Scalar(cp) }

  lemma MarkDecodes(raw: seq<Byte>)
    ensures Decode(BOM + raw) == match Decode(raw) case None => None case Some(text) => Some([0xFEFF] + text)
  {
    assert Encode(0xFEFF) == BOM;
    FirstOfEncoded(0xFEFF, raw);
    assert (BOM + raw)[3..] == raw;
  }

  lemma MarkIsEncoded()
    ensures Encode(0xFEFF) == BOM
  {
  }

  /** Dropping the mark from the text is dropping its three bytes. */
  lemma BomIsThreeBytes(raw: seq<Byte>)
    requires Decode(raw).Some?
    ensures Decode(raw[BomLength(raw)..]) == Some(WithoutBom(Decode(raw).value))
  {
    hide First, Encode;
    MarkIsEncoded();
    if BOM <= raw {
      MarkDecodes(raw[3..]);
      assert raw == BOM + raw[3..];
      if Decode(raw[3..]).Some? {
        assert ([0xFEFF] + Decode(raw[3..]).value)[1..] == Decode(raw[3..]).value;
      }
    } else {
      assert raw[0..] == raw;
      if raw != [] {
        EncodedIsFirst(raw);
      }
    }
  }

  /** Where a valid offset splits the text, and what is there. */
  lemma Located(raw: seq<Byte>, byteOffset: int)
    requires Decode(raw).Some? && BomLength(raw) <= byteOffset < |raw|
    ensures var text := WithoutBom(Decode(raw).value);
            Plain(text) &&
            match Decode(raw[BomLength(raw)..byteOffset])
            case None => raw[byteOffset] != PAREN
            case Some(prefix) =>
              && prefix <= text && |prefix| < |text| && Plain(prefix)
              && (text[|prefix|] == PAREN <==> raw[byteOffset] == PAREN)
  {
    hide First;
    BomIsThreeBytes(raw);
    var body, i := raw[BomLength(raw)..], byteOffset - BomLength(raw);
    assert body[i] == raw[byteOffset] && body[..i] == raw[BomLength(raw)..byteOffset];
    DecodedIsScalar(body);
    if Decode(body[..i]) == None {
      if raw[byteOffset] == PAREN {
        AsciiStartsACharacter(body, i);
      }
    } else {
      var prefix := Decode(body[..i]).value;
      DecodedIsScalar(body[..i]);
      assert body == body[..i] + body[i..];
      DecodeSplit(body[..i], body[i..]);
      FirstIsAscii(body[i..], PAREN);
    }
  }

  lemma FirstIsNoContinuation(bytes: seq<Byte>)
    ensures First(bytes).Some? ==> !Continues(bytes[0])
  {
  }

  /** Valid text can be cut exactly in front of the bytes that do not continue a character. */
  lemma {:induction false} CutExactly(bytes: seq<Byte>, i: nat)
    requires Decode(bytes).Some? && i < |bytes|
    ensures Decode(bytes[..i]).Some? <==> !Continues(bytes[i])
    decreases |bytes|
  {
    hide First, Continues;
    if Decode(bytes[..i]).Some? {
      assert bytes == bytes[..i] + bytes[i..];
      DecodeSplit(bytes[..i], bytes[i..]);
      FirstIsNoContinuation(bytes[i..]);
    }
    if i > 0 && !Continues(bytes[i]) {
      var d := First(bytes).value;
      InsideContinues(bytes, i);
      CutExactly(bytes[d.width..], i - d.width);
      FirstOfShorter(bytes, i);
      assert bytes[..i][d.width..] == bytes[d.width..][..i - d.width];
    }
  }

  /**
   * Every refusal by the first reason there is: an ID that is not canonical, bytes that
   * are not UTF-8, an offset outside the text behind its mark, one inside a character, and
   * one at any other character than the parenthesis.
   */
  lemma RefusedForTheFirstReason(raw: seq<Byte>, artifactId: string, byteOffset: int)
    ensures var r := SiteFromBytes(raw, artifactId, byteOffset);
            if !Decimals.CanonicalId(artifactId) then r == Refused(ArtifactId)
            else if Decode(raw).None? then r == Refused(NotUtf8)
            else if byteOffset < BomLength(raw) || |raw| <= byteOffset then r == Refused(Outside)
            else if 0x80 <= raw[byteOffset] <= 0xBF then r == Refused(Boundary)
            else if raw[byteOffset] != 0x28 then r == Refused(NotParen)
            else
              r.Ok? && r.value.artifactId == artifactId && r.value.artifact == raw && r.value.byteOffset == byteOffset
  {
    hide First, Decode, Utf16, Decimals.CanonicalId;
    if Decode(raw).Some? && BomLength(raw) <= byteOffset < |raw| {
      var body, i := raw[BomLength(raw)..], byteOffset - BomLength(raw);
      Located(raw, byteOffset);
      BomIsThreeBytes(raw);
      CutExactly(body, i);
      assert body[i] == raw[byteOffset] && body[..i] == raw[BomLength(raw)..byteOffset];
    }
  }

  /**
   * For valid text and a canonical ID an offset is accepted exactly when the byte there,
   * behind any byte order mark, is `(`.
   */
  lemma AcceptedExactlyAtParens(raw: seq<Byte>, artifactId: string, byteOffset: int)
    requires Decode(raw).Some? && Decimals.CanonicalId(artifactId)
    ensures SiteFromBytes(raw, artifactId, byteOffset).Ok?
       <==> BomLength(raw) <= byteOffset < |raw| && raw[byteOffset] == PAREN
  {
    hide First, Decode, Utf16;
    if BomLength(raw) <= byteOffset < |raw| {
      Located(raw, byteOffset);
    }
  }

  /** The browser finds `(` at the anchor, inside the source. */
  lemma AnchorIsAParen(raw: seq<Byte>, artifactId: string, byteOffset: int)
    ensures var r := SiteFromBytes(raw, artifactId, byteOffset);
            r.Ok? ==> r.value.anchor < r.value.SourceLength() && r.value.source[r.value.anchor] == PAREN
  {
    hide First, Decode;
    if SiteFromBytes(raw, artifactId, byteOffset).Ok? {
      Located(raw, byteOffset);
      var text := WithoutBom(Decode(raw).value);
      var prefix := Decode(raw[BomLength(raw)..byteOffset]).value;
      assert text == prefix + text[|prefix|..];
      Utf16Split(prefix, text[|prefix|..]);
    }
  }

  /** A longer valid prefix has more units. */
  lemma PrefixesGrow(prefix: seq<Byte>, more: seq<Byte>)
    requires Decode(prefix).Some? && Decode(prefix + more).Some? && more != []
    ensures Plain(Decode(prefix).value) && Plain(Decode(prefix + more).value)
    ensures |Utf16(Decode(prefix).value)| < |Utf16(Decode(prefix + more).value)|
  {
    hide First;
    DecodedIsScalar(prefix + more);
    DecodeSplit(prefix, more);
    var text := Decode(more).value;
    Utf16Split(Decode(prefix).value, text);
    assert text != [] && |Utf16(text)| > 0;
  }

  /** A later accepted offset has a later anchor. */
  lemma AnchorsIncrease(raw: seq<Byte>, artifactId: string, a: int, b: int)
    requires SiteFromBytes(raw, artifactId, a).Ok? && SiteFromBytes(raw, artifactId, b).Ok? && a < b
    ensures SiteFromBytes(raw, artifactId, a).value.anchor < SiteFromBytes(raw, artifactId, b).value.anchor
  {
    hide Decode, Utf16;
    var bom := BomLength(raw);
    assert raw[bom..b] == raw[bom..a] + raw[a..b];
    PrefixesGrow(raw[bom..a], raw[a..b]);
  }

  /** What must differ between the sites of a file. */
  function Key(site: Site): (seq<Unit>, nat) { (site.source, site.anchor) }

  /** Two sites of one artifact have the same key only at the same offset. */
  lemma SitesOfOneArtifactAreApart(raw: seq<Byte>, artifactId: string, otherId: string, a: int, b: int)
    requires SiteFromBytes(raw, artifactId, a).Ok? && SiteFromBytes(raw, otherId, b).Ok?
    ensures Key(SiteFromBytes(raw, artifactId, a).value) == Key(SiteFromBytes(raw, otherId, b).value) <==> a == b
  {
    hide Decode, Utf16, Decimals.CanonicalId;
    assert SiteFromBytes(raw, otherId, a).Ok?
      && SiteFromBytes(raw, otherId, a).value.anchor == SiteFromBytes(raw, artifactId, a).value.anchor;
    if a < b {
      AnchorsIncrease(raw, otherId, a, b);
    } else if b < a {
      AnchorsIncrease(raw, otherId, b, a);
    }
  }

  /** A byte order mark moves the byte offset and nothing the browser compares. */
  lemma ByteOrderMarkKeepsTheKey(raw: seq<Byte>, artifactId: string, byteOffset: int)
    requires SiteFromBytes(raw, artifactId, byteOffset).Ok? && !(BOM <= raw)
    ensures SiteFromBytes(BOM + raw, artifactId, byteOffset + 3).Ok?
    ensures Key(SiteFromBytes(BOM + raw, artifactId, byteOffset + 3).value)
         == Key(SiteFromBytes(raw, artifactId, byteOffset).value)
  {
    hide First, Decode, Utf16;
    var marked := BOM + raw;
    MarkDecodes(raw);
    BomIsThreeBytes(raw);
    assert raw[0..] == raw;
    AcceptedExactlyAtParens(raw, artifactId, byteOffset);
    AcceptedExactlyAtParens(marked, artifactId, byteOffset + 3);
    assert marked[byteOffset + 3] == raw[byteOffset];
    assert marked[3..byteOffset + 3] == raw[0..byteOffset];
  }

  function Keys(sites: seq<Site>): (keys: seq<(seq<Unit>, nat)>)
    ensures |keys| == |sites|
    ensures forall i | 0 <= i < |sites| :: keys[i] == Key(sites[i])
  {
    seq(|sites|, i requires 0 <= i < |sites| => Key(sites[i]))
  }

  /** `length` is the size of the JSON a list of sites renders to. */
  function SitesText(sites: seq<Site>, length: nat): Result<nat, SiteError> {
    if !(1 <= |sites| <= SITE_LIMIT) then Refused(Count)
    else if |SetOf(Keys(sites))| != |sites| then Refused(Duplicate)
    else if length > FILE_LIMIT then Refused(FileSize)
    else Ok(length)
  }

  /** A file is written exactly for one to eight sites, no two of one function, that fit. */
  lemma SitesAreDistinctFunctions(sites: seq<Site>, length: nat)
    ensures SitesText(sites, length).Ok?
       <==> && 1 <= |sites| <= SITE_LIMIT && length <= FILE_LIMIT
            && forall i, j | 0 <= i < j < |sites| :: Key(sites[i]) != Key(sites[j])
  {
    hide Key;
    AsManyAsPlaces(Keys(sites));
    assert forall i | 0 <= i < |sites| :: Keys(sites)[i] == Key(sites[i]);
  }
}
