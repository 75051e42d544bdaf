/**
 * Minted ids are well-formed: what `mintId` gives passes the check of its format, and is a claim id that reads back.
 */
module MintedIds {
  import opened JsString
  import opened Standing
  import opened Uuidv7

  predicate IsHex(c: char) {
    '0' <= c <= '9' || 'a' <= c <= 'f'
  }

  predicate IsDash(i: nat) {
    i in {8, 13, 18, 23}
  }

  /** `isUuidV7`: groups of eight, four, four, four and twelve, with the version and variant digits in their places. */
  predicate IsUuidV7(s: string) {
    && |s| == 36 && s[14] == '7' && s[19] in {'8', '9', 'a', 'b'}
    && forall i :: 0 <= i < 36 ==> if IsDash(i) then s[i] == '-' else IsHex(s[i])
  }

  /** Which hexadecimal digit stands at a place of the text. */
  function DigitAt(i: nat): nat
    requires i < 36 && !IsDash(i)
  {
    if i < 8 then i else if i < 13 then i - 1 else if i < 18 then i - 2 else if i < 23 then i - 3 else i - 4
  }

  lemma TextAt(b: seq<int>, i: nat)
    requires |b| == 16 && (forall k :: 0 <= k < 16 ==> 0 <= b[k] < 256) && i < 36
    ensures Shown(b)[i] == if IsDash(i) then '-' else Hex(b)[DigitAt(i)]
  {
    hide Hex;
  }

  /** Both digits of octet `j`. */
  lemma DigitsAreHex(b: seq<int>, j: nat)
    requires (forall i :: 0 <= i < |b| ==> 0 <= b[i] < 256) && j < |b|
    ensures Hex(b)[2 * j] == HexDigit(b[j] / 16) && IsHex(Hex(b)[2 * j]) && IsHex(Hex(b)[2 * j + 1])
  {
    hide Hex;
  }

  lemma EveryDigitIsHex(b: seq<int>, k: nat)
    requires (forall i :: 0 <= i < |b| ==> 0 <= b[i] < 256) && k < 2 * |b|
    ensures IsHex(Hex(b)[k])
  {
    hide Hex, IsHex, HexDigit;
    var j := k / 2;
    DigitsAreHex(b, j);
    assert k == 2 * j || k == 2 * j + 1;
  }

  /** The text of sixteen octets has the format exactly when these carry the version and the variant. */
  lemma FormatIff(b: seq<int>)
    requires |b| == 16 && forall k :: 0 <= k < 16 ==> 0 <= b[k] < 256
    ensures IsUuidV7(Shown(b)) <==> b[6] / 16 == 7 && b[8] / 64 == 2
  {
    hide Hex, Shown, IsHex;
    forall i | 0 <= i < 36
      ensures if IsDash(i) then Shown(b)[i] == '-' else IsHex(Shown(b)[i])
    {
      TextAt(b, i);
      if !IsDash(i) {
        EveryDigitIsHex(b, DigitAt(i));
      }
    }
    TextAt(b, 14);
    TextAt(b, 19);
    DigitsAreHex(b, 6);
    DigitsAreHex(b, 8);
    Marks(b[6], b[8]);
  }

  lemma Marks(version: int, variant: int)
    requires 0 <= version < 256 && 0 <= variant < 256
    ensures HexDigit(version / 16) == '7' <==> version / 16 == 7
    ensures HexDigit(variant / 16) in {'8', '9', 'a', 'b'} <==> variant / 64 == 2
  {
  }

  lemma WellFormed(s: string)
    requires IsUuidV7(s)
    ensures IsClaimId(s)
  {
    forall i | 0 <= i < |s|
      ensures IsIdChar(s[i])
    {
      assert if IsDash(i) then s[i] == '-' else IsHex(s[i]);
    }
  }

  /** A minted id has the format, and the commit that admits it gives it back. */
  lemma MintedIdComesBack(b: seq<int>, time: nat, r: seq<Byte>, blob: string, parent: Option<Commit>, timestamp: int)
    requires IsV7(b, time, r)
    ensures IsUuidV7(Shown(b)) && ClaimIdOf(Admission(Shown(b), blob, parent, timestamp)) == Some(Shown(b))
  {
    hide Shown, Value, IsUuidV7, Admission, ClaimIdOf, IsClaimId;
    FormatIff(b);
    WellFormed(Shown(b));
    ClaimIdComesBackIff(Shown(b), blob, parent, timestamp);
  }
}
