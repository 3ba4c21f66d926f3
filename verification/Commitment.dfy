/**
 Commit-reveal.  The published commitment is a hash of the text "offset:salt";
 the hash itself is a parameter, and what must be proved is that the text
 determines both halves.
 */
module Commitment {

  datatype Duration = FiveMinutes | FifteenMinutes

  datatype Range = Range(low: int, high: int)

  /** Absolute offset range in basis points. */
  function OffsetRange(d: Duration): Range
  {
    match d
    case FiveMinutes => Range(5, 15)
    case FifteenMinutes => Range(15, 40)
  }

  /** The random draws behind one commitment: a number below the span, a sign bit, a salt. */
  datatype Draw = Draw(n: nat, signBit: nat, salt: string)

  /** What the random source promises. */
  predicate Drawn(d: Duration, draw: Draw)
  {
    draw.n < OffsetRange(d).high - OffsetRange(d).low + 1 && draw.signBit < 2
  }

  function OffsetOf(d: Duration, draw: Draw): int
  {
    var magnitude := OffsetRange(d).low + draw.n;
    if draw.signBit == 0 then -magnitude else magnitude
  }

  predicate InRange(d: Duration, offset: int)
  {
    var magnitude := if offset < 0 then -offset else offset;
    OffsetRange(d).low <= magnitude <= OffsetRange(d).high
  }

  /** Exactly the offsets of 5 to 15, or of 15 to 40, basis points can be drawn, with either sign. */
  lemma DrawsCoverTheRange(d: Duration, offset: int)
    ensures (exists draw: Draw :: Drawn(d, draw) && OffsetOf(d, draw) == offset) <==> InRange(d, offset)
    ensures InRange(d, offset) <==>
              match d
              case FiveMinutes => 5 <= offset <= 15 || -15 <= offset <= -5
              case FifteenMinutes => 15 <= offset <= 40 || -40 <= offset <= -15
  {
    if InRange(d, offset) {
      var magnitude := if offset < 0 then -offset else offset;
      var draw := Draw(magnitude - OffsetRange(d).low, if offset < 0 then 0 else 1, "");
      assert Drawn(d, draw) && OffsetOf(d, draw) == offset;
    }
  }

  /** Each of them by one number and one sign bit only, so even draws make even offsets. */
  lemma DrawsAreDistinct(d: Duration, x: Draw, y: Draw)
    requires Drawn(d, x) && Drawn(d, y)
    ensures OffsetOf(d, x) == OffsetOf(d, y) <==> x.n == y.n && x.signBit == y.signBit
    ensures OffsetOf(d, x) < 0 <==> x.signBit == 0
  {
  }

  // ---------------------------------------------------------------- the committed text

  function Digit(d: nat): char
    requires d < 10
  {
    '0' + d as char
  }

  function Digits(n: nat): (s: string)
    ensures |s| > 0
  {
    if n < 10 then [Digit(n)] else Digits(n / 10) + [Digit(n % 10)]
  }

  function Decimal(i: int): string
  {
    if i < 0 then "-" + Digits(-i) else Digits(i)
  }

  /** The text that is hashed: "%d:%s". */
  function PreImage(offset: int, salt: string): string
  {
    Decimal(offset) + ":" + salt
  }

  predicate IsDigit(c: char)
  {
    '0' <= c <= '9'
  }

  function Value(s: string): int
  {
    if |s| == 0 then 0 else 10 * Value(s[..|s| - 1]) + (s[|s| - 1] as int - '0' as int)
  }

  lemma {:induction false} DigitsReadBack(n: nat)
    ensures Value(Digits(n)) == n
    ensures forall k :: 0 <= k < |Digits(n)| ==> IsDigit(Digits(n)[k])
  {
    var s := Digits(n);
    if n >= 10 {
      DigitsReadBack(n / 10);
      assert s[..|s| - 1] == Digits(n / 10);
    } else {
      assert s[..0] == "";
    }
  }

  datatype Reading = NotACommitment | Reading(offset: int, salt: string)

  /** Index of the first colon, or the length. */
  function Colon(s: string): (k: nat)
    ensures k <= |s|
    ensures forall j :: 0 <= j < k ==> s[j] != ':'
    ensures k < |s| ==> s[k] == ':'
  {
    if |s| == 0 || s[0] == ':' then 0 else 1 + Colon(s[1..])
  }

  /** Reads a committed text back: the number before the first colon, and all that follows it. */
  function ReadBack(text: string): Reading
  {
    var k := Colon(text);
    if k == |text| then NotACommitment
    else if k > 0 && text[0] == '-' then Reading(-Value(text[1..k]), text[k + 1..])
    else Reading(Value(text[..k]), text[k + 1..])
  }

  /** The text determines the offset and the salt, whatever characters the salt holds. */
  lemma ReadBackPreImage(offset: int, salt: string)
    ensures ReadBack(PreImage(offset, salt)) == Reading(offset, salt)
  {
    var number := Decimal(offset);
    var text := PreImage(offset, salt);
    DigitsReadBack(if offset < 0 then -offset else offset);
    var k := Colon(text);
    assert text[|number|] == ':';
    assert forall j :: 0 <= j < |number| ==> text[j] == number[j] != ':';
    assert k == |number|;
    assert text[k + 1..] == salt;
    assert text[..k] == number;
    if offset < 0 {
      assert text[1..k] == Digits(-offset);
    }
  }

  /** The text of one commitment, letter by letter. */
  lemma PreImageLooksLikeThis()
    ensures PreImage(-12, "af0") == "-12:af0" && PreImage(7, "") == "7:"
  {
    assert Digits(12) == Digits(1) + [Digit(2)];
    assert Digits(1) == [Digit(1)] && Digits(7) == [Digit(7)];
  }

  lemma PreImageIsInjective(offset: int, salt: string, offset': int, salt': string)
    ensures PreImage(offset, salt) == PreImage(offset', salt') <==> offset == offset' && salt == salt'
  {
    ReadBackPreImage(offset, salt);
    ReadBackPreImage(offset', salt');
  }

  // ---------------------------------------------------------------- publishing and verifying

  function CommitHash(hash: string -> string, offset: int, salt: string): string
  {
    hash(PreImage(offset, salt))
  }

  predicate VerifyCommitment(hash: string -> string, offset: int, salt: string, published: string)
  {
    CommitHash(hash, offset, salt) == published
  }

  ghost predicate Injective(hash: string -> string)
  {
    forall a, b :: hash(a) == hash(b) ==> a == b
  }

  /** Under an injective hash a commitment verifies for the committed pair and for no other. */
  lemma OnlyTheCommittedPairVerifies(hash: string -> string, offset: int, salt: string, offset': int, salt': string)
    requires Injective(hash)
    ensures VerifyCommitment(hash, offset', salt', CommitHash(hash, offset, salt))
            <==> offset' == offset && salt' == salt
  {
    PreImageIsInjective(offset, salt, offset', salt');
  }

  // ---------------------------------------------------------------- targets

  /** Prices are integers in 1e-18, so a target is exact in 1e-22: opening * (10000 + offset). */
  const BPS := 10_000

  function ExactTarget(opening: int, offset: int): int
  {
    opening * BPS + opening * offset
  }

  /** The stored target: a NUMERIC(38, 18) column rounds half away from zero. */
  function StoredTarget(opening: int, offset: int): int
  {
    (2 * ExactTarget(opening, offset) + BPS) / (2 * BPS)
  }

  /** A revealed target is positive, on the side of the opening price its sign says, and at the drawn distance. */
  lemma TargetIsOffTheOpening(d: Duration, opening: int, offset: int)
    requires InRange(d, offset) && opening > 0
    ensures ExactTarget(opening, offset) > 0
    ensures offset > 0 <==> ExactTarget(opening, offset) > opening * BPS
    ensures ExactTarget(opening, offset) != opening * BPS
    ensures ExactTarget(opening, offset) - opening * BPS == opening * offset
    ensures ExactTarget(opening, offset) == opening * (10_000 + offset)
  {
    assert opening * (BPS + offset) > 0;
    if offset > 0 {
      assert opening * offset > 0;
    } else {
      assert opening * (-offset) > 0;
      assert opening * (-offset) == -(opening * offset);
    }
  }

  /** The stored target is the exact one if and only if the drawn distance is a whole number of 1e-18 units. */
  lemma StoredTargetIsExactIff(opening: int, offset: int)
    ensures StoredTarget(opening, offset) * BPS == ExactTarget(opening, offset) <==> (opening * offset) % BPS == 0
    ensures -(BPS / 2) <= StoredTarget(opening, offset) * BPS - ExactTarget(opening, offset) <= BPS / 2
    ensures -5_000 < StoredTarget(opening, offset) * 10_000 - (opening * 10_000 + opening * offset) <= 5_000
  {
    RoundsToExactIff(opening, opening * offset);
  }

  /**
   The stored target is positive; it is the opening price itself exactly when half a
   stored digit swallows the drawn distance, which takes a price of 1e-15 or less.
   */
  lemma StoredTargetIsOffTheOpeningIff(d: Duration, opening: int, offset: int)
    requires InRange(d, offset) && opening > 0
    ensures StoredTarget(opening, offset) > 0
    ensures StoredTarget(opening, offset) != opening <==> 2 * (opening * offset) >= BPS || 2 * (opening * offset) < -BPS
    ensures opening > 1_000 ==> StoredTarget(opening, offset) != opening
  {
    DistanceBounds(d, opening, offset);
    RoundsOffTheWhole(opening, opening * offset);
  }

  lemma DistanceBounds(d: Duration, opening: int, offset: int)
    requires InRange(d, offset) && opening > 0
    ensures -40 * opening <= opening * offset
    ensures 5 * opening <= opening * offset || opening * offset <= -5 * opening
  {
    assert opening * (offset + 40) >= 0;
    if offset > 0 {
      assert opening * (offset - 5) >= 0;
    } else {
      assert opening * (-5 - offset) >= 0;
    }
  }

  lemma RoundsOffTheWhole(whole: int, distance: int)
    ensures var stored := (2 * (whole * BPS + distance) + BPS) / (2 * BPS);
            && (stored != whole <==> 2 * distance >= BPS || 2 * distance < -BPS)
            && (whole >= 1 && 2 * distance >= -BPS * whole ==> stored > 0)
  {
  }

  lemma RoundsToExactIff(whole: int, distance: int)
    ensures var exact := whole * BPS + distance;
            var stored := (2 * exact + BPS) / (2 * BPS);
            && (stored * BPS == exact <==> distance % BPS == 0)
            && -(BPS / 2) <= stored * BPS - exact <= BPS / 2
  {
  }
}
