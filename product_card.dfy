/**
 * The display helpers of a product card: the condition badge's colour and
 * label, the stock line, the discount badge and the rating label.
 */
module ProductCard {
  import opened Wrappers
  import opened Text

  const GreenBadge := "bg-green-100 text-green-800"
  const BlueBadge := "bg-blue-100 text-blue-800"
  const YellowBadge := "bg-yellow-100 text-yellow-800"
  const OrangeBadge := "bg-orange-100 text-orange-800"
  const RedBadge := "bg-red-100 text-red-800"
  const GrayBadge := "bg-gray-100 text-gray-800"

  /** `getConditionColor`: the badge classes for a condition name. */
  function ConditionColor(condition: string): (r: string)
    ensures r == GrayBadge <==> !KnownCondition(condition)
  {
    match condition
    case "new" => GreenBadge
    case "like-new" => BlueBadge
    case "good" => YellowBadge
    case "fair" => OrangeBadge
    case "poor" => RedBadge
    case _ => GrayBadge
  }

  /** The five condition names. */
  predicate KnownCondition(c: string) {
    c == "new" || c == "like-new" || c == "good" || c == "fair" || c == "poor"
  }

  /**
   * The five conditions get five different colours, none of them gray, and
   * every other string gets gray.
   */
  lemma ConditionColorsDistinct(a: string, b: string)
    ensures KnownCondition(a) && KnownCondition(b) && a != b ==> ConditionColor(a) != ConditionColor(b)
    ensures ConditionColor(a) == GrayBadge <==> !KnownCondition(a)
  {
  }

  /** ``word.charAt(0).toUpperCase() + word.slice(1)``. */
  function Capitalize(word: string): string {
    if word == [] then [] else [UpperChar(word[0])] + word[1..]
  }

  function CapitalizeAll(words: seq<string>): (r: seq<string>)
    ensures |r| == |words|
    ensures forall i :: 0 <= i < |words| ==> r[i] == Capitalize(words[i])
  {
    if words == [] then [] else [Capitalize(words[0])] + CapitalizeAll(words[1..])
  }

  /** `formatCondition`: split on `-`, capitalise each piece, join with spaces. */
  function FormatCondition(condition: string): string {
    Join(CapitalizeAll(Split(condition, '-')), ' ')
  }

  /**
   * The same label written character by character: a `-` becomes a space,
   * and the character at the start or right after a `-` is upper-cased.
   */
  function FormatFrom(s: string, atStart: bool): (r: string)
    ensures |r| == |s|
  {
    if s == [] then []
    else if s[0] == '-' then [' '] + FormatFrom(s[1..], true)
    else [if atStart then UpperChar(s[0]) else s[0]] + FormatFrom(s[1..], false)
  }

  /** Joining pieces of which only the first may be left uncapitalised. */
  function JoinLabel(words: seq<string>, capitalizeFirst: bool): string
    requires |words| >= 1
  {
    Join([if capitalizeFirst then Capitalize(words[0]) else words[0]] + CapitalizeAll(words[1..]), ' ')
  }

  /** Putting a character in front of the first piece puts it in front of the joined string. */
  lemma JoinConsFirst(c: char, w: string, ws: seq<string>, sep: char)
    ensures Join([[c] + w] + ws, sep) == [c] + Join([w] + ws, sep)
  {
    if |ws| > 0 {
      assert ([[c] + w] + ws)[1..] == ws;
      assert ([w] + ws)[1..] == ws;
    }
  }

  /** The split-map-join label is the character-by-character label. */
  lemma {:induction false} JoinLabelIsFormatFrom(s: string, atStart: bool)
    ensures JoinLabel(Split(s, '-'), atStart) == FormatFrom(s, atStart)
  {
    if s != [] {
      var rest := Split(s[1..], '-');
      JoinLabelIsFormatFrom(s[1..], true);
      JoinLabelIsFormatFrom(s[1..], false);
      if s[0] == '-' {
        var ws := [""] + rest;
        assert Split(s, '-') == ws;
        assert ws[1..] == rest;
        assert CapitalizeAll(rest) == [Capitalize(rest[0])] + CapitalizeAll(rest[1..]);
        assert ([""] + CapitalizeAll(rest))[1..] == CapitalizeAll(rest);
        assert JoinLabel(ws, atStart) == [' '] + Join(CapitalizeAll(rest), ' ');
      } else {
        var ws := [[s[0]] + rest[0]] + rest[1..];
        assert Split(s, '-') == ws;
        assert ws[1..] == rest[1..];
        var c := if atStart then UpperChar(s[0]) else s[0];
        assert (if atStart then Capitalize(ws[0]) else ws[0]) == [c] + rest[0];
        JoinConsFirst(c, rest[0], CapitalizeAll(rest[1..]), ' ');
      }
    }
  }

  /** `formatCondition` is the character-by-character label from the start of the string. */
  lemma FormatConditionIsFormatFrom(condition: string)
    ensures FormatCondition(condition) == FormatFrom(condition, true)
  {
    var ws := Split(condition, '-');
    JoinLabelIsFormatFrom(condition, true);
    assert CapitalizeAll(ws) == [Capitalize(ws[0])] + CapitalizeAll(ws[1..]);
  }

  /** The start of a piece: the first position, or right after a `-`. */
  predicate PieceStart(s: string, i: int, atStart: bool)
    requires 0 <= i < |s|
  {
    if i == 0 then atStart else s[i - 1] == '-'
  }

  /** Position by position: `-` becomes a space, a piece's first character is upper-cased, all else is kept. */
  lemma {:induction false} FormatFromAt(s: string, atStart: bool, i: int)
    requires 0 <= i < |s|
    ensures FormatFrom(s, atStart)[i] ==
              if s[i] == '-' then ' '
              else if PieceStart(s, i, atStart) then UpperChar(s[i])
              else s[i]
  {
    if i > 0 {
      FormatFromAt(s[1..], s[0] == '-', i - 1);
    }
  }

  /** The label has the length of the condition name and no `-` in it. */
  lemma FormatConditionShape(condition: string)
    ensures |FormatCondition(condition)| == |condition|
    ensures forall i :: 0 <= i < |condition| ==> FormatCondition(condition)[i] != '-'
  {
    FormatConditionIsFormatFrom(condition);
    forall i | 0 <= i < |condition|
      ensures FormatCondition(condition)[i] != '-'
    {
      FormatFromAt(condition, true, i);
    }
  }

  /** Formatting a label again changes nothing. */
  lemma FormatConditionIdempotent(condition: string)
    ensures FormatCondition(FormatCondition(condition)) == FormatCondition(condition)
  {
    var r := FormatCondition(condition);
    FormatConditionShape(condition);
    FormatConditionIsFormatFrom(condition);
    FormatConditionIsFormatFrom(r);
    forall i | 0 <= i < |r|
      ensures FormatFrom(r, true)[i] == r[i]
    {
      FormatFromAt(r, true, i);
      if i == 0 {
        FormatFromAt(condition, true, 0);
      }
    }
  }

  /** `formatCondition('like-new')` is `'Like New'`. */
  lemma FormatLikeNew()
    ensures FormatCondition("like-new") == "Like New"
  {
    FormatConditionIsFormatFrom("like-new");
    assert FormatFrom("like-new", true) == "Like New";
  }

  /** The decimal digits of `n`, as template literals print a non-negative integer. */
  function Decimal(n: nat): (r: string)
    ensures r != []
    ensures forall i :: 0 <= i < |r| ==> '0' <= r[i] <= '9'
  {
    (if n < 10 then [] else Decimal(n / 10)) + [('0' as int + n % 10) as char]
  }

  /** The number a string of decimal digits denotes. */
  function DigitsValue(s: string): int {
    if s == [] then 0 else 10 * DigitsValue(s[..|s| - 1]) + (s[|s| - 1] as int - '0' as int)
  }

  /** Reading the printed digits back gives the number. */
  lemma {:induction false} DecimalValue(n: nat)
    ensures DigitsValue(Decimal(n)) == n
  {
    var r := Decimal(n);
    assert r[..|r| - 1] == if n < 10 then [] else Decimal(n / 10);
    if n >= 10 {
      DecimalValue(n / 10);
    }
  }

  /** The card's stock line. */
  function StockText(stock: int): string {
    if stock > 0 then "\U{2713} Available (" + Decimal(stock) + " left)" else "\U{2717} Sold Out"
  }

  /** The stock line reads "Available" with the count exactly when there is stock, and "Sold Out" otherwise. */
  lemma StockTextCases(stock: int)
    ensures stock > 0 ==> StockText(stock) == "\U{2713} Available (" + Decimal(stock) + " left)" && DigitsValue(Decimal(stock)) == stock
    ensures stock <= 0 <==> StockText(stock) == "\U{2717} Sold Out"
  {
    if stock > 0 {
      DecimalValue(stock);
      assert StockText(stock)[0] == '\U{2713}';
    }
  }

  /** `originalPrice && …`: the discount badge and the struck-out price show only for a present, non-zero original price. */
  predicate ShowsDiscount(originalPrice: Option<real>) {
    originalPrice.Some? && originalPrice.value != 0.0
  }

  /**
   * The badge's `… % OFF` figure before `Math.round`: the saving as a
   * percentage of the original price, or no badge at all.
   */
  function DiscountPercent(originalPrice: Option<real>, price: real): (r: Option<real>)
    ensures r.Some? <==> ShowsDiscount(originalPrice)
    ensures originalPrice == None || originalPrice == Some(0.0) ==> r == None
  {
    if ShowsDiscount(originalPrice) then Some((originalPrice.value - price) / originalPrice.value * 100.0) else None
  }

  /** Multiplying by a positive number keeps the sign. */
  lemma ScaleSign(x: real, y: real)
    requires y > 0.0
    ensures x * y > 0.0 <==> x > 0.0
    ensures x * y == 0.0 <==> x == 0.0
  {
    if x > 0.0 {
      assert x * y > 0.0 * y;
    } else if x < 0.0 {
      assert x * y < 0.0 * y;
    }
  }

  /**
   * For a positive original price the figure is 100 at a zero price, strictly
   * between 0 and 100 below the original price, 0 at it, and negative above it
   * (the badge then reads as a negative discount).
   */
  lemma DiscountBounds(original: real, price: real)
    requires original > 0.0 && price >= 0.0
    ensures DiscountPercent(Some(original), price).Some?
    ensures var d := DiscountPercent(Some(original), price).value;
      && (price == 0.0 ==> d == 100.0)
      && (0.0 < price < original ==> 0.0 < d < 100.0)
      && (price == original ==> d == 0.0)
      && (price > original ==> d < 0.0)
  {
    var q := (original - price) / original;
    assert q * original == original - price;
    ScaleSign(q, original);
    ScaleSign(1.0 - q, original);
    assert (1.0 - q) * original == price;
  }

  /** What the rating line shows: the average, or "No reviews". */
  datatype RatingLabel = Stars(average: real) | NoReviews

  function RatingLabelOf(averageRating: real): (r: RatingLabel)
    ensures r == NoReviews <==> averageRating <= 0.0
    ensures r.Stars? ==> r.average == averageRating
  {
    if averageRating > 0.0 then Stars(averageRating) else NoReviews
  }
}
