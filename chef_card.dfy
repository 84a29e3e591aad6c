/**
 * The values the chef card (src/components/chef/ChefCard.tsx) derives from a
 * chef record: the starting price, the specialty tags and their overflow
 * count, the pluralised experience and review lines, the display name and
 * the placeholder initial shown when there is no profile photo.
 */
module ChefCard {
  import opened Wrappers
  import opened JsText
  import opened Decimal

  datatype ChefPackage = ChefPackage(price: real)

  /** The embedded user relation; the name may come back null. */
  datatype ChefUser = ChefUser(name: Option<string>)

  /** The fields of a chef record the card reads. */
  datatype Chef = Chef(
    experienceYears: int,
    specialties: seq<string>,
    totalReviews: int,
    profileImage: Option<string>,
    user: Option<ChefUser>,
    packages: Option<seq<ChefPackage>>)

  const MaxShownSpecialties: nat := 3

  /** `Math.min(...prices)` over a non-empty list. */
  function MinPrice(prices: seq<real>): (m: real)
    requires prices != []
    ensures forall i :: 0 <= i < |prices| ==> m <= prices[i]
    ensures m in prices
  {
    if |prices| == 1 then prices[0]
    else
      var rest := MinPrice(prices[1..]);
      if prices[0] <= rest then prices[0] else rest
  }

  function Prices(packages: seq<ChefPackage>): (prices: seq<real>)
    ensures |prices| == |packages|
    ensures forall i :: 0 <= i < |packages| ==> prices[i] == packages[i].price
  {
    seq(|packages|, i requires 0 <= i < |packages| => packages[i].price)
  }

  /** `startingPrice`: the cheapest package, or null without packages. */
  function StartingPrice(chef: Chef): (r: Option<real>)
    ensures r.None? <==> chef.packages.None? || chef.packages.value == []
    ensures r.Some? ==> forall p :: p in chef.packages.value ==> r.value <= p.price
    ensures r.Some? ==> exists p :: p in chef.packages.value && r.value == p.price
  {
    match chef.packages
    case None => None
    case Some(packages) =>
      if packages == [] then None
      else
        var prices := Prices(packages);
        var m := MinPrice(prices);
        assert forall p :: p in packages ==> m <= p.price by {
          forall p | p in packages
            ensures m <= p.price
          {
            var i :| 0 <= i < |packages| && packages[i] == p;
            assert prices[i] == p.price;
          }
        }
        var i :| 0 <= i < |prices| && prices[i] == m;
        assert packages[i] in packages && m == packages[i].price;
        Some(m)
  }

  /** The "From …" price line is rendered. */
  predicate ShowsFromPrice(chef: Chef) {
    var price := StartingPrice(chef);
    price.Some? && price.value > 0.0
  }

  /** The price line appears exactly when there are packages and every one of them costs something. */
  lemma ShowsFromPriceIff(chef: Chef)
    ensures ShowsFromPrice(chef) <==>
      chef.packages.Some? && chef.packages.value != []
      && forall p :: p in chef.packages.value ==> p.price > 0.0
  {
    var price := StartingPrice(chef);
    if chef.packages.Some? && chef.packages.value != [] {
      var p :| p in chef.packages.value && price.value == p.price;
    }
  }

  /** The tags rendered: `specialties.slice(0, 3)`, behind a non-empty guard. */
  function ShownSpecialties(chef: Chef): (tags: seq<string>)
    ensures |tags| == if |chef.specialties| < MaxShownSpecialties then |chef.specialties| else MaxShownSpecialties
    ensures tags <= chef.specialties
  {
    if |chef.specialties| > 0 then
      chef.specialties[..if |chef.specialties| < MaxShownSpecialties then |chef.specialties| else MaxShownSpecialties]
    else []
  }

  /** The `+N` marker after the tags. */
  function OverflowLabel(chef: Chef): (r: Option<string>)
    ensures r.Some? <==> |chef.specialties| > MaxShownSpecialties
  {
    if |chef.specialties| > MaxShownSpecialties then
      Some("+" + NatToString(|chef.specialties| - MaxShownSpecialties))
    else None
  }

  /** The tags and the overflow count together account for every specialty. */
  lemma SpecialtiesAccounted(chef: Chef)
    ensures OverflowLabel(chef).Some? ==>
      ParseNat(OverflowLabel(chef).value[1..]) == Some((|chef.specialties| - |ShownSpecialties(chef)|, ""))
    ensures OverflowLabel(chef).None? ==> ShownSpecialties(chef) == chef.specialties
  {
    if |chef.specialties| > MaxShownSpecialties {
      var n := |chef.specialties| - MaxShownSpecialties;
      ParseNatRoundTrip(n, "");
      assert OverflowLabel(chef).value[1..] == NatToString(n) + "";
    } else if chef.specialties != [] {
      assert ShownSpecialties(chef) == chef.specialties[..|chef.specialties|];
    }
  }

  /** "N<unit>" with an "s" unless N is exactly 1, then `tail`; nothing when N is not positive. */
  function CountLine(n: int, unit: string, tail: string): (r: Option<string>)
  {
    if n > 0 then Some(NatToString(n) + unit + (if n != 1 then "s" else "") + tail) else None
  }

  /** `{experience_years} year{s} of experience` */
  function ExperienceLine(chef: Chef): Option<string> {
    CountLine(chef.experienceYears, " year", " of experience")
  }

  /** `{total_reviews} review{s}` */
  function ReviewsLine(chef: Chef): Option<string> {
    CountLine(chef.totalReviews, " review", "")
  }

  /**
   * A count line is shown exactly for a positive count; it reads back as
   * that count, followed by the noun, pluralised exactly when the count is
   * not 1.
   */
  lemma {:induction false} CountLineReadsBack(n: int, unit: string, tail: string)
    requires unit != [] && !IsAsciiDigit(unit[0])
    ensures CountLine(n, unit, tail).Some? <==> n > 0
    ensures n > 0 ==>
      ParseNat(CountLine(n, unit, tail).value) == Some((n, unit + (if n != 1 then "s" else "") + tail))
  {
    if n > 0 {
      var rest := unit + (if n != 1 then "s" else "") + tail;
      assert rest[0] == unit[0];
      ParseNatRoundTrip(n, rest);
      assert CountLine(n, unit, tail).value == NatToString(n) + rest;
    }
  }

  lemma ExperienceAndReviewLines(chef: Chef)
    ensures ExperienceLine(chef).Some? <==> chef.experienceYears > 0
    ensures chef.experienceYears > 0 ==>
      ParseNat(ExperienceLine(chef).value) ==
        Some((chef.experienceYears, " year" + (if chef.experienceYears != 1 then "s" else "") + " of experience"))
    ensures ReviewsLine(chef).Some? <==> chef.totalReviews > 0
    ensures chef.totalReviews > 0 ==>
      ParseNat(ReviewsLine(chef).value) ==
        Some((chef.totalReviews, " review" + (if chef.totalReviews != 1 then "s" else "")))
  {
    CountLineReadsBack(chef.experienceYears, " year", " of experience");
    CountLineReadsBack(chef.totalReviews, " review", "");
    if chef.totalReviews > 0 {
      var plural := if chef.totalReviews != 1 then "s" else "";
      assert " review" + plural + "" == " review" + plural;
    }
  }

  /** `chef.user?.name` as JavaScript sees it: present and non-empty. */
  function NameOf(chef: Chef): Option<string> {
    match chef.user
    case Some(ChefUser(Some(name))) => if name != [] then Some(name) else None
    case _ => None
  }

  /** `chef.user?.name || 'Chef'` */
  function DisplayName(chef: Chef): (r: string)
    ensures r != []
    ensures NameOf(chef).None? ==> r == "Chef"
    ensures NameOf(chef).Some? ==> r == NameOf(chef).value
  {
    match NameOf(chef)
    case Some(name) => name
    case None => "Chef"
  }

  /** `chef.user?.name?.[0]?.toUpperCase() || '?'` */
  function PlaceholderText(chef: Chef): (r: string)
    ensures |r| == 1
    ensures r == "?" <==> NameOf(chef).None? || NameOf(chef).value[0] == '?'
    ensures NameOf(chef).Some? ==> r[0] == AsciiUpper(NameOf(chef).value[0])
  {
    match NameOf(chef)
    case Some(name) => [AsciiUpper(name[0])]
    case None => "?"
  }

  /** What fills the image area: the profile photo when its URL is non-empty, else the placeholder. */
  datatype CardImage = ProfilePhoto(uri: string) | Placeholder(text: string)

  function Image(chef: Chef): (r: CardImage)
    ensures r.ProfilePhoto? <==> chef.profileImage.Some? && chef.profileImage.value != ""
  {
    match chef.profileImage
    case Some(uri) => if uri != "" then ProfilePhoto(uri) else Placeholder(PlaceholderText(chef))
    case None => Placeholder(PlaceholderText(chef))
  }

  /** The placeholder initial and the display name agree: the initial is the name's first letter, upper-cased. */
  lemma PlaceholderMatchesName(chef: Chef)
    ensures NameOf(chef).Some? ==> PlaceholderText(chef) == [AsciiUpper(DisplayName(chef)[0])]
    ensures NameOf(chef).None? ==> DisplayName(chef) == "Chef" && PlaceholderText(chef) == "?"
  {
  }
}
