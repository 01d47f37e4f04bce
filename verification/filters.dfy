/** The four optional sidebar filters, the positional parameters bound for
    them, and the `(? = '' OR column LIKE ?)` conjunct every report's
    `WHERE` clause is made of. */
module Filters {
  import opened Pattern
  import opened Schema

  /** The city, provider-type, food-type and meal-type filters; the empty
      string means "no restriction". */
  datatype Filter = Filter(city: string, providerType: string, foodType: string, mealType: string)

  const NoFilter: Filter := Filter("", "", "", "")

  datatype FilterField = CityField | ProviderTypeField | FoodTypeField | MealTypeField

  function FieldValue(f: Filter, field: FilterField): string {
    match field
    case CityField => f.city
    case ProviderTypeField => f.providerType
    case FoodTypeField => f.foodType
    case MealTypeField => f.mealType
  }

  /** The fixed order in which the filters are bound. */
  const AllFields: seq<FilterField> := [CityField, ProviderTypeField, FoodTypeField, MealTypeField]

  /** The reports whose query carries only the city conjunct. */
  const CityOnlyReports: seq<string> := ["Providers & Receivers per City", "Contact Info of Providers in City"]

  /** The parameter pair bound to conjunct `i` of a parameter sequence. */
  function Binding(ps: seq<string>, i: nat): (string, string)
    requires 2 * i + 1 < |ps|
  {
    (ps[2 * i], ps[2 * i + 1])
  }

  /** The parameter tuple the page passes with the selected query: the city
      pair alone for the two city-only reports, all four pairs otherwise. */
  function Params(name: string, f: Filter): (ps: seq<string>)
    ensures |ps| == 2 || |ps| == 8
    ensures |ps| == 2 <==> name in CityOnlyReports
    ensures Binding(ps, 0) == (f.city, Wrap(f.city))
    ensures forall i: nat :: 2 * i + 1 < |ps| ==> Binding(ps, i).1 == Wrap(Binding(ps, i).0)
  {
    if name in CityOnlyReports then
      [f.city, Wrap(f.city)]
    else
      [ f.city, Wrap(f.city),
        f.providerType, Wrap(f.providerType),
        f.foodType, Wrap(f.foodType),
        f.mealType, Wrap(f.mealType) ]
  }

  /** Parameters derived from a declared list of filter fields: each field
      contributes its value followed by that value wrapped in `%`. */
  function Compile(fields: seq<FilterField>, f: Filter): (ps: seq<string>)
    ensures |ps| == 2 * |fields|
  {
    if |fields| == 0 then []
    else [FieldValue(f, fields[0]), Wrap(FieldValue(f, fields[0]))] + Compile(fields[1..], f)
  }

  /** Pair `i` of the compiled parameters belongs to the `i`-th declared field. */
  lemma {:induction false} CompileBindsEachField(fields: seq<FilterField>, f: Filter)
    ensures forall i :: 0 <= i < |fields| ==>
      Binding(Compile(fields, f), i) == (FieldValue(f, fields[i]), Wrap(FieldValue(f, fields[i])))
    decreases |fields|
  {
    if |fields| > 0 {
      CompileBindsEachField(fields[1..], f);
      var ps := Compile(fields, f);
      var rest := Compile(fields[1..], f);
      forall i | 1 <= i < |fields|
        ensures Binding(ps, i) == (FieldValue(f, fields[i]), Wrap(FieldValue(f, fields[i])))
      {
        assert Binding(ps, i) == Binding(rest, i - 1);
        assert fields[1..][i - 1] == fields[i];
      }
    }
  }

  /** `(? = '' OR column LIKE ?)` with its two parameters bound. */
  predicate Conjunct(bound: string, pattern: string, column: string) {
    bound == "" || Like(column, pattern)
  }

  /** The four conjuncts on `f.Location`, `f.Provider_Type`, `f.Food_Type`
      and `f.Meal_Type`, reading parameters 0..7. */
  predicate ListingPasses(ps: seq<string>, l: FoodListing)
    requires |ps| == 8
  {
    && Conjunct(ps[0], ps[1], l.location)
    && Conjunct(ps[2], ps[3], l.providerType)
    && Conjunct(ps[4], ps[5], l.foodType)
    && Conjunct(ps[6], ps[7], l.mealType)
  }

  /** The single conjunct on `p.City`, reading parameters 0..1. */
  predicate CityPasses(ps: seq<string>, city: string)
    requires |ps| == 2
  {
    Conjunct(ps[0], ps[1], city)
  }

  /** What a filter value asks of its column once it is bound: nothing when
      empty, a match of `%v%` otherwise. */
  predicate FieldMatches(v: string, column: string) {
    v == "" || Like(column, Wrap(v))
  }

  /** The intended reading of a filter value: empty matches everything,
      anything else must occur in the column (ignoring ASCII case). */
  predicate Admits(v: string, column: string) {
    v == "" || ContainsFolded(column, v)
  }

  predicate ListingAdmitted(f: Filter, l: FoodListing) {
    && Admits(f.city, l.location)
    && Admits(f.providerType, l.providerType)
    && Admits(f.foodType, l.foodType)
    && Admits(f.mealType, l.mealType)
  }

  /** Filter values that `LIKE` reads literally. */
  predicate Literal(f: Filter) {
    NoWildcards(f.city) && NoWildcards(f.providerType) && NoWildcards(f.foodType) && NoWildcards(f.mealType)
  }

  /** Every non-empty filter value, wrapped in `%`, matches its column. */
  predicate ListingMatches(f: Filter, l: FoodListing) {
    && FieldMatches(f.city, l.location)
    && FieldMatches(f.providerType, l.providerType)
    && FieldMatches(f.foodType, l.foodType)
    && FieldMatches(f.mealType, l.mealType)
  }

  /** What the four bound conjuncts ask of a listing, field by field. */
  lemma BoundListingFilter(name: string, f: Filter, l: FoodListing)
    requires name !in CityOnlyReports
    ensures |Params(name, f)| == 8
    ensures ListingPasses(Params(name, f), l) <==> ListingMatches(f, l)
  {
  }

  /** The bound city conjunct, for the two city-only reports. */
  lemma BoundCityFilter(name: string, f: Filter, city: string)
    requires name in CityOnlyReports
    ensures |Params(name, f)| == 2
    ensures CityPasses(Params(name, f), city) <==> FieldMatches(f.city, city)
  {
  }

  /** Empty filters make every conjunct true. */
  lemma NoFilterPassesAll(name: string, l: FoodListing, city: string)
    ensures name !in CityOnlyReports ==> ListingPasses(Params(name, NoFilter), l)
    ensures name in CityOnlyReports ==> CityPasses(Params(name, NoFilter), city)
  {
  }

  /** For wildcard-free filter values, matching the wrapped values means
      containing every non-empty value. */
  lemma LiteralFilterIsContainment(f: Filter, l: FoodListing)
    requires Literal(f)
    ensures ListingMatches(f, l) <==> ListingAdmitted(f, l)
  {
    WrappedLiteralIsContainment(l.location, f.city);
    WrappedLiteralIsContainment(l.providerType, f.providerType);
    WrappedLiteralIsContainment(l.foodType, f.foodType);
    WrappedLiteralIsContainment(l.mealType, f.mealType);
  }

  /** The city-only analogue of `LiteralFilterIsContainment`. */
  lemma LiteralCityFilter(name: string, f: Filter, city: string)
    requires name in CityOnlyReports && NoWildcards(f.city)
    ensures |Params(name, f)| == 2
    ensures CityPasses(Params(name, f), city) <==> Admits(f.city, city)
  {
    WrappedLiteralIsContainment(city, f.city);
  }
}
