/** The fixed, ordered catalog of thirteen named reports, with what each
    query declares: which filter conjuncts its `WHERE` clause carries (and
    so how many `?` placeholders it has), its output columns, and whether it
    ends in `ORDER BY ... DESC`. */
module Catalog {
  import opened Relational
  import opened Filters
  import opened Pattern

  datatype Report =
    | ProvidersReceiversPerCity
    | ProviderTypeWithMostFood
    | ContactInfoOfProviders
    | ReceiversWithMostClaims
    | TotalFoodQuantity
    | CityWithMostListings
    | MostCommonFoodTypes
    | ClaimsPerFoodItem
    | ProviderWithMostSuccessfulClaims
    | ClaimsStatusPercentage
    | AverageQuantityPerReceiver
    | MostClaimedMealType
    | TotalDonatedByProvider

  /** Catalog order, which is the order the report picker lists them in. */
  const AllReports: seq<Report> := [
    ProvidersReceiversPerCity, ProviderTypeWithMostFood, ContactInfoOfProviders,
    ReceiversWithMostClaims, TotalFoodQuantity, CityWithMostListings,
    MostCommonFoodTypes, ClaimsPerFoodItem, ProviderWithMostSuccessfulClaims,
    ClaimsStatusPercentage, AverageQuantityPerReceiver, MostClaimedMealType,
    TotalDonatedByProvider]

  function Name(r: Report): string {
    match r
    case ProvidersReceiversPerCity => "Providers & Receivers per City"
    case ProviderTypeWithMostFood => "Provider Type with Most Food"
    case ContactInfoOfProviders => "Contact Info of Providers in City"
    case ReceiversWithMostClaims => "Receivers with Most Food Claims"
    case TotalFoodQuantity => "Total Food Quantity from All Providers"
    case CityWithMostListings => "City with Most Food Listings"
    case MostCommonFoodTypes => "Most Common Food Types"
    case ClaimsPerFoodItem => "Claims per Food Item"
    case ProviderWithMostSuccessfulClaims => "Provider with Most Successful Claims"
    case ClaimsStatusPercentage => "Claims Status Percentage"
    case AverageQuantityPerReceiver => "Average Quantity Claimed per Receiver"
    case MostClaimedMealType => "Most Claimed Meal Type"
    case TotalDonatedByProvider => "Total Food Donated by Each Provider"
  }

  /** The names offered by the report picker, in catalog order. */
  function ReportNames(): (names: seq<string>)
    ensures |names| == 13
    ensures forall i, j :: 0 <= i < j < |names| ==> names[i] != names[j]
    ensures forall r: Report :: Name(r) in names
    ensures forall n :: n in names ==> exists r: Report :: Name(r) == n
  {
    var names := seq(|AllReports|, i requires 0 <= i < |AllReports| => Name(AllReports[i]));
    assert forall r: Report :: Name(r) in names by {
      forall r: Report ensures Name(r) in names {
        CatalogListsEachReportOnce(r);
        var i :| 0 <= i < |AllReports| && AllReports[i] == r;
        assert names[i] == Name(r);
      }
    }
    names
  }

  /** Report names identify reports. */
  lemma NamesIdentifyReports(r: Report, s: Report)
    ensures Name(r) == Name(s) <==> r == s
  {
  }

  /** Every report appears in the catalog exactly once. */
  lemma CatalogListsEachReportOnce(r: Report)
    ensures r in AllReports
    ensures forall i, j :: 0 <= i < j < |AllReports| ==> AllReports[i] != AllReports[j]
  {
  }

  function FindIn(rs: seq<Report>, name: string): (r: Option<Report>)
    ensures r.Some? ==> r.value in rs && Name(r.value) == name
    ensures r.None? <==> forall s :: s in rs ==> Name(s) != name
  {
    if |rs| == 0 then None
    else if Name(rs[0]) == name then Some(rs[0])
    else FindIn(rs[1..], name)
  }

  /** The dictionary lookup of a report by its name. */
  function Lookup(name: string): (r: Option<Report>)
    ensures r.Some? ==> Name(r.value) == name
    ensures r.None? <==> name !in ReportNames()
  {
    FindIn(AllReports, name)
  }

  /** Looking a catalog name up finds its report. */
  lemma LookupInvertsName(r: Report)
    ensures Lookup(Name(r)) == Some(r)
  {
    NamesIdentifyReports(r, Lookup(Name(r)).value);
  }

  /** The filter conjuncts each query's `WHERE` clause carries, in order. */
  function Fields(r: Report): seq<FilterField> {
    match r
    case ProvidersReceiversPerCity => [CityField]
    case ContactInfoOfProviders => [CityField]
    case _ => AllFields
  }

  /** The number of `?` placeholders in each query's text. */
  function Placeholders(r: Report): nat {
    match r
    case ProvidersReceiversPerCity => 2
    case ProviderTypeWithMostFood => 8
    case ContactInfoOfProviders => 2
    case ReceiversWithMostClaims => 8
    case TotalFoodQuantity => 8
    case CityWithMostListings => 8
    case MostCommonFoodTypes => 8
    case ClaimsPerFoodItem => 8
    case ProviderWithMostSuccessfulClaims => 8
    case ClaimsStatusPercentage => 8
    case AverageQuantityPerReceiver => 8
    case MostClaimedMealType => 8
    case TotalDonatedByProvider => 8
  }

  /** The output columns of each query, in `SELECT` order. */
  function Columns(r: Report): seq<string> {
    match r
    case ProvidersReceiversPerCity => ["City", "Providers", "Receivers"]
    case ProviderTypeWithMostFood => ["Provider_Type", "Total_Quantity"]
    case ContactInfoOfProviders => ["Name", "Contact", "City"]
    case ReceiversWithMostClaims => ["Name", "Total_Claimed"]
    case TotalFoodQuantity => ["Total_Food_Quantity"]
    case CityWithMostListings => ["City", "Listings"]
    case MostCommonFoodTypes => ["Food_Type", "Count"]
    case ClaimsPerFoodItem => ["Food_Name", "Claims_Count"]
    case ProviderWithMostSuccessfulClaims => ["Name", "Successful_Claims"]
    case ClaimsStatusPercentage => ["Status", "Percentage"]
    case AverageQuantityPerReceiver => ["Name", "Avg_Quantity_Claimed"]
    case MostClaimedMealType => ["Meal_Type", "Claim_Count"]
    case TotalDonatedByProvider => ["Name", "Total_Donated"]
  }

  /** The reports whose query ends in `ORDER BY <measure> DESC`. */
  predicate OrderedDescending(r: Report) {
    r in {ProviderTypeWithMostFood, ReceiversWithMostClaims, CityWithMostListings,
          MostCommonFoodTypes, ClaimsPerFoodItem, ProviderWithMostSuccessfulClaims,
          MostClaimedMealType, TotalDonatedByProvider}
  }

  /** Each conjunct holds two placeholders, and no query has any other. */
  lemma PlaceholdersAreTwoPerConjunct(r: Report)
    ensures Placeholders(r) == 2 * |Fields(r)|
  {
  }

  /** The two city-only names are exactly the reports declaring only the city conjunct. */
  lemma CityOnlyNamesDeclareCityOnly(r: Report)
    ensures Name(r) in CityOnlyReports <==> Fields(r) == [CityField]
  {
  }

  lemma CompileCityOnly(f: Filter)
    ensures Compile([CityField], f) == [f.city, Wrap(f.city)]
  {
    assert [CityField][1..] == [];
  }

  lemma CompileAllFields(f: Filter)
    ensures Compile(AllFields, f)
         == [ f.city, Wrap(f.city), f.providerType, Wrap(f.providerType),
              f.foodType, Wrap(f.foodType), f.mealType, Wrap(f.mealType) ]
  {
    var meal := [MealTypeField];
    var food := [FoodTypeField] + meal;
    var provider := [ProviderTypeField] + food;
    assert AllFields == [CityField] + provider;
    assert meal[1..] == [];
    assert Compile(meal, f) == [f.mealType, Wrap(f.mealType)];
    assert food[1..] == meal;
    assert Compile(food, f) == [f.foodType, Wrap(f.foodType)] + Compile(meal, f);
    assert provider[1..] == food;
    assert Compile(provider, f) == [f.providerType, Wrap(f.providerType)] + Compile(food, f);
    assert AllFields[1..] == provider;
  }

  /** The name-based choice of parameter tuple binds exactly the parameters
      the selected query declares, pair by pair, so the tuple's length is the
      query's placeholder count. */
  lemma ParamsFitQuery(r: Report, f: Filter)
    ensures Params(Name(r), f) == Compile(Fields(r), f)
    ensures |Params(Name(r), f)| == Placeholders(r)
  {
    CityOnlyNamesDeclareCityOnly(r);
    if Fields(r) == [CityField] {
      CompileCityOnly(f);
    } else {
      CompileAllFields(f);
    }
  }
}
