/** The thirteen reports, each as a function of the four tables and of the
    positional parameters bound to its query. Every report is written as
    the query is: join, apply the `WHERE` conjuncts to the joined rows, then
    group, aggregate and order. */
module Reports {
  import opened Schema
  import opened Relational
  import opened Filters

  // ---------------------------------------------------------------- joined rows

  type ClaimListing = (Claim, FoodListing)
  type ClaimReceiverListing = ((Claim, Receiver), FoodListing)
  type ClaimListingProvider = ((Claim, FoodListing), Provider)
  type ListingProvider = (FoodListing, Provider)
  type ProviderReceiver = (Provider, Option<Receiver>)

  /** `c.Food_ID = f.Food_ID` */
  function ClaimFood(c: Claim, l: FoodListing): bool { c.foodId == l.id }

  /** `c.Receiver_ID = r.Receiver_ID` */
  function ClaimReceiver(c: Claim, r: Receiver): bool { c.receiverId == r.id }

  /** `c.Food_ID = f.Food_ID`, after the receivers join. */
  function ClaimedListing(cr: (Claim, Receiver), l: FoodListing): bool { cr.0.foodId == l.id }

  /** `f.Provider_ID = p.Provider_ID`, after the listings join. */
  function ListedBy(cl: ClaimListing, p: Provider): bool { cl.1.providerId == p.id }

  /** `f.Provider_ID = p.Provider_ID` */
  function OwnedBy(l: FoodListing, p: Provider): bool { l.providerId == p.id }

  /** `p.City = r.City` */
  function SameCity(p: Provider, r: Receiver): bool { p.city == r.city }

  /** `Claims c JOIN Food_Listings f` */
  function ClaimListings(db: Dataset): seq<ClaimListing> {
    Join(db.claims, db.listings, ClaimFood)
  }

  /** `Claims c JOIN Receivers r JOIN Food_Listings f` */
  function ClaimReceiverListings(db: Dataset): seq<ClaimReceiverListing> {
    Join(Join(db.claims, db.receivers, ClaimReceiver), db.listings, ClaimedListing)
  }

  /** `Claims c JOIN Food_Listings f JOIN Providers p` */
  function ClaimListingProviders(db: Dataset): seq<ClaimListingProvider> {
    Join(Join(db.claims, db.listings, ClaimFood), db.providers, ListedBy)
  }

  /** `Food_Listings f JOIN Providers p` */
  function ListingProviders(db: Dataset): seq<ListingProvider> {
    Join(db.listings, db.providers, OwnedBy)
  }

  /** `Providers p LEFT JOIN Receivers r` */
  function ProviderReceivers(db: Dataset): seq<ProviderReceiver> {
    LeftJoin(db.providers, db.receivers, SameCity)
  }

  // ---------------------------------------------------------------- WHERE

  /** The four optional conjuncts on `f`, for each shape of joined row. */
  function KeepListing(ps: seq<string>): FoodListing -> bool
    requires |ps| == 8
  {
    (l: FoodListing) => ListingPasses(ps, l)
  }

  function KeepClaimListing(ps: seq<string>): ClaimListing -> bool
    requires |ps| == 8
  {
    (x: ClaimListing) => ListingPasses(ps, x.1)
  }

  function KeepReceiverClaim(ps: seq<string>): ClaimReceiverListing -> bool
    requires |ps| == 8
  {
    (x: ClaimReceiverListing) => ListingPasses(ps, x.1)
  }

  function KeepProviderClaim(ps: seq<string>): ClaimListingProvider -> bool
    requires |ps| == 8
  {
    (x: ClaimListingProvider) => ListingPasses(ps, x.0.1)
  }

  function KeepDonation(ps: seq<string>): ListingProvider -> bool
    requires |ps| == 8
  {
    (x: ListingProvider) => ListingPasses(ps, x.0)
  }

  /** `c.Status = 'Completed'` */
  function IsSuccessful(x: ClaimListingProvider): bool {
    x.0.0.status == Completed
  }

  /** `c.Status = 'Completed'` and the four optional conjuncts. */
  function KeepSuccessful(ps: seq<string>): ClaimListingProvider -> bool
    requires |ps| == 8
  {
    (x: ClaimListingProvider) => IsSuccessful(x) && ListingPasses(ps, x.0.1)
  }

  /** The optional conjunct on `p.City`. */
  function KeepProvider(ps: seq<string>): Provider -> bool
    requires |ps| == 2
  {
    (p: Provider) => CityPasses(ps, p.city)
  }

  function KeepProviderReceiver(ps: seq<string>): ProviderReceiver -> bool
    requires |ps| == 2
  {
    (x: ProviderReceiver) => CityPasses(ps, x.0.city)
  }

  /** The listings the listing-only reports aggregate. */
  function ListingRows(db: Dataset, ps: seq<string>): (rows: seq<FoodListing>)
    requires |ps| == 8
    ensures forall l :: l in rows <==> l in db.listings && ListingPasses(ps, l)
  {
    Where(db.listings, KeepListing(ps))
  }

  /** The claim/listing pairs the claim reports aggregate. */
  function ClaimListingRows(db: Dataset, ps: seq<string>): (rows: seq<ClaimListing>)
    requires |ps| == 8
    ensures forall x :: x in rows <==>
      x.0 in db.claims && x.1 in db.listings && x.0.foodId == x.1.id && ListingPasses(ps, x.1)
  {
    Where(ClaimListings(db), KeepClaimListing(ps))
  }

  /** The claim/receiver/listing triples the per-receiver reports aggregate. */
  function ClaimReceiverListingRows(db: Dataset, ps: seq<string>): (rows: seq<ClaimReceiverListing>)
    requires |ps| == 8
    ensures forall x :: x in rows <==>
      && x.0.0 in db.claims && x.0.1 in db.receivers && x.1 in db.listings
      && x.0.0.receiverId == x.0.1.id && x.0.0.foodId == x.1.id
      && ListingPasses(ps, x.1)
  {
    Where(ClaimReceiverListings(db), KeepReceiverClaim(ps))
  }

  /** The completed claims, with listing and provider, that pass the filters. */
  function SuccessfulClaimRows(db: Dataset, ps: seq<string>): (rows: seq<ClaimListingProvider>)
    requires |ps| == 8
    ensures forall x :: x in rows <==>
      && x.0.0 in db.claims && x.0.1 in db.listings && x.1 in db.providers
      && x.0.0.foodId == x.0.1.id && x.0.1.providerId == x.1.id
      && x.0.0.status == Completed && ListingPasses(ps, x.0.1)
  {
    Where(ClaimListingProviders(db), KeepSuccessful(ps))
  }

  /** All claims, with listing and provider, that pass the filters, whatever
      their status: what the successful-claims report counts against. */
  function ProviderClaimRows(db: Dataset, ps: seq<string>): (rows: seq<ClaimListingProvider>)
    requires |ps| == 8
    ensures forall x :: x in rows <==>
      && x.0.0 in db.claims && x.0.1 in db.listings && x.1 in db.providers
      && x.0.0.foodId == x.0.1.id && x.0.1.providerId == x.1.id
      && ListingPasses(ps, x.0.1)
  {
    Where(ClaimListingProviders(db), KeepProviderClaim(ps))
  }

  /** The listing/provider pairs the donation report aggregates. */
  function DonationRows(db: Dataset, ps: seq<string>): (rows: seq<ListingProvider>)
    requires |ps| == 8
    ensures forall x :: x in rows <==>
      x.0 in db.listings && x.1 in db.providers && x.0.providerId == x.1.id && ListingPasses(ps, x.0)
  {
    Where(ListingProviders(db), KeepDonation(ps))
  }

  /** The provider/receiver rows of the per-city report. */
  function CityRows(db: Dataset, ps: seq<string>): (rows: seq<ProviderReceiver>)
    requires |ps| == 2
    ensures forall x :: x in rows ==> x.0 in db.providers && CityPasses(ps, x.0.city)
    ensures forall x :: x in rows && x.1.Some? ==> x.1.value in db.receivers && x.1.value.city == x.0.city
  {
    Where(ProviderReceivers(db), KeepProviderReceiver(ps))
  }

  // ---------------------------------------------------------------- grouping keys and measures

  function ProviderTypeOf(l: FoodListing): string { l.providerType }
  function LocationOf(l: FoodListing): string { l.location }
  function FoodTypeOf(l: FoodListing): string { l.foodType }
  function QuantityOf(l: FoodListing): int { l.quantity }
  function FoodNameOf(x: ClaimListing): string { x.1.foodName }
  function StatusOf(x: ClaimListing): string { x.0.status }
  function MealTypeOf(x: ClaimListing): string { x.1.mealType }
  function ReceiverNameOf(x: ClaimReceiverListing): string { x.0.1.name }
  function ClaimedQuantityOf(x: ClaimReceiverListing): int { x.1.quantity }
  function ClaimProviderNameOf(x: ClaimListingProvider): string { x.1.name }
  function DonorNameOf(x: ListingProvider): string { x.1.name }
  function DonatedQuantityOf(x: ListingProvider): int { x.0.quantity }
  function CityOf(x: ProviderReceiver): string { x.0.city }

  // ---------------------------------------------------------------- Providers & Receivers per City

  datatype CityCount = CityCount(city: string, providers: nat, receivers: nat)

  predicate HasCity(out: seq<CityCount>, c: string) {
    exists row :: row in out && row.city == c
  }

  /** `COUNT(DISTINCT p.Provider_ID)` within one city group. */
  function ProviderIdsIn(rows: seq<ProviderReceiver>, c: string): set<int> {
    set x | x in rows && x.0.city == c :: x.0.id
  }

  /** `COUNT(DISTINCT r.Receiver_ID)` within one city group; NULLs are not counted. */
  function ReceiverIdsIn(rows: seq<ProviderReceiver>, c: string): set<int> {
    set x | x in rows && x.0.city == c && x.1.Some? :: x.1.value.id
  }

  function CityCounts(rows: seq<ProviderReceiver>): (out: seq<CityCount>)
    ensures forall i, j :: 0 <= i < j < |out| ==> out[i].city != out[j].city
    ensures forall c :: HasCity(out, c) <==> Occurs(rows, CityOf, c)
    ensures forall row :: row in out ==>
      row.providers == |ProviderIdsIn(rows, row.city)| && row.receivers == |ReceiverIdsIn(rows, row.city)|
  {
    var cities := DistinctKeys(rows, CityOf);
    var out := seq(|cities|, i requires 0 <= i < |cities| =>
      CityCount(cities[i], |ProviderIdsIn(rows, cities[i])|, |ReceiverIdsIn(rows, cities[i])|));
    assert forall c :: c in cities ==> HasCity(out, c) by {
      forall c | c in cities ensures HasCity(out, c) {
        var i :| 0 <= i < |cities| && cities[i] == c;
        assert out[i] in out;
      }
    }
    out
  }

  /** The provider ids of a city, read off the Providers table. */
  function ProvidersOfCity(db: Dataset, c: string): set<int> {
    set p | p in db.providers && p.city == c :: p.id
  }

  /** The receiver ids of a city, read off the Receivers table. */
  function ReceiversOfCity(db: Dataset, c: string): set<int> {
    set r | r in db.receivers && r.city == c :: r.id
  }

  /** Within a city that passes the filter, the left join keeps every
      provider of the city, paired with a receiver or with nothing. */
  lemma CityGroupProviders(db: Dataset, ps: seq<string>, c: string)
    requires |ps| == 2 && CityPasses(ps, c)
    ensures ProviderIdsIn(CityRows(db, ps), c) == ProvidersOfCity(db, c)
  {
    var rows := CityRows(db, ps);
    var joined := ProviderReceivers(db);
    forall id | id in ProvidersOfCity(db, c) ensures id in ProviderIdsIn(rows, c) {
      var p :| p in db.providers && p.city == c && p.id == id;
      var x: ProviderReceiver;
      if r :| r in db.receivers && SameCity(p, r) {
        x := (p, Some(r));
      } else {
        x := (p, None);
      }
      assert x in joined;
      assert KeepProviderReceiver(ps)(x);
      assert x in rows;
    }
  }

  /** A provider whose city passes the filter is paired with each receiver of its city. */
  lemma PairedWithCityReceiver(db: Dataset, ps: seq<string>, p: Provider, r: Receiver)
    requires |ps| == 2 && CityPasses(ps, p.city)
    requires p in db.providers && r in db.receivers && p.city == r.city
    ensures (p, Some(r)) in CityRows(db, ps)
  {
    assert SameCity(p, r);
    assert (p, Some(r)) in ProviderReceivers(db);
    assert KeepProviderReceiver(ps)((p, Some(r)));
  }

  /** Within a city that has a provider passing the filter, the left join
      pairs that provider with every receiver of the city. */
  lemma CityGroupReceivers(db: Dataset, ps: seq<string>, c: string)
    requires |ps| == 2 && CityPasses(ps, c)
    requires exists p :: p in db.providers && p.city == c
    ensures ReceiverIdsIn(CityRows(db, ps), c) == ReceiversOfCity(db, c)
  {
    var rows := CityRows(db, ps);
    var p :| p in db.providers && p.city == c;
    forall id | id in ReceiversOfCity(db, c) ensures id in ReceiverIdsIn(rows, c) {
      var r :| r in db.receivers && r.city == c && r.id == id;
      PairedWithCityReceiver(db, ps, p, r);
      var x: ProviderReceiver := (p, Some(r));
      assert x in rows && x.0.city == c && x.1.Some? && x.1.value.id == id;
    }
    forall id | id in ReceiverIdsIn(rows, c) ensures id in ReceiversOfCity(db, c) {
      var x :| x in rows && x.0.city == c && x.1.Some? && x.1.value.id == id;
      assert x.1.value in db.receivers && x.1.value.city == c;
    }
  }

  /** "Providers & Receivers per City": one row per provider city that
      passes the city filter, counting the distinct providers and the
      distinct receivers of that city; a city without receivers still
      appears, with 0 receivers. */
  function ProvidersReceiversPerCity(db: Dataset, ps: seq<string>): (out: seq<CityCount>)
    requires |ps| == 2
    ensures forall i, j :: 0 <= i < j < |out| ==> out[i].city != out[j].city
    ensures forall c :: HasCity(out, c) <==> CityPasses(ps, c) && exists p :: p in db.providers && p.city == c
    ensures forall row :: row in out ==>
      row.providers == |ProvidersOfCity(db, row.city)| && row.receivers == |ReceiversOfCity(db, row.city)|
  {
    var rows := CityRows(db, ps);
    var out := CityCounts(rows);
    assert forall c :: CityPasses(ps, c) && (exists p :: p in db.providers && p.city == c) ==> Occurs(rows, CityOf, c) by {
      forall c | CityPasses(ps, c) && exists p :: p in db.providers && p.city == c
        ensures Occurs(rows, CityOf, c)
      {
        var p :| p in db.providers && p.city == c;
        CityGroupProviders(db, ps, c);
        assert p.id in ProviderIdsIn(rows, c);
      }
    }
    assert forall row :: row in out ==>
      row.providers == |ProvidersOfCity(db, row.city)| && row.receivers == |ReceiversOfCity(db, row.city)| by {
      forall row | row in out
        ensures row.providers == |ProvidersOfCity(db, row.city)| && row.receivers == |ReceiversOfCity(db, row.city)|
      {
        assert HasCity(out, row.city);
        var x :| x in rows && CityOf(x) == row.city;
        CityGroupProviders(db, ps, row.city);
        CityGroupReceivers(db, ps, row.city);
      }
    }
    out
  }

  // ---------------------------------------------------------------- Contact Info of Providers in City

  datatype Contact = Contact(name: string, contact: string, city: string)

  function ContactOf(p: Provider): Contact {
    Contact(p.name, p.contact, p.city)
  }

  /** `SELECT p.Name, p.Contact, p.City`, one row per provider row, in table order. */
  function Contacts(providers: seq<Provider>): (out: seq<Contact>)
    ensures |out| == |providers|
    ensures forall i :: 0 <= i < |out| ==> out[i] == ContactOf(providers[i])
  {
    seq(|providers|, i requires 0 <= i < |providers| => ContactOf(providers[i]))
  }

  /** "Contact Info of Providers in City": the name, contact and city of
      every provider whose city passes the city filter, and of no other. */
  function ContactInfoOfProviders(db: Dataset, ps: seq<string>): (out: seq<Contact>)
    requires |ps| == 2
    ensures |out| <= |db.providers|
    ensures forall c :: c in out <==> exists p :: p in db.providers && CityPasses(ps, p.city) && c == ContactOf(p)
    ensures |out| == |Where(db.providers, KeepProvider(ps))|
    ensures forall i :: 0 <= i < |out| ==> out[i] == ContactOf(Where(db.providers, KeepProvider(ps))[i])
  {
    var kept := Where(db.providers, KeepProvider(ps));
    var out := Contacts(kept);
    assert forall c :: c in out ==> exists p :: p in kept && c == ContactOf(p) by {
      forall c | c in out ensures exists p :: p in kept && c == ContactOf(p) {
        var i :| 0 <= i < |out| && out[i] == c;
        assert kept[i] in kept;
      }
    }
    assert forall p :: p in kept ==> ContactOf(p) in out by {
      forall p | p in kept ensures ContactOf(p) in out {
        var i :| 0 <= i < |kept| && kept[i] == p;
        assert out[i] == ContactOf(p);
      }
    }
    out
  }

  // ---------------------------------------------------------------- listing reports

  /** "Provider Type with Most Food": total quantity listed per provider type,
      largest first. */
  function ProviderTypeWithMostFood(db: Dataset, ps: seq<string>): (out: seq<Measured>)
    requires |ps| == 8
    ensures NonIncreasing(out)
    ensures GroupedBy(out, ListingRows(db, ps), ProviderTypeOf, QuantityOf)
  {
    Aggregate(ListingRows(db, ps), ProviderTypeOf, QuantityOf)
  }

  /** `SUM(f.Quantity)` with no `GROUP BY`: one row, NULL when nothing matches. */
  function TotalOf(rows: seq<FoodListing>): (total: Option<int>)
    ensures total.None? <==> |rows| == 0
    ensures total.Some? ==> total.value == SumAll(rows, QuantityOf)
  {
    if |rows| == 0 then None else Some(SumAll(rows, QuantityOf))
  }

  /** "Total Food Quantity from All Providers": the summed quantity of the
      listings that pass the filters, or NULL when none does. */
  function TotalFoodQuantity(db: Dataset, ps: seq<string>): (total: Option<int>)
    requires |ps| == 8
    ensures total.None? <==> forall l :: l in db.listings ==> !ListingPasses(ps, l)
    ensures total.Some? ==> total.value == SumAll(ListingRows(db, ps), QuantityOf)
  {
    var rows := ListingRows(db, ps);
    assert |rows| > 0 ==> rows[0] in rows;
    TotalOf(rows)
  }

  /** "City with Most Food Listings": listings per location, most first. */
  function CityWithMostListings(db: Dataset, ps: seq<string>): (out: seq<Measured>)
    requires |ps| == 8
    ensures NonIncreasing(out)
    ensures GroupedBy(out, ListingRows(db, ps), LocationOf, One)
  {
    Aggregate(ListingRows(db, ps), LocationOf, One)
  }

  /** "Most Common Food Types": listings per food type, most first. */
  function MostCommonFoodTypes(db: Dataset, ps: seq<string>): (out: seq<Measured>)
    requires |ps| == 8
    ensures NonIncreasing(out)
    ensures GroupedBy(out, ListingRows(db, ps), FoodTypeOf, One)
  {
    Aggregate(ListingRows(db, ps), FoodTypeOf, One)
  }

  /** "Total Food Donated by Each Provider": quantity listed per provider
      name, largest first. */
  function TotalDonatedByProvider(db: Dataset, ps: seq<string>): (out: seq<Measured>)
    requires |ps| == 8
    ensures NonIncreasing(out)
    ensures GroupedBy(out, DonationRows(db, ps), DonorNameOf, DonatedQuantityOf)
  {
    Aggregate(DonationRows(db, ps), DonorNameOf, DonatedQuantityOf)
  }

  // ---------------------------------------------------------------- claim reports

  /** "Receivers with Most Food Claims": quantity of the claimed listings
      per receiver name, largest first. */
  function ReceiversWithMostClaims(db: Dataset, ps: seq<string>): (out: seq<Measured>)
    requires |ps| == 8
    ensures NonIncreasing(out)
    ensures GroupedBy(out, ClaimReceiverListingRows(db, ps), ReceiverNameOf, ClaimedQuantityOf)
  {
    Aggregate(ClaimReceiverListingRows(db, ps), ReceiverNameOf, ClaimedQuantityOf)
  }

  /** "Claims per Food Item": claims per food name, most first. */
  function ClaimsPerFoodItem(db: Dataset, ps: seq<string>): (out: seq<Measured>)
    requires |ps| == 8
    ensures NonIncreasing(out)
    ensures GroupedBy(out, ClaimListingRows(db, ps), FoodNameOf, One)
  {
    Aggregate(ClaimListingRows(db, ps), FoodNameOf, One)
  }

  /** "Provider with Most Successful Claims": completed claims per provider
      name, most first. */
  function ProviderWithMostSuccessfulClaims(db: Dataset, ps: seq<string>): (out: seq<Measured>)
    requires |ps| == 8
    ensures NonIncreasing(out)
    ensures GroupedBy(out, SuccessfulClaimRows(db, ps), ClaimProviderNameOf, One)
  {
    Aggregate(SuccessfulClaimRows(db, ps), ClaimProviderNameOf, One)
  }

  /** "Most Claimed Meal Type": claims per meal type, most first. */
  function MostClaimedMealType(db: Dataset, ps: seq<string>): (out: seq<Measured>)
    requires |ps| == 8
    ensures NonIncreasing(out)
    ensures GroupedBy(out, ClaimListingRows(db, ps), MealTypeOf, One)
  {
    Aggregate(ClaimListingRows(db, ps), MealTypeOf, One)
  }

  /** Per-status claim counts with the one denominator they are divided by;
      the percentage of a status is `100 * count / outOf`. */
  datatype StatusShares = StatusShares(counts: seq<Measured>, outOf: nat)

  function Shares(rows: seq<ClaimListing>, outOf: nat): StatusShares {
    StatusShares(GroupBy(rows, StatusOf, One), outOf)
  }

  /** "Claims Status Percentage": the numerator counts the joined claims that
      pass the filters, per status; the denominator counts every row of
      Claims, whatever the filters. */
  function ClaimsStatusPercentage(db: Dataset, ps: seq<string>): (shares: StatusShares)
    requires |ps| == 8
    ensures shares.outOf == |db.claims|
    ensures GroupedBy(shares.counts, ClaimListingRows(db, ps), StatusOf, One)
    ensures forall g :: g in shares.counts ==> g.measure >= 1
  {
    var rows := ClaimListingRows(db, ps);
    var shares := Shares(rows, |db.claims|);
    assert forall g :: g in shares.counts ==> g.measure >= 1 by {
      forall g | g in shares.counts ensures g.measure >= 1 {
        assert HasGroup(shares.counts, g.key);
        OccurringKeyCountsPositive(rows, StatusOf, g.key);
      }
    }
    shares
  }

  /** `AVG(f.Quantity)` of one receiver name, kept as its exact sum and count. */
  datatype Mean = Mean(name: string, total: int, count: int)

  predicate HasMean(out: seq<Mean>, n: string) {
    exists a :: a in out && a.name == n
  }

  function Means(rows: seq<ClaimReceiverListing>): (out: seq<Mean>)
    ensures forall i, j :: 0 <= i < j < |out| ==> out[i].name != out[j].name
    ensures forall n :: HasMean(out, n) <==> Occurs(rows, ReceiverNameOf, n)
    ensures forall a :: a in out ==>
      && a.total == SumKey(rows, ReceiverNameOf, ClaimedQuantityOf, a.name)
      && a.count == SumKey(rows, ReceiverNameOf, One, a.name)
      && a.count >= 1
  {
    var names := DistinctKeys(rows, ReceiverNameOf);
    assert forall n :: n in names ==> SumKey(rows, ReceiverNameOf, One, n) >= 1 by {
      forall n | n in names ensures SumKey(rows, ReceiverNameOf, One, n) >= 1 {
        OccurringKeyCountsPositive(rows, ReceiverNameOf, n);
      }
    }
    var out := seq(|names|, i requires 0 <= i < |names| =>
      Mean(names[i], SumKey(rows, ReceiverNameOf, ClaimedQuantityOf, names[i]), SumKey(rows, ReceiverNameOf, One, names[i])));
    assert forall n :: n in names ==> HasMean(out, n) by {
      forall n | n in names ensures HasMean(out, n) {
        var i :| 0 <= i < |names| && names[i] == n;
        assert out[i] in out;
      }
    }
    out
  }

  /** "Average Quantity Claimed per Receiver": per receiver name, the sum and
      the (positive) number of its filtered claims, whose quotient is the average. */
  function AverageQuantityPerReceiver(db: Dataset, ps: seq<string>): (out: seq<Mean>)
    requires |ps| == 8
    ensures forall i, j :: 0 <= i < j < |out| ==> out[i].name != out[j].name
    ensures forall n :: HasMean(out, n) <==> Occurs(ClaimReceiverListingRows(db, ps), ReceiverNameOf, n)
    ensures forall a :: a in out ==>
      && a.total == SumKey(ClaimReceiverListingRows(db, ps), ReceiverNameOf, ClaimedQuantityOf, a.name)
      && a.count == SumKey(ClaimReceiverListingRows(db, ps), ReceiverNameOf, One, a.name)
      && a.count >= 1
  {
    Means(ClaimReceiverListingRows(db, ps))
  }
}
