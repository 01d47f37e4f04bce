/** Properties that relate the reports to the filters, to the base tables
    and to one another. */
module ReportLaws {
  import opened Schema
  import opened Relational
  import opened Pattern
  import opened Filters
  import opened Reports

  // ---------------------------------------------------------------- empty filters select everything

  /** With every filter left empty, each multi-conjunct report aggregates the
      whole of its join. */
  lemma EmptyFiltersKeepEveryRow(db: Dataset, name: string)
    requires name !in CityOnlyReports
    ensures |Params(name, NoFilter)| == 8
    ensures ListingRows(db, Params(name, NoFilter)) == db.listings
    ensures ClaimListingRows(db, Params(name, NoFilter)) == ClaimListings(db)
    ensures ClaimReceiverListingRows(db, Params(name, NoFilter)) == ClaimReceiverListings(db)
    ensures ProviderClaimRows(db, Params(name, NoFilter)) == ClaimListingProviders(db)
    ensures DonationRows(db, Params(name, NoFilter)) == ListingProviders(db)
    ensures TotalFoodQuantity(db, Params(name, NoFilter)) == TotalOf(db.listings)
    ensures SuccessfulClaimRows(db, Params(name, NoFilter)) == Where(ClaimListingProviders(db), IsSuccessful)
  {
    var ps := Params(name, NoFilter);
    assert forall l :: ListingPasses(ps, l);
    WhereAgrees(ClaimListingProviders(db), KeepSuccessful(ps), IsSuccessful);
  }

  /** With the city filter left empty, the two city-only reports cover every provider. */
  lemma EmptyCityFilterKeepsEveryProvider(db: Dataset, name: string)
    requires name in CityOnlyReports
    ensures |Params(name, NoFilter)| == 2
    ensures CityRows(db, Params(name, NoFilter)) == ProviderReceivers(db)
    ensures ContactInfoOfProviders(db, Params(name, NoFilter)) == Contacts(db.providers)
    ensures forall c :: HasCity(ProvidersReceiversPerCity(db, Params(name, NoFilter)), c)
                    <==> exists p :: p in db.providers && p.city == c
  {
    var ps := Params(name, NoFilter);
    assert forall c :: CityPasses(ps, c);
  }

  // ---------------------------------------------------------------- what a filter value selects

  /** A listing-level report keeps exactly the listings on which every
      non-empty filter value, wrapped in `%`, matches; for wildcard-free
      values that is case-insensitive containment. */
  lemma ListingFilterSelects(db: Dataset, name: string, f: Filter, l: FoodListing)
    requires name !in CityOnlyReports
    ensures |Params(name, f)| == 8
    ensures l in ListingRows(db, Params(name, f)) <==> l in db.listings && ListingMatches(f, l)
    ensures Literal(f) ==> (l in ListingRows(db, Params(name, f)) <==> l in db.listings && ListingAdmitted(f, l))
  {
    BoundListingFilter(name, f, l);
    if Literal(f) {
      LiteralFilterIsContainment(f, l);
    }
  }

  /** A claim-level report keeps exactly the joined claims whose listing
      every non-empty filter value matches. */
  lemma ClaimFilterSelects(db: Dataset, name: string, f: Filter, x: ClaimListing)
    requires name !in CityOnlyReports
    ensures |Params(name, f)| == 8
    ensures x in ClaimListingRows(db, Params(name, f)) <==>
      x.0 in db.claims && x.1 in db.listings && x.0.foodId == x.1.id && ListingMatches(f, x.1)
    ensures Literal(f) ==> (x in ClaimListingRows(db, Params(name, f)) <==>
      x.0 in db.claims && x.1 in db.listings && x.0.foodId == x.1.id && ListingAdmitted(f, x.1))
  {
    BoundListingFilter(name, f, x.1);
    if Literal(f) {
      LiteralFilterIsContainment(f, x.1);
    }
  }

  /** The per-city report lists a provider city exactly when the city
      filter is empty or its wrapped value matches the city. */
  lemma CityFilterSelects(db: Dataset, name: string, f: Filter, c: string)
    requires name in CityOnlyReports
    ensures |Params(name, f)| == 2
    ensures HasCity(ProvidersReceiversPerCity(db, Params(name, f)), c) <==>
      FieldMatches(f.city, c) && exists p :: p in db.providers && p.city == c
    ensures NoWildcards(f.city) ==> (HasCity(ProvidersReceiversPerCity(db, Params(name, f)), c) <==>
      Admits(f.city, c) && exists p :: p in db.providers && p.city == c)
  {
    BoundCityFilter(name, f, c);
    if NoWildcards(f.city) {
      LiteralCityFilter(name, f, c);
    }
  }

  /** The contact report lists a provider exactly when the city filter is
      empty or its wrapped value matches the provider's city. */
  lemma ContactFilterSelects(db: Dataset, name: string, f: Filter, p: Provider)
    requires name in CityOnlyReports && p in db.providers
    ensures |Params(name, f)| == 2
    ensures ContactOf(p) in ContactInfoOfProviders(db, Params(name, f)) <==> FieldMatches(f.city, p.city)
  {
    BoundCityFilter(name, f, p.city);
    var ps := Params(name, f);
    if ContactOf(p) in ContactInfoOfProviders(db, ps) {
      var q :| q in db.providers && CityPasses(ps, q.city) && ContactOf(p) == ContactOf(q);
      BoundCityFilter(name, f, q.city);
    }
  }

  /** When the filters reject every listing, no report row survives. */
  lemma NoListingPassesNoRows(db: Dataset, ps: seq<string>)
    requires |ps| == 8
    requires forall l :: l in db.listings ==> !ListingPasses(ps, l)
    ensures ListingRows(db, ps) == []
    ensures ClaimListingRows(db, ps) == []
    ensures ClaimReceiverListingRows(db, ps) == []
    ensures ProviderClaimRows(db, ps) == []
    ensures DonationRows(db, ps) == []
    ensures SuccessfulClaimRows(db, ps) == []
  {
    NothingMatchedIsEmpty(ListingRows(db, ps));
    NothingMatchedIsEmpty(ClaimListingRows(db, ps));
    NothingMatchedIsEmpty(ClaimReceiverListingRows(db, ps));
    NothingMatchedIsEmpty(ProviderClaimRows(db, ps));
    NothingMatchedIsEmpty(DonationRows(db, ps));
    NothingMatchedIsEmpty(SuccessfulClaimRows(db, ps));
  }

  // ---------------------------------------------------------------- ordering

  /** In an ordered report the first row carries the largest aggregate of
      all groups: it is the "most" the report's name promises. */
  lemma MostComesFirst<T>(rows: seq<T>, key: T -> string, m: T -> int, k: string)
    requires Occurs(rows, key, k)
    ensures |Aggregate(rows, key, m)| > 0
    ensures SumKey(rows, key, m, k) <= Aggregate(rows, key, m)[0].measure
  {
    var gs := Aggregate(rows, key, m);
    assert HasGroup(gs, k);
    var g :| g in gs && g.key == k;
    var j :| 0 <= j < |gs| && gs[j] == g;
    assert j == 0 || gs[0].measure >= gs[j].measure;
  }

  // ---------------------------------------------------------------- successful claims

  /** A provider's successful-claim count is positive and never exceeds its
      count of all filtered claims, whatever their status. */
  lemma SuccessfulClaimsBounded(db: Dataset, ps: seq<string>)
    requires |ps| == 8
    ensures forall g :: g in ProviderWithMostSuccessfulClaims(db, ps) ==>
      1 <= g.measure <= SumKey(ProviderClaimRows(db, ps), ClaimProviderNameOf, One, g.key)
  {
    var out := ProviderWithMostSuccessfulClaims(db, ps);
    forall g | g in out
      ensures 1 <= g.measure <= SumKey(ProviderClaimRows(db, ps), ClaimProviderNameOf, One, g.key)
    {
      assert HasGroup(out, g.key);
      OccurringKeyCountsPositive(SuccessfulClaimRows(db, ps), ClaimProviderNameOf, g.key);
      StrongerFilterCountsFewer(ClaimListingProviders(db), KeepSuccessful(ps), KeepProviderClaim(ps), ClaimProviderNameOf, g.key);
    }
  }

  /** Claims whose status is not `Completed` are never counted: with no
      completed claim the report is empty. */
  lemma OnlyCompletedClaimsCount(db: Dataset, ps: seq<string>)
    requires |ps| == 8
    requires forall c :: c in db.claims ==> c.status != Completed
    ensures ProviderWithMostSuccessfulClaims(db, ps) == []
  {
    var rows := SuccessfulClaimRows(db, ps);
    var out := ProviderWithMostSuccessfulClaims(db, ps);
    assert forall x :: x !in rows;
    assert forall g :: g !in out by {
      forall g ensures g !in out {
        assert !Occurs(rows, ClaimProviderNameOf, g.key);
        assert !HasGroup(out, g.key);
      }
    }
    NothingMatchedIsEmpty(out);
  }

  // ---------------------------------------------------------------- claim status percentages

  /** With unique `Food_ID`s a claim joins at most one listing, and exactly
      one when the listing it names exists. */
  lemma {:induction false} UniqueIdsJoinOnce(c: Claim, ls: seq<FoodListing>)
    requires UniqueListingIds(ls)
    ensures |Matches(c, ls, ClaimFood)| <= 1
    ensures (exists l :: l in ls && l.id == c.foodId) ==> |Matches(c, ls, ClaimFood)| == 1
    decreases |ls|
  {
    if |ls| > 0 {
      var tail := ls[1..];
      assert UniqueListingIds(tail) by {
        forall i, j | 0 <= i < j < |tail| ensures tail[i].id != tail[j].id {
          assert tail[i] == ls[i + 1] && tail[j] == ls[j + 1];
        }
      }
      UniqueIdsJoinOnce(c, tail);
      var rest := Matches(c, tail, ClaimFood);
      if ls[0].id == c.foodId {
        forall l | l in tail ensures l.id != c.foodId {
          var j :| 0 <= j < |tail| && tail[j] == l;
          assert ls[j + 1] == l;
        }
        NothingMatchedIsEmpty(rest);
      } else {
        assert forall l :: l in ls && l.id == c.foodId ==> l in tail;
      }
    }
  }

  lemma NothingMatchedIsEmpty<T>(s: seq<T>)
    requires forall x :: x !in s
    ensures |s| == 0
  {
    FirstIsMember(s);
  }

  lemma FirstIsMember<T>(s: seq<T>)
    ensures |s| > 0 ==> s[0] in s
  {
  }

  /** The numerators of the percentages count joined claim rows. */
  lemma StatusCountsAddUp(db: Dataset, ps: seq<string>)
    requires |ps| == 8
    ensures TotalMeasure(ClaimsStatusPercentage(db, ps).counts) == |ClaimListingRows(db, ps)|
  {
    SumOfOnesIsLength(ClaimListingRows(db, ps));
  }

  /** With unique `Food_ID`s the numerators of the percentages add up to at
      most the row count of Claims, so the percentages add up to at most 100. */
  lemma PercentagesAtMostWhole(db: Dataset, ps: seq<string>)
    requires |ps| == 8 && UniqueListingIds(db.listings)
    ensures TotalMeasure(ClaimsStatusPercentage(db, ps).counts) <= ClaimsStatusPercentage(db, ps).outOf
  {
    StatusCountsAddUp(db, ps);
    forall c | c in db.claims ensures |Matches(c, db.listings, ClaimFood)| <= 1 {
      UniqueIdsJoinOnce(c, db.listings);
    }
    JoinSizeByPartners(db.claims, db.listings, ClaimFood);
  }

  /** The unique-`Food_ID` condition above cannot be dropped: when two
      listings share the `Food_ID` of the only claim, the join pairs that
      claim with both, so the numerators add up to 2 over a denominator of 1. */
  lemma SharedListingIdCountsClaimTwice(db: Dataset, name: string)
    requires name !in CityOnlyReports
    requires |db.claims| == 1 && |db.listings| == 2
    requires db.claims[0].foodId == db.listings[0].id == db.listings[1].id
    ensures !UniqueListingIds(db.listings)
    ensures |Params(name, NoFilter)| == 8
    ensures ClaimsStatusPercentage(db, Params(name, NoFilter)).outOf == 1
    ensures TotalMeasure(ClaimsStatusPercentage(db, Params(name, NoFilter)).counts) == 2
  {
    var ps := Params(name, NoFilter);
    EmptyFiltersKeepEveryRow(db, name);
    StatusCountsAddUp(db, ps);
    var c := db.claims[0];
    var ls := db.listings;
    assert ls[1..][1..] == [];
    assert |Matches(c, ls[1..], ClaimFood)| == 1;
    assert |Matches(c, ls, ClaimFood)| == 2;
    assert db.claims[1..] == [];
    assert |ClaimListings(db)| == 2;
  }

  /** With every filter empty, unique `Food_ID`s and every claim naming an
      existing listing, the percentages add up to exactly 100. */
  lemma PercentagesCoverEveryClaim(db: Dataset, name: string)
    requires name !in CityOnlyReports
    requires UniqueListingIds(db.listings) && ClaimsReferToListings(db)
    ensures |Params(name, NoFilter)| == 8
    ensures TotalMeasure(ClaimsStatusPercentage(db, Params(name, NoFilter)).counts)
         == ClaimsStatusPercentage(db, Params(name, NoFilter)).outOf
  {
    var ps := Params(name, NoFilter);
    EmptyFiltersKeepEveryRow(db, name);
    StatusCountsAddUp(db, ps);
    forall c | c in db.claims ensures |Matches(c, db.listings, ClaimFood)| == 1 {
      UniqueIdsJoinOnce(c, db.listings);
    }
    JoinSizeByPartners(db.claims, db.listings, ClaimFood);
  }

  lemma {:induction false} MemberAtMostTotal(gs: seq<Measured>, g: Measured)
    requires forall h :: h in gs ==> h.measure >= 0
    requires g in gs
    ensures g.measure <= TotalMeasure(gs)
    decreases |gs|
  {
    TotalNonNegative(gs[1..]);
    if gs[0] != g {
      MemberAtMostTotal(gs[1..], g);
    }
  }

  lemma {:induction false} TotalNonNegative(gs: seq<Measured>)
    requires forall h :: h in gs ==> h.measure >= 0
    ensures TotalMeasure(gs) >= 0
    decreases |gs|
  {
    if |gs| > 0 {
      TotalNonNegative(gs[1..]);
    }
  }

  /** A status row exists only when some claim does, so its percentage
      never divides by zero, whatever the filters. */
  lemma ShareDenominatorPositive(db: Dataset, ps: seq<string>, g: Measured)
    requires |ps| == 8 && g in ClaimsStatusPercentage(db, ps).counts
    ensures ClaimsStatusPercentage(db, ps).outOf >= 1
  {
    var rows := ClaimListingRows(db, ps);
    assert HasGroup(ClaimsStatusPercentage(db, ps).counts, g.key);
    var x :| x in rows && StatusOf(x) == g.key;
    assert x.0 in db.claims;
  }

  /** Each status's share is between 0 (exclusive) and 100 percent. */
  lemma EachShareAtMostWhole(db: Dataset, ps: seq<string>, g: Measured)
    requires |ps| == 8 && UniqueListingIds(db.listings)
    requires g in ClaimsStatusPercentage(db, ps).counts
    ensures 0 < g.measure <= ClaimsStatusPercentage(db, ps).outOf
  {
    PercentagesAtMostWhole(db, ps);
    MemberAtMostTotal(ClaimsStatusPercentage(db, ps).counts, g);
  }

  // ---------------------------------------------------------------- providers and receivers per city

  /** Every listed city has at least one provider, and it shows 0 receivers
      exactly when no receiver lives there: the outer join keeps it. */
  lemma CityWithoutReceiversShowsZero(db: Dataset, ps: seq<string>)
    requires |ps| == 2
    ensures forall row :: row in ProvidersReceiversPerCity(db, ps) ==>
      && row.providers >= 1
      && (row.receivers == 0 <==> forall r :: r in db.receivers ==> r.city != row.city)
  {
    var out := ProvidersReceiversPerCity(db, ps);
    forall row | row in out
      ensures row.providers >= 1
      ensures row.receivers == 0 <==> forall r :: r in db.receivers ==> r.city != row.city
    {
      assert HasCity(out, row.city);
      var p :| p in db.providers && p.city == row.city;
      assert p.id in ProvidersOfCity(db, row.city);
      if r :| r in db.receivers && r.city == row.city {
        assert r.id in ReceiversOfCity(db, row.city);
      } else {
        assert ReceiversOfCity(db, row.city) == {};
      }
    }
  }

  /** A provider city that passes the filter but has no receivers still
      gets its row, with 0 receivers. */
  lemma CityWithoutReceiversKept(db: Dataset, ps: seq<string>, c: string)
    requires |ps| == 2 && CityPasses(ps, c)
    requires exists p :: p in db.providers && p.city == c
    requires forall r :: r in db.receivers ==> r.city != c
    ensures exists row :: row in ProvidersReceiversPerCity(db, ps) && row.city == c && row.receivers == 0
  {
    var out := ProvidersReceiversPerCity(db, ps);
    assert HasCity(out, c);
    CityWithoutReceiversShowsZero(db, ps);
  }

  // ---------------------------------------------------------------- reports that agree

  /** A grouped report is empty exactly when no row reaches it. */
  lemma GroupsExistIffRows<T>(rows: seq<T>, key: T -> string, m: T -> int)
    ensures |Aggregate(rows, key, m)| == 0 <==> |rows| == 0
  {
    var gs := Aggregate(rows, key, m);
    if |rows| > 0 {
      assert Occurs(rows, key, key(rows[0]));
      assert HasGroup(gs, key(rows[0]));
    } else {
      forall g ensures g !in gs {
        assert !Occurs(rows, key, g.key);
      }
      NothingMatchedIsEmpty(gs);
    }
  }

  /** The grand total is the sum of the per-provider-type totals, and it is
      NULL exactly when that report has no rows. */
  lemma GrandTotalSplitsByProviderType(db: Dataset, ps: seq<string>)
    requires |ps| == 8
    ensures TotalFoodQuantity(db, ps).None? <==> ProviderTypeWithMostFood(db, ps) == []
    ensures TotalFoodQuantity(db, ps).Some? ==>
      TotalFoodQuantity(db, ps).value == TotalMeasure(ProviderTypeWithMostFood(db, ps))
  {
    GroupsExistIffRows(ListingRows(db, ps), ProviderTypeOf, QuantityOf);
  }

  /** Counting listings per city and per food type counts the same listings. */
  lemma ListingCountsAgree(db: Dataset, ps: seq<string>)
    requires |ps| == 8
    ensures TotalMeasure(CityWithMostListings(db, ps)) == |ListingRows(db, ps)|
    ensures TotalMeasure(MostCommonFoodTypes(db, ps)) == |ListingRows(db, ps)|
  {
    SumOfOnesIsLength(ListingRows(db, ps));
  }

  /** Claims per food item, per meal type and per status count the same claims. */
  lemma ClaimCountsAgree(db: Dataset, ps: seq<string>)
    requires |ps| == 8
    ensures TotalMeasure(ClaimsPerFoodItem(db, ps)) == |ClaimListingRows(db, ps)|
    ensures TotalMeasure(MostClaimedMealType(db, ps)) == |ClaimListingRows(db, ps)|
    ensures TotalMeasure(ClaimsStatusPercentage(db, ps).counts) == |ClaimListingRows(db, ps)|
  {
    SumOfOnesIsLength(ClaimListingRows(db, ps));
  }

  /** The average report and the most-claims report group the same rows by
      receiver name, and an average's sum is that receiver's claimed total. */
  lemma AveragesMatchClaimedTotals(db: Dataset, ps: seq<string>, a: Mean)
    requires |ps| == 8 && a in AverageQuantityPerReceiver(db, ps)
    ensures exists g :: g in ReceiversWithMostClaims(db, ps) && g.key == a.name && g.measure == a.total
  {
    var avg := AverageQuantityPerReceiver(db, ps);
    var most := ReceiversWithMostClaims(db, ps);
    assert HasMean(avg, a.name);
    assert HasGroup(most, a.name);
  }
}
