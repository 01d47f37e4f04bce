/** Small concrete databases on which the reports' results are worked out
    completely. */
module Scenarios {
  import opened Schema
  import opened Relational
  import opened Pattern
  import opened Filters
  import opened Reports
  import opened ReportLaws
  import Executor

  /** Two providers, in Austin and Dallas, and one receiver, in Austin. */
  const TwoCities: Dataset := Dataset(
    [Provider(1, "P1", "", "Austin"), Provider(2, "P2", "", "Dallas")],
    [Receiver(1, "R1", "Austin")],
    [],
    [])

  const PerCity: string := "Providers & Receivers per City"

  /** Unfiltered, both provider cities are listed; Dallas, which has no
      receiver, shows 0 receivers. */
  lemma PerCityUnfiltered()
    ensures |Params(PerCity, NoFilter)| == 2
    ensures ProvidersReceiversPerCity(TwoCities, Params(PerCity, NoFilter))
         == [CityCount("Austin", 1, 1), CityCount("Dallas", 1, 0)]
  {
    var ps := Params(PerCity, NoFilter);
    TwoCitiesJoined();
    assert forall x :: KeepProviderReceiver(ps)(x);
    TwoCityCounts(CityRows(TwoCities, ps));
  }

  lemma TwoCityCounts(rows: seq<ProviderReceiver>)
    requires rows == [(TwoCities.providers[0], Some(TwoCities.receivers[0])), (TwoCities.providers[1], None)]
    ensures CityCounts(rows) == [CityCount("Austin", 1, 1), CityCount("Dallas", 1, 0)]
  {
    assert rows[..1][..0] == [];
    assert DistinctKeys(rows[..1], CityOf) == ["Austin"];
    assert rows[..2][..1] == rows[..1] && rows[..2] == rows;
    assert DistinctKeys(rows, CityOf) == ["Austin", "Dallas"];
    assert ProviderIdsIn(rows, "Austin") == {1};
    assert ReceiverIdsIn(rows, "Austin") == {1};
    assert ProviderIdsIn(rows, "Dallas") == {2};
    assert ReceiverIdsIn(rows, "Dallas") == {};
  }

  lemma TwoCitiesJoined()
    ensures ProviderReceivers(TwoCities)
         == [(TwoCities.providers[0], Some(TwoCities.receivers[0])), (TwoCities.providers[1], None)]
  {
    var ps := TwoCities.providers;
    var rs := TwoCities.receivers;
    assert PresentMatches(ps[0], rs, SameCity) == [(ps[0], Some(rs[0]))];
    assert PresentMatches(ps[1], rs, SameCity) == [];
    assert ps[1..][1..] == [];
  }

  /** Filtering on "Austin" keeps the Austin row only. */
  lemma PerCityFilteredToAustin()
    ensures |Params(PerCity, Filter("Austin", "", "", ""))| == 2
    ensures ProvidersReceiversPerCity(TwoCities, Params(PerCity, Filter("Austin", "", "", "")))
         == [CityCount("Austin", 1, 1)]
  {
    var ps := Params(PerCity, Filter("Austin", "", "", ""));
    AustinRows(ps);
    AustinCounts(CityRows(TwoCities, ps));
  }

  lemma AustinRows(ps: seq<string>)
    requires ps == Params(PerCity, Filter("Austin", "", "", ""))
    ensures |ps| == 2
    ensures CityRows(TwoCities, ps) == [(TwoCities.providers[0], Some(TwoCities.receivers[0]))]
  {
    TwoCitiesJoined();
    AustinFilter();
    var joined := ProviderReceivers(TwoCities);
    var keep := KeepProviderReceiver(ps);
    assert keep(joined[0]) && !keep(joined[1]);
    assert joined[1..][1..] == [];
    assert Where(joined[1..], keep) == [];
  }

  lemma AustinCounts(rows: seq<ProviderReceiver>)
    requires rows == [(TwoCities.providers[0], Some(TwoCities.receivers[0]))]
    ensures CityCounts(rows) == [CityCount("Austin", 1, 1)]
  {
    assert DistinctKeys(rows, CityOf) == ["Austin"];
    assert ProviderIdsIn(rows, "Austin") == {1};
    assert ReceiverIdsIn(rows, "Austin") == {1};
  }

  /** The bound pattern `%Austin%` matches "Austin" and not "Dallas". */
  lemma AustinFilter()
    ensures |Params(PerCity, Filter("Austin", "", "", ""))| == 2
    ensures CityPasses(Params(PerCity, Filter("Austin", "", "", "")), "Austin")
    ensures !CityPasses(Params(PerCity, Filter("Austin", "", "", "")), "Dallas")
  {
    var v := "Austin";
    assert NoWildcards(v);
    WrappedLiteralIsContainment("Austin", v);
    WrappedLiteralIsContainment("Dallas", v);
    assert PrefixFolded(v, "Austin"[0..]);
    forall i | 0 <= i <= |"Dallas"| ensures !PrefixFolded(v, "Dallas"[i..]) {
      assert |"Dallas"[i..]| < |v| || Lower("Dallas"[i..][0]) != Lower(v[0]);
    }
  }

  /** Three completed claims and one pending claim, all on one listing. */
  const FourClaims: Dataset := Dataset(
    [Provider(1, "P1", "", "Austin")],
    [Receiver(1, "R1", "Austin")],
    [FoodListing(10, "Bread", 5, 1, "Restaurant", "Austin", "Vegetarian", "Lunch")],
    [Claim(1, 10, 1, "Completed"), Claim(2, 10, 1, "Completed"),
     Claim(3, 10, 1, "Completed"), Claim(4, 10, 1, "Pending")])

  const StatusReport: string := "Claims Status Percentage"

  /** Unfiltered, "Completed" is 3 of 4 claims (75%) and "Pending" 1 of 4 (25%). */
  lemma StatusSharesUnfiltered()
    ensures |Params(StatusReport, NoFilter)| == 8
    ensures ClaimsStatusPercentage(FourClaims, Params(StatusReport, NoFilter))
         == StatusShares([Measured("Completed", 3), Measured("Pending", 1)], 4)
  {
    var ps := Params(StatusReport, NoFilter);
    EmptyFilterRows(FourClaims, ps);
    var cs := FourClaims.claims;
    assert |cs| == 4 && |FourClaims.listings| == 1;
    EachOfFourNamesListing(cs, 10);
    ClaimsOnOneListing(FourClaims);
    var rows := ClaimListings(FourClaims);
    assert rows[0].0 == cs[0] && rows[1].0 == cs[1] && rows[2].0 == cs[2] && rows[3].0 == cs[3];
    StatusCounts(rows);
  }

  lemma EachOfFourNamesListing(cs: seq<Claim>, id: int)
    requires |cs| == 4
    requires cs[0].foodId == id && cs[1].foodId == id && cs[2].foodId == id && cs[3].foodId == id
    ensures forall i :: 0 <= i < |cs| ==> cs[i].foodId == id
  {
  }

  /** When a database has a single listing that every claim names, its
      claim/listing join is the claims in table order, each with that listing. */
  lemma ClaimsOnOneListing(db: Dataset)
    requires |db.listings| == 1
    requires forall i :: 0 <= i < |db.claims| ==> db.claims[i].foodId == db.listings[0].id
    ensures |ClaimListings(db)| == |db.claims|
    ensures forall i :: 0 <= i < |db.claims| ==> ClaimListings(db)[i].0 == db.claims[i]
  {
    assert db.listings == [db.listings[0]];
    ClaimsJoinOneListing(db.claims, db.listings[0]);
  }

  /** Claims that all name the one listing each join it once, in order. */
  lemma {:induction false} ClaimsJoinOneListing(cs: seq<Claim>, l: FoodListing)
    requires forall i :: 0 <= i < |cs| ==> cs[i].foodId == l.id
    ensures |Join(cs, [l], ClaimFood)| == |cs|
    ensures forall i :: 0 <= i < |cs| ==> Join(cs, [l], ClaimFood)[i] == (cs[i], l)
    decreases |cs|
  {
    if |cs| > 0 {
      ClaimsJoinOneListing(cs[1..], l);
      assert [l][1..] == [];
      assert Matches(cs[0], [l], ClaimFood) == [(cs[0], l)];
    }
  }

  lemma StatusCounts(rows: seq<ClaimListing>)
    requires |rows| == 4
    requires rows[0].0.status == rows[1].0.status == rows[2].0.status == Completed
    requires rows[3].0.status == "Pending"
    ensures GroupBy(rows, StatusOf, One) == [Measured("Completed", 3), Measured("Pending", 1)]
  {
    assert rows[..1][..0] == [];
    assert DistinctKeys(rows[..1], StatusOf) == ["Completed"];
    assert rows[..2][..1] == rows[..1];
    assert DistinctKeys(rows[..2], StatusOf) == ["Completed"];
    assert rows[..3][..2] == rows[..2];
    assert DistinctKeys(rows[..3], StatusOf) == ["Completed"];
    assert rows[..4][..3] == rows[..3] && rows[..4] == rows;
    assert DistinctKeys(rows, StatusOf) == ["Completed", "Pending"];
    assert rows[1..][1..][1..][1..] == [];
    assert SumKey(rows[3..], StatusOf, One, "Completed") == 0;
    assert SumKey(rows[3..], StatusOf, One, "Pending") == 1;
    assert rows[2..][1..] == rows[3..];
    assert SumKey(rows[2..], StatusOf, One, "Completed") == 1;
    assert SumKey(rows[2..], StatusOf, One, "Pending") == 1;
    assert rows[1..][1..] == rows[2..];
    assert SumKey(rows[1..], StatusOf, One, "Completed") == 2;
    assert SumKey(rows[1..], StatusOf, One, "Pending") == 1;
    assert SumKey(rows, StatusOf, One, "Completed") == 3;
    assert SumKey(rows, StatusOf, One, "Pending") == 1;
  }

  /** Filtering on a meal type no listing has empties every numerator while
      the denominator still counts all four claims. */
  lemma StatusSharesFilteredOut()
    ensures |Params(StatusReport, Filter("", "", "", "Dinner"))| == 8
    ensures ClaimsStatusPercentage(FourClaims, Params(StatusReport, Filter("", "", "", "Dinner")))
         == StatusShares([], 4)
  {
    var ps := Params(StatusReport, Filter("", "", "", "Dinner"));
    DinnerFilter(ps);
    NoDinnerClaims(ps);
    assert GroupBy([], StatusOf, One) == [];
  }

  lemma NoDinnerClaims(ps: seq<string>)
    requires ps == Params(StatusReport, Filter("", "", "", "Dinner"))
    ensures |ps| == 8
    ensures ClaimListingRows(FourClaims, ps) == []
  {
    DinnerFilter(ps);
    assert FourClaims.listings == [FourClaims.listings[0]];
    NoListingPassesNoRows(FourClaims, ps);
  }

  /** The bound pattern `%Dinner%` rejects the one listing, a lunch. */
  lemma DinnerFilter(ps: seq<string>)
    requires ps == Params(StatusReport, Filter("", "", "", "Dinner"))
    ensures |ps| == 8
    ensures !ListingPasses(ps, FourClaims.listings[0])
  {
    var v := "Dinner";
    assert NoWildcards(v);
    WrappedLiteralIsContainment("Lunch", v);
    forall i | 0 <= i <= |"Lunch"| ensures !PrefixFolded(v, "Lunch"[i..]) {
      assert |"Lunch"[i..]| < |v|;
    }
  }

  lemma EmptyFilterRows(db: Dataset, ps: seq<string>)
    requires ps == Params(StatusReport, NoFilter)
    ensures |ps| == 8
    ensures ClaimListingRows(db, ps) == ClaimListings(db)
  {
    assert forall x :: KeepClaimListing(ps)(x);
  }

  /** A name outside the catalog is reported as unknown. */
  lemma UnknownReportFails(db: Dataset)
    ensures Executor.RunReport("does-not-exist", db, NoFilter) == Executor.Err(Executor.UnknownReport("does-not-exist"))
  {
  }
}
