/** The four tables of the food-wastage database, restricted to the columns
    the reports read. Tables are sequences: SQL tables are bags, and a
    sequence keeps both duplicates and the scan order the reports inherit. */
module Schema {

  datatype Provider = Provider(id: int, name: string, contact: string, city: string)

  datatype Receiver = Receiver(id: int, name: string, city: string)

  datatype FoodListing = FoodListing(
    id: int,
    foodName: string,
    quantity: int,
    providerId: int,
    providerType: string,
    location: string,
    foodType: string,
    mealType: string)

  datatype Claim = Claim(id: int, foodId: int, receiverId: int, status: string)

  datatype Dataset = Dataset(
    providers: seq<Provider>,
    receivers: seq<Receiver>,
    listings: seq<FoodListing>,
    claims: seq<Claim>)

  /** The status value the successful-claims report restricts to. */
  const Completed: string := "Completed"

  /** `Food_ID` behaves as a primary key of Food_Listings. */
  predicate UniqueListingIds(listings: seq<FoodListing>) {
    forall i, j :: 0 <= i < j < |listings| ==> listings[i].id != listings[j].id
  }

  /** Every claim refers to a listing that exists. */
  predicate ClaimsReferToListings(db: Dataset) {
    forall c :: c in db.claims ==> exists l :: l in db.listings && l.id == c.foodId
  }
}
