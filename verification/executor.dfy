/** Running a selected report: the name is looked up in the catalog, the
    filter values are bound as the query's positional parameters, and the
    query's rows come back as a table of column names and values. The
    database driver refuses a query whose placeholder count differs from the
    number of parameters supplied. */
module Executor {
  import opened Schema
  import opened Relational
  import opened Filters
  import C = Catalog
  import R = Reports

  /** A result cell. `SUM` over no rows is `Null`; a percentage and an
      average are kept as the exact numerator and denominator they are
      computed from. */
  datatype Value =
    | Text(text: string)
    | Int(number: int)
    | Null
    | Percent(part: int, whole: int)
    | Average(total: int, count: int)

  datatype QueryResult = QueryResult(columns: seq<string>, rows: seq<seq<Value>>)

  datatype Error =
    | UnknownReport(name: string)
    | ArityMismatch(expected: nat, supplied: nat)

  datatype Result<T> = Ok(value: T) | Err(error: Error)

  /** Every row has one cell per column. */
  predicate Rectangular(q: QueryResult) {
    forall i :: 0 <= i < |q.rows| ==> |q.rows[i]| == |q.columns|
  }

  /** The second column holds integers, largest first. */
  predicate MeasureDescending(rows: seq<seq<Value>>) {
    && (forall i :: 0 <= i < |rows| ==> |rows[i]| == 2 && rows[i][1].Int?)
    && (forall i, j :: 0 <= i < j < |rows| ==> rows[i][1].number >= rows[j][1].number)
  }

  /** Key/aggregate rows: the key as text, the aggregate as an integer. */
  function MeasureRows(gs: seq<Measured>): (rows: seq<seq<Value>>)
    ensures |rows| == |gs|
    ensures forall i :: 0 <= i < |gs| ==> rows[i] == [Text(gs[i].key), Int(gs[i].measure)]
    ensures NonIncreasing(gs) ==> MeasureDescending(rows)
  {
    seq(|gs|, i requires 0 <= i < |gs| => [Text(gs[i].key), Int(gs[i].measure)])
  }

  function CityCountRows(out: seq<R.CityCount>): (rows: seq<seq<Value>>)
    ensures |rows| == |out|
    ensures forall i :: 0 <= i < |out| ==>
      rows[i] == [Text(out[i].city), Int(out[i].providers), Int(out[i].receivers)]
  {
    seq(|out|, i requires 0 <= i < |out| => [Text(out[i].city), Int(out[i].providers), Int(out[i].receivers)])
  }

  function ContactRows(out: seq<R.Contact>): (rows: seq<seq<Value>>)
    ensures |rows| == |out|
    ensures forall i :: 0 <= i < |out| ==> rows[i] == [Text(out[i].name), Text(out[i].contact), Text(out[i].city)]
  {
    seq(|out|, i requires 0 <= i < |out| => [Text(out[i].name), Text(out[i].contact), Text(out[i].city)])
  }

  function ShareRows(s: R.StatusShares): (rows: seq<seq<Value>>)
    ensures |rows| == |s.counts|
    ensures forall i :: 0 <= i < |s.counts| ==> rows[i] == [Text(s.counts[i].key), Percent(s.counts[i].measure, s.outOf)]
  {
    seq(|s.counts|, i requires 0 <= i < |s.counts| => [Text(s.counts[i].key), Percent(s.counts[i].measure, s.outOf)])
  }

  function MeanRows(out: seq<R.Mean>): (rows: seq<seq<Value>>)
    ensures |rows| == |out|
    ensures forall i :: 0 <= i < |out| ==> rows[i] == [Text(out[i].name), Average(out[i].total, out[i].count)]
  {
    seq(|out|, i requires 0 <= i < |out| => [Text(out[i].name), Average(out[i].total, out[i].count)])
  }

  /** The single row of an aggregate without `GROUP BY`. */
  function TotalRow(total: Option<int>): (rows: seq<seq<Value>>)
    ensures |rows| == 1 && |rows[0]| == 1
    ensures rows[0][0] == Null <==> total.None?
    ensures total.Some? ==> rows[0][0] == Int(total.value)
  {
    match total
    case None => [[Null]]
    case Some(v) => [[Int(v)]]
  }

  /** The rows of query `r` once its placeholders are bound to `ps`. */
  function Rows(r: C.Report, db: Dataset, ps: seq<string>): (rows: seq<seq<Value>>)
    requires |ps| == C.Placeholders(r)
    ensures forall i :: 0 <= i < |rows| ==> |rows[i]| == |C.Columns(r)|
    ensures r == C.TotalFoodQuantity ==> |rows| == 1
  {
    match r
    case ProvidersReceiversPerCity => CityCountRows(R.ProvidersReceiversPerCity(db, ps))
    case ProviderTypeWithMostFood => MeasureRows(R.ProviderTypeWithMostFood(db, ps))
    case ContactInfoOfProviders => ContactRows(R.ContactInfoOfProviders(db, ps))
    case ReceiversWithMostClaims => MeasureRows(R.ReceiversWithMostClaims(db, ps))
    case TotalFoodQuantity => TotalRow(R.TotalFoodQuantity(db, ps))
    case CityWithMostListings => MeasureRows(R.CityWithMostListings(db, ps))
    case MostCommonFoodTypes => MeasureRows(R.MostCommonFoodTypes(db, ps))
    case ClaimsPerFoodItem => MeasureRows(R.ClaimsPerFoodItem(db, ps))
    case ProviderWithMostSuccessfulClaims => MeasureRows(R.ProviderWithMostSuccessfulClaims(db, ps))
    case ClaimsStatusPercentage => ShareRows(R.ClaimsStatusPercentage(db, ps))
    case AverageQuantityPerReceiver => MeanRows(R.AverageQuantityPerReceiver(db, ps))
    case MostClaimedMealType => MeasureRows(R.MostClaimedMealType(db, ps))
    case TotalDonatedByProvider => MeasureRows(R.TotalDonatedByProvider(db, ps))
  }

  /** The queries ending in `ORDER BY ... DESC` return their aggregate
      column as integers, largest first. */
  lemma OrderedRowsDescend(r: C.Report, db: Dataset, ps: seq<string>)
    requires |ps| == C.Placeholders(r) && C.OrderedDescending(r)
    ensures MeasureDescending(Rows(r, db, ps))
  {
  }

  /** Executes query `r` with positional parameters `ps`. The driver refuses
      a parameter count that differs from the placeholder count; otherwise
      the result has the query's columns, one cell per column in every row,
      a single row for the grand total, and, for the queries ending in
      `ORDER BY ... DESC`, its aggregate column in non-increasing order. */
  function Execute(r: C.Report, db: Dataset, ps: seq<string>): (res: Result<QueryResult>)
    ensures res.Err? <==> |ps| != C.Placeholders(r)
    ensures res.Err? ==> res.error == ArityMismatch(C.Placeholders(r), |ps|)
    ensures res.Ok? ==> res.value.columns == C.Columns(r) && Rectangular(res.value)
    ensures res.Ok? && r == C.TotalFoodQuantity ==> |res.value.rows| == 1
    ensures res.Ok? && C.OrderedDescending(r) ==> MeasureDescending(res.value.rows)
  {
    if |ps| != C.Placeholders(r) then Err(ArityMismatch(C.Placeholders(r), |ps|))
    else
      if C.OrderedDescending(r) then
        OrderedRowsDescend(r, db, ps);
        Ok(QueryResult(C.Columns(r), Rows(r, db, ps)))
      else Ok(QueryResult(C.Columns(r), Rows(r, db, ps)))
  }

  /** Selecting a report by name with the four sidebar filter values: an
      unknown name is an error; a known one is executed with the parameter
      tuple chosen for its name, which always fits its query. */
  function RunReport(name: string, db: Dataset, f: Filter): (res: Result<QueryResult>)
    ensures res.Err? <==> name !in C.ReportNames()
    ensures res.Err? ==> res.error == UnknownReport(name)
    ensures res.Ok? ==> exists r :: C.Name(r) == name && res.value.columns == C.Columns(r)
    ensures res.Ok? ==> Rectangular(res.value)
  {
    match C.Lookup(name)
    case None => Err(UnknownReport(name))
    case Some(r) =>
      C.ParamsFitQuery(r, f);
      Execute(r, db, Params(name, f))
  }

  /** Running a catalog report by its name executes its query with exactly
      the parameters its declared filter conjuncts call for. */
  lemma RunReportBindsDeclaredFilters(r: C.Report, db: Dataset, f: Filter)
    ensures RunReport(C.Name(r), db, f) == Execute(r, db, Compile(C.Fields(r), f))
    ensures RunReport(C.Name(r), db, f).Ok?
  {
    C.LookupInvertsName(r);
    C.ParamsFitQuery(r, f);
  }
}
