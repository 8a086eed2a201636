/**
 * Factor data of a factor risk report: validate the report and the factor,
 * derive the column name from the query type, fetch the factor's records
 * and keep, in order, the dated values of the requested field.
 *
 * The report service (report type, risk model, factor lookup, factor data)
 * is a value of functions; every call the extraction makes on it is
 * recorded, so that what is and is not consulted can be stated.
 */
module MeasuresReports {
  import opened Wrappers

  datatype QueryType = FactorExposure | FactorPnl | FactorProportionOfRisk | OtherQuery(name: string)

  /** The string value of each query type. */
  function QueryValue(q: QueryType): string
  {
    match q
    case FactorExposure => "Factor Exposure"
    case FactorPnl => "Factor Pnl"
    case FactorProportionOfRisk => "Factor Proportion Of Risk"
    case OtherQuery(name) => name
  }

  /** The record field that holds the data of each factor query type. */
  const QueryToFieldMap: map<QueryType, string> :=
    map[FactorExposure := "exposure", FactorPnl := "pnl", FactorProportionOfRisk := "proportionOfRisk"]

  /** The table has exactly three entries, one distinct field each. */
  lemma QueryToFieldMapEntries()
    ensures QueryToFieldMap.Keys == {FactorExposure, FactorPnl, FactorProportionOfRisk}
    ensures QueryToFieldMap[FactorExposure] == "exposure"
    ensures QueryToFieldMap[FactorPnl] == "pnl"
    ensures QueryToFieldMap[FactorProportionOfRisk] == "proportionOfRisk"
    ensures forall q1, q2 :: q1 in QueryToFieldMap && q2 in QueryToFieldMap && q1 != q2 ==>
      QueryToFieldMap[q1] != QueryToFieldMap[q2]
  {
  }

  // ---------------------------------------------------------------------
  // Column name
  // ---------------------------------------------------------------------

  /** `s` with every space removed. */
  function RemoveSpaces(s: string): (r: string)
    ensures ' ' !in r
  {
    if s == [] then []
    else (if s[0] == ' ' then [] else [s[0]]) + RemoveSpaces(s[1..])
  }

  /** Removing spaces keeps the order of everything else. */
  lemma {:induction false} RemoveSpacesAppend(a: string, b: string)
    ensures RemoveSpaces(a + b) == RemoveSpaces(a) + RemoveSpaces(b)
  {
    if a == [] {
      assert a + b == b;
    } else {
      var head := if a[0] == ' ' then [] else [a[0]];
      assert (a + b)[0] == a[0];
      assert (a + b)[1..] == a[1..] + b;
      assert RemoveSpaces(a + b) == head + RemoveSpaces(a[1..] + b);
      RemoveSpacesAppend(a[1..], b);
      assert RemoveSpaces(a) == head + RemoveSpaces(a[1..]);
      assert head + (RemoveSpaces(a[1..]) + RemoveSpaces(b)) == (head + RemoveSpaces(a[1..])) + RemoveSpaces(b);
    }
  }

  /** Removing spaces drops every space and keeps every other character, as many times as it occurs. */
  lemma {:induction false} RemoveSpacesMultiset(s: string)
    ensures multiset(RemoveSpaces(s)) == multiset(s)[' ' := 0]
    ensures |RemoveSpaces(s)| == |s| - multiset(s)[' ']
  {
    if s != [] {
      RemoveSpacesMultiset(s[1..]);
      assert s == [s[0]] + s[1..];
      assert multiset(s) == multiset{s[0]} + multiset(s[1..]);
    }
  }

  /** A string without spaces is left as it is. */
  lemma {:induction false} RemoveSpacesNoSpace(s: string)
    requires ' ' !in s
    ensures RemoveSpaces(s) == s
  {
    if s != [] {
      assert s[0] != ' ';
      RemoveSpacesNoSpace(s[1..]);
    }
  }

  /** Lower case of a character: no upper-case letter is left, and a space stays the only space. */
  function LowerChar(c: char): (l: char)
    ensures 'A' <= c <= 'Z' ==> 'a' <= l <= 'z' && l as int - c as int == 32
    ensures !('A' <= c <= 'Z') ==> l == c
    ensures !('A' <= l <= 'Z')
    ensures l == ' ' <==> c == ' '
  {
    if 'A' <= c <= 'Z' then (c as int + 32) as char else c
  }

  /**
   * The column name of a query type value: spaces removed, first character
   * lowered. None when nothing is left, where indexing the first character fails.
   */
  function ColumnName(queryValue: string): (column: Option<string>)
    ensures column.None? <==> RemoveSpaces(queryValue) == []
    ensures column.Some? ==>
      && |column.value| == |RemoveSpaces(queryValue)|
      && column.value[0] == LowerChar(RemoveSpaces(queryValue)[0])
      && column.value[1..] == RemoveSpaces(queryValue)[1..]
      && ' ' !in column.value
  {
    var squeezed := RemoveSpaces(queryValue);
    if squeezed == [] then None
    else
      var column := [LowerChar(squeezed[0])] + squeezed[1..];
      assert squeezed == [squeezed[0]] + squeezed[1..];
      assert column[1..] == squeezed[1..];
      Some(column)
  }

  /** A column name is its own column name. */
  lemma ColumnNameIdempotent(queryValue: string)
    requires ColumnName(queryValue).Some?
    ensures ColumnName(ColumnName(queryValue).value) == ColumnName(queryValue)
  {
    var column := ColumnName(queryValue).value;
    RemoveSpacesNoSpace(column);
  }

  /** Removing the spaces of words joined by single spaces joins the words. */
  lemma RemoveSpacesJoin(w: string, rest: string)
    requires ' ' !in w
    ensures RemoveSpaces(w + [' '] + rest) == w + RemoveSpaces(rest)
  {
    var tail := [' '] + rest;
    assert w + [' '] + rest == w + tail;
    assert tail[0] == ' ' && tail[1..] == rest;
    assert RemoveSpaces(tail) == RemoveSpaces(rest);
    RemoveSpacesAppend(w, tail);
    RemoveSpacesNoSpace(w);
  }

  /** Lowering the head of a concatenation lowers the head of its first part. */
  lemma LowerHead(squeezed: string, first: string, tail: string, lowered: string)
    requires squeezed == first + tail && first != []
    requires lowered == [LowerChar(first[0])] + first[1..]
    ensures squeezed != [] && [LowerChar(squeezed[0])] + squeezed[1..] == lowered + tail
  {
    assert squeezed[0] == first[0];
    assert squeezed[1..] == first[1..] + tail;
  }

  /** A first word without spaces, then a space, then the rest: the lowered first word, then the rest unspaced. */
  lemma ColumnNameOfWords(value: string, first: string, rest: string, lowered: string)
    requires value == first + [' '] + rest && first != [] && ' ' !in first
    requires lowered == [LowerChar(first[0])] + first[1..]
    ensures ColumnName(value) == Some(lowered + RemoveSpaces(rest))
  {
    RemoveSpacesJoin(first, rest);
    LowerHead(RemoveSpaces(value), first, RemoveSpaces(rest), lowered);
  }

  /** "Factor" has no space and lowers to "factor". */
  lemma LowerFactor(first: string, lowered: string)
    requires first == "Factor" && lowered == "factor"
    ensures first != [] && ' ' !in first && lowered == [LowerChar(first[0])] + first[1..]
  {
    assert LowerChar('F') == 'f';
  }

  /** Two words joined by one space: the lowered first word, then the second. */
  lemma TwoWordColumnName(value: string, first: string, second: string, lowered: string, column: string)
    requires value == first + [' '] + second && first != [] && ' ' !in first && ' ' !in second
    requires lowered == [LowerChar(first[0])] + first[1..] && column == lowered + second
    ensures ColumnName(value) == Some(column)
  {
    RemoveSpacesNoSpace(second);
    ColumnNameOfWords(value, first, second, lowered);
  }

  /** "Factor Exposure" is two words without spaces joined by a space. */
  lemma ExposureWords(value: string, first: string, second: string, lowered: string, column: string)
    requires value == "Factor Exposure" && first == "Factor" && second == "Exposure"
    requires lowered == "factor" && column == "factorExposure"
    ensures value == first + [' '] + second && ' ' !in second && column == lowered + second
  {
  }

  /** The column name of "Factor Exposure". */
  lemma ExposureName()
    ensures ColumnName("Factor Exposure") == Some("factorExposure")
  {
    LowerFactor("Factor", "factor");
    ExposureWords("Factor Exposure", "Factor", "Exposure", "factor", "factorExposure");
    TwoWordColumnName("Factor Exposure", "Factor", "Exposure", "factor", "factorExposure");
  }

  /** "Factor Pnl" is two words without spaces joined by a space. */
  lemma PnlWords(value: string, first: string, second: string, lowered: string, column: string)
    requires value == "Factor Pnl" && first == "Factor" && second == "Pnl"
    requires lowered == "factor" && column == "factorPnl"
    ensures value == first + [' '] + second && ' ' !in second && column == lowered + second
  {
  }

  /** The column name of "Factor Pnl". */
  lemma PnlName()
    ensures ColumnName("Factor Pnl") == Some("factorPnl")
  {
    LowerFactor("Factor", "factor");
    PnlWords("Factor Pnl", "Factor", "Pnl", "factor", "factorPnl");
    TwoWordColumnName("Factor Pnl", "Factor", "Pnl", "factor", "factorPnl");
  }

  /** Three words joined by single spaces lose only the spaces. */
  lemma RemoveSpacesThreeWords(first: string, second: string, third: string)
    requires ' ' !in first && ' ' !in second && ' ' !in third
    ensures RemoveSpaces(first + [' '] + (second + [' '] + third)) == first + (second + third)
  {
    RemoveSpacesNoSpace(third);
    RemoveSpacesJoin(second, third);
    RemoveSpacesJoin(first, second + [' '] + third);
  }

  /** "Factor Proportion Of Risk" is "Factor" and three words without spaces, joined by single spaces. */
  lemma ProportionOfRiskWords(value: string, first: string, rest: string, second: string, third: string, fourth: string)
    requires value == "Factor Proportion Of Risk" && first == "Factor" && rest == "Proportion Of Risk"
    requires second == "Proportion" && third == "Of" && fourth == "Risk"
    ensures value == first + [' '] + rest
    ensures rest == second + [' '] + (third + [' '] + fourth)
    ensures ' ' !in second && ' ' !in third && ' ' !in fourth
  {
  }

  /** "factorProportionOfRisk" is "factor" followed by the three words. */
  lemma ProportionOfRiskJoined(second: string, third: string, fourth: string, lowered: string, column: string)
    requires second == "Proportion" && third == "Of" && fourth == "Risk"
    requires lowered == "factor" && column == "factorProportionOfRisk"
    ensures column == lowered + (second + (third + fourth))
  {
  }

  /** The column name of "Factor Proportion Of Risk". */
  lemma ProportionOfRiskName()
    ensures ColumnName("Factor Proportion Of Risk") == Some("factorProportionOfRisk")
  {
    LowerFactor("Factor", "factor");
    ProportionOfRiskWords("Factor Proportion Of Risk", "Factor", "Proportion Of Risk", "Proportion", "Of", "Risk");
    ProportionOfRiskJoined("Proportion", "Of", "Risk", "factor", "factorProportionOfRisk");
    RemoveSpacesThreeWords("Proportion", "Of", "Risk");
    ColumnNameOfWords("Factor Proportion Of Risk", "Factor", "Proportion Of Risk", "factor");
  }

  /** The column name of each factor query type, written out. */
  function FactorColumn(q: QueryType): string
  {
    match q
    case FactorExposure => "factorExposure"
    case FactorPnl => "factorPnl"
    case FactorProportionOfRisk => "factorProportionOfRisk"
    case OtherQuery(_) => ""
  }

  /** The column names of the three factor query types. */
  lemma FactorColumnNames(q: QueryType)
    requires q in QueryToFieldMap
    ensures ColumnName(QueryValue(q)) == Some(FactorColumn(q))
  {
    match q
    case FactorExposure => ExposureName();
    case FactorPnl => PnlName();
    case FactorProportionOfRisk => ProportionOfRiskName();
  }

  // ---------------------------------------------------------------------
  // Records and their extraction
  // ---------------------------------------------------------------------

  datatype Value = Null | Bool(b: bool) | Number(x: real) | Text(s: string)

  /** Python truthiness: None, False, zero and the empty string are false. */
  predicate Truthy(v: Value)
  {
    match v
    case Null => false
    case Bool(b) => b
    case Number(x) => x != 0.0
    case Text(s) => s != []
  }

  type Record = map<string, Value>

  type Row = map<string, Value>

  /** Dictionary lookup with None for a missing key. */
  function Get(record: Record, key: string): Value
  {
    if key in record then record[key] else Null
  }

  /** The records whose requested field is truthy, in input order. */
  function KeptRecords(records: seq<Record>, field: string): (kept: seq<Record>)
    ensures |kept| <= |records|
    ensures forall r :: r in kept <==> r in records && Truthy(Get(r, field))
  {
    if records == [] then []
    else
      assert forall r :: r in records <==> r == records[0] || r in records[1..];
      (if Truthy(Get(records[0], field)) then [records[0]] else []) + KeptRecords(records[1..], field)
  }

  /** Filtering distributes over concatenation, so the input order is kept. */
  lemma {:induction false} KeptRecordsAppend(xs: seq<Record>, ys: seq<Record>, field: string)
    ensures KeptRecords(xs + ys, field) == KeptRecords(xs, field) + KeptRecords(ys, field)
  {
    if xs == [] {
      assert xs + ys == ys;
    } else {
      assert (xs + ys)[0] == xs[0];
      assert (xs + ys)[1..] == xs[1..] + ys;
      KeptRecordsAppend(xs[1..], ys, field);
    }
  }

  /** The row of a record: its date, and the field's value under the column name. */
  function Project(record: Record, field: string, column: string): Row
  {
    map["date" := Get(record, "date"), column := Get(record, field)]
  }

  datatype FactorDataError =
    | NotFactorRiskReport
    | FactorNotInRiskModel
    | EmptyColumnName
    | UnmappedQueryType
    | MissingKey(key: string)
    | NoDateColumn

  /**
   * The dated rows of the records whose requested field is truthy, one per
   * kept record and in the same order. A kept record without a date is a
   * missing-key error.
   */
  function ExtractRows(records: seq<Record>, field: string, column: string): (rows: Result<seq<Row>, FactorDataError>)
    ensures rows.Ok? <==> forall r :: r in KeptRecords(records, field) ==> "date" in r
    ensures rows.Err? ==> rows.error == MissingKey("date")
    ensures rows.Ok? ==> |rows.value| == |KeptRecords(records, field)|
  {
    if records == [] then Ok([])
    else
      var record := records[0];
      var rest := ExtractRows(records[1..], field, column);
      assert KeptRecords(records, field) ==
        (if Truthy(Get(record, field)) then [record] else []) + KeptRecords(records[1..], field);
      if !Truthy(Get(record, field)) then rest
      else if "date" !in record then
        assert record in KeptRecords(records, field);
        Err(MissingKey("date"))
      else
        match rest
        case Err(e) => Err(e)
        case Ok(tail) => Ok([Project(record, field, column)] + tail)
  }

  /** Row `i` holds the date and the field's value of the `i`-th kept record. */
  lemma {:induction false} ExtractRowsProject(records: seq<Record>, field: string, column: string)
    requires ExtractRows(records, field, column).Ok?
    ensures forall i :: 0 <= i < |ExtractRows(records, field, column).value| ==>
      ExtractRows(records, field, column).value[i] == Project(KeptRecords(records, field)[i], field, column)
  {
    if records != [] {
      var record := records[0];
      var rows := ExtractRows(records, field, column).value;
      var kept := KeptRecords(records, field);
      var keptTail := KeptRecords(records[1..], field);
      var tail := ExtractRows(records[1..], field, column);
      ExtractRowsProject(records[1..], field, column);
      if Truthy(Get(record, field)) {
        assert kept == [record] + keptTail;
        assert "date" in record && tail.Ok?;
        assert rows == [Project(record, field, column)] + tail.value;
        forall i | 0 <= i < |rows|
          ensures rows[i] == Project(kept[i], field, column)
        {
          if i > 0 {
            assert rows[i] == tail.value[i - 1] && kept[i] == keptTail[i - 1];
          }
        }
      } else {
        assert kept == keptTail && rows == tail.value;
      }
    }
  }

  /** Every extracted row has exactly the date and the column, and a truthy value. */
  lemma RowsShape(records: seq<Record>, field: string, column: string)
    requires ExtractRows(records, field, column).Ok?
    ensures forall row :: row in ExtractRows(records, field, column).value ==>
      row.Keys == {"date", column} && Truthy(row[column])
  {
    var rows := ExtractRows(records, field, column).value;
    var kept := KeptRecords(records, field);
    ExtractRowsProject(records, field, column);
    forall row | row in rows
      ensures row.Keys == {"date", column} && Truthy(row[column])
    {
      var i :| 0 <= i < |rows| && rows[i] == row;
      assert kept[i] in kept;
    }
  }

  /** Of three dated records whose exposures are 1.5, 0.0 and 2.25, the first and the third are kept. */
  lemma ZeroValueNotKept()
    ensures KeptRecords([map["date" := Text("2021-01-01"), "exposure" := Number(1.5)],
                         map["date" := Text("2021-01-02"), "exposure" := Number(0.0)],
                         map["date" := Text("2021-01-03"), "exposure" := Number(2.25)]], "exposure")
         == [map["date" := Text("2021-01-01"), "exposure" := Number(1.5)],
             map["date" := Text("2021-01-03"), "exposure" := Number(2.25)]]
  {
    var first := map["date" := Text("2021-01-01"), "exposure" := Number(1.5)];
    var second := map["date" := Text("2021-01-02"), "exposure" := Number(0.0)];
    var third := map["date" := Text("2021-01-03"), "exposure" := Number(2.25)];
    var records := [first, second, third];
    assert Get(first, "exposure") == Number(1.5);
    assert Get(second, "exposure") == Number(0.0);
    assert Get(third, "exposure") == Number(2.25);
    assert records[1..] == [second, third] && records[1..][1..] == [third] && [third][1..] == [];
    assert KeptRecords([third], "exposure") == [third];
    assert KeptRecords([second, third], "exposure") == [third];
  }

  /** Zero is dropped like a missing value: three exposures, one of them zero, give two rows. */
  lemma ZeroExposureDropped()
    ensures ExtractRows([map["date" := Text("2021-01-01"), "exposure" := Number(1.5)],
                         map["date" := Text("2021-01-02"), "exposure" := Number(0.0)],
                         map["date" := Text("2021-01-03"), "exposure" := Number(2.25)]], "exposure", "factorExposure")
      == Ok([map["date" := Text("2021-01-01"), "factorExposure" := Number(1.5)],
             map["date" := Text("2021-01-03"), "factorExposure" := Number(2.25)]])
  {
    var first := map["date" := Text("2021-01-01"), "exposure" := Number(1.5)];
    var third := map["date" := Text("2021-01-03"), "exposure" := Number(2.25)];
    var records := [first, map["date" := Text("2021-01-02"), "exposure" := Number(0.0)], third];
    ZeroValueNotKept();
    assert "date" in first && "date" in third;
    assert Get(first, "date") == Text("2021-01-01") && Get(first, "exposure") == Number(1.5);
    assert Get(third, "date") == Text("2021-01-03") && Get(third, "exposure") == Number(2.25);
    var rows := ExtractRows(records, "exposure", "factorExposure");
    assert rows.Ok? && |rows.value| == 2;
    ExtractRowsProject(records, "exposure", "factorExposure");
    assert rows.value == [rows.value[0], rows.value[1]];
  }

  // ---------------------------------------------------------------------
  // The extraction and its three public forms
  // ---------------------------------------------------------------------

  datatype ReportType = PortfolioFactorRisk | AssetFactorRisk | OtherReport(name: string)

  predicate IsFactorRiskReport(t: ReportType)
  {
    t == PortfolioFactorRisk || t == AssetFactorRisk
  }

  /** The report service: each remote call as a function of its arguments. */
  datatype ReportService = ReportService(
    reportType: string -> ReportType,
    riskModelId: string -> string,
    factorLookup: (string, string) -> Option<string>,
    factorData: (string, string) -> seq<Record>)

  datatype ServiceCall =
    | GetType(reportId: string)
    | GetRiskModelId(reportId: string)
    | LookupFactor(riskModelId: string, factorName: string)
    | FetchFactorData(reportId: string, factor: string)

  /** The outcome of an extraction and the service calls it made, in order. */
  datatype Extraction = Extraction(result: Result<seq<Row>, FactorDataError>, calls: seq<ServiceCall>)

  predicate FetchesData(calls: seq<ServiceCall>)
  {
    exists i :: 0 <= i < |calls| && calls[i].FetchFactorData?
  }

  /** The report type is a factor risk type and the factor is in the report's risk model. */
  predicate Validated(reportId: string, factorName: string, service: ReportService)
  {
    && IsFactorRiskReport(service.reportType(reportId))
    && service.factorLookup(service.riskModelId(reportId), factorName).Some?
  }

  /** The factor the lookup finds for a validated report and factor. */
  function FoundFactor(reportId: string, factorName: string, service: ReportService): string
    requires Validated(reportId, factorName, service)
  {
    service.factorLookup(service.riskModelId(reportId), factorName).value
  }

  /**
   * Validates the report type, then the factor, derives the column name and
   * the field, then fetches the factor's data and extracts its rows. No rows
   * leave the table without the date column it is indexed by.
   */
  function GetFactorData(reportId: string, factorName: string, queryType: QueryType, service: ReportService)
    : (e: Extraction)
    ensures e.result == Err(NotFactorRiskReport) <==> !IsFactorRiskReport(service.reportType(reportId))
    ensures !IsFactorRiskReport(service.reportType(reportId)) ==> e.calls == [GetType(reportId)]
    ensures e.result == Err(FactorNotInRiskModel) <==>
      IsFactorRiskReport(service.reportType(reportId)) &&
      service.factorLookup(service.riskModelId(reportId), factorName).None?
    ensures FetchesData(e.calls) <==>
      Validated(reportId, factorName, service) && queryType in QueryToFieldMap && ColumnName(QueryValue(queryType)).Some?
    ensures e.result.Ok? ==>
      && Validated(reportId, factorName, service)
      && queryType in QueryToFieldMap
      && ColumnName(QueryValue(queryType)).Some?
      && e.result == ExtractRows(service.factorData(reportId, FoundFactor(reportId, factorName, service)),
                                 QueryToFieldMap[queryType], ColumnName(QueryValue(queryType)).value)
      && e.result.value != []
    ensures Validated(reportId, factorName, service) && queryType in QueryToFieldMap &&
            ColumnName(QueryValue(queryType)).Some? ==>
      var kept := KeptRecords(service.factorData(reportId, FoundFactor(reportId, factorName, service)),
                              QueryToFieldMap[queryType]);
      && (e.result.Ok? <==> kept != [] && forall r :: r in kept ==> "date" in r)
      && (kept == [] ==> e.result == Err(NoDateColumn))
      && ((exists r :: r in kept && "date" !in r) ==> e.result == Err(MissingKey("date")))
  {
    if !IsFactorRiskReport(service.reportType(reportId)) then
      Extraction(Err(NotFactorRiskReport), [GetType(reportId)])
    else
      var modelId := service.riskModelId(reportId);
      var calls := [GetType(reportId), GetRiskModelId(reportId), LookupFactor(modelId, factorName)];
      assert !FetchesData(calls);
      match service.factorLookup(modelId, factorName)
      case None => Extraction(Err(FactorNotInRiskModel), calls)
      case Some(factor) =>
        match ColumnName(QueryValue(queryType))
        case None => Extraction(Err(EmptyColumnName), calls)
        case Some(column) =>
          if queryType !in QueryToFieldMap then Extraction(Err(UnmappedQueryType), calls)
          else
            var field := QueryToFieldMap[queryType];
            var calls' := calls + [FetchFactorData(reportId, factor)];
            assert calls'[3].FetchFactorData?;
            match ExtractRows(service.factorData(reportId, factor), field, column)
            case Ok(rows) =>
              if rows == [] then Extraction(Err(NoDateColumn), calls')
              else Extraction(Ok(rows), calls')
            case Err(error) => Extraction(Err(error), calls')
  }

  /** Factor exposure: the `exposure` field under the column `factorExposure`. */
  function GetFactorExposure(reportId: string, factorName: string, service: ReportService): (e: Extraction)
    ensures e == GetFactorData(reportId, factorName, FactorExposure, service)
    ensures e.result != Err(EmptyColumnName) && e.result != Err(UnmappedQueryType)
    ensures e.result.Ok? ==>
      e.result == ExtractRows(service.factorData(reportId, FoundFactor(reportId, factorName, service)),
                              "exposure", "factorExposure")
  {
    FactorColumnNames(FactorExposure);
    GetFactorData(reportId, factorName, FactorExposure, service)
  }

  /** Factor PnL: the `pnl` field under the column `factorPnl`. */
  function GetFactorPnl(reportId: string, factorName: string, service: ReportService): (e: Extraction)
    ensures e == GetFactorData(reportId, factorName, FactorPnl, service)
    ensures e.result != Err(EmptyColumnName) && e.result != Err(UnmappedQueryType)
    ensures e.result.Ok? ==>
      e.result == ExtractRows(service.factorData(reportId, FoundFactor(reportId, factorName, service)),
                              "pnl", "factorPnl")
  {
    FactorColumnNames(FactorPnl);
    GetFactorData(reportId, factorName, FactorPnl, service)
  }

  /** Factor proportion of risk: the `proportionOfRisk` field under the column `factorProportionOfRisk`. */
  function GetFactorProportionOfRisk(reportId: string, factorName: string, service: ReportService): (e: Extraction)
    ensures e == GetFactorData(reportId, factorName, FactorProportionOfRisk, service)
    ensures e.result != Err(EmptyColumnName) && e.result != Err(UnmappedQueryType)
    ensures e.result.Ok? ==>
      e.result == ExtractRows(service.factorData(reportId, FoundFactor(reportId, factorName, service)),
                              "proportionOfRisk", "factorProportionOfRisk")
  {
    FactorColumnNames(FactorProportionOfRisk);
    GetFactorData(reportId, factorName, FactorProportionOfRisk, service)
  }
}
