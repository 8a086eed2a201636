# gs_quant: backtest triggers, factor-report measures and data-query building

A Dafny model of three parts of gs_quant:

- **Backtest triggers** (`Triggers`, triggers.dfy). Five kinds of trigger: periodic, intraday, market, strategy-risk and aggregate.
  - Every trigger records its actions, the risks those actions need, and a calc type (simple, or path dependent for the strategy-risk trigger).
  - The periodic trigger generates its trigger dates on first use and caches them.
  - The intraday trigger builds its trigger times with a loop. The loop steps `frequency` minutes from the start time while the time is not after the end time.
  - The market and strategy-risk triggers compare a value with a level in a direction (above, below, equal).
  - The aggregate trigger concatenates its children's actions. It fires when every child fires, and it stops asking at the first child that does not.
- **Factor-report measures** (`MeasuresReports`, measures_reports.dfy). The factor exposure, PnL and proportion-of-risk series of a factor risk report.
  - Checks, in order: the report's type, then whether the factor is in the report's risk model.
  - The column name comes from the query type's value: spaces removed, first letter lowered.
  - The field comes from a fixed table.
  - The records whose field is truthy give the dated rows, in order.
  - The report service is a value of functions. The extraction records every call it makes, so the model can state which calls happen (for example, that no data is fetched for a report of the wrong type).
- **Data-query building** (`DataApi`, data_api.dfy). `DataApi.build_query`:
  - checks that start and end are both dates or both datetimes;
  - puts them into the date fields or the time fields;
  - copies the as-of and since times;
  - routes each keyword argument to the query's properties, else the where-filter's, else rejects it;
  - attaches the where-filter when it is truthy.

  The query and the where-filter are maps from property name to value. The two property sets and the truthiness of a where-filter are parameters.

`Wrappers` (wrappers.dfy) holds the `Option` and `Result` types. An exception the source raises becomes an `Err`.

## Model

| member | source | states |
|---|---|---|
| Triggers.ActionRisks | gs_quant/backtests/triggers.py:84 | a risk is listed exactly when some action carries it; no more risks than actions |
| Triggers.ActionRisksAppend | gs_quant/backtests/triggers.py:84 | risks of concatenated action lists are the concatenated risks, so they come out in action order |
| Triggers.Fires | gs_quant/backtests/triggers.py:164-175 | a threshold trigger fires exactly when its direction is the relation of the value to the level |
| Triggers.ExactlyOneDirectionFires | gs_quant/backtests/triggers.py:28-31 | for any value and level exactly one of above, below, equal fires |
| Triggers.PeriodicTrigger.constructor | gs_quant/backtests/triggers.py:114-118 | risks are the actions' risks, calc type simple, cache empty |
| Triggers.PeriodicTrigger.GetTriggerDates | gs_quant/backtests/triggers.py:120-126 | returns the generated dates; a non-empty cache is kept as it was, an empty or missing one is refilled |
| Triggers.PeriodicTrigger.HasTriggered | gs_quant/backtests/triggers.py:128-131 | fires exactly on the generated dates, whatever the cache held before; afterwards the cache holds them |
| Triggers.Advance | gs_quant/backtests/triggers.py:149 | one step moves the time by `freq` minutes when it stays within the day; in general it differs from that by whole days |
| Triggers.BuildTriggerTimes | gs_quant/backtests/triggers.py:145-149 | the loop as written yields the times reached from the start, in order, up to the first one past the end |
| Triggers.ScheduleUnique | gs_quant/backtests/triggers.py:145-149 | the loop's output is determined by start, end and frequency |
| Triggers.EmptyScheduleIffStartAfterEnd | gs_quant/backtests/triggers.py:147 | the loop yields nothing exactly when start is after end |
| Triggers.NoWrapCount | gs_quant/backtests/triggers.py:147-149 | the number of whole steps from start that fit before end, at least one |
| Triggers.IterateNoWrap | gs_quant/backtests/triggers.py:149 | before the clock wraps, k steps land on start plus k times the step |
| Triggers.ScheduleWithoutWrap | gs_quant/backtests/triggers.py:145-149 | when the first step past end is before midnight, the loop yields start, start + f, ... up to end: strictly increasing, with the counted length |
| Triggers.WholeDayStepNeverExits | gs_quant/backtests/triggers.py:147-149 | a frequency of whole days never moves the clock, so the loop never stops once start <= end |
| Triggers.WrapNeverExits | gs_quant/backtests/triggers.py:147-149 | when the step divides a day and the first step past end crosses midnight, every time reached is <= end: the loop never stops |
| Triggers.WrapThenExit | gs_quant/backtests/triggers.py:147-149 | the loop can also stop after wrapping, with a non-increasing schedule (00:00 to 16:40 every 1000 minutes) |
| Triggers.HourlyUntilMidnightNeverExits | gs_quant/backtests/triggers.py:147-149 | hourly from 09:00 to 23:59 the loop as written never stops |
| Triggers.BuildSameDayTriggerTimes | gs_quant/backtests/triggers.py:145-149 | the same-day loop yields start + j steps for every j whose time is not after end, and stops at the first that is |
| Triggers.SameDayCount | gs_quant/backtests/triggers.py:145-149 | the same-day schedule has one entry per step that fits from start to end, none when start is after end |
| Triggers.SameDayIncreasing | gs_quant/backtests/triggers.py:145-149 | the same-day schedule is strictly increasing and lies between start and end |
| Triggers.SameDayMembership | gs_quant/backtests/triggers.py:145-149 | a time is in the same-day schedule exactly when it lies between start and end on the grid of steps from start |
| Triggers.SameDayAgreesWithoutWrap | gs_quant/backtests/triggers.py:145-149 | without a wrap, the loop as written and the same-day loop yield the same times |
| Triggers.HourlyUntilMidnightSameDay | gs_quant/backtests/triggers.py:145-149 | hourly from 09:00 to 23:59 the same-day schedule is the fifteen hours 09:00 to 23:00 |
| Triggers.IntradayPeriodicTrigger.constructor | gs_quant/backtests/triggers.py:135-149 | risks are the actions' risks, calc type simple, trigger times the same-day schedule |
| Triggers.IntradayPeriodicTrigger.HasTriggered | gs_quant/backtests/triggers.py:154-155 | fires exactly when the state's time of day is between start and end and a whole number of steps after start |
| Triggers.MktTrigger.constructor | gs_quant/backtests/triggers.py:159-162 | risks are the actions' risks, calc type simple |
| Triggers.MktTrigger.HasTriggered | gs_quant/backtests/triggers.py:164-175 | fires exactly when the market value on the state stands to the level as the direction says |
| Triggers.StrategyRiskTrigger.constructor | gs_quant/backtests/triggers.py:179-184 | calc type path dependent; risks are the actions' risks followed by the watched risk |
| Triggers.StrategyRiskTrigger.HasTriggered | gs_quant/backtests/triggers.py:186-197 | fires exactly when the backtest's value of the watched risk on the state stands to the level as the direction says |
| Triggers.SameThresholdRule | gs_quant/backtests/triggers.py:164-197 | market and strategy-risk triggers with the same level, direction and value decide alike |
| Triggers.ConcatActionsMembers | gs_quant/backtests/triggers.py:201-204 | an action is in the aggregate's list exactly when it is in some child's list |
| Triggers.AggregateRisks | gs_quant/backtests/triggers.py:201-205 | the aggregate's risks are its children's action risks in child order, without a child's own extra risk |
| Triggers.AggregateTrigger.constructor | gs_quant/backtests/triggers.py:201-205 | actions are the children's actions concatenated in order; risks are their risks; calc type simple |
| Triggers.AggregateTrigger.HasTriggered | gs_quant/backtests/triggers.py:207-211 | fires exactly when every child fires; children are asked in order, stopping right after the first that does not fire |
| MeasuresReports.QueryToFieldMapEntries | gs_quant/timeseries/measures_reports.py:29-33 | exactly the three factor query types are mapped, to exposure, pnl and proportionOfRisk, all distinct |
| MeasuresReports.RemoveSpaces | gs_quant/timeseries/measures_reports.py:95 | the result has no space |
| MeasuresReports.RemoveSpacesAppend | gs_quant/timeseries/measures_reports.py:95 | removing spaces distributes over concatenation, keeping the order of everything else |
| MeasuresReports.RemoveSpacesMultiset | gs_quant/timeseries/measures_reports.py:95 | every space is dropped and every other character is kept as often as it occurs, so the length shrinks by the number of spaces |
| MeasuresReports.RemoveSpacesNoSpace | gs_quant/timeseries/measures_reports.py:95 | a string without spaces is unchanged |
| MeasuresReports.LowerChar | gs_quant/timeseries/measures_reports.py:96 | A-Z map to a-z, 32 code points on, and every other character is unchanged; no upper-case letter is left, and only a space gives a space |
| MeasuresReports.ColumnName | gs_quant/timeseries/measures_reports.py:95-96 | None exactly when nothing but spaces is given; otherwise the unspaced value with its first character lowered, of the same length and without spaces |
| MeasuresReports.ColumnNameIdempotent | gs_quant/timeseries/measures_reports.py:95-96 | a column name is its own column name |
| MeasuresReports.ColumnNameOfWords | gs_quant/timeseries/measures_reports.py:95-96 | a first word, a space and the rest give the lowered first word followed by the rest unspaced |
| MeasuresReports.ExposureName | gs_quant/timeseries/measures_reports.py:95-96 | "Factor Exposure" gives the column factorExposure |
| MeasuresReports.PnlName | gs_quant/timeseries/measures_reports.py:95-96 | "Factor Pnl" gives the column factorPnl |
| MeasuresReports.ProportionOfRiskName | gs_quant/timeseries/measures_reports.py:95-96 | "Factor Proportion Of Risk" gives the column factorProportionOfRisk |
| MeasuresReports.FactorColumnNames | gs_quant/timeseries/measures_reports.py:95-97 | each mapped query type has a column name, the one written out |
| MeasuresReports.KeptRecords | gs_quant/timeseries/measures_reports.py:100-101 | a record is kept exactly when its field is present and truthy; no more records than given |
| MeasuresReports.KeptRecordsAppend | gs_quant/timeseries/measures_reports.py:100-101 | filtering distributes over concatenation, so input order is kept |
| MeasuresReports.ExtractRows | gs_quant/timeseries/measures_reports.py:100-101 | succeeds exactly when every kept record has a date, with one row per kept record; otherwise the error is the missing date key |
| MeasuresReports.ExtractRowsProject | gs_quant/timeseries/measures_reports.py:100 | row i holds the date and the field's value of the i-th kept record, the value under the column name |
| MeasuresReports.RowsShape | gs_quant/timeseries/measures_reports.py:100-101 | every row has exactly the keys date and the column, and a truthy value |
| MeasuresReports.ZeroValueNotKept | gs_quant/timeseries/measures_reports.py:101 | of exposures 1.5, 0.0 and 2.25 only the first and the last are kept |
| MeasuresReports.ZeroExposureDropped | gs_quant/timeseries/measures_reports.py:100-101 | those three records give the two rows of the non-zero exposures, in order |
| MeasuresReports.GetFactorData | gs_quant/timeseries/measures_reports.py:84-107 | wrong report type: that error, after one call; missing factor: that error; data fetched exactly when type, factor, column name and field are all valid; success is the extracted rows of the looked-up factor, never empty; once everything is valid, it succeeds exactly when some record is kept and every kept record has a date, fails with the missing date key when a kept record has none, and fails with no date column when no record is kept |
| MeasuresReports.GetFactorExposure | gs_quant/timeseries/measures_reports.py:36-49 | the extraction for factor exposure; never a column-name or field error; rows of the exposure field under factorExposure |
| MeasuresReports.GetFactorPnl | gs_quant/timeseries/measures_reports.py:52-65 | the extraction for factor PnL; never a column-name or field error; rows of the pnl field under factorPnl |
| MeasuresReports.GetFactorProportionOfRisk | gs_quant/timeseries/measures_reports.py:68-81 | the extraction for proportion of risk; never a column-name or field error; rows of the proportionOfRisk field under factorProportionOfRisk |
| DataApi.BuildQuery | gs_quant/api/data.py:40-78 | the step-by-step build equals the query specification: kind check, initial query, routed arguments, where-filter attached when truthy |
| DataApi.RouteOk | gs_quant/api/data.py:67-73 | routing succeeds exactly when every argument names a query or a where property |
| DataApi.RouteError | gs_quant/api/data.py:67-73 | a rejection names the first argument that is neither a query nor a where property |
| DataApi.RouteFields | gs_quant/api/data.py:67-71 | each argument sets only the property it names, on the query when it is a query property (query first), else on the where-filter; every other entry is unchanged |
| DataApi.MixedKindsRejected | gs_quant/api/data.py:50-52 | the kind error happens exactly when a given start's kind differs from the end's; the build succeeds exactly when the kinds agree and every argument is known |
| DataApi.InstantStartWithoutEnd | gs_quant/api/data.py:50-52 | a datetime start with no end is rejected |
| DataApi.InitialPlacement | gs_quant/api/data.py:54-61 | start and end sit in the time fields when the end is a datetime, in the date fields otherwise, the other pair None; as-of and since are copied |
| DataApi.BuildQueryPlacement | gs_quant/api/data.py:50-61 | in the built query, every initial field no argument names keeps that placement |
| DataApi.WhereAttachment | gs_quant/api/data.py:63-76 | the where-filter holds exactly the arguments for where properties that are not query properties, and is attached under where exactly when it is truthy |

## Left out

- Single actions: a trigger built from a single action wraps it in a list; the model always takes a sequence of actions.
- Python's date generator: the periodic trigger's dates come from a calendar-date generator passed as a function (`dateRange`). Frequency strings and calendars are not interpreted. The source does not pass its calendar to the generator, and the model does not either.
- The trigger requirement classes are plain records. The base `Trigger.has_triggered` only raises and is not modelled. Neither is the accessor `get_trigger_times`.
- Market data, backtest results and the report service are functions given to the model. Remote calls, pandas objects and the series packaging (`_extract_series_from_df`, the date parsing of the index) are not modelled.
- Times of day are whole seconds and intraday frequencies are whole minutes. Sub-second times and fractional minutes are not modelled. Market and risk values are integers, so floating point comparison is not modelled.
- An intraday trigger's `state` is a date with a time of day. Passing a plain date, on which the source fails, is not modelled.
- Triggers.BuildTriggerTimes: whether the loop as written stops is settled only in some cases: when it never wraps (`ScheduleWithoutWrap`), for whole-day steps (`WholeDayStepNeverExits`), and for steps that divide a day (`WrapNeverExits`). Other cases are left open: a positive step that does not divide 1440 minutes and wraps, and a negative step that is not a whole number of days. The general rule, in terms of the greatest common divisor of the step and the day, is not proved. For example, every 900 minutes from 09:00 the times are 09:00, 00:00, 15:00, 06:00, 21:00, 12:00, 03:00, 18:00 and then 09:00 again. With end 23:00 the loop never stops; with end 16:00 it stops after wrapping.
- Triggers.IntradayPeriodicTrigger.constructor: builds the same-day schedule, not the loop as written (see Findings). Where the source's loop wraps past midnight and then stops, the two differ. From 09:00 to 16:00 every 900 minutes the source yields 09:00, 00:00, 15:00, 06:00, and it fires at 15:00. The class holds only 09:00 and does not fire at 15:00. `Triggers.WrapThenExit` shows a schedule of this kind for the loop as written.
- Triggers.IntradayPeriodicTrigger.constructor: requires a positive frequency. With frequency zero or below the source returns no times when start is after end. With frequency zero and start not after end its loop never ends. A negative frequency steps backwards through midnight. None of these is modelled.
- MeasuresReports.LowerChar: lowers only A-Z. Python's full Unicode lower-casing is not modelled.
- MeasuresReports.GetFactorData: an empty list of rows is reported as `NoDateColumn`. The data frame then has no date column to index by.
- The query type values ("Factor Exposure", "Factor Pnl", "Factor Proportion Of Risk") are defined in gs_quant/api/gs/data.py, which is not part of this model. Other query types are `OtherQuery(name)`.
- The `source`, `real_time` and `request_id` parameters of the three measures, and the plotting decorator, are not modelled.
- The abstract `DataApi` methods (`query_data`, `last_data`, `symbol_dimensions`, `time_field`) only raise and are not modelled.
- The internals of `DataQuery` and `FieldFilterMap` are parameters: their property sets, and the truthiness of a where-filter.
- DataApi.RouteFields: assumes distinct argument names, which Python keyword arguments always have.
- DataApi.WhereAttachment: assumes distinct argument names, which Python keyword arguments always have.
- DataApi.BuildQueryPlacement: assumes distinct argument names, which Python keyword arguments always have.

## Findings

| source | as written | input that shows it | evidently intended | confidence | as-written member | corrected member |
|---|---|---|---|---|---|---|
| gs_quant/backtests/triggers.py:147-149 | the next trigger time is a time of day that wraps at midnight, and the loop runs while it is not after the end time | start 09:00, end 23:59, frequency 60 minutes: after 23:00 the time wraps to 00:00, which is before 23:59, so the loop never stops | the trigger times from start to end within one day, stopping at the first time past the end | not executed | Triggers.HourlyUntilMidnightNeverExits | Triggers.BuildSameDayTriggerTimes |

`Triggers.BuildTriggerTimes` models the loop as written. It needs a ghost step at which the loop stops, and no such step exists for the input above. `Triggers.WrapThenExit` shows that the loop can also stop after wrapping, with times that are no longer in order. The intraday trigger class is built with `Triggers.BuildSameDayTriggerTimes`. `Triggers.SameDayAgreesWithoutWrap` shows that the two loops agree whenever the loop as written does not wrap.
