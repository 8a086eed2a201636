/**
 * Building a data query from a date range, an as-of time, a since time and
 * keyword arguments: the start and end go to the date fields or the time
 * fields, and every keyword argument is routed to the query's own
 * properties, else to the where-filter's properties, else rejected.
 *
 * The query and the where-filter are maps from property name to value; the
 * two property sets and the truthiness of a where-filter are parameters.
 */
module DataApi {
  import opened Wrappers

  /** A point in time given for the range: a calendar date, or a date with a time of day. */
  datatype Moment = Day(day: int) | Instant(day: int, second: int)

  /** A property value: None, a point in time, any other argument, or a where-filter. */
  datatype Value = NoneValue | MomentValue(moment: Moment) | Scalar(text: string) | Filter(fields: map<string, Value>)

  type Properties = map<string, Value>

  /** A keyword argument: its name and its value. */
  type Kwarg = (string, Value)

  datatype QueryError = MixedDateKinds | InvalidQueryField(field: string)

  function ToValue(m: Option<Moment>): Value
  {
    match m
    case None => NoneValue
    case Some(moment) => MomentValue(moment)
  }

  /** The range is a time range exactly when its end is a date with a time of day. */
  predicate IsTime(end: Option<Moment>)
  {
    end.Some? && end.value.Instant?
  }

  /** A given start is of the same kind as the end; an absent end counts as a date. */
  predicate DateKindsAgree(start: Option<Moment>, end: Option<Moment>)
  {
    start.None? || IsTime(end) == start.value.Instant?
  }

  /** The query before any keyword argument is applied. */
  function InitialQuery(start: Option<Moment>, end: Option<Moment>, asOf: Option<Moment>, since: Option<Moment>)
    : Properties
  {
    var isTime := IsTime(end);
    map[
      "startDate" := if isTime then NoneValue else ToValue(start),
      "startTime" := if isTime then ToValue(start) else NoneValue,
      "endDate" := if isTime then NoneValue else ToValue(end),
      "endTime" := if isTime then ToValue(end) else NoneValue,
      "asOfTime" := ToValue(asOf),
      "since" := ToValue(since)]
  }

  /** The names of the keyword arguments, in order. */
  function Names(kwargs: seq<Kwarg>): (names: seq<string>)
    ensures |names| == |kwargs|
    ensures forall i :: 0 <= i < |kwargs| ==> names[i] == kwargs[i].0
  {
    if kwargs == [] then [] else [kwargs[0].0] + Names(kwargs[1..])
  }

  /** Keyword arguments have distinct names. */
  predicate DistinctNames(kwargs: seq<Kwarg>)
  {
    forall i, j :: 0 <= i < j < |kwargs| ==> kwargs[i].0 != kwargs[j].0
  }

  /** Every keyword argument names a query property or a where property. */
  predicate AllKnown(kwargs: seq<Kwarg>, queryProperties: set<string>, whereProperties: set<string>)
  {
    forall i :: 0 <= i < |kwargs| ==> kwargs[i].0 in queryProperties || kwargs[i].0 in whereProperties
  }

  /**
   * Applies the keyword arguments in order: a query property is set on the
   * query, else a where property on the where-filter, else the first
   * unknown name is the error.
   */
  function Route(kwargs: seq<Kwarg>, queryProperties: set<string>, whereProperties: set<string>,
                 query: Properties, where: Properties): Result<(Properties, Properties), QueryError>
  {
    if kwargs == [] then Ok((query, where))
    else
      var (field, value) := kwargs[0];
      if field in queryProperties then
        Route(kwargs[1..], queryProperties, whereProperties, query[field := value], where)
      else if field in whereProperties then
        Route(kwargs[1..], queryProperties, whereProperties, query, where[field := value])
      else
        Err(InvalidQueryField(field))
  }

  /**
   * The query `build_query` returns: the kind check, the initial query, the
   * routed keyword arguments, and the where-filter attached when it is truthy.
   */
  function BuildQuerySpec(start: Option<Moment>, end: Option<Moment>, asOf: Option<Moment>, since: Option<Moment>,
                          kwargs: seq<Kwarg>, queryProperties: set<string>, whereProperties: set<string>,
                          whereIsTruthy: Properties -> bool): Result<Properties, QueryError>
  {
    if !DateKindsAgree(start, end) then Err(MixedDateKinds)
    else
      match Route(kwargs, queryProperties, whereProperties, InitialQuery(start, end, asOf, since), map[])
      case Err(e) => Err(e)
      case Ok((query, where)) => Ok(if whereIsTruthy(where) then query["where" := Filter(where)] else query)
  }

  /** Builds the query step by step, setting one property per keyword argument. */
  method BuildQuery(start: Option<Moment>, end: Option<Moment>, asOf: Option<Moment>, since: Option<Moment>,
                    kwargs: seq<Kwarg>, queryProperties: set<string>, whereProperties: set<string>,
                    whereIsTruthy: Properties -> bool)
    returns (r: Result<Properties, QueryError>)
    ensures r == BuildQuerySpec(start, end, asOf, since, kwargs, queryProperties, whereProperties, whereIsTruthy)
  {
    var isTime := IsTime(end);
    if start.Some? && isTime != start.value.Instant? {
      return Err(MixedDateKinds);
    }
    var query := InitialQuery(start, end, asOf, since);
    var where: Properties := map[];
    var i := 0;
    while i < |kwargs|
      invariant 0 <= i <= |kwargs|
      invariant Route(kwargs[i..], queryProperties, whereProperties, query, where)
             == Route(kwargs, queryProperties, whereProperties, InitialQuery(start, end, asOf, since), map[])
    {
      var (field, value) := kwargs[i];
      assert kwargs[i..][1..] == kwargs[i + 1..];
      if field in queryProperties {
        query := query[field := value];
      } else if field in whereProperties {
        where := where[field := value];
      } else {
        return Err(InvalidQueryField(field));
      }
      i := i + 1;
    }
    assert kwargs[i..] == [];
    if whereIsTruthy(where) {
      query := query["where" := Filter(where)];
    }
    return Ok(query);
  }

  // ---------------------------------------------------------------------
  // Properties of routing
  // ---------------------------------------------------------------------

  /** Routing succeeds exactly when every name is a query or a where property. */
  lemma {:induction false} RouteOk(kwargs: seq<Kwarg>, queryProperties: set<string>, whereProperties: set<string>,
                                   query: Properties, where: Properties)
    ensures Route(kwargs, queryProperties, whereProperties, query, where).Ok?
        <==> AllKnown(kwargs, queryProperties, whereProperties)
  {
    if kwargs != [] {
      var (field, value) := kwargs[0];
      if field in queryProperties {
        RouteOk(kwargs[1..], queryProperties, whereProperties, query[field := value], where);
      } else if field in whereProperties {
        RouteOk(kwargs[1..], queryProperties, whereProperties, query, where[field := value]);
      }
      assert AllKnown(kwargs, queryProperties, whereProperties) <==>
        (field in queryProperties || field in whereProperties) && AllKnown(kwargs[1..], queryProperties, whereProperties) by {
        forall i | 0 <= i < |kwargs[1..]|
          ensures kwargs[1..][i] == kwargs[i + 1]
        {
        }
      }
    }
  }

  /** A rejection names the first keyword argument that is neither a query nor a where property. */
  lemma {:induction false} RouteError(kwargs: seq<Kwarg>, queryProperties: set<string>, whereProperties: set<string>,
                                      query: Properties, where: Properties)
    requires Route(kwargs, queryProperties, whereProperties, query, where).Err?
    ensures exists k :: (
      && 0 <= k < |kwargs|
      && Route(kwargs, queryProperties, whereProperties, query, where).error == InvalidQueryField(kwargs[k].0)
      && kwargs[k].0 !in queryProperties && kwargs[k].0 !in whereProperties
      && AllKnown(kwargs[..k], queryProperties, whereProperties))
  {
    var (field, value) := kwargs[0];
    if field in queryProperties || field in whereProperties {
      var query' := if field in queryProperties then query[field := value] else query;
      var where' := if field in queryProperties then where else where[field := value];
      RouteError(kwargs[1..], queryProperties, whereProperties, query', where');
      var k :| 0 <= k < |kwargs[1..]|
        && Route(kwargs[1..], queryProperties, whereProperties, query', where').error == InvalidQueryField(kwargs[1..][k].0)
        && kwargs[1..][k].0 !in queryProperties && kwargs[1..][k].0 !in whereProperties
        && AllKnown(kwargs[1..][..k], queryProperties, whereProperties);
      var prefix := kwargs[..k + 1];
      assert prefix == [kwargs[0]] + kwargs[1..][..k];
      assert AllKnown(prefix, queryProperties, whereProperties) by {
        forall i | 0 <= i < |prefix|
          ensures prefix[i].0 in queryProperties || prefix[i].0 in whereProperties
        {
          if i > 0 {
            assert prefix[i] == kwargs[1..][..k][i - 1];
          }
        }
      }
      assert kwargs[k + 1] == kwargs[1..][k];
    } else {
      assert kwargs[..0] == [];
    }
  }

  /**
   * With distinct names, routing sets each query property named by an
   * argument to its value, each where property not also a query property
   * likewise, and leaves every other entry of both maps as it was.
   */
  lemma {:induction false} RouteFields(kwargs: seq<Kwarg>, queryProperties: set<string>, whereProperties: set<string>,
                                       query: Properties, where: Properties)
    requires DistinctNames(kwargs)
    requires Route(kwargs, queryProperties, whereProperties, query, where).Ok?
    ensures var (query', where') := Route(kwargs, queryProperties, whereProperties, query, where).value;
      && (forall i :: 0 <= i < |kwargs| && kwargs[i].0 in queryProperties ==>
            kwargs[i].0 in query' && query'[kwargs[i].0] == kwargs[i].1)
      && (forall i :: 0 <= i < |kwargs| && kwargs[i].0 !in queryProperties ==>
            kwargs[i].0 in where' && where'[kwargs[i].0] == kwargs[i].1)
      && (forall f :: f !in Names(kwargs) || f !in queryProperties ==>
            (f in query' <==> f in query) && (f in query ==> query'[f] == query[f]))
      && (forall f :: f !in Names(kwargs) || f in queryProperties ==>
            (f in where' <==> f in where) && (f in where ==> where'[f] == where[f]))
  {
    if kwargs != [] {
      var (field, value) := kwargs[0];
      var rest := kwargs[1..];
      var query1 := if field in queryProperties then query[field := value] else query;
      var where1 := if field in queryProperties then where else where[field := value];
      assert Route(kwargs, queryProperties, whereProperties, query, where)
          == Route(rest, queryProperties, whereProperties, query1, where1);
      assert DistinctNames(rest) by {
        forall i, j | 0 <= i < j < |rest|
          ensures rest[i].0 != rest[j].0
        {
          assert rest[i] == kwargs[i + 1] && rest[j] == kwargs[j + 1];
        }
      }
      RouteFields(rest, queryProperties, whereProperties, query1, where1);
      var (query', where') := Route(kwargs, queryProperties, whereProperties, query, where).value;
      assert field !in Names(rest) by {
        forall i | 0 <= i < |rest|
          ensures Names(rest)[i] != field
        {
          assert rest[i] == kwargs[i + 1];
        }
      }
      assert forall f :: f in Names(kwargs) <==> f == field || f in Names(rest) by {
        assert Names(kwargs) == [field] + Names(rest);
      }
      forall i | 0 <= i < |kwargs|
        ensures kwargs[i].0 in queryProperties ==> kwargs[i].0 in query' && query'[kwargs[i].0] == kwargs[i].1
        ensures kwargs[i].0 !in queryProperties ==> kwargs[i].0 in where' && where'[kwargs[i].0] == kwargs[i].1
      {
        if i > 0 {
          assert kwargs[i] == rest[i - 1];
        }
      }
    }
  }

  // ---------------------------------------------------------------------
  // Properties of the built query
  // ---------------------------------------------------------------------

  /**
   * A mismatch between the kinds of start and end is the only way to the
   * kind error, and it comes before any keyword argument is looked at.
   */
  lemma MixedKindsRejected(start: Option<Moment>, end: Option<Moment>, asOf: Option<Moment>, since: Option<Moment>,
                           kwargs: seq<Kwarg>, queryProperties: set<string>, whereProperties: set<string>,
                           whereIsTruthy: Properties -> bool)
    ensures (BuildQuerySpec(start, end, asOf, since, kwargs, queryProperties, whereProperties, whereIsTruthy)
             == Err(MixedDateKinds)) <==> !DateKindsAgree(start, end)
    ensures BuildQuerySpec(start, end, asOf, since, kwargs, queryProperties, whereProperties, whereIsTruthy).Ok?
        <==> DateKindsAgree(start, end) && AllKnown(kwargs, queryProperties, whereProperties)
  {
    RouteOk(kwargs, queryProperties, whereProperties, InitialQuery(start, end, asOf, since), map[]);
    if DateKindsAgree(start, end) && !AllKnown(kwargs, queryProperties, whereProperties) {
      RouteError(kwargs, queryProperties, whereProperties, InitialQuery(start, end, asOf, since), map[]);
    }
  }

  /** A start with a time of day is rejected when there is no end. */
  lemma InstantStartWithoutEnd(day: int, second: int)
    ensures !DateKindsAgree(Some(Instant(day, second)), None)
  {
  }

  /**
   * Unless a keyword argument names it, a date field holds the start or end
   * when the end is a date (or absent) and None otherwise, a time field the
   * other way round, and the as-of and since times are copied unchanged.
   */
  lemma BuildQueryPlacement(start: Option<Moment>, end: Option<Moment>, asOf: Option<Moment>, since: Option<Moment>,
                            kwargs: seq<Kwarg>, queryProperties: set<string>, whereProperties: set<string>,
                            whereIsTruthy: Properties -> bool, field: string)
    requires DistinctNames(kwargs)
    requires BuildQuerySpec(start, end, asOf, since, kwargs, queryProperties, whereProperties, whereIsTruthy).Ok?
    requires field in InitialQuery(start, end, asOf, since) && field !in Names(kwargs)
    ensures var query := BuildQuerySpec(start, end, asOf, since, kwargs, queryProperties, whereProperties, whereIsTruthy).value;
      && field in query
      && (field == "startDate" ==> query[field] == if IsTime(end) then NoneValue else ToValue(start))
      && (field == "startTime" ==> query[field] == if IsTime(end) then ToValue(start) else NoneValue)
      && (field == "endDate" ==> query[field] == if IsTime(end) then NoneValue else ToValue(end))
      && (field == "endTime" ==> query[field] == if IsTime(end) then ToValue(end) else NoneValue)
      && (field == "asOfTime" ==> query[field] == ToValue(asOf))
      && (field == "since" ==> query[field] == ToValue(since))
  {
    var initial := InitialQuery(start, end, asOf, since);
    RouteFields(kwargs, queryProperties, whereProperties, initial, map[]);
    var (routed, where) := Route(kwargs, queryProperties, whereProperties, initial, map[]).value;
    assert field != "where";
    assert field in routed && routed[field] == initial[field];
    InitialPlacement(start, end, asOf, since, field);
  }

  /** Where the start, end, as-of and since values sit in the initial query. */
  lemma InitialPlacement(start: Option<Moment>, end: Option<Moment>, asOf: Option<Moment>, since: Option<Moment>,
                         field: string)
    requires field in InitialQuery(start, end, asOf, since)
    ensures var initial := InitialQuery(start, end, asOf, since);
      && (field == "startDate" ==> initial[field] == if IsTime(end) then NoneValue else ToValue(start))
      && (field == "startTime" ==> initial[field] == if IsTime(end) then ToValue(start) else NoneValue)
      && (field == "endDate" ==> initial[field] == if IsTime(end) then NoneValue else ToValue(end))
      && (field == "endTime" ==> initial[field] == if IsTime(end) then ToValue(end) else NoneValue)
      && (field == "asOfTime" ==> initial[field] == ToValue(asOf))
      && (field == "since" ==> initial[field] == ToValue(since))
  {
  }

  /**
   * The where-filter, with distinct names holding exactly the arguments
   * that name a where property and no query property, is attached under
   * `where` exactly when it is truthy; otherwise `where` is what routing left.
   */
  lemma WhereAttachment(start: Option<Moment>, end: Option<Moment>, asOf: Option<Moment>, since: Option<Moment>,
                        kwargs: seq<Kwarg>, queryProperties: set<string>, whereProperties: set<string>,
                        whereIsTruthy: Properties -> bool)
    requires DistinctNames(kwargs)
    requires BuildQuerySpec(start, end, asOf, since, kwargs, queryProperties, whereProperties, whereIsTruthy).Ok?
    ensures var query := BuildQuerySpec(start, end, asOf, since, kwargs, queryProperties, whereProperties, whereIsTruthy).value;
      var (routed, where) := Route(kwargs, queryProperties, whereProperties, InitialQuery(start, end, asOf, since), map[]).value;
      && (forall f :: f in where <==> f in Names(kwargs) && f !in queryProperties)
      && (forall i :: 0 <= i < |kwargs| && kwargs[i].0 !in queryProperties ==> where[kwargs[i].0] == kwargs[i].1)
      && (whereIsTruthy(where) ==> query == routed["where" := Filter(where)])
      && (!whereIsTruthy(where) ==> query == routed)
  {
    var q0 := InitialQuery(start, end, asOf, since);
    RouteFields(kwargs, queryProperties, whereProperties, q0, map[]);
    var (routed, where) := Route(kwargs, queryProperties, whereProperties, q0, map[]).value;
    forall f | f in Names(kwargs) && f !in queryProperties
      ensures f in where
    {
      var i :| 0 <= i < |kwargs| && Names(kwargs)[i] == f;
    }
  }
}
