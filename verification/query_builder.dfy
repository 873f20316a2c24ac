/**
 * `build_query`: a pure compiler from a filter dict and the BigQuery settings to one
 * SQL statement. Values are interpolated verbatim; nothing is escaped.
 */
module QueryBuilder {
  import opened Wrappers
  import opened PyText
  import opened PyJson
  import PatentConfig

  datatype QueryError =
    | MissingPublicationFrom   // KeyError on params['publication_from']
    | PublicationFromNotText   // AttributeError: .replace on a value that is not a str
    | NotIterable(key: string) // TypeError: iterating null, a boolean or a number

  // ---------------------------------------------------------------------------
  // The date bound

  /** `params['publication_from'].replace('-', '')`. */
  function DateLiteral(params: Dict): (r: Result<string, QueryError>)
    ensures Get(params, "publication_from").None? ==> r == Err(MissingPublicationFrom)
    ensures Get(params, "publication_from").Some? ==>
      (r.Ok? <==> Get(params, "publication_from").value.JStr?)
    ensures r.Err? ==> r.error.MissingPublicationFrom? || r.error.PublicationFromNotText?
    ensures r.Ok? ==> '-' !in r.value
    ensures Get(params, "publication_from").Some? && Get(params, "publication_from").value.JStr? ==>
      r == Ok(DeleteAll(Get(params, "publication_from").value.s, '-'))
  {
    match Get(params, "publication_from")
    case None => Err(MissingPublicationFrom)
    case Some(JStr(s)) => Ok(DeleteAll(s, '-'))
    case Some(_) => Err(PublicationFromNotText)
  }

  /** An ISO date `YYYY-MM-DD` reaches the statement as the eight digits `YYYYMMDD`. */
  lemma DateLiteralOfIsoDate(params: Dict, date: string)
    requires Get(params, "publication_from") == Some(JStr(date))
    requires IsIsoDate(date)
    ensures DateLiteral(params) == Ok(date[..4] + date[5..7] + date[8..])
    ensures |DateLiteral(params).value| == 8 && AllDigits(DateLiteral(params).value)
  {
    IsoDateWithoutHyphens(date);
  }

  // ---------------------------------------------------------------------------
  // The IPC and assignee conditions

  /** One IPC prefix match: `ipc.code LIKE '<code>%'`. */
  function IpcPredicate(code: Json): string
  {
    "ipc.code LIKE '" + Str(code) + "%'"
  }

  /** One case-insensitive substring match on the harmonised assignee name. */
  function AssigneePredicate(name: Json): string
  {
    "LOWER(assignee.name) LIKE LOWER('%" + Str(name) + "%')"
  }

  function IpcPredicates(codes: seq<Json>): (ps: seq<string>)
    ensures |ps| == |codes|
  {
    seq(|codes|, i requires 0 <= i < |codes| => IpcPredicate(codes[i]))
  }

  function AssigneePredicates(names: seq<Json>): (ps: seq<string>)
    ensures |ps| == |names|
  {
    seq(|names|, i requires 0 <= i < |names| => AssigneePredicate(names[i]))
  }

  /** `' OR '.join(filters) if filters else 'TRUE'`. */
  function Clause(filters: seq<string>): string
  {
    if filters == [] then "TRUE" else Join(" OR ", filters)
  }

  function IpcClause(codes: seq<Json>): string { Clause(IpcPredicates(codes)) }

  function AssigneeClause(names: seq<Json>): string { Clause(AssigneePredicates(names)) }

  /** The IPC condition is the tautology `TRUE` exactly when there is no code to match. */
  lemma IpcClauseIsTrueIffNoCodes(codes: seq<Json>)
    ensures IpcClause(codes) == "TRUE" <==> codes == []
  {
  }

  /** The assignee condition is the tautology `TRUE` exactly when there is no name to match. */
  lemma AssigneeClauseIsTrueIffNoNames(names: seq<Json>)
    ensures AssigneeClause(names) == "TRUE" <==> names == []
  {
  }

  /**
   * At the level of the filter dict: when `ipc_codes` can be iterated, the IPC condition
   * is `TRUE` exactly when the key is absent or holds a falsy value (`None` is not
   * iterable and is a TypeError instead).
   */
  lemma IpcConditionIsTrueIffNoCodesGiven(params: Dict)
    requires IterateKey(params, "ipc_codes").Some?
    ensures IpcClause(IterateKey(params, "ipc_codes").value) == "TRUE"
        <==> Get(params, "ipc_codes").None? || !Truthy(Get(params, "ipc_codes").value)
  {
    IpcClauseIsTrueIffNoCodes(IterateKey(params, "ipc_codes").value);
  }

  /** The same for `assignees`: `TRUE` exactly when the key is absent or falsy. */
  lemma AssigneeConditionIsTrueIffNoNamesGiven(params: Dict)
    requires IterateKey(params, "assignees").Some?
    ensures AssigneeClause(IterateKey(params, "assignees").value) == "TRUE"
        <==> Get(params, "assignees").None? || !Truthy(Get(params, "assignees").value)
  {
    AssigneeClauseIsTrueIffNoNames(IterateKey(params, "assignees").value);
  }

  /**
   * One prefix match per code, in the order of the codes: from the position of the i-th
   * match, the condition reads that match and then ` OR ` and the condition of the later codes.
   */
  lemma IpcClauseLayout(codes: seq<Json>, i: nat)
    requires i < |codes|
    ensures PieceOffset(" OR ", IpcPredicates(codes), i) <= |IpcClause(codes)|
    ensures IpcClause(codes)[PieceOffset(" OR ", IpcPredicates(codes), i)..]
         == IpcPredicate(codes[i]) + (if i + 1 < |codes| then " OR " + IpcClause(codes[i + 1..]) else "")
  {
    JoinLayout(" OR ", IpcPredicates(codes), i);
    assert IpcPredicates(codes)[i + 1..] == IpcPredicates(codes[i + 1..]);
  }

  /**
   * One substring match per assignee name, in the order of the names: from the position of
   * the i-th match, the condition reads that match and then ` OR ` and the condition of the later names.
   */
  lemma AssigneeClauseLayout(names: seq<Json>, i: nat)
    requires i < |names|
    ensures PieceOffset(" OR ", AssigneePredicates(names), i) <= |AssigneeClause(names)|
    ensures AssigneeClause(names)[PieceOffset(" OR ", AssigneePredicates(names), i)..]
         == AssigneePredicate(names[i]) + (if i + 1 < |names| then " OR " + AssigneeClause(names[i + 1..]) else "")
  {
    JoinLayout(" OR ", AssigneePredicates(names), i);
    assert AssigneePredicates(names)[i + 1..] == AssigneePredicates(names[i + 1..]);
  }

  // ---------------------------------------------------------------------------
  // The statement

  /** The projection: publication number, English title and abstract, date, aggregated codes and names. */
  const Projection: string :=
    "SELECT\n"
    + "          p.publication_number,\n"
    + "          (SELECT v.text FROM UNNEST(p.title_localized)    AS v WHERE v.language='en' LIMIT 1) AS title,\n"
    + "          (SELECT v.text FROM UNNEST(p.abstract_localized) AS v WHERE v.language='en' LIMIT 1) AS abstract,\n"
    + "          p.publication_date,\n"
    + "          STRING_AGG(DISTINCT ipc.code, ',')     AS ipc_codes,\n"
    + "          STRING_AGG(DISTINCT assignee.name, ',') AS assignees\n"
    + "        FROM "

  /** The two UNNEST joins that give one row per (publication, code, assignee), then WHERE. */
  const Joins: string :=
    " AS p,\n"
    + "             UNNEST(p.ipc)                 AS ipc,\n"
    + "             UNNEST(p.assignee_harmonized) AS assignee\n"
    + "        WHERE\n"
    + "          "

  /** Grouping back to one row per publication. */
  const Grouping: string :=
    "\n        GROUP BY\n"
    + "          p.publication_number, title, abstract, p.publication_date\n"
    + "        "

  /** The line break and indentation around the statement inside the triple-quoted f-string. */
  const Margin: string := "\n        "

  /** `` `project.dataset.table` ``. */
  function TableRef(settings: PatentConfig.Settings): string
  {
    "`" + settings.projectId + "." + settings.dataset + "." + settings.table + "`"
  }

  /** The WHERE condition: the date bound AND (IPC condition) AND (assignee condition). */
  function Where(pubFrom: string, ipcClause: string, assigneeClause: string): string
  {
    "p.publication_date >= " + pubFrom
    + "\n          AND (" + ipcClause + ")"
    + "\n          AND (" + assigneeClause + ")"
  }

  /** The row cap: `LIMIT <limit>`. */
  function LimitClause(limit: int): string
  {
    "LIMIT " + IntToDecimal(limit)
  }

  /** The statement as `build_query` returns it, margins stripped. */
  function Statement(settings: PatentConfig.Settings, where: string): string
  {
    Projection + (TableRef(settings) + Joins + where + Grouping) + LimitClause(settings.limit)
  }

  /**
   * Every statement starts with `SELECT`, ends with `LIMIT <row cap>` and so has no
   * whitespace at either end.
   */
  lemma StatementShape(settings: PatentConfig.Settings, where: string)
    ensures |Statement(settings, where)| >= 6
    ensures Statement(settings, where)[..6] == "SELECT"
    ensures var limit := LimitClause(settings.limit);
      && |limit| <= |Statement(settings, where)|
      && Statement(settings, where)[|Statement(settings, where)| - |limit|..] == limit
    ensures !IsSpace(Statement(settings, where)[0])
    ensures !IsSpace(Statement(settings, where)[|Statement(settings, where)| - 1])
  {
  }

  /** `build_query(params)`: checks in source order, then strips the rendered f-string. */
  function BuildQuery(settings: PatentConfig.Settings, params: Dict): (r: Result<string, QueryError>)
    ensures DateLiteral(params).Err? ==> r == Err(DateLiteral(params).error)
    ensures DateLiteral(params).Ok? && IterateKey(params, "ipc_codes").None? ==>
      r == Err(NotIterable("ipc_codes"))
    ensures DateLiteral(params).Ok? && IterateKey(params, "ipc_codes").Some?
            && IterateKey(params, "assignees").None? ==>
      r == Err(NotIterable("assignees"))
    ensures r.Ok? <==>
      DateLiteral(params).Ok? && IterateKey(params, "ipc_codes").Some? && IterateKey(params, "assignees").Some?
    ensures r.Ok? ==> r.value == Statement(settings, Where(
      DateLiteral(params).value,
      IpcClause(IterateKey(params, "ipc_codes").value),
      AssigneeClause(IterateKey(params, "assignees").value)))
  {
    match DateLiteral(params)
    case Err(e) => Err(e)
    case Ok(pubFrom) =>
      match IterateKey(params, "ipc_codes")
      case None => Err(NotIterable("ipc_codes"))
      case Some(codes) =>
        match IterateKey(params, "assignees")
        case None => Err(NotIterable("assignees"))
        case Some(names) =>
          var statement := Statement(settings, Where(pubFrom, IpcClause(codes), AssigneeClause(names)));
          StatementShape(settings, Where(pubFrom, IpcClause(codes), AssigneeClause(names)));
          StripPadded(Margin, statement, Margin);
          Ok(Strip(Margin + statement + Margin))
  }

  /**
   * An absent or empty IPC list and an absent or empty assignee list filter nothing: both
   * conditions are `TRUE`, so the statement depends only on the date bound.
   */
  lemma EmptyFiltersAreTautologies(settings: PatentConfig.Settings, params: Dict)
    requires DateLiteral(params).Ok?
    requires IterateKey(params, "ipc_codes") == Some([])
    requires IterateKey(params, "assignees") == Some([])
    ensures BuildQuery(settings, params) == Ok(Statement(settings, Where(DateLiteral(params).value, "TRUE", "TRUE")))
  {
  }
}
