/**
 * How the output of `generate_search_params` feeds `build_query`: what the two shape
 * fixes change in the compiled statement, and what they leave alone.
 */
module Pipeline {
  import opened Wrappers
  import opened PyText
  import opened PyJson
  import opened SearchParams
  import opened QueryBuilder
  import PatentConfig

  /**
   * After normalisation the date bound is never missing: a missing or falsy
   * `publication_from` compiles to the configured default without hyphens, any other
   * value compiles as it would have without normalisation.
   */
  lemma NormalizedDateBound(settings: PatentConfig.Settings, raw: Dict)
    ensures var p := Normalized(raw, settings.publicationFrom);
      && DateLiteral(p) != Err(MissingPublicationFrom)
      && (Missing(Get(raw, "publication_from")) ==>
            DateLiteral(p) == Ok(DeleteAll(settings.publicationFrom, '-')))
      && (!Missing(Get(raw, "publication_from")) ==> DateLiteral(p) == DateLiteral(raw))
  {
  }

  /**
   * A dict under `ipc_codes` would be iterated by its keys; after normalisation the IPC
   * condition matches its values instead, one per entry, in entry order. A list or any
   * other value is compiled as it was, and so are the assignees.
   */
  lemma NormalizedFilterLists(settings: PatentConfig.Settings, raw: Dict)
    ensures var p := Normalized(raw, settings.publicationFrom);
      && (IsDictValued(Get(raw, "ipc_codes")) ==>
            var fields := Get(raw, "ipc_codes").value.fields;
            && IterateKey(raw, "ipc_codes").value == seq(|fields|, i requires 0 <= i < |fields| => JStr(fields[i].0))
            && IterateKey(p, "ipc_codes") == Some(Values(fields)))
      && (!IsDictValued(Get(raw, "ipc_codes")) ==> IterateKey(p, "ipc_codes") == IterateKey(raw, "ipc_codes"))
      && IterateKey(p, "assignees") == IterateKey(raw, "assignees")
  {
  }

  /**
   * The configured default, when it is an ISO date, reaches a statement compiled from
   * normalised parameters as its eight digits.
   */
  lemma DefaultDateCompilesToDigits(settings: PatentConfig.Settings, raw: Dict)
    requires Missing(Get(raw, "publication_from"))
    requires IsIsoDate(settings.publicationFrom)
    ensures var p := Normalized(raw, settings.publicationFrom);
      var d := settings.publicationFrom;
      && DateLiteral(p) == Ok(d[..4] + d[5..7] + d[8..])
      && (BuildQuery(settings, p).Ok? ==>
            BuildQuery(settings, p).value == Statement(settings, Where(
              d[..4] + d[5..7] + d[8..],
              IpcClause(IterateKey(p, "ipc_codes").value),
              AssigneeClause(IterateKey(p, "assignees").value))))
  {
    var p := Normalized(raw, settings.publicationFrom);
    DateLiteralOfIsoDate(p, settings.publicationFrom);
  }
}
