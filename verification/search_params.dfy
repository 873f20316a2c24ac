/**
 * The deterministic part of `generate_search_params`: the model's JSON reply, once
 * parsed, is checked to be an object and two shape fixes are applied to it.
 */
module SearchParams {
  import opened Wrappers
  import opened PyJson
  import PatentConfig

  datatype ParamsError =
    | MalformedReply  // json.loads raised: the reply is not JSON
    | NotAnObject     // the reply parsed to something that has no .get (a list, a string, ...)

  /** `not params.get(key)`: the key is absent or holds a falsy value. */
  predicate Missing(v: Option<Json>)
  {
    v.None? || !Truthy(v.value)
  }

  /** The value under `ipc_codes` is a dict. */
  predicate IsDictValued(v: Option<Json>)
  {
    v.Some? && v.value.JObject?
  }

  /**
   * The two fixes: a dict under `ipc_codes` becomes the list of its values, and a missing
   * or falsy `publication_from` becomes the configured default. No other key changes,
   * and only `publication_from` can be added.
   */
  function Normalized(raw: Dict, defaultFrom: string): (p: Dict)
    ensures Keys(p) == if "publication_from" in Keys(raw) then Keys(raw) else Keys(raw) + ["publication_from"]
    ensures IsDictValued(Get(raw, "ipc_codes")) ==>
      Get(p, "ipc_codes") == Some(JList(Values(Get(raw, "ipc_codes").value.fields)))
    ensures !IsDictValued(Get(raw, "ipc_codes")) ==> Get(p, "ipc_codes") == Get(raw, "ipc_codes")
    ensures Missing(Get(raw, "publication_from")) ==> Get(p, "publication_from") == Some(JStr(defaultFrom))
    ensures !Missing(Get(raw, "publication_from")) ==> Get(p, "publication_from") == Get(raw, "publication_from")
    ensures forall k :: k != "ipc_codes" && k != "publication_from" ==> Get(p, k) == Get(raw, k)
  {
    var ipc := Get(raw, "ipc_codes");
    var flat := if IsDictValued(ipc) then Set(raw, "ipc_codes", JList(Values(ipc.value.fields))) else raw;
    if Missing(Get(flat, "publication_from")) then Set(flat, "publication_from", JStr(defaultFrom)) else flat
  }

  /**
   * `generate_search_params` after the completion call: `reply` is what `json.loads`
   * made of the model's text (nothing when it raised); the dict is then fixed in place.
   */
  method GenerateSearchParams(reply: Option<Json>, settings: PatentConfig.Settings)
    returns (r: Result<Dict, ParamsError>)
    ensures reply.None? ==> r == Err(MalformedReply)
    ensures reply.Some? && !reply.value.JObject? ==> r == Err(NotAnObject)
    ensures reply.Some? && reply.value.JObject? ==>
      r == Ok(Normalized(reply.value.fields, settings.publicationFrom))
  {
    if reply.None? {
      return Err(MalformedReply);
    }
    if !reply.value.JObject? {
      return Err(NotAnObject);
    }
    var params := reply.value.fields;
    var ipc := Get(params, "ipc_codes");
    if ipc.Some? && ipc.value.JObject? {
      params := Set(params, "ipc_codes", JList(Values(ipc.value.fields)));
    }
    if Missing(Get(params, "publication_from")) {
      params := Set(params, "publication_from", JStr(settings.publicationFrom));
    }
    r := Ok(params);
  }

  /** Normalising twice changes nothing more than normalising once. */
  lemma NormalizedIdempotent(raw: Dict, defaultFrom: string)
    ensures Normalized(Normalized(raw, defaultFrom), defaultFrom) == Normalized(raw, defaultFrom)
  {
    var p := Normalized(raw, defaultFrom);
    assert !IsDictValued(Get(p, "ipc_codes"));
    if Missing(Get(p, "publication_from")) {
      SetUnchanged(p, "publication_from", JStr(defaultFrom));
    }
  }
}
