/** The persisted settings of the tool: a flat key-to-value document read from the
    per-user config file, merged with the values given on the command line, and
    resolved against built-in defaults. */
module Settings {
  import opened Options

  /** The parsed JSON object of the config file. */
  type Document = map<string, string>

  const BaseUrlKey: string := "base_url"
  const ApiTokenKey: string := "api_token"
  const ModelNameKey: string := "model_name"
  const QueryTextKey: string := "query_text"

  const DefaultBaseUrl: string := "https://dashscope.aliyuncs.com/compatible-mode/v1"
  const DefaultModelName: string := "qwen3-vl-plus"
  const DefaultQueryText: string := "What scene is depicted in the image?"
  /** The environment variable whose value is the fallback API token. */
  const ApiTokenVariable: string := "DASHSCOPE_API_KEY"

  /** The four settings a run may override; `None` means "not given". */
  datatype Overrides = Overrides(
    baseUrl: Option<string>,
    apiToken: Option<string>,
    modelName: Option<string>,
    queryText: Option<string>)

  const NoOverrides: Overrides := Overrides(None, None, None, None)

  /** The values a run ends up using. The token stays optional: with nothing stored
      and the environment variable unset it is `None`. */
  datatype Resolved = Resolved(
    baseUrl: string,
    apiToken: Option<string>,
    modelName: string,
    queryText: string)

  predicate AnyGiven(o: Overrides)
  {
    o.baseUrl.Some? || o.apiToken.Some? || o.modelName.Some? || o.queryText.Some?
  }

  predicate AllGiven(o: Overrides)
  {
    o.baseUrl.Some? && o.apiToken.Some? && o.modelName.Some? && o.queryText.Some?
  }

  /** The override that applies to a key of the document, if any. */
  function OverrideFor(o: Overrides, key: string): Option<string>
  {
    if key == BaseUrlKey then o.baseUrl
    else if key == ApiTokenKey then o.apiToken
    else if key == ModelNameKey then o.modelName
    else if key == QueryTextKey then o.queryText
    else None
  }

  /** `doc[key] = v` when `v` is not `None`. */
  function Put(doc: Document, key: string, v: Option<string>): Document
  {
    if v.Some? then doc[key := v.value] else doc
  }

  /** The document after the merge: the four keys are overwritten, one after another, each
      when its override is given. */
  function Merge(doc: Document, o: Overrides): (r: Document)
    ensures doc.Keys <= r.Keys
    ensures r.Keys <= doc.Keys + {BaseUrlKey, ApiTokenKey, ModelNameKey, QueryTextKey}
  {
    Put(Put(Put(Put(doc, BaseUrlKey, o.baseUrl), ApiTokenKey, o.apiToken), ModelNameKey, o.modelName),
        QueryTextKey, o.queryText)
  }

  /** Python truthiness of an optional string: present and not empty. */
  predicate Truthy(v: Option<string>)
  {
    v.Some? && v.value != ""
  }

  /** `config.get(key, default)`. */
  function Get(doc: Document, key: string, default: string): string
  {
    if key in doc then doc[key] else default
  }

  /** The values a run uses, given the merged document, the overrides and the value of
      the token's environment variable: stored value or default for the URL and the
      token, truthy override, else stored value, else default for the model and query. */
  function Resolve(config: Document, o: Overrides, env: Option<string>): (r: Resolved)
    ensures r.baseUrl == DefaultBaseUrl || (BaseUrlKey in config && r.baseUrl == config[BaseUrlKey])
    ensures r.apiToken == env || (ApiTokenKey in config && r.apiToken == Some(config[ApiTokenKey]))
    ensures r.modelName == DefaultModelName || (ModelNameKey in config && r.modelName == config[ModelNameKey])
                                            || (Truthy(o.modelName) && r.modelName == o.modelName.value)
    ensures r.queryText == DefaultQueryText || (QueryTextKey in config && r.queryText == config[QueryTextKey])
                                            || (Truthy(o.queryText) && r.queryText == o.queryText.value)
    ensures r.modelName == "" ==> ModelNameKey in config && config[ModelNameKey] == ""
    ensures r.queryText == "" ==> QueryTextKey in config && config[QueryTextKey] == ""
  {
    Resolved(
      Get(config, BaseUrlKey, DefaultBaseUrl),
      if ApiTokenKey in config then Some(config[ApiTokenKey]) else env,
      if Truthy(o.modelName) then o.modelName.value else Get(config, ModelNameKey, DefaultModelName),
      if Truthy(o.queryText) then o.queryText.value else Get(config, QueryTextKey, DefaultQueryText))
  }

  /** What a config file holds when it is read. */
  datatype FileState =
    | Missing                   // no file at the path
    | Readable(doc: Document)   // a JSON object that decodes
    | Unreadable                // a JSON decode error, an I/O error or a Unicode decode error

  /** `load_config`: total; a missing or unreadable file gives the empty document. */
  function Loaded(f: FileState): (doc: Document)
    ensures f.Readable? ==> doc == f.doc
    ensures !f.Readable? ==> doc == map[]
  {
    match f
    case Readable(d) => d
    case _ => map[]
  }

  /** Merging writes exactly the given keys, each with its override, and leaves every other
      key of the document as it was; nothing else (in particular no default) is added. */
  lemma MergeKeys(doc: Document, o: Overrides, k: string)
    ensures k in Merge(doc, o) <==> k in doc || OverrideFor(o, k).Some?
    ensures OverrideFor(o, k).Some? ==> Merge(doc, o)[k] == OverrideFor(o, k).value
    ensures OverrideFor(o, k).None? && k in doc ==> Merge(doc, o)[k] == doc[k]
  {
    assert BaseUrlKey != ApiTokenKey && BaseUrlKey != ModelNameKey && BaseUrlKey != QueryTextKey;
    assert ApiTokenKey != ModelNameKey && ApiTokenKey != QueryTextKey;
    assert ModelNameKey != QueryTextKey by {
      assert ModelNameKey[0] != QueryTextKey[0];
    }
  }

  /** Keys other than the four settings are never touched. */
  lemma MergeKeepsOtherKeys(doc: Document, o: Overrides, k: string)
    requires k !in {BaseUrlKey, ApiTokenKey, ModelNameKey, QueryTextKey}
    ensures k in Merge(doc, o) <==> k in doc
    ensures k in doc ==> Merge(doc, o)[k] == doc[k]
  {
    MergeKeys(doc, o, k);
  }

  /** With no override given the merge leaves the document unchanged. */
  lemma MergeNothing(doc: Document)
    ensures Merge(doc, NoOverrides) == doc
  {
  }

  /** Merging the same overrides a second time changes nothing. */
  lemma MergeIdempotent(doc: Document, o: Overrides)
    ensures Merge(Merge(doc, o), o) == Merge(doc, o)
  {
    var m := Merge(doc, o);
    forall k
      ensures k in Merge(m, o) <==> k in m
      ensures k in m ==> Merge(m, o)[k] == m[k]
    {
      MergeKeys(doc, o, k);
      MergeKeys(m, o, k);
    }
  }

  /** Precedence: an explicit override wins over the stored value, which wins over the
      default (the environment value for the token). */
  lemma Precedence(doc: Document, o: Overrides, env: Option<string>)
    ensures Resolve(Merge(doc, o), o, env).baseUrl ==
      if o.baseUrl.Some? then o.baseUrl.value else Get(doc, BaseUrlKey, DefaultBaseUrl)
    ensures Resolve(Merge(doc, o), o, env).apiToken ==
      if o.apiToken.Some? then o.apiToken
      else if ApiTokenKey in doc then Some(doc[ApiTokenKey]) else env
    ensures Resolve(Merge(doc, o), o, env).modelName ==
      if o.modelName.Some? then o.modelName.value else Get(doc, ModelNameKey, DefaultModelName)
    ensures Resolve(Merge(doc, o), o, env).queryText ==
      if o.queryText.Some? then o.queryText.value else Get(doc, QueryTextKey, DefaultQueryText)
  {
    MergeKeys(doc, o, BaseUrlKey);
    MergeKeys(doc, o, ApiTokenKey);
    MergeKeys(doc, o, ModelNameKey);
    MergeKeys(doc, o, QueryTextKey);
  }

  /** After the merge, the truthiness test on the model and query overrides never changes
      the outcome: resolving with or without the overrides gives the same values. */
  lemma TruthTestRedundant(doc: Document, o: Overrides, env: Option<string>)
    ensures Resolve(Merge(doc, o), o, env) == Resolve(Merge(doc, o), NoOverrides, env)
  {
    MergeKeys(doc, o, ModelNameKey);
    MergeKeys(doc, o, QueryTextKey);
  }

  /** A later run that gives no override and reads back what this run stored uses the same
      URL, model and query; it uses the same token too whenever a token is stored. */
  lemma LaterRunReuses(doc: Document, o: Overrides, env: Option<string>, laterEnv: Option<string>)
    ensures var first := Resolve(Merge(doc, o), o, env);
            var later := Resolve(Merge(Merge(doc, o), NoOverrides), NoOverrides, laterEnv);
            && later.baseUrl == first.baseUrl
            && later.modelName == first.modelName
            && later.queryText == first.queryText
            && (ApiTokenKey in Merge(doc, o) ==> later.apiToken == first.apiToken)
            && (AllGiven(o) ==> later == first)
  {
    MergeNothing(Merge(doc, o));
    TruthTestRedundant(doc, o, env);
    MergeKeys(doc, o, ApiTokenKey);
  }
}
