/** The `Eye` processor and the config file it reads and writes: set-up merges the command
    line into the stored settings, saves them when anything was given and resolves the values
    to use; a query validates the image, builds the request and accumulates the streamed reply. */
module Heye {
  import opened Options
  import opened Text
  import opened Settings
  import opened Images
  import opened Request
  import opened Stream

  /** The line `save_config` prints when the file cannot be written. */
  function SaveWarning(path: string, error: string): string
  {
    "Warning: Could not save config to " + path + ": " + error
  }

  /** The per-user config file. What the file holds and whether a write to it fails are
      inputs; every call of `Save` and every warning it prints is recorded. */
  class ConfigStore {
    const path: string
    var file: FileState
    /** The I/O error a write to `path` raises, if any. */
    var writeError: Option<string>
    /** The documents handed to `Save`, in order. */
    var saves: seq<Document>
    /** The warnings printed for writes that failed. */
    var warnings: seq<string>

    constructor (path: string, file: FileState, writeError: Option<string>)
      ensures this.path == path && this.file == file && this.writeError == writeError
      ensures saves == [] && warnings == []
    {
      this.path := path;
      this.file := file;
      this.writeError := writeError;
      saves := [];
      warnings := [];
    }

    /** `load_config`: never fails; a missing or unreadable file reads as the empty document. */
    method Load() returns (doc: Document)
      ensures file.Readable? ==> doc == file.doc
      ensures !file.Readable? ==> doc == map[]
    {
      doc := Loaded(file);
    }

    /** `save_config`: writes the whole document; a failed write leaves the file as it was and
        prints a warning instead of raising. Reading back after a successful write gives the
        document that was written. */
    method Save(doc: Document)
      modifies this
      ensures writeError == old(writeError)
      ensures saves == old(saves) + [doc]
      ensures old(writeError).None? ==> file == Readable(doc) && warnings == old(warnings)
      ensures old(writeError).Some? ==>
        file == old(file) && warnings == old(warnings) + [SaveWarning(path, old(writeError).value)]
      ensures Loaded(file) == if writeError.None? then doc else Loaded(old(file))
    {
      saves := saves + [doc];
      match writeError
      case None =>
        file := Readable(doc);
      case Some(e) =>
        warnings := warnings + [SaveWarning(path, e)];
    }
  }

  /** The effect of one set-up on the store: the merged document is saved exactly when some
      override was given, and nothing else about the store changes. */
  twostate predicate SetupEffect(store: ConfigStore, o: Overrides)
    reads store
  {
    var merged := Merge(Loaded(old(store.file)), o);
    && store.writeError == old(store.writeError)
    && store.saves == old(store.saves) + (if AnyGiven(o) then [merged] else [])
    && store.file == (if AnyGiven(o) && old(store.writeError).None? then Readable(merged) else old(store.file))
    && store.warnings == old(store.warnings) +
         (if AnyGiven(o) && old(store.writeError).Some? then [SaveWarning(store.path, old(store.writeError).value)] else [])
  }

  /** What `process_query` ends in: a validation error raised before anything is sent, or the
      request sent and the reply streamed, completely or up to a chunk without choices. */
  datatype QueryOutcome =
    | Rejected(error: ImageError)
    | Streamed(request: ChatRequest, printed: seq<string>, content: string, complete: bool)

  /** `parse_args`: the positional query words joined by single spaces; no words gives `None`. */
  function QueryArgument(words: seq<string>): (q: Option<string>)
    ensures q.None? <==> words == []
  {
    if words == [] then None else Some(Join(words, " "))
  }

  /** The overrides one invocation hands to `Eye`. */
  function ArgumentOverrides(words: seq<string>, model: Option<string>, baseUrl: Option<string>, apiToken: Option<string>): (o: Overrides)
    ensures o.queryText.None? <==> words == []
    ensures o.modelName == model && o.baseUrl == baseUrl && o.apiToken == apiToken
    ensures AnyGiven(o) <==> words != [] || model.Some? || baseUrl.Some? || apiToken.Some?
  {
    Overrides(baseUrl, apiToken, model, QueryArgument(words))
  }

  /** The joined query splits back into the words, when no word holds a space. */
  lemma QueryArgumentRoundTrip(words: seq<string>)
    requires words != []
    requires forall i :: 0 <= i < |words| ==> ' ' !in words[i]
    ensures QueryArgument(words).Some? && Split(QueryArgument(words).value, ' ') == words
  {
    SplitJoin(words, ' ');
  }

  /** Giving no query words never overwrites or removes a stored query. */
  lemma NoWordsKeepStoredQuery(doc: Document, words: seq<string>, model: Option<string>, baseUrl: Option<string>, apiToken: Option<string>)
    requires words == []
    ensures var merged := Merge(doc, ArgumentOverrides(words, model, baseUrl, apiToken));
            && (QueryTextKey in merged <==> QueryTextKey in doc)
            && (QueryTextKey in doc ==> merged[QueryTextKey] == doc[QueryTextKey])
  {
    MergeKeys(doc, ArgumentOverrides(words, model, baseUrl, apiToken), QueryTextKey);
  }

  /** The request `process_query` builds reads back to the image's content type, its payload
      and the query text, because no content type holds the `;` that ends the MIME type. */
  lemma RequestReadsBack(path: string, payload: string, query: string)
    ensures ReadMessages(BuildMessages(ContentType(path), payload, query))
         == Some(ImageQuery(ContentType(path), payload, query))
  {
    ContentTypeHasNoSemicolon(path);
    BuildThenRead(ContentType(path), payload, query);
  }

  /** The conditional assignments at the start of `_setup_configuration`: each of the four
      keys is overwritten when its override is given, one after another, so the result holds
      the overrides that were given and the loaded values of every other key. */
  method ApplyOverrides(loaded: Document, o: Overrides) returns (config: Document)
    ensures forall k :: k in config <==> k in loaded || OverrideFor(o, k).Some?
    ensures forall k :: k in config && OverrideFor(o, k).Some? ==> config[k] == OverrideFor(o, k).value
    ensures forall k :: k in loaded && OverrideFor(o, k).None? ==> config[k] == loaded[k]
    ensures config == Merge(loaded, o)
  {
    config := loaded;
    if o.baseUrl.Some? {
      config := config[BaseUrlKey := o.baseUrl.value];
    }
    if o.apiToken.Some? {
      config := config[ApiTokenKey := o.apiToken.value];
    }
    if o.modelName.Some? {
      config := config[ModelNameKey := o.modelName.value];
    }
    if o.queryText.Some? {
      config := config[QueryTextKey := o.queryText.value];
    }
    forall k
      ensures k in config <==> k in loaded || OverrideFor(o, k).Some?
      ensures k in config && OverrideFor(o, k).Some? ==> config[k] == OverrideFor(o, k).value
      ensures k in loaded && OverrideFor(o, k).None? ==> config[k] == loaded[k]
    {
      MergeKeys(loaded, o, k);
    }
  }

  class Eye {
    var imagePath: string
    var baseUrl: string
    var apiToken: Option<string>
    var modelName: string
    var queryText: string

    /** The settings this processor uses. */
    function Current(): Resolved
      reads this
    {
      Resolved(baseUrl, apiToken, modelName, queryText)
    }

    /** `Eye(image_path, query_text, model_name, base_url, api_token)`; `env` is the value of
        the token's environment variable. */
    constructor (store: ConfigStore, imagePath: string, o: Overrides, env: Option<string>)
      modifies store
      ensures this.imagePath == imagePath
      ensures Current() == Resolve(Merge(Loaded(old(store.file)), o), o, env)
      ensures SetupEffect(store, o)
    {
      this.imagePath := imagePath;
      baseUrl, apiToken, modelName, queryText := "", None, "", "";
      new;
      SetupConfiguration(store, o, env);
    }

    /** `_setup_configuration`: updates the loaded document key by key, saves it if anything
        was given, then resolves each setting. */
    method SetupConfiguration(store: ConfigStore, o: Overrides, env: Option<string>)
      modifies this, store
      ensures imagePath == old(imagePath)
      ensures Current() == Resolve(Merge(Loaded(old(store.file)), o), o, env)
      ensures SetupEffect(store, o)
    {
      var config := store.Load();
      ghost var loaded := config;
      config := ApplyOverrides(config, o);
      if o.baseUrl.Some? || o.apiToken.Some? || o.modelName.Some? || o.queryText.Some? {
        store.Save(config);
      }
      var resolved := Resolve(config, o, env);
      baseUrl, apiToken, modelName, queryText := resolved.baseUrl, resolved.apiToken, resolved.modelName, resolved.queryText;
    }

    /** `process_query`: `found` is whether the image path exists, `payload` the base64 text of
        its bytes and `response` the chunks the endpoint streams back. Validation comes first;
        every non-empty delta is printed and appended to the accumulator, so the accumulated
        reply is the in-order concatenation of what was printed. */
    method ProcessQuery(found: bool, payload: string, response: seq<Chunk>) returns (outcome: QueryOutcome)
      ensures ValidateImage(imagePath, found).Fail? ==> outcome == Rejected(ValidateImage(imagePath, found).error)
      ensures ValidateImage(imagePath, found).Pass? ==>
        var n := ReadableCount(response);
        && outcome.Streamed?
        && outcome.request == ChatRequest(modelName, BuildMessages(ContentType(imagePath), payload, queryText), true)
        && outcome.printed == Deltas(response[..n])
        && outcome.content == Flatten(outcome.printed)
        && outcome.complete == (n == |response|)
    {
      var check := ValidateImage(imagePath, found);
      if check.Fail? {
        return Rejected(check.error);
      }
      var contentType := ContentType(imagePath);
      var messages := BuildMessages(contentType, payload, queryText);
      var request := ChatRequest(modelName, messages, true);
      var printed, content, complete := StreamReply(response);
      return Streamed(request, printed, content, complete);
    }
  }

  /** Two invocations against one config file: the first gives every setting on the command
      line, the second gives none and reads back what the first saved. The second uses the
      same settings as the first, whatever its environment says. */
  method RepeatRun(home: string, file: FileState, first: Overrides, env: Option<string>, laterEnv: Option<string>, imagePath: string)
    returns (before: Resolved, after: Resolved)
    requires AllGiven(first)
    ensures before == after
    ensures before.baseUrl == first.baseUrl.value && before.apiToken == first.apiToken
    ensures before.modelName == first.modelName.value && before.queryText == first.queryText.value
  {
    var store := new ConfigStore(home + "/.heye", file, None);
    var eye := new Eye(store, imagePath, first, env);
    before := eye.Current();
    var again := new Eye(store, imagePath, NoOverrides, laterEnv);
    after := again.Current();
    LaterRunReuses(Loaded(file), first, env, laterEnv);
    Precedence(Loaded(file), first, env);
  }
}
