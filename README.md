# heye — a Dafny model of the settings and query logic

`heye` is a command-line tool that sends one image and a text prompt to an
OpenAI-compatible vision chat endpoint and streams the reply to standard output.
Settings given on the command line (endpoint URL, API token, model, last query) are
merged into a JSON file in the user's home directory, so later runs can leave them out.

This project models the decision logic of `src/heye.py`:

- **Settings** (`settings.dfy`): the stored document as a `map<string, string>`, the
  four optional overrides, the merge (a given override replaces the stored value, an
  absent one keeps it), resolution against the built-in defaults, and the tolerant load
  (a missing or unreadable file reads as the empty document).
- **Config file and `Eye`** (`heye.dfy`): the class `ConfigStore` stands for the config
  file. What the file holds and whether writing it fails are inputs. Every save and every
  warning it prints is recorded. The class `Eye` holds the resolved settings as fields.
  `SetupConfiguration` merges key by key, saves only when something was given, and
  assigns the fields. `ProcessQuery` validates the image, builds the request and streams
  the reply. `QueryArgument` is the join of the positional query words.
- **Images** (`images.dfy`): `validate_image`, which checks existence first and then the
  lower-cased suffix against seven extensions, and `get_image_content_type`, which looks up
  the text after the last `.` and falls back to `image/png`.
- **Request** (`request.dfy`): the single user message with the image part (a
  `data:<mime>;base64,<payload>` URI) before the text part, and a reader that takes a
  built request apart again.
- **Stream** (`stream.dfy`): chunks with their `choices`, the non-empty deltas in arrival
  order, and the loop that prints each delta and appends it to the accumulator.
- **Text** (`text.dfy`): the `str` operations used: `lower`, `endswith` with a tuple,
  `split` and `join`.

The code lower-cases the path before the suffix check, so `X.PNG` is accepted
(`Images.UpperCaseSuffixAccepted`).

The file system, the environment variable, the base64 encoder and the network are
parameters. They are an existence flag (`found`), a `FileState`, an optional write error,
the token's environment value, the payload string and the sequence of response chunks.

## Model

| member | source | states |
|---|---|---|
| Settings.Loaded | src/heye.py:92-101 | Loading never fails: a readable file gives its document; a missing file or a decode, I/O or Unicode error gives the empty document |
| Settings.Merge | src/heye.py:61-69 | The four guarded assignments in source order. No stored key is removed, and the only keys that can be added are the four settings; `Settings.MergeKeys` states the value of each key |
| Settings.Resolve | src/heye.py:76-83 | Each resolved value is the default, the stored value, or (for model and query only) a non-empty override. The token falls back to the environment value. A resolved model or query is empty only when an empty one is stored; `Settings.Precedence` states which value wins |
| Settings.MergeKeys | src/heye.py:61-69 | A key is in the merged document iff it was stored or its override is given. A given override is the new value. A key without an override keeps its stored value. Nothing else is added, so no default is ever written |
| Settings.MergeKeepsOtherKeys | src/heye.py:61-69 | Keys other than `base_url`, `api_token`, `model_name` and `query_text` are never touched |
| Settings.MergeNothing | src/heye.py:61-73 | With no override given, the merge leaves the stored document unchanged |
| Settings.MergeIdempotent | src/heye.py:61-69 | Merging the same overrides twice gives the same document as merging once |
| Settings.Precedence | src/heye.py:57-83 | Each resolved value is the override when one was given, else the stored value, else the default. The token's default is the environment value |
| Settings.TruthTestRedundant | src/heye.py:80-83 | After the merge, the `model_name or ...` and `query_text or ...` tests never change the result: resolving with or without the overrides gives the same values |
| Settings.LaterRunReuses | src/heye.py:57-83 | A later run with no overrides reads back the saved document. It gets the same URL, model and query, and the same token whenever one is stored. When all four were given, every value is the same |
| Heye.ApplyOverrides | src/heye.py:61-69 | The four conditional assignments leave exactly the given keys overwritten and every other loaded key unchanged, which is the merge |
| Heye.ConfigStore.constructor | src/heye.py:46 | A store for a path, with the file's state and the write outcome as inputs, and nothing saved or printed yet |
| Heye.ConfigStore.Load | src/heye.py:92-101 | Returns the file's document when it is readable, else the empty document, and changes nothing |
| Heye.ConfigStore.Save | src/heye.py:103-111 | Records the save. A successful write replaces the file, so loading afterwards returns the saved document. An `IOError` on write leaves the file unchanged and prints `Warning: Could not save config to <path>: <error>` instead of raising |
| Heye.Eye.SetupConfiguration | src/heye.py:57-83 | The fields become the resolution of the merged document. The store is saved exactly once when some override was given and is not written otherwise. The image path is unchanged |
| Heye.Eye.constructor | src/heye.py:35-50 | Sets the image path and runs the configuration set-up with the same effects on the store and the fields |
| Heye.Eye.ProcessQuery | src/heye.py:153-180 | A failed validation is returned before any request exists. Otherwise the request holds the model, the built messages with the path's content type, and `stream = true`. The printed deltas are the non-empty deltas up to the first chunk without choices, and the accumulator is their in-order concatenation |
| Heye.RepeatRun | src/heye.py:46-83 | Two runs share one config file, `<home>/.heye`, that can be written. The first gives all four settings and the second gives none. Both resolve to the values given first, whatever the second run's environment holds |
| Heye.QueryArgument | src/heye.py:203 | No query words gives `None`; any words give a string |
| Heye.QueryArgumentRoundTrip | src/heye.py:203 | The joined query splits on spaces back into the words, when no word holds a space |
| Heye.ArgumentOverrides | src/heye.py:212-213 | The query override is absent exactly when no query words were given; model, base URL and token are handed over unchanged; some override is given iff a word or one of the three options was given |
| Heye.RequestReadsBack | src/heye.py:157-170 | The request built for any image path reads back to that path's content type, the payload and the query text |
| Heye.NoWordsKeepStoredQuery | src/heye.py:203 | Running without query words never overwrites or removes a stored `query_text` |
| Images.ValidateImage | src/heye.py:114-124 | A missing path fails with `<path> does not exist.` whatever its extension, because existence is checked first. An existing path passes iff its lower-cased form ends with one of the seven suffixes. Any other existing path fails with the unsupported-format message |
| Images.ContentType | src/heye.py:131-143 | The result is always one of `image/png`, `image/jpeg`, `image/bmp`, `image/webp`, `image/tiff` |
| Images.SuffixShape | src/heye.py:120-121 | Each accepted suffix is `.` followed by a key of the content-type table |
| Images.AcceptedIffListedExtension | src/heye.py:114-143 | An existing path is accepted iff it has a `.` and the lower-cased text after the last `.` is a table key. An accepted path gets that key's type, so the `image/png` fallback is reached only by rejected paths |
| Images.CaseInsensitive | src/heye.py:122-133 | Lower-casing the path changes neither the validation verdict nor the content type |
| Images.ContentTypeHasNoSemicolon | src/heye.py:134-143 | No content type contains `;`, so the MIME type can be read back from the data URI |
| Images.MissingFileExample | src/heye.py:116-117 | `./no.png` that does not exist fails with `./no.png does not exist.`; a missing `document.pdf` is reported as not found, not as a format error |
| Images.Extension | src/heye.py:133 | The lower-cased text after the last `.` never holds a `.`; a path without `.` is its own lower-cased extension |
| Images.ExtensionOf | src/heye.py:133 | The extension of `name.ext`, for an `ext` without a `.`, is `ext` lower-cased |
| Images.ListedExtension | src/heye.py:114-143 | A file named with a listed extension, in any case, passes validation and gets that extension's type |
| Images.UnlistedExtension | src/heye.py:114-143 | A file named with any other extension (`document.pdf`, `clip.gif`) fails as an unsupported format, and its content type is `image/png` |
| Images.UpperCaseSuffixAccepted | src/heye.py:122 | `X.PNG` passes validation |
| Images.NoExtensionRejected | src/heye.py:122-124 | An existing path with no `.` in it fails validation with the unsupported-format message |
| Images.UpperCaseJpeg | src/heye.py:122-143 | Any file ending in `.JPG` passes validation and is `image/jpeg` |
| Images.SharedContentTypes | src/heye.py:134-142 | `jpg` and `jpeg` map to `image/jpeg`; `tif` and `tiff` map to `image/tiff` |
| Request.BuildMessages | src/heye.py:159-170 | The result is exactly one message. It has role `user` and exactly two parts: the image part first, then the text part |
| Request.DataUriRoundTrip | src/heye.py:165 | Parsing `data:<mime>;base64,<payload>` gives back the MIME type and the payload, when the MIME type has no `;` |
| Request.BuildThenRead | src/heye.py:159-170 | Reading the built messages back gives the content type, the payload and the query text they were built from |
| Stream.Deltas | src/heye.py:175-180 | Only non-empty deltas are kept, never more than there are chunks |
| Stream.ReadableCount | src/heye.py:175-176 | Counts the chunks before the first one without choices, where `chunk.choices[0]` would raise, or all chunks when there is none |
| Stream.StreamReply | src/heye.py:173-180 | The printed strings are the non-empty deltas in arrival order, up to the first chunk without choices. The accumulator equals their concatenation. The stream is complete iff no chunk lacked choices |
| Stream.TextlessChunkContributesNothing | src/heye.py:178-180 | A chunk whose delta is absent or empty contributes nothing to the deltas or the accumulated text, wherever it arrives |
| Stream.EveryTextKept | src/heye.py:178-180 | When every chunk carries text, the deltas are the chunks' texts one for one, in order |
| Stream.AccumulatedAppend | src/heye.py:173-180 | The accumulated reply of two consecutive runs of chunks is the reply of the first followed by that of the second |
| Stream.DeltasAppend | src/heye.py:175-180 | The deltas of two consecutive runs of chunks are the deltas of the first followed by those of the second |
| Text.Lower | src/heye.py:122 | Lower-casing keeps the length and lowers each character in place |
| Text.EndsWithAny | src/heye.py:122 | `endswith` with a tuple is true iff some suffix in the tuple ends the string |
| Text.Join | src/heye.py:203 | Joining a single word gives the word |
| Text.Split | src/heye.py:133 | `split('.')` gives at least one piece. No piece contains `.`, and joining the pieces with `.` gives back the input |
| Text.LastPiece | src/heye.py:133 | `split(sep)[-1]` never holds `sep`, and is the whole string when `sep` does not occur |
| Text.SplitEndsWithTail | src/heye.py:133 | `split('.')[-1]` is the text after the last `.` |
| Text.SplitJoin | src/heye.py:203 | Splitting the join of separator-free words gives back the words |

## Left out

- The OpenAI client's construction and `send_messages` (src/heye.py:52-55, 145-151) are calls into a library that is not part of this model. The reply is a given finite sequence of chunks, and the request is returned rather than sent.
- `encode_image` (src/heye.py:126-129) uses Python's base64 encoder (RFC 4648, section 4), which is not part of this model. The payload is an opaque string parameter. Errors reading the image file are not modelled.
- File-system effects: `Path.home`, `os.path.exists`, `open`/`codecs.open`, and `json.load`/`json.dump` with their indentation and escaping. These are modelled as the `found` flag, a `FileState` and an optional write error. JSON text is not modelled.
- Settings.Loaded: a config file whose JSON is not an object, or whose values are not strings, is not modelled. The document is always a map from strings to strings. In the code, valid JSON that is not an object (`[]`, `"x"`, `null`) passes through `load_config` unchanged. `_setup_configuration` then raises: a `TypeError` at `config['base_url'] = ...` (src/heye.py:63) when an override is given, or an `AttributeError` at `config.get` (src/heye.py:76) when none is. `main` reports either as `An unexpected error occurred: ...` and exits 1 (src/heye.py:221-223), so the tolerant read does not protect against such a file.
- Heye.ConfigStore.Save: a write is taken to fail at open with an `IOError`, leaving the file as it was. A write that fails part-way and truncates the file is not modelled.
- Heye.ConfigStore.Save: a query word holding bytes that are not valid UTF-8 reaches `sys.argv` as lone surrogates. Writing it then raises `UnicodeEncodeError` after the file has been truncated (src/heye.py:107-109). That error is not an `IOError`, so it escapes to `main`, which prints `Error: ...` and exits 1, and the next load reads the empty document. A Dafny `char` cannot hold a surrogate, so this path is not modelled.
- `os.getenv` (src/heye.py:79) is passed in as the optional `env` value.
- `argparse` handling and `main`'s mapping of exceptions to `Error: ...` lines and exit code 1 (src/heye.py:183-223) are left out. Only the query join at line 203 and the mapping of arguments to overrides are kept.
- `_validate_model` (src/heye.py:85-89) is left out because its only call is commented out (src/heye.py:48).
- Text.Lower: only ASCII `A`-`Z` are lowered, not the full Unicode mapping of `str.lower`. The only non-ASCII characters whose `str.lower` result holds an ASCII letter are U+212A (to `k`) and U+0130 (to `i` followed by U+0307). Neither can complete one of the seven suffixes or a key of the content-type table, so the verdict and the content type are the same as under the full mapping for every path.
- Stream.StreamReply: a transport error raised mid-stream is modelled only as the end of the chunk sequence. The exception that `main` would then report is not modelled. A chunk without choices is modelled as stopping the loop with `complete = false`.
- Concurrent invocations racing on the config file are not modelled; one invocation at a time is assumed.
