# Path projection engine — Dafny model

This project models the path-projection engine of `json_dict_processing.py`. The engine reshapes
nested JSON-like records into flat output records, driven by a config that maps each output field
name to a key path, or to a key path paired with a transformer function. It has four layers:

- **Path resolver** (`extract_nested_value`). It walks a chain of string keys and integer indices
  through dictionaries and lists. Any impossible step gives `None` and never raises.
- **Record projector** (`process_dictionary_with_config`). It builds one output dictionary from
  the config. A config entry that is neither a path (a list) nor a `(path, function)` pair (a
  tuple) raises `TypeError`.
- **Batch projector** (`process_list_of_dicts_with_config`). It projects every record of a list,
  in order.
- **Processor factory** (`create_processor`). It binds a config and the `list_processor` flag
  into a reusable callable.

Files and modules:

| file | module | contents |
|---|---|---|
| `results.dfy` | `Results` | `Option`, and `Result` (`Failure` is a raised exception) |
| `json.dfy` | `Json` | `Value` (`JNull` is `None`), `Key`, `Path` |
| `paths.dfy` | `Paths` | `Step`, the reference walk `Extract`, the source loop `ExtractNestedValue`, resolver lemmas |
| `projection.dfy` | `Projection` | `Spec` (`Direct` / `Transformed` / `Malformed`), `Config`, `TypeError`, `ProcessDictionary` |
| `batch.dfy` | `Batch` | `ProcessList` |
| `processors.dfy` | `Processors` | `Processor` (the closure made explicit), `Apply`, `CreateProcessor` |
| `examples.dfy` | `Examples` | the module's `__main__` assertions and further concrete inputs |

A config is a sequence of `Field(name, spec)` in the Python dictionary's iteration order. Entries
are processed in that order and each is written into the output under its name. The output
therefore keeps the value of the last entry with a given name (`LastWithName`). With distinct
names, as a Python dictionary guarantees, that is every entry. All operations are pure functions,
so calling one twice with the same inputs gives the same result by construction.

Some behaviours of the code are easy to misread, and the model states them as the code has them:

- **Missing vs stored null.** The resolver returns `None` both for a path that does not resolve
  and for a stored `None`, so the model returns `JNull` for both
  (`Paths.ExtractStoredNullIsMissing`).
- **What the error names.** The `TypeError` message names only the offending spec, not the field
  name, so `IncorrectConfigFormat` carries the spec.
- **Absent list.** The `ProcessorList` type alias admits `None`, but the batch loop raises on
  `None`, so the list processor fails with `NotIterable` (`Processors.ListProcessorRejectsNull`).
- **Errors and field order.** Field order does not change a successful output
  (`Projection.ProcessDictionaryOrderIndependent`). It can change which error is raised, because
  the first malformed entry in iteration order is the one reported.

## Model

| member | source | states |
|---|---|---|
| Paths.Step | json_dict_processing.py:22-33 | a step succeeds exactly for a string key present in a dictionary, or an index `0 <= k < len` into a list; the result is that entry or element |
| Paths.Extract | json_dict_processing.py:20-34 | definition of the walk: first step, then the rest from where it led, `None` on a failed step; characterised by `ExtractNestedValue`, `ExtractAppend`, `ExtractSnoc` and `ExtractStopsAtFailedStep` |
| Paths.ExtractNestedValue | json_dict_processing.py:12-34 | the source's loop, with its early returns, computes exactly the reference walk `Extract`; an empty key chain returns the object itself |
| Paths.ExtractEmptyPath | json_dict_processing.py:20-34 | an empty key chain returns the input object unchanged |
| Paths.ExtractFromNull | json_dict_processing.py:32-33 | every key chain applied to `None` yields `None` |
| Paths.ExtractFromScalar | json_dict_processing.py:32-33 | any non-empty chain applied to a scalar or null yields `None` |
| Paths.ExtractAppend | json_dict_processing.py:20-34 | path composition: extracting along `p + q` is extracting `q` from the result of extracting `p`, including when `p` already failed |
| Paths.ExtractSnoc | json_dict_processing.py:21-34 | read left to right, one more key either steps from the value reached so far or ends the walk with `None` |
| Paths.ExtractStopsAtFailedStep | json_dict_processing.py:25-33 | once a step is impossible, the walk yields `None` whatever keys follow, and never raises |
| Paths.ExtractNegativeIndex | json_dict_processing.py:27-31 | a negative index fails; there is no wrap-around |
| Paths.ExtractIndexPastEnd | json_dict_processing.py:27-31 | an index at or past the end of the list reached so far fails |
| Paths.ExtractKindMismatch | json_dict_processing.py:22-33 | a string key on a non-dictionary, or an integer key on a non-list, fails |
| Paths.ExtractStoredNullIsMissing | json_dict_processing.py:18-26 | a key stored with value `None` and an absent key give the same result along any further chain |
| Projection.ApplySpec | json_dict_processing.py:48-55 | one config entry raises exactly when it is neither a path nor a `(path, function)` pair, and the error carries that entry; a path gives `extract(record, path)` and a pair gives `f(extract(record, path))` (definition, characterised by `ProjectedFields`) |
| Projection.ProcessDictionary | json_dict_processing.py:37-56 | succeeds iff no config entry is malformed; the output keys are exactly the config's names; the kept entry for each name produces its value; a failure carries the first malformed spec in iteration order |
| Projection.ProjectedFields | json_dict_processing.py:47-52 | with distinct names, a bare-path field maps to `extract(record, path)` and a `(path, f)` field maps to `f(extract(record, path))` |
| Projection.ProcessDictionaryFieldLocal | json_dict_processing.py:46-52 | each output field depends only on its own entry and the record: that entry alone gives the same value |
| Projection.ProcessDictionaryErrorIgnoresRecord | json_dict_processing.py:53-55 | a config with a malformed entry makes projection of every record raise, with the same error whatever the record |
| Projection.ProcessDictionaryOrderIndependent | json_dict_processing.py:46-56 | two configs with distinct names and equivalent specs per name, in any order, give the same success or failure and the same output |
| Batch.ProcessList | json_dict_processing.py:59-72 | on success the output has the input's length and element `i` is the projection of input element `i`; on failure the error is that of the first failing record, and all records before it succeed |
| Batch.ProcessListFailsIffMalformed | json_dict_processing.py:69-72 | a batch fails exactly when it is non-empty and the config has a malformed entry, so an empty batch always gives an empty list |
| Batch.ProcessListFailureIsFirstRecords | json_dict_processing.py:69-72 | a failing batch fails with the error its first record raises; no partial result is returned |
| Processors.Processor.Apply | json_dict_processing.py:75-90 | a single processor succeeds iff the config is well formed and returns a record with the config's names; a list processor succeeds iff given a list that is empty or paired with a well-formed config, and returns one record per element; a non-list input to a list processor raises |
| Processors.CreateProcessor | json_dict_processing.py:75-90 | keeps the mode flag, which defaults to single-record, and binds the config: the single-record processor is the record projector over that config and the list processor is the batch projector over it; checks nothing about the config, and its processor can succeed only with a well-formed config or on the empty list |
| Processors.DefaultIsSingleRecord | json_dict_processing.py:75-76 | without the flag, the processor is the single-record one and returns a record |
| Processors.ListProcessorReturns | json_dict_processing.py:88-89 | a batch that projects to given outputs makes the list processor return exactly those records, in order |
| Processors.ListProcessorIsElementwise | json_dict_processing.py:88-90 | element `i` of a list processor's output equals the single processor's output for input element `i` |
| Processors.ListProcessorRejectsNull | json_dict_processing.py:69-70 | a list processor given `None` raises instead of returning an empty list |
| Processors.CreateProcessorDefersValidation | json_dict_processing.py:75-90 | construction checks nothing: a malformed config still maps the empty list to the empty list, and fails only once a record is projected |
| Examples.LeadingYearOfDate | json_dict_processing.py:99 | the stand-in for `lambda s: int(s[:4])` maps `"2001-05-01"` to `2001` and `"1999-12-31"` to `1999`, and reads a shorter string such as `"12"` whole |
| Examples.ExampleExtract | json_dict_processing.py:94-96 | `["a", "b", 0, "c"]` resolves to `1` in the sample; `["a", "z"]` resolves to `None` |
| Examples.ExampleProcessDictionary | json_dict_processing.py:97-102 | the sample config projects the sample to `{"val": 1, "y": 2001}` |
| Examples.ExampleNegativeIndex | json_dict_processing.py:27-31 | `{"a": [1, 2, 3]}` along `["a", -1]` gives `None` |
| Examples.ExampleMissingField | json_dict_processing.py:96 | a config field whose path leaves the record is present in the output with value `None` |
| Examples.ExampleMalformedConfig | json_dict_processing.py:53-55 | the config `{"bad": 42}` raises a `TypeError` carrying `42`, whatever the record |
| Examples.ExampleProjectNull | json_dict_processing.py:46-49 | projecting `None` with a bare-path config gives the field, with value `None` |
| Examples.ExampleProjectOther | json_dict_processing.py:46-52 | the sample config projects `{"a": {"d": {"e": "1999-12-31"}}}` to `{"val": None, "y": 1999}` |
| Examples.ExampleProcessList | json_dict_processing.py:69-72 | the sample config projects the batch of the sample and that second record to the two projected records, in order |
| Examples.ExampleListProcessor | json_dict_processing.py:88-89 | a list processor with the sample config maps the sample and the second record to the two projected records, in order |

## Left out

- Transformers are total, pure `Value -> Value` functions. An exception raised inside a transformer, and any side effect it has, is not modelled.
- A processor used as a transformer, as in `(["nobelPrizes"], prize_processor())`, is not modelled. A processor can raise, and a transformer here cannot.
- laureates_configs.py and prizes_configs.py are config tables and thin wrappers over Python's `int()`, so they are not modelled.
- Examples.LeadingYear: a total stand-in for `int(s[:4])` that reads a non-empty prefix of ASCII digits and gives null otherwise. Python's `int()` also accepts a sign, surrounding spaces, underscores and non-ASCII decimal digits, and raises where the stand-in gives null.
- Processors.Processor.Apply: in list mode every non-list input raises `NotIterable`. Python raises for `None`, booleans and integers, but would iterate the characters of a string or the keys of a dictionary. Dictionary insertion order is not part of the `map`-based value model.
- Key order of the output record is not modelled. A `Record` is a `map`, so it says which names map to which values but not the order in which Python inserts them, which follows the config.
- A `(path, function)` pair whose path part is not iterable, such as `(None, f)`, cannot be expressed. In Python it passes the tuple test and raises `TypeError` when the walk starts. A pair whose path part is a string or a dictionary, which Python would iterate by character or by key, cannot be expressed either.
- Aliasing is not modelled. In Python the output values are the input's own sub-objects, so mutating an output record mutates the input record. A value model has no shared references, so it cannot show this.
- A tuple spec of the wrong length, which raises `ValueError` when unpacked, and a pair whose second part is not callable, which raises when called, cannot be expressed. A spec is a path, a `(path, function)` pair, or a malformed value.
- Python quirks are left out: `bool` counting as an index key, dictionaries with non-string keys, tuples, and floats. A tuple is not a `list`, so extraction treats it like any scalar. Every scalar behaves alike under extraction, so integers, booleans and strings stand for all of them.
- The error text of the `TypeError` is not modelled. `IncorrectConfigFormat` carries the offending spec that the message prints.
- Closures and the module-level processor instances are left out. Concurrency is not modelled; the code has no shared state.
