# Embedding configuration of the PyTorch feature modules

This project models, in Dafny, the configuration layer of
`nvtabular/merlin_models/torch/features/embedding.py`:

- `TableConfig`: an embedding-table configuration. It checks that the vocabulary
  size and the width are at least 1 and that the combiner is `mean`, `sum` or
  `sqrtn`, and otherwise stores its arguments unchanged.
- `FeatureConfig`: a feature's configuration. It refuses a negative
  `max_sequence_length`.
- The `EmbeddingFeatures` constructor. It keeps, per table name, the table of
  the first feature using that name, and builds one embedding table per
  distinct name.
- `EmbeddingFeatures.from_column_group`. It derives `(cardinality, width)`
  sizes per column, builds one feature per column, and returns None when there
  are no columns.
- `EmbeddingFeatures.forward_output_size`. It gives every feature the shape
  `[batch_size, dim]`.

Layout:

- `wrappers.dfy` (module `Wrappers`): `Option` (Python's `Optional`) and `Result`. A raised
  `ValueError` is an `Err` carrying a `ConfigError`.
- `dict.dfy` (module `Dict`): a Python `dict` as the sequence of its items in
  insertion order, with distinct keys. It gives `d.get`, `d.get(k, default)` and `d[k] = v`
  (`Put`: a present key keeps its place and gets the new value; a new key goes to the end).
- `embedding.dfy` (module `Embedding`): the configuration records and their
  checks, specification functions for the dicts each loop of the source builds
  (`FirstTables`, `SizesFromCardinalities`, `FeatureConfigsOf`), the loops
  themselves as methods proved against those functions, and the class
  `EmbeddingFeatures`. Its fields are constants, because the source never changes them after
  construction.

Inputs the source obtains from code that is not part of this model are parameters:
- the column group's `embedding_sizes()` and `cardinalities()` maps;
- the batch size computed by `calculate_batch_size_from_input_size`.

## Model

| member | source | states |
|---|---|---|
| `Embedding.NewTableConfig` | nvtabular/merlin_models/torch/features/embedding.py:9-29 | Succeeds iff vocabulary size >= 1, dim >= 1 and the combiner is one of mean/sum/sqrtn. On success it holds exactly the given four fields. Otherwise the first failing check, in source order, decides the error, which carries the rejected value |
| `Embedding.TableConfigRoundTrip` | nvtabular/merlin_models/torch/features/embedding.py:17-29 | Rebuilding a table from its own fields gives back that very table iff the table is valid: nothing is normalised |
| `Embedding.DefaultTableConfigAccepted` | nvtabular/merlin_models/torch/features/embedding.py:15-16 | The defaults `combiner="mean"` and `name=None` are accepted with any positive sizes |
| `Embedding.NewFeatureConfig` | nvtabular/merlin_models/torch/features/embedding.py:42-58 | Fails iff `max_sequence_length < 0`, with that value in the error. On success it stores table, length and name unchanged, and is a valid feature when its table is valid |
| `Embedding.DefaultFeatureConfigAccepted` | nvtabular/merlin_models/torch/features/embedding.py:45 | The default `max_sequence_length=0` is always accepted |
| `Embedding.FirstTablesDistinct` | nvtabular/merlin_models/torch/features/embedding.py:79-82 | After the de-duplication loop no table name occurs twice |
| `Embedding.FirstTablesKeys` | nvtabular/merlin_models/torch/features/embedding.py:79-82 | A name is a key of `tables` iff some feature's table carries that name |
| `Embedding.FirstTablesFirst` | nvtabular/merlin_models/torch/features/embedding.py:79-82 | Each name maps to the table of the first feature (in iteration order) that uses it |
| `Embedding.DedupTables` | nvtabular/merlin_models/torch/features/embedding.py:77-82 | The loop computes `FirstTables`: at most one table per feature, distinct keys, exactly the used table names, first table wins |
| `Embedding.Bags` | nvtabular/merlin_models/torch/features/embedding.py:84-87 | The tables built from `tables` have exactly its keys, in its order |
| `Embedding.BagsLookup` | nvtabular/merlin_models/torch/features/embedding.py:84-87 | Built from a dict, the embedding tables have distinct keys and exactly the keys of `tables`, and under each name sit the sizes and combiner of the table of that name |
| `Embedding.BuildEmbeddingTables` | nvtabular/merlin_models/torch/features/embedding.py:84-87 | The loop computes `Bags(tables)`: one embedding table per entry of `tables`, under the same name and in the same order, built from that table's vocabulary size, dim and combiner |
| `Embedding.EmbeddingTablesOf` | nvtabular/merlin_models/torch/features/embedding.py:77-87 | The tables the constructor ends with have distinct keys, exactly the table names some feature uses, and under each name the table of the first feature that uses it |
| `Embedding.SizesDistinct` | nvtabular/merlin_models/torch/features/embedding.py:99-105 | The derived sizes have distinct keys, as `cardinalities` does |
| `Embedding.SizesLookup` | nvtabular/merlin_models/torch/features/embedding.py:99-105 | Looked up by column, the derived sizes are `(cardinalities[k], embedding_dims.get(k, default))`, and absent exactly where `cardinalities` has no `k` |
| `Embedding.ResolveSizes` | nvtabular/merlin_models/torch/features/embedding.py:96-105 | Inferred sizes are taken as given. Otherwise the keys equal those of `cardinalities` in the same order, each cardinality is kept, and a missing or empty `embedding_dims` gives every column the default width |
| `Embedding.ColumnGroupDefaults` | nvtabular/merlin_models/torch/features/embedding.py:89-90 | With `infer_embedding_sizes=True` the column group's sizes are used as given. With `embedding_dims=None` and `default_embedding_dim=64`, every column keeps its cardinality and gets width 64. The default combiner `mean` accepts every entry with positive sizes |
| `Embedding.FeatureConfigFor` | nvtabular/merlin_models/torch/features/embedding.py:109-116 | One entry builds iff its sizes are positive and the combiner is accepted. It then gives a valid feature of sequence length 0 whose table is named after the entry. Otherwise it fails with the table constructor's error |
| `Embedding.FeatureConfigsErrPersists` | nvtabular/merlin_models/torch/features/embedding.py:107-116 | Once an entry fails, the whole loop fails with that error |
| `Embedding.FeatureConfigsOk` | nvtabular/merlin_models/torch/features/embedding.py:107-116 | The loop succeeds iff every entry builds. It then holds one feature per entry, under the entry's key and in its order |
| `Embedding.FeatureConfigsFirstError` | nvtabular/merlin_models/torch/features/embedding.py:107-116 | A failing loop reports the table-constructor error of the first entry that cannot be built |
| `Embedding.FeatureConfigsPrefixOk` | nvtabular/merlin_models/torch/features/embedding.py:107-116 | A successful loop has built every entry it read |
| `Embedding.BuildFeatureConfigs` | nvtabular/merlin_models/torch/features/embedding.py:107-116 | The loop, stopping at the first `ValueError`, computes `FeatureConfigsOf`. It succeeds iff all entries build, and then has distinct keys, one feature per entry in order. Otherwise it fails with the first bad entry's error |
| `Embedding.FirstTablesOwnNames` | nvtabular/merlin_models/torch/features/embedding.py:77-82 | When every table is named after its feature and the feature names are distinct, de-duplication keeps one table per feature, under the feature's name and in feature order |
| `Embedding.ColumnGroupTables` | nvtabular/merlin_models/torch/features/embedding.py:107-121 | A module built from `sizes` has exactly one embedding table per entry, in order, named after the column, with that entry's vocabulary size and width and the given combiner. Every feature finds a table under its own name, and every table name is some feature's name |
| `Embedding.EmbeddingFeatures.constructor` | nvtabular/merlin_models/torch/features/embedding.py:72-87 | Establishes `Valid()`: the features are kept, the filter holds their key list, and the embedding tables are `Bags(FirstTables(feature_config))`. So there is a table for each used table name and for no other, built from the first feature that uses the name |
| `Embedding.EmbeddingFeatures.FromColumnGroup` | nvtabular/merlin_models/torch/features/embedding.py:89-121 | Returns None iff the resolved sizes are empty, and fails iff some entry cannot be built, with the loop's error. Otherwise it returns a new valid module whose features are `FeatureConfigsOf(sizes)`. Its embedding tables are one per entry of `sizes`, in order, under `Some(column)` and with that entry's sizes and the combiner. A name is a feature key iff `Some` of it is a table key, and no table is named None |
| `Embedding.EmbeddingFeatures.ForwardOutputSize` | nvtabular/merlin_models/torch/features/embedding.py:141-145 | Exactly the keys of `feature_config`, in order, each with shape `[batch_size, feature.table.dim]` |
| `Dict.Get` | nvtabular/merlin_models/torch/features/embedding.py:104 | `d.get(k)` is present iff `k` is a key, and then is a value stored under `k` |
| `Dict.GetOr` | nvtabular/merlin_models/torch/features/embedding.py:104 | `d.get(k, default)` is the stored value for a present key and the default otherwise |
| `Dict.GetAt` | nvtabular/merlin_models/torch/features/embedding.py:104 | In a dict, every item is found under its own key |
| `Dict.Put` | nvtabular/merlin_models/torch/features/embedding.py:82 | Assigning a new key appends the item at the end; a present key keeps the length |
| `Dict.PutGet` | nvtabular/merlin_models/torch/features/embedding.py:82 | After `d[k] = v`, `d.get(k)` is `v` and every other key reads as before |
| `Dict.AppendDistinct` | nvtabular/merlin_models/torch/features/embedding.py:82 | Appending a key not yet present keeps the keys distinct |
| `Dict.AppendContains` | nvtabular/merlin_models/torch/features/embedding.py:81-82 | After appending `k`, the keys are the old keys and `k` |

## Left out

- `TableConfig.__repr__` and `FeatureConfig.__repr__` (lines 31-39, 60-68): string formatting only.
- The `isinstance(…, int)` halves of the checks at lines 17, 20 and 52, and the `TableConfig` type check at line 47: the arguments are Dafny integers and records, so non-integer arguments cannot arise. Python counts `True` and `False` as integers; that is not modelled.
- `torch.nn.EmbeddingBag` and `torch.nn.ModuleDict` (lines 85, 87): an embedding table is recorded only as its vocabulary size, width and mode (`EmbeddingBag`). Module-dict keys have to be strings that are not empty, contain no dot and do not clash with a module attribute. A table name that breaks one of these rules (`None`, say) passes the model but would be refused by that foreign code.
- `forward` (lines 123-139): tensor reshaping and floating-point lookups in a foreign library. It looks tables up by feature name, whereas the constructor keys them by table name. For modules built by `from_column_group` the two agree, as `ColumnGroupTables` and `FromColumnGroup` state. Directly constructed modules with shared or differently named tables are not covered.
- The `TabularModule` base class: `super().__init__(**kwargs)`, `FilterFeatures` (recorded only as the list of feature names), `calculate_batch_size_from_input_size` (an input) and `super().forward_output_size` (lines 73, 75, 143, 147). Their code is not part of this model.
- `Embedding.EmbeddingFeatures.ForwardOutputSize`: states the `sizes` dict built at lines 142-145, before the base class post-processes it at line 147.
- `Embedding.EmbeddingFeatures.FromColumnGroup`: the tag filter `column_group.get_tagged(tags, tags_to_filter)` (lines 93-94) and `**kwargs` are left out. The inputs are the maps of the already filtered column group.
- `ColumnGroup.embedding_sizes()` and `ColumnGroup.cardinalities()` (lines 97, 102): their results are parameters. Their values are taken to be integers.
- `Embedding.DedupTables`: the order of the keys of `tables` (first occurrence of each name) is fixed by `FirstTables`, but no separate lemma states it.
