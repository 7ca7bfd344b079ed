/**
 * The embedding-configuration layer of the PyTorch feature modules: the
 * validated `TableConfig` and `FeatureConfig` records, and the bookkeeping
 * `EmbeddingFeatures` does when it is built (one embedding table per distinct
 * table name), when it is derived from a column group's cardinalities, and
 * when it reports its output shapes.
 */
module Embedding {
  import opened Wrappers
  import opened Dict

  /** The pooling modes a table accepts, in the order the constructor lists them. */
  const Combiners: seq<string> := ["mean", "sum", "sqrtn"]

  const DefaultCombiner: string := "mean"
  const DefaultMaxSequenceLength: int := 0
  const DefaultEmbeddingDim: int := 64
  const DefaultInferEmbeddingSizes: bool := true

  predicate ValidCombiner(combiner: string)
  {
    combiner in Combiners
  }

  /** The `ValueError`s the two constructors raise, each with the value it rejects. */
  datatype ConfigError =
    | InvalidVocabularySize(vocabularySize: int)
    | InvalidDim(dim: int)
    | InvalidCombiner(combiner: string)
    | InvalidMaxSequenceLength(maxSequenceLength: int)

  // ---------------------------------------------------------------------------
  // TableConfig and FeatureConfig
  // ---------------------------------------------------------------------------

  datatype TableConfig = TableConfig(vocabularySize: int, dim: int, combiner: string, name: Option<string>)

  /** What every successfully constructed table satisfies. */
  predicate ValidTable(t: TableConfig)
  {
    1 <= t.vocabularySize && 1 <= t.dim && ValidCombiner(t.combiner)
  }

  /**
   * `TableConfig(vocabulary_size, dim, combiner, name)`: the three checks run
   * in this order and the first that fails decides the error; on success the
   * arguments are stored as given.
   */
  function NewTableConfig(vocabularySize: int, dim: int, combiner: string, name: Option<string>)
    : (r: Result<TableConfig, ConfigError>)
    ensures r.Ok? <==> ValidTable(TableConfig(vocabularySize, dim, combiner, name))
    ensures r.Ok? ==> r.value == TableConfig(vocabularySize, dim, combiner, name)
    ensures vocabularySize < 1 ==> r == Err(InvalidVocabularySize(vocabularySize))
    ensures 1 <= vocabularySize && dim < 1 ==> r == Err(InvalidDim(dim))
    ensures 1 <= vocabularySize && 1 <= dim && !ValidCombiner(combiner) ==> r == Err(InvalidCombiner(combiner))
  {
    if vocabularySize < 1 then Err(InvalidVocabularySize(vocabularySize))
    else if dim < 1 then Err(InvalidDim(dim))
    else if combiner !in Combiners then Err(InvalidCombiner(combiner))
    else Ok(TableConfig(vocabularySize, dim, combiner, name))
  }

  /** Rebuilding a table from its own fields gives it back exactly when it is valid. */
  lemma TableConfigRoundTrip(t: TableConfig)
    ensures NewTableConfig(t.vocabularySize, t.dim, t.combiner, t.name) == Ok(t) <==> ValidTable(t)
  {
  }

  /** The defaults `combiner="mean"` and `name=None` are accepted with any positive sizes. */
  lemma DefaultTableConfigAccepted(vocabularySize: int, dim: int)
    requires 1 <= vocabularySize && 1 <= dim
    ensures NewTableConfig(vocabularySize, dim, DefaultCombiner, None)
      == Ok(TableConfig(vocabularySize, dim, "mean", None))
  {
  }

  datatype FeatureConfig = FeatureConfig(table: TableConfig, maxSequenceLength: int, name: Option<string>)

  /** What every successfully constructed feature satisfies. */
  predicate ValidFeature(f: FeatureConfig)
  {
    ValidTable(f.table) && 0 <= f.maxSequenceLength
  }

  /**
   * `FeatureConfig(table, max_sequence_length, name)`: only a negative
   * sequence length is refused; the table's own type check is Dafny's typing.
   */
  function NewFeatureConfig(table: TableConfig, maxSequenceLength: int, name: Option<string>)
    : (r: Result<FeatureConfig, ConfigError>)
    ensures r.Ok? <==> 0 <= maxSequenceLength
    ensures r.Ok? ==> r.value == FeatureConfig(table, maxSequenceLength, name)
    ensures r.Err? ==> r.error == InvalidMaxSequenceLength(maxSequenceLength)
    ensures r.Ok? && ValidTable(table) ==> ValidFeature(r.value)
  {
    if maxSequenceLength < 0 then Err(InvalidMaxSequenceLength(maxSequenceLength))
    else Ok(FeatureConfig(table, maxSequenceLength, name))
  }

  /** The default `max_sequence_length=0` is always accepted. */
  lemma DefaultFeatureConfigAccepted(table: TableConfig, name: Option<string>)
    ensures NewFeatureConfig(table, DefaultMaxSequenceLength, name) == Ok(FeatureConfig(table, 0, name))
  {
  }

  // ---------------------------------------------------------------------------
  // Table de-duplication in the EmbeddingFeatures constructor
  // ---------------------------------------------------------------------------

  /** The name of the table that the `i`-th feature uses. */
  function TableName(featureConfig: seq<(string, FeatureConfig)>, i: int): Option<string>
    requires 0 <= i < |featureConfig|
  {
    featureConfig[i].1.table.name
  }

  /** Some feature uses a table called `n`. */
  predicate HasTableNamed(featureConfig: seq<(string, FeatureConfig)>, n: Option<string>)
  {
    exists i :: 0 <= i < |featureConfig| && TableName(featureConfig, i) == n
  }

  /** No feature before the `i`-th uses a table with the `i`-th one's name. */
  predicate FirstWithName(featureConfig: seq<(string, FeatureConfig)>, i: int)
    requires 0 <= i < |featureConfig|
  {
    forall j :: 0 <= j < i ==> TableName(featureConfig, j) != TableName(featureConfig, i)
  }

  /**
   * The `tables` dict after the first loop of the constructor has read the
   * given features: a table is recorded only under a name not seen yet.
   */
  function FirstTables(featureConfig: seq<(string, FeatureConfig)>): seq<(Option<string>, TableConfig)>
  {
    if featureConfig == [] then []
    else
      var tables := FirstTables(featureConfig[..|featureConfig| - 1]);
      var table := featureConfig[|featureConfig| - 1].1.table;
      if Contains(tables, table.name) then tables else Put(tables, table.name, table)
  }

  /** Each table name is recorded once. */
  lemma {:induction false} FirstTablesDistinct(featureConfig: seq<(string, FeatureConfig)>)
    ensures DistinctKeys(FirstTables(featureConfig))
  {
    if featureConfig != [] {
      var prefix := featureConfig[..|featureConfig| - 1];
      var table := featureConfig[|featureConfig| - 1].1.table;
      FirstTablesDistinct(prefix);
      if !Contains(FirstTables(prefix), table.name) {
        AppendDistinct(FirstTables(prefix), table.name, table);
      }
    }
  }

  /** The recorded names are exactly the table names the features use. */
  lemma {:induction false} FirstTablesKeys(featureConfig: seq<(string, FeatureConfig)>, n: Option<string>)
    ensures Contains(FirstTables(featureConfig), n) <==> HasTableNamed(featureConfig, n)
  {
    if featureConfig != [] {
      var last := |featureConfig| - 1;
      var prefix := featureConfig[..last];
      var tables := FirstTables(prefix);
      var table := featureConfig[last].1.table;
      FirstTablesKeys(prefix, n);
      AppendContains(tables, table.name, table, n);
      assert HasTableNamed(featureConfig, n) <==> HasTableNamed(prefix, n) || table.name == n by {
        if HasTableNamed(featureConfig, n) && table.name != n {
          var i :| 0 <= i < |featureConfig| && TableName(featureConfig, i) == n;
          assert TableName(prefix, i) == n;
        }
        if HasTableNamed(prefix, n) {
          var i :| 0 <= i < |prefix| && TableName(prefix, i) == n;
          assert TableName(featureConfig, i) == n;
        }
        if table.name == n {
          assert TableName(featureConfig, last) == n;
        }
      }
    }
  }

  /** Every name maps to the table of the first feature that uses it. */
  lemma {:induction false} FirstTablesFirst(featureConfig: seq<(string, FeatureConfig)>, i: int)
    requires 0 <= i < |featureConfig|
    requires FirstWithName(featureConfig, i)
    ensures Get(FirstTables(featureConfig), TableName(featureConfig, i)) == Some(featureConfig[i].1.table)
  {
    var last := |featureConfig| - 1;
    var prefix := featureConfig[..last];
    var tables := FirstTables(prefix);
    var table := featureConfig[last].1.table;
    var n := TableName(featureConfig, i);
    if i == last {
      FirstTablesKeys(prefix, n);
      forall j | 0 <= j < |prefix| ensures TableName(prefix, j) != n {
        assert TableName(prefix, j) == TableName(featureConfig, j);
      }
      PutGet(tables, n, table, n);
    } else {
      assert TableName(prefix, i) == n;
      assert FirstWithName(prefix, i) by {
        forall j | 0 <= j < i ensures TableName(prefix, j) != n {
          assert TableName(prefix, j) == TableName(featureConfig, j);
        }
      }
      FirstTablesFirst(prefix, i);
      if !Contains(tables, table.name) {
        PutGet(tables, table.name, table, n);
      }
    }
  }

  /**
   * The first loop of the constructor: `tables[table.name] = table` for every
   * feature whose table name has not been seen yet.
   */
  method DedupTables(featureConfig: seq<(string, FeatureConfig)>) returns (tables: seq<(Option<string>, TableConfig)>)
    ensures tables == FirstTables(featureConfig)
    ensures |tables| <= |featureConfig|
    ensures DistinctKeys(tables)
    ensures forall n :: Contains(tables, n) <==> HasTableNamed(featureConfig, n)
    ensures forall i :: 0 <= i < |featureConfig| && FirstWithName(featureConfig, i) ==>
      Get(tables, TableName(featureConfig, i)) == Some(featureConfig[i].1.table)
  {
    tables := [];
    var i := 0;
    while i < |featureConfig|
      invariant 0 <= i <= |featureConfig|
      invariant tables == FirstTables(featureConfig[..i])
      invariant |tables| <= i
    {
      var table := featureConfig[i].1.table;
      if !Contains(tables, table.name) {
        tables := Put(tables, table.name, table);
      }
      assert featureConfig[..i + 1][..i] == featureConfig[..i];
      i := i + 1;
    }
    assert featureConfig[..i] == featureConfig;
    FirstTablesDistinct(featureConfig);
    forall n ensures Contains(tables, n) <==> HasTableNamed(featureConfig, n) {
      FirstTablesKeys(featureConfig, n);
    }
    forall i | 0 <= i < |featureConfig| && FirstWithName(featureConfig, i)
      ensures Get(tables, TableName(featureConfig, i)) == Some(featureConfig[i].1.table)
    {
      FirstTablesFirst(featureConfig, i);
    }
  }

  /**
   * What the model records of a `torch.nn.EmbeddingBag`: its vocabulary size,
   * its embedding width and its pooling mode.
   */
  datatype EmbeddingBag = EmbeddingBag(numEmbeddings: int, embeddingDim: int, mode: string)

  function EmbeddingBagFor(table: TableConfig): EmbeddingBag
  {
    EmbeddingBag(table.vocabularySize, table.dim, table.combiner)
  }

  /** The embedding tables built from `tables`: one per entry, under the same name and in the same order. */
  function Bags(tables: seq<(Option<string>, TableConfig)>): (bags: seq<(Option<string>, EmbeddingBag)>)
    ensures |bags| == |tables|
    ensures Keys(bags) == Keys(tables)
  {
    seq(|tables|, i requires 0 <= i < |tables| => (tables[i].0, EmbeddingBagFor(tables[i].1)))
  }

  /** Built from a dict, the embedding tables form a dict with the same keys, each table under its own name. */
  lemma BagsLookup(tables: seq<(Option<string>, TableConfig)>)
    requires DistinctKeys(tables)
    ensures DistinctKeys(Bags(tables))
    ensures forall n :: Contains(Bags(tables), n) <==> Contains(tables, n)
    ensures forall n :: Contains(tables, n) ==> Get(Bags(tables), n) == Some(EmbeddingBagFor(Get(tables, n).value))
  {
    var bags := Bags(tables);
    forall i, j | 0 <= i < j < |bags| ensures bags[i].0 != bags[j].0 {
      assert tables[i].0 != tables[j].0;
    }
    forall n ensures Contains(bags, n) <==> Contains(tables, n) {
      if Contains(bags, n) {
        var j :| 0 <= j < |bags| && bags[j].0 == n;
        assert tables[j].0 == n;
      }
      if Contains(tables, n) {
        var j :| 0 <= j < |tables| && tables[j].0 == n;
        assert bags[j].0 == n;
      }
    }
    forall n | Contains(tables, n) ensures Get(bags, n) == Some(EmbeddingBagFor(Get(tables, n).value)) {
      var j :| 0 <= j < |tables| && tables[j].0 == n;
      GetAt(tables, j);
      GetAt(bags, j);
    }
  }

  /**
   * The tables the constructor ends with: a dict keyed by exactly the table
   * names the features use, each name holding the table of the first feature
   * that uses it.
   */
  lemma EmbeddingTablesOf(featureConfig: seq<(string, FeatureConfig)>)
    ensures DistinctKeys(Bags(FirstTables(featureConfig)))
    ensures forall n :: Contains(Bags(FirstTables(featureConfig)), n) <==> HasTableNamed(featureConfig, n)
    ensures forall i :: 0 <= i < |featureConfig| && FirstWithName(featureConfig, i) ==>
      Get(Bags(FirstTables(featureConfig)), TableName(featureConfig, i)) == Some(EmbeddingBagFor(featureConfig[i].1.table))
  {
    var tables := FirstTables(featureConfig);
    FirstTablesDistinct(featureConfig);
    BagsLookup(tables);
    forall n ensures Contains(tables, n) <==> HasTableNamed(featureConfig, n) {
      FirstTablesKeys(featureConfig, n);
    }
    forall i | 0 <= i < |featureConfig| && FirstWithName(featureConfig, i)
      ensures Get(tables, TableName(featureConfig, i)) == Some(featureConfig[i].1.table)
    {
      FirstTablesFirst(featureConfig, i);
    }
  }

  /**
   * The second loop of the constructor: one embedding table per entry of
   * `tables`, under the same name and in the same order.
   */
  method BuildEmbeddingTables(tables: seq<(Option<string>, TableConfig)>)
    returns (bags: seq<(Option<string>, EmbeddingBag)>)
    requires DistinctKeys(tables)
    ensures bags == Bags(tables)
    ensures DistinctKeys(bags)
    ensures forall n :: Contains(bags, n) <==> Contains(tables, n)
    ensures forall n :: Contains(tables, n) ==> Get(bags, n) == Some(EmbeddingBagFor(Get(tables, n).value))
  {
    bags := [];
    var i := 0;
    while i < |tables|
      invariant 0 <= i <= |tables|
      invariant bags == Bags(tables)[..i]
    {
      var (name, table) := tables[i];
      assert !Contains(bags, name);
      bags := Put(bags, name, EmbeddingBagFor(table));
      assert bags == Bags(tables)[..i + 1];
      i := i + 1;
    }
    assert bags == Bags(tables);
    BagsLookup(tables);
  }

  // ---------------------------------------------------------------------------
  // from_column_group: sizes and feature configurations
  // ---------------------------------------------------------------------------

  /**
   * The sizes derived from cardinalities when sizes are not inferred: each
   * column keeps its cardinality and takes its width from `embeddingDims`,
   * or the default width when it has no entry there.
   */
  function SizesFromCardinalities(cardinalities: seq<(string, int)>, embeddingDims: seq<(string, int)>, defaultEmbeddingDim: int)
    : seq<(string, (int, int))>
  {
    seq(|cardinalities|, i requires 0 <= i < |cardinalities| =>
      (cardinalities[i].0, (cardinalities[i].1, GetOr(embeddingDims, cardinalities[i].0, defaultEmbeddingDim))))
  }

  /** A missing or empty `embedding_dims` stands for the empty dict. */
  function DimsOrEmpty(embeddingDims: Option<seq<(string, int)>>): seq<(string, int)>
  {
    match embeddingDims
    case None => []
    case Some(dims) => dims
  }

  /** The `sizes` dict `from_column_group` goes on with. */
  function ResolvedSizes(inferEmbeddingSizes: bool, embeddingSizes: seq<(string, (int, int))>,
                         cardinalities: seq<(string, int)>, embeddingDims: Option<seq<(string, int)>>,
                         defaultEmbeddingDim: int): seq<(string, (int, int))>
  {
    if inferEmbeddingSizes then embeddingSizes
    else SizesFromCardinalities(cardinalities, DimsOrEmpty(embeddingDims), defaultEmbeddingDim)
  }

  /** The derived sizes are keyed like `cardinalities`, so they form a dict too. */
  lemma SizesDistinct(cardinalities: seq<(string, int)>, embeddingDims: seq<(string, int)>, defaultEmbeddingDim: int)
    requires DistinctKeys(cardinalities)
    ensures DistinctKeys(SizesFromCardinalities(cardinalities, embeddingDims, defaultEmbeddingDim))
  {
    var sizes := SizesFromCardinalities(cardinalities, embeddingDims, defaultEmbeddingDim);
    forall i, j | 0 <= i < j < |sizes| ensures sizes[i].0 != sizes[j].0 {
      assert cardinalities[i].0 != cardinalities[j].0;
    }
  }

  /** Looked up by column, the derived sizes pair the cardinality with the chosen width. */
  lemma SizesLookup(cardinalities: seq<(string, int)>, embeddingDims: seq<(string, int)>, defaultEmbeddingDim: int, k: string)
    requires DistinctKeys(cardinalities)
    ensures Get(SizesFromCardinalities(cardinalities, embeddingDims, defaultEmbeddingDim), k)
            == match Get(cardinalities, k)
               case None => None
               case Some(c) => Some((c, GetOr(embeddingDims, k, defaultEmbeddingDim)))
  {
    var sizes := SizesFromCardinalities(cardinalities, embeddingDims, defaultEmbeddingDim);
    SizesDistinct(cardinalities, embeddingDims, defaultEmbeddingDim);
    if Contains(cardinalities, k) {
      var i :| 0 <= i < |cardinalities| && cardinalities[i].0 == k;
      GetAt(cardinalities, i);
      GetAt(sizes, i);
    }
  }

  /**
   * Lines 96-105 of `from_column_group`: take the inferred sizes, or build
   * `sizes[key] = (cardinality, embedding_dims.get(key, default_embedding_dim))`
   * for every column of `cardinalities`, in order.
   */
  method ResolveSizes(inferEmbeddingSizes: bool, embeddingSizes: seq<(string, (int, int))>,
                      cardinalities: seq<(string, int)>, embeddingDims: Option<seq<(string, int)>>,
                      defaultEmbeddingDim: int)
    returns (sizes: seq<(string, (int, int))>)
    requires DistinctKeys(embeddingSizes) && DistinctKeys(cardinalities)
    ensures sizes == ResolvedSizes(inferEmbeddingSizes, embeddingSizes, cardinalities, embeddingDims, defaultEmbeddingDim)
    ensures DistinctKeys(sizes)
    ensures !inferEmbeddingSizes ==> Keys(sizes) == Keys(cardinalities)
    ensures !inferEmbeddingSizes ==> forall i :: 0 <= i < |sizes| ==> sizes[i].1.0 == cardinalities[i].1
    ensures !inferEmbeddingSizes && DimsOrEmpty(embeddingDims) == [] ==>
      forall i :: 0 <= i < |sizes| ==> sizes[i].1.1 == defaultEmbeddingDim
  {
    if inferEmbeddingSizes {
      sizes := embeddingSizes;
      return;
    }
    var dims := DimsOrEmpty(embeddingDims);
    ghost var spec := SizesFromCardinalities(cardinalities, dims, defaultEmbeddingDim);
    sizes := [];
    var i := 0;
    while i < |cardinalities|
      invariant 0 <= i <= |cardinalities|
      invariant sizes == spec[..i]
    {
      var (key, cardinality) := cardinalities[i];
      var embeddingSize := GetOr(dims, key, defaultEmbeddingDim);
      assert !Contains(sizes, key);
      sizes := Put(sizes, key, (cardinality, embeddingSize));
      assert sizes == spec[..i + 1];
      i := i + 1;
    }
    assert sizes == spec;
    SizesDistinct(cardinalities, dims, defaultEmbeddingDim);
  }

  /**
   * The defaults of `from_column_group`: the column group's own embedding
   * sizes are taken as given; without them, every column gets width 64, and
   * the default combiner accepts every entry with positive sizes.
   */
  lemma ColumnGroupDefaults(embeddingSizes: seq<(string, (int, int))>, cardinalities: seq<(string, int)>, size: (int, int))
    ensures ResolvedSizes(DefaultInferEmbeddingSizes, embeddingSizes, cardinalities, None, DefaultEmbeddingDim) == embeddingSizes
    ensures var sizes := ResolvedSizes(false, embeddingSizes, cardinalities, None, DefaultEmbeddingDim);
      && |sizes| == |cardinalities|
      && forall i :: 0 <= i < |sizes| ==> sizes[i] == (cardinalities[i].0, (cardinalities[i].1, 64))
    ensures EntryOk(size, DefaultCombiner) <==> 1 <= size.0 && 1 <= size.1
  {
  }

  /** The feature configuration `from_column_group` builds for one entry of `sizes`. */
  function EntryConfig(name: string, size: (int, int), combiner: string): FeatureConfig
  {
    FeatureConfig(TableConfig(size.0, size.1, combiner, Some(name)), DefaultMaxSequenceLength, None)
  }

  /** The entry can be built: positive sizes and an accepted combiner. */
  predicate EntryOk(size: (int, int), combiner: string)
  {
    1 <= size.0 && 1 <= size.1 && ValidCombiner(combiner)
  }

  /**
   * `FeatureConfig(TableConfig(vocabulary_size=vocab_size, dim=dim, name=name,
   * combiner=combiner))` for one entry.
   */
  function FeatureConfigFor(name: string, size: (int, int), combiner: string): (r: Result<FeatureConfig, ConfigError>)
    ensures r.Ok? <==> EntryOk(size, combiner)
    ensures r.Ok? ==> r.value == EntryConfig(name, size, combiner) && ValidFeature(r.value)
    ensures r.Err? ==> NewTableConfig(size.0, size.1, combiner, Some(name)) == Err(r.error)
  {
    match NewTableConfig(size.0, size.1, combiner, Some(name))
    case Err(e) => Err(e)
    case Ok(table) => NewFeatureConfig(table, DefaultMaxSequenceLength, None)
  }

  /**
   * The `feature_config` dict after the loop of lines 107-116 has read the
   * given entries of `sizes`, or the error of the first entry that failed.
   */
  function FeatureConfigsOf(sizes: seq<(string, (int, int))>, combiner: string)
    : Result<seq<(string, FeatureConfig)>, ConfigError>
  {
    if sizes == [] then Ok([])
    else
      var last := sizes[|sizes| - 1];
      match FeatureConfigsOf(sizes[..|sizes| - 1], combiner)
      case Err(e) => Err(e)
      case Ok(featureConfig) =>
        match FeatureConfigFor(last.0, last.1, combiner)
        case Err(e) => Err(e)
        case Ok(feature) => Ok(Put(featureConfig, last.0, feature))
  }

  /** Every entry of `sizes` can be built. */
  predicate Buildable(sizes: seq<(string, (int, int))>, combiner: string)
  {
    forall i :: 0 <= i < |sizes| ==> EntryOk(sizes[i].1, combiner)
  }

  /** Entry `i` is the first of `sizes` that cannot be built. */
  predicate FirstBadEntry(sizes: seq<(string, (int, int))>, combiner: string, i: int)
  {
    && 0 <= i < |sizes|
    && !EntryOk(sizes[i].1, combiner)
    && forall j :: 0 <= j < i ==> EntryOk(sizes[j].1, combiner)
  }

  /** Once a prefix of `sizes` fails, the whole loop fails with that error. */
  lemma {:induction false} FeatureConfigsErrPersists(sizes: seq<(string, (int, int))>, combiner: string, n: int)
    requires 0 <= n <= |sizes|
    requires FeatureConfigsOf(sizes[..n], combiner).Err?
    ensures FeatureConfigsOf(sizes, combiner) == FeatureConfigsOf(sizes[..n], combiner)
    decreases |sizes| - n
  {
    if n == |sizes| {
      assert sizes[..n] == sizes;
    } else {
      var longer := sizes[..n + 1];
      assert longer[..n] == sizes[..n];
      assert FeatureConfigsOf(longer, combiner) == FeatureConfigsOf(sizes[..n], combiner);
      FeatureConfigsErrPersists(sizes, combiner, n + 1);
    }
  }

  /**
   * The loop succeeds exactly when every entry can be built, and then holds
   * one configuration per entry, under the entry's key and in its order.
   */
  lemma {:induction false} FeatureConfigsOk(sizes: seq<(string, (int, int))>, combiner: string)
    requires DistinctKeys(sizes)
    ensures FeatureConfigsOf(sizes, combiner).Ok? <==> Buildable(sizes, combiner)
    ensures FeatureConfigsOf(sizes, combiner).Ok? ==>
      var featureConfig := FeatureConfigsOf(sizes, combiner).value;
      && |featureConfig| == |sizes|
      && forall i :: 0 <= i < |sizes| ==>
           featureConfig[i] == (sizes[i].0, EntryConfig(sizes[i].0, sizes[i].1, combiner))
  {
    if sizes != [] {
      var last := |sizes| - 1;
      var prefix := sizes[..last];
      assert DistinctKeys(prefix) by {
        forall i, j | 0 <= i < j < |prefix| ensures prefix[i].0 != prefix[j].0 {
          assert prefix[i] == sizes[i] && prefix[j] == sizes[j];
        }
      }
      FeatureConfigsOk(prefix, combiner);
      assert Buildable(sizes, combiner) <==> Buildable(prefix, combiner) && EntryOk(sizes[last].1, combiner) by {
        if Buildable(prefix, combiner) && EntryOk(sizes[last].1, combiner) {
          forall i | 0 <= i < |sizes| ensures EntryOk(sizes[i].1, combiner) {
            if i < last {
              assert sizes[i] == prefix[i];
            }
          }
        }
        if Buildable(sizes, combiner) {
          forall i | 0 <= i < |prefix| ensures EntryOk(prefix[i].1, combiner) {
            assert sizes[i] == prefix[i];
          }
        }
      }
      match FeatureConfigsOf(prefix, combiner)
      case Err(_) =>
      case Ok(featureConfig) =>
        assert !Contains(featureConfig, sizes[last].0);
    }
  }

  /** A failing loop reports the error of the first entry that cannot be built. */
  lemma {:induction false} FeatureConfigsFirstError(sizes: seq<(string, (int, int))>, combiner: string)
    ensures FeatureConfigsOf(sizes, combiner).Err? ==>
      exists i ::
        && FirstBadEntry(sizes, combiner, i)
        && NewTableConfig(sizes[i].1.0, sizes[i].1.1, combiner, Some(sizes[i].0))
           == Err(FeatureConfigsOf(sizes, combiner).error)
  {
    if sizes != [] {
      var last := |sizes| - 1;
      var prefix := sizes[..last];
      FeatureConfigsFirstError(prefix, combiner);
      match FeatureConfigsOf(prefix, combiner)
      case Err(e) =>
        var i :| FirstBadEntry(prefix, combiner, i)
              && NewTableConfig(prefix[i].1.0, prefix[i].1.1, combiner, Some(prefix[i].0)) == Err(e);
        assert prefix[i] == sizes[i];
        assert FirstBadEntry(sizes, combiner, i) by {
          forall j | 0 <= j < i ensures EntryOk(sizes[j].1, combiner) {
            assert prefix[j] == sizes[j];
          }
        }
      case Ok(_) =>
        FeatureConfigsPrefixOk(prefix, combiner);
        assert FirstBadEntry(sizes, combiner, last) || FeatureConfigsOf(sizes, combiner).Ok? by {
          forall j | 0 <= j < last ensures EntryOk(sizes[j].1, combiner) {
            assert prefix[j] == sizes[j];
          }
        }
    }
  }

  /** A successful loop has built every entry it read. */
  lemma {:induction false} FeatureConfigsPrefixOk(sizes: seq<(string, (int, int))>, combiner: string)
    requires FeatureConfigsOf(sizes, combiner).Ok?
    ensures Buildable(sizes, combiner)
  {
    if sizes != [] {
      var last := |sizes| - 1;
      var prefix := sizes[..last];
      FeatureConfigsPrefixOk(prefix, combiner);
      forall i | 0 <= i < |sizes| ensures EntryOk(sizes[i].1, combiner) {
        if i < last {
          assert sizes[i] == prefix[i];
        }
      }
    }
  }

  /**
   * Lines 107-116 of `from_column_group`: one `FeatureConfig` per entry of
   * `sizes`, stopping at the first `ValueError`.
   */
  method BuildFeatureConfigs(sizes: seq<(string, (int, int))>, combiner: string)
    returns (r: Result<seq<(string, FeatureConfig)>, ConfigError>)
    requires DistinctKeys(sizes)
    ensures r == FeatureConfigsOf(sizes, combiner)
    ensures r.Ok? <==> Buildable(sizes, combiner)
    ensures r.Ok? ==> |r.value| == |sizes| && DistinctKeys(r.value)
    ensures r.Ok? ==> forall i :: 0 <= i < |sizes| ==>
      r.value[i] == (sizes[i].0, EntryConfig(sizes[i].0, sizes[i].1, combiner))
    ensures r.Err? ==> exists i ::
      && FirstBadEntry(sizes, combiner, i)
      && NewTableConfig(sizes[i].1.0, sizes[i].1.1, combiner, Some(sizes[i].0)) == Err(r.error)
  {
    var featureConfig := [];
    var i := 0;
    while i < |sizes|
      invariant 0 <= i <= |sizes|
      invariant FeatureConfigsOf(sizes[..i], combiner) == Ok(featureConfig)
    {
      var (name, size) := sizes[i];
      assert sizes[..i + 1][..i] == sizes[..i];
      var table := NewTableConfig(size.0, size.1, combiner, Some(name));
      if table.Err? {
        FeatureConfigsErrPersists(sizes, combiner, i + 1);
        r := Err(table.error);
        FeatureConfigsOk(sizes, combiner);
        FeatureConfigsFirstError(sizes, combiner);
        return;
      }
      var feature := NewFeatureConfig(table.value, DefaultMaxSequenceLength, None);
      featureConfig := Put(featureConfig, name, feature.value);
      i := i + 1;
    }
    assert sizes[..i] == sizes;
    r := Ok(featureConfig);
    FeatureConfigsOk(sizes, combiner);
    assert DistinctKeys(r.value) by {
      forall p, q | 0 <= p < q < |r.value| ensures r.value[p].0 != r.value[q].0 {
        assert r.value[p].0 == sizes[p].0 && r.value[q].0 == sizes[q].0;
      }
    }
  }

  /** Every feature's table is named after the feature itself, as in `from_column_group`. */
  predicate OwnTableNames(featureConfig: seq<(string, FeatureConfig)>)
  {
    forall i :: 0 <= i < |featureConfig| ==> TableName(featureConfig, i) == Some(featureConfig[i].0)
  }

  /** One table per feature, under the feature's name, in feature order. */
  function OwnTables(featureConfig: seq<(string, FeatureConfig)>): seq<(Option<string>, TableConfig)>
  {
    seq(|featureConfig|, i requires 0 <= i < |featureConfig| => (Some(featureConfig[i].0), featureConfig[i].1.table))
  }

  /**
   * When every table is named after its (distinct) feature, de-duplication
   * keeps every table: one per feature, in feature order.
   */
  lemma {:induction false} FirstTablesOwnNames(featureConfig: seq<(string, FeatureConfig)>)
    requires DistinctKeys(featureConfig) && OwnTableNames(featureConfig)
    ensures FirstTables(featureConfig) == OwnTables(featureConfig)
  {
    if featureConfig != [] {
      var last := |featureConfig| - 1;
      var prefix := featureConfig[..last];
      var table := featureConfig[last].1.table;
      assert DistinctKeys(prefix) by {
        forall i, j | 0 <= i < j < |prefix| ensures prefix[i].0 != prefix[j].0 {
          assert prefix[i] == featureConfig[i] && prefix[j] == featureConfig[j];
        }
      }
      assert OwnTableNames(prefix) by {
        forall i | 0 <= i < |prefix| ensures TableName(prefix, i) == Some(prefix[i].0) {
          assert prefix[i] == featureConfig[i];
        }
      }
      FirstTablesOwnNames(prefix);
      var tables := OwnTables(prefix);
      assert table.name == Some(featureConfig[last].0);
      assert !Contains(tables, table.name) by {
        forall j | 0 <= j < |tables| ensures tables[j].0 != table.name {
          assert prefix[j] == featureConfig[j];
        }
      }
      assert tables + [(table.name, table)] == OwnTables(featureConfig);
    }
  }

  /**
   * The modules `from_column_group` builds: the embedding tables are exactly
   * one per entry of `sizes`, in order, named after the entry's column, with
   * its vocabulary size, width and the combiner. So every feature finds its
   * embedding table under its own name, and no other table exists.
   */
  lemma ColumnGroupTables(sizes: seq<(string, (int, int))>, combiner: string)
    requires DistinctKeys(sizes)
    requires FeatureConfigsOf(sizes, combiner).Ok?
    ensures var featureConfig := FeatureConfigsOf(sizes, combiner).value;
      var bags := Bags(FirstTables(featureConfig));
      && |bags| == |sizes|
      && (forall i :: 0 <= i < |sizes| ==>
            bags[i] == (Some(sizes[i].0), EmbeddingBag(sizes[i].1.0, sizes[i].1.1, combiner)))
      && (forall n :: Contains(bags, n) ==> n.Some? && Contains(featureConfig, n.value))
      && (forall k :: Contains(featureConfig, k) ==> Contains(bags, Some(k)))
  {
    var featureConfig := FeatureConfigsOf(sizes, combiner).value;
    FeatureConfigsOk(sizes, combiner);
    assert DistinctKeys(featureConfig) by {
      forall p, q | 0 <= p < q < |featureConfig| ensures featureConfig[p].0 != featureConfig[q].0 {
        assert featureConfig[p].0 == sizes[p].0 && featureConfig[q].0 == sizes[q].0;
      }
    }
    assert OwnTableNames(featureConfig) by {
      forall i | 0 <= i < |featureConfig| ensures TableName(featureConfig, i) == Some(featureConfig[i].0) {
        assert featureConfig[i] == (sizes[i].0, EntryConfig(sizes[i].0, sizes[i].1, combiner));
      }
    }
    FirstTablesOwnNames(featureConfig);
    var bags := Bags(FirstTables(featureConfig));
    forall i | 0 <= i < |sizes|
      ensures bags[i] == (Some(sizes[i].0), EmbeddingBag(sizes[i].1.0, sizes[i].1.1, combiner))
    {
      assert featureConfig[i] == (sizes[i].0, EntryConfig(sizes[i].0, sizes[i].1, combiner));
    }
    forall n | Contains(bags, n) ensures n.Some? && Contains(featureConfig, n.value) {
      var j :| 0 <= j < |bags| && bags[j].0 == n;
      assert featureConfig[j].0 == n.value;
    }
    forall k | Contains(featureConfig, k) ensures Contains(bags, Some(k)) {
      var j :| 0 <= j < |featureConfig| && featureConfig[j].0 == k;
      assert bags[j].0 == Some(k);
    }
  }

  // ---------------------------------------------------------------------------
  // EmbeddingFeatures
  // ---------------------------------------------------------------------------

  class EmbeddingFeatures {
    /** The feature -> configuration dict the module was built from. */
    const featureConfig: seq<(string, FeatureConfig)>
    /** The feature names the module keeps from its inputs, in order. */
    const filterFeatures: seq<string>
    /** One embedding table per distinct table name. */
    const embeddingTables: seq<(Option<string>, EmbeddingBag)>

    /**
     * What the constructor leaves behind: the features form a dict, the filter
     * keeps exactly their names, and the embedding tables are those built from
     * the de-duplicated table configurations.
     */
    ghost predicate Valid()
    {
      && DistinctKeys(featureConfig)
      && filterFeatures == Keys(featureConfig)
      && embeddingTables == Bags(FirstTables(featureConfig))
    }

    /**
     * `EmbeddingFeatures(feature_config)`: records the features, and builds one
     * embedding table per table name, from the first feature using that name.
     */
    constructor (featureConfig: seq<(string, FeatureConfig)>)
      requires DistinctKeys(featureConfig)
      ensures Valid()
      ensures this.featureConfig == featureConfig
      ensures filterFeatures == Keys(featureConfig)
      ensures forall n :: Contains(embeddingTables, n) <==> HasTableNamed(featureConfig, n)
      ensures forall i :: 0 <= i < |featureConfig| && FirstWithName(featureConfig, i) ==>
        Get(embeddingTables, TableName(featureConfig, i)) == Some(EmbeddingBagFor(featureConfig[i].1.table))
    {
      this.featureConfig := featureConfig;
      filterFeatures := Keys(featureConfig);
      var tables := DedupTables(featureConfig);
      var bags := BuildEmbeddingTables(tables);
      embeddingTables := bags;
      new;
      EmbeddingTablesOf(featureConfig);
    }

    /**
     * `from_column_group` after the optional tag filter: None when there are
     * no sizes, the first `ValueError` when an entry cannot be built, a new
     * module over one feature per entry otherwise.
     */
    static method FromColumnGroup(inferEmbeddingSizes: bool, embeddingSizes: seq<(string, (int, int))>,
                                  cardinalities: seq<(string, int)>, embeddingDims: Option<seq<(string, int)>>,
                                  defaultEmbeddingDim: int, combiner: string)
      returns (r: Result<Option<EmbeddingFeatures>, ConfigError>)
      requires DistinctKeys(embeddingSizes) && DistinctKeys(cardinalities)
      ensures var sizes := ResolvedSizes(inferEmbeddingSizes, embeddingSizes, cardinalities, embeddingDims, defaultEmbeddingDim);
        && (r == Ok(None) <==> sizes == [])
        && (r.Err? <==> !Buildable(sizes, combiner))
        && (r.Err? ==> FeatureConfigsOf(sizes, combiner) == Err(r.error))
        && (r.Ok? && r.value.Some? ==>
              && fresh(r.value.value)
              && r.value.value.Valid()
              && FeatureConfigsOf(sizes, combiner) == Ok(r.value.value.featureConfig)
              && |r.value.value.embeddingTables| == |sizes|
              && (forall i :: 0 <= i < |sizes| ==>
                    r.value.value.embeddingTables[i]
                    == (Some(sizes[i].0), EmbeddingBag(sizes[i].1.0, sizes[i].1.1, combiner)))
              && (forall k :: Contains(r.value.value.featureConfig, k) <==>
                    Contains(r.value.value.embeddingTables, Some(k)))
              && (forall n :: Contains(r.value.value.embeddingTables, n) ==> n.Some?))
    {
      var sizes := ResolveSizes(inferEmbeddingSizes, embeddingSizes, cardinalities, embeddingDims, defaultEmbeddingDim);
      var featureConfig := BuildFeatureConfigs(sizes, combiner);
      if featureConfig.Err? {
        return Err(featureConfig.error);
      }
      if featureConfig.value == [] {
        return Ok(None);
      }
      var m := new EmbeddingFeatures(featureConfig.value);
      ColumnGroupTables(sizes, combiner);
      r := Ok(Some(m));
    }

    /**
     * `forward_output_size` before the base class post-processes it: every
     * feature, in order, with the shape `[batch_size, dim]` of its table.
     */
    method ForwardOutputSize(batchSize: int) returns (sizes: seq<(string, seq<int>)>)
      requires Valid()
      ensures |sizes| == |featureConfig|
      ensures Keys(sizes) == Keys(featureConfig)
      ensures forall i :: 0 <= i < |sizes| ==> sizes[i].1 == [batchSize, featureConfig[i].1.table.dim]
      ensures DistinctKeys(sizes)
    {
      sizes := [];
      var i := 0;
      while i < |featureConfig|
        invariant 0 <= i <= |featureConfig|
        invariant |sizes| == i
        invariant forall j :: 0 <= j < i ==> sizes[j] == (featureConfig[j].0, [batchSize, featureConfig[j].1.table.dim])
      {
        var (name, feature) := featureConfig[i];
        assert !Contains(sizes, name);
        sizes := Put(sizes, name, [batchSize, feature.table.dim]);
        i := i + 1;
      }
    }
  }
}
