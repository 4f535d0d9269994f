/**
 * The parts of the reverse-engineering `DatabaseReader` that do not talk
 * to the database: the strategy check of its constructor, the merge of the
 * per-table foreign-key maps into the one-to-many candidates, and the
 * schema selections it scans.
 *
 * A foreign key is kept abstract: the maps are generic in their values.
 */
module DatabaseReaders {
  import opened JavaLang

  /** `AvailableSettings.DEFAULT_SCHEMA` and `AvailableSettings.DEFAULT_CATALOG`. */
  const DefaultSchemaKey: string := "hibernate.default_schema"
  const DefaultCatalogKey: string := "hibernate.default_catalog"

  /** The message of the constructor's `IllegalStateException`. */
  const NullStrategyMessage: string := "Strategy cannot be null"

  // ---------------------------------------------------------------------
  // Multimaps
  // ---------------------------------------------------------------------

  /** The list a key ends up with when `src` is merged into `dest`. */
  function MergedEntry<V>(dest: map<string, seq<V>>, src: map<string, seq<V>>, key: string): seq<V>
    requires key in dest || key in src
  {
    if key in dest && key in src then dest[key] + src[key]
    else if key in dest then dest[key]
    else src[key]
  }

  /** The contents of `dest` after `mergeMultiMap(dest, src)`. */
  function Merged<V>(dest: map<string, seq<V>>, src: map<string, seq<V>>): (r: map<string, seq<V>>)
    // every key of either map is a key of the result
    ensures r.Keys == dest.Keys + src.Keys
    // a key new to dest takes src's list
    ensures forall key :: key in src && key !in dest ==> r[key] == src[key]
    // a key already in dest has src's list appended to its own
    ensures forall key :: key in src && key in dest ==> r[key] == dest[key] + src[key]
    // a key only in dest is left alone
    ensures forall key :: key in dest && key !in src ==> r[key] == dest[key]
  {
    map key | key in dest.Keys + src.Keys :: MergedEntry(dest, src, key)
  }

  /** Merging into an empty map copies the source. */
  lemma MergeIntoEmpty<V>(src: map<string, seq<V>>)
    ensures Merged(map[], src) == src
  {
    var r := Merged(map[], src);
    assert r.Keys == src.Keys;
    forall key | key in src
      ensures r[key] == src[key]
    {
    }
  }

  /** Merging an empty map changes nothing. */
  lemma MergeEmpty<V>(dest: map<string, seq<V>>)
    ensures Merged(dest, map[]) == dest
  {
    var r := Merged(dest, map[]);
    assert r.Keys == dest.Keys;
    forall key | key in dest
      ensures r[key] == dest[key]
    {
    }
  }

  /**
   * A `Map<String, List<V>>` that the reader updates in place. Lists are
   * values here: the list a key maps to is not shared with any other map.
   */
  class MultiMap<V> {
    var entries: map<string, seq<V>>

    constructor ()
      ensures entries == map[]
    {
      entries := map[];
    }

    /** `get`: the key's list, or null when the key is absent. */
    function Get(key: string): (r: Option<seq<V>>)
      reads this
      ensures r.Some? <==> key in entries
      ensures r.Some? ==> r.value == entries[key]
    {
      if key in entries then Some(entries[key]) else None
    }

    /** `put`: the key now maps to `values`, whatever it mapped to before. */
    method Put(key: string, values: seq<V>)
      modifies this
      ensures entries == old(entries)[key := values]
    {
      entries := entries[key := values];
    }

    /** `get(key).addAll(values)` on a key that is present. */
    method AddAll(key: string, values: seq<V>)
      requires key in entries
      modifies this
      ensures entries == old(entries)[key := old(entries)[key] + values]
    {
      entries := entries[key := entries[key] + values];
    }
  }

  /** The entries of `src` whose keys are not in `pending`. */
  function Visited<V>(src: map<string, seq<V>>, pending: set<string>): map<string, seq<V>>
  {
    map key | key in src && key !in pending :: src[key]
  }

  /**
   * `mergeMultiMap`: each entry of `src` is either put into `dest` (a new
   * key) or appended to the list `dest` already holds.
   */
  method MergeMultiMap<V>(dest: MultiMap<V>, src: map<string, seq<V>>)
    modifies dest
    ensures dest.entries == Merged(old(dest.entries), src)
  {
    ghost var initial := dest.entries;
    var items := src.Keys;
    assert Visited(src, items) == map[];
    MergeEmpty(initial);
    while items != {}
      invariant items <= src.Keys
      invariant dest.entries == Merged(initial, Visited(src, items))
      decreases items
    {
      var key :| key in items;
      ghost var before := dest.entries;
      var existing := dest.Get(key);
      if existing.None? {
        dest.Put(key, src[key]);
      } else {
        dest.AddAll(key, src[key]);
      }
      items := items - {key};
      MergeOneMore(initial, src, items, key, before, dest.entries);
    }
    assert Visited(src, items) == src;
  }

  /** One turn of the merge loop adds one entry of `src` to the merged prefix. */
  lemma MergeOneMore<V>(initial: map<string, seq<V>>, src: map<string, seq<V>>, pending: set<string>,
                        key: string, before: map<string, seq<V>>, after: map<string, seq<V>>)
    requires key in src && key !in pending
    requires before == Merged(initial, Visited(src, pending + {key}))
    requires after == before[key := if key in before then before[key] + src[key] else src[key]]
    ensures after == Merged(initial, Visited(src, pending))
  {
    var done := Visited(src, pending);
    var r := Merged(initial, done);
    assert after.Keys == r.Keys;
    forall k | k in r
      ensures after[k] == r[k]
    {
      if k != key {
        assert k in done <==> k in Visited(src, pending + {key});
      }
    }
  }

  // ---------------------------------------------------------------------
  // resolveForeignKeys
  // ---------------------------------------------------------------------

  /** The candidates after merging the per-table maps, in order, into an empty map. */
  function FoldMerge<V>(perTable: seq<map<string, seq<V>>>): map<string, seq<V>>
  {
    if |perTable| == 0 then map[]
    else Merged(FoldMerge(perTable[..|perTable| - 1]), perTable[|perTable| - 1])
  }

  /** The lists the tables hold under `key`, concatenated in table order. */
  function Collected<V>(perTable: seq<map<string, seq<V>>>, key: string): seq<V>
  {
    if |perTable| == 0 then []
    else
      var last := perTable[|perTable| - 1];
      Collected(perTable[..|perTable| - 1], key) + (if key in last then last[key] else [])
  }

  /**
   * The fold keeps exactly the keys some table mentions, and each key's
   * list is the tables' lists for it, concatenated in table order.
   */
  lemma {:induction false} FoldMergeCollects<V>(perTable: seq<map<string, seq<V>>>, key: string)
    ensures key in FoldMerge(perTable) <==> exists i :: 0 <= i < |perTable| && key in perTable[i]
    ensures key in FoldMerge(perTable) ==> FoldMerge(perTable)[key] == Collected(perTable, key)
  {
    if |perTable| > 0 {
      var front := perTable[..|perTable| - 1];
      var last := perTable[|perTable| - 1];
      FoldMergeCollects(front, key);
      assert FoldMerge(perTable) == Merged(FoldMerge(front), last);
      assert Collected(perTable, key) == Collected(front, key) + (if key in last then last[key] else []);
      if key in FoldMerge(front) {
        var i :| 0 <= i < |front| && key in front[i];
        assert key in perTable[i];
      } else {
        assert Collected(front, key) == [] by {
          CollectedOfAbsent(front, key);
        }
      }
      if exists i :: 0 <= i < |perTable| && key in perTable[i] {
        var i :| 0 <= i < |perTable| && key in perTable[i];
        if i < |front| {
          assert key in front[i];
        }
      }
    }
  }

  /** A key no table mentions collects nothing. */
  lemma {:induction false} CollectedOfAbsent<V>(perTable: seq<map<string, seq<V>>>, key: string)
    requires forall i :: 0 <= i < |perTable| ==> key !in perTable[i]
    ensures Collected(perTable, key) == []
  {
    if |perTable| > 0 {
      CollectedOfAbsent(perTable[..|perTable| - 1], key);
    }
  }

  /**
   * The merge loop of `resolveForeignKeys`, over the maps the foreign-key
   * processor returned for the tables, in table order.
   */
  method ResolveForeignKeys<V>(perTable: seq<map<string, seq<V>>>) returns (candidates: map<string, seq<V>>)
    ensures candidates == FoldMerge(perTable)
    ensures forall key :: key in candidates <==> exists i :: 0 <= i < |perTable| && key in perTable[i]
    ensures forall key :: key in candidates ==> candidates[key] == Collected(perTable, key)
  {
    var oneToManyCandidates := new MultiMap<V>();
    for i := 0 to |perTable|
      invariant oneToManyCandidates.entries == FoldMerge(perTable[..i])
    {
      MergeMultiMap(oneToManyCandidates, perTable[i]);
      assert perTable[..i + 1][..i] == perTable[..i];
    }
    assert perTable[..|perTable|] == perTable;
    candidates := oneToManyCandidates.entries;
    forall key
      ensures key in candidates <==> exists i :: 0 <= i < |perTable| && key in perTable[i]
      ensures key in candidates ==> candidates[key] == Collected(perTable, key)
    {
      FoldMergeCollects(perTable, key);
    }
  }

  // ---------------------------------------------------------------------
  // The reader
  // ---------------------------------------------------------------------

  /** A catalog / schema / table pattern to scan; null matches anything. */
  datatype SchemaSelection = SchemaSelection(
    matchCatalog: Option<string>,
    matchSchema: Option<string>,
    matchTable: Option<string>)

  /** What the reader asks of a `RevengStrategy`: its schema selections, possibly null. */
  datatype RevengStrategy = RevengStrategy(schemaSelections: Option<seq<SchemaSelection>>)

  /** The outcome of `DatabaseReader.create`. */
  datatype Creation =
    | Created(reader: DatabaseReader)
    | IllegalStateException(message: string)

  class DatabaseReader {
    const properties: map<string, PropertyValue>
    const strategy: RevengStrategy

    constructor (properties: map<string, PropertyValue>, strategy: RevengStrategy)
      ensures this.properties == properties && this.strategy == strategy
    {
      this.properties := properties;
      this.strategy := strategy;
    }

    /** `create`: a reader over the given strategy, which must not be null. */
    static method Create(properties: map<string, PropertyValue>, strategy: Option<RevengStrategy>)
      returns (r: Creation)
      ensures r.IllegalStateException? <==> strategy.None?
      ensures r.IllegalStateException? ==> r.message == NullStrategyMessage
      ensures r.Created? ==>
                fresh(r.reader) && r.reader.strategy == strategy.value && r.reader.properties == properties
    {
      if strategy.None? {
        r := IllegalStateException(NullStrategyMessage);
      } else {
        var reader := new DatabaseReader(properties, strategy.value);
        r := Created(reader);
      }
    }

    function DefaultSchema(): Option<string>
    {
      GetProperty(properties, DefaultSchemaKey)
    }

    function DefaultCatalog(): Option<string>
    {
      GetProperty(properties, DefaultCatalogKey)
    }

    /**
     * `getSchemaSelections`: the strategy's selections, or else the one
     * selection of the configured default catalog and schema, any table.
     */
    method GetSchemaSelections() returns (result: seq<SchemaSelection>)
      ensures strategy.schemaSelections.Some? ==> result == strategy.schemaSelections.value
      ensures strategy.schemaSelections.None? ==> |result| == 1
      ensures strategy.schemaSelections.None? ==> result[0] == SchemaSelection(
        GetProperty(properties, DefaultCatalogKey), GetProperty(properties, DefaultSchemaKey), None)
    {
      var selections := strategy.schemaSelections;
      if selections.None? {
        result := [SchemaSelection(DefaultCatalog(), DefaultSchema(), None)];
      } else {
        result := selections.value;
      }
    }
  }
}
