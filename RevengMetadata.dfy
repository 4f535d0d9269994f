/**
 * The property table of `RevengMetadataDescriptor`: the environment's
 * settings overridden by the supplied ones, a default for
 * `PREFER_BASIC_COMPOSITE_IDS`, the strategy fallback, and the copy that
 * `getProperties` hands out.
 */
module RevengMetadata {
  import opened JavaLang

  /** `MetadataConstants.PREFER_BASIC_COMPOSITE_IDS`. */
  const PreferBasicCompositeIds: string := "org.hibernate.cfg.JDBCBinder.preferBasicCompositeIds"

  /** A `java.util.Properties` object: a mutable table of settings. */
  class Properties {
    var table: map<string, PropertyValue>

    constructor ()
      ensures table == map[]
    {
      table := map[];
    }

    /** `get`: the raw value of a key, or null. */
    function Get(key: string): (r: Option<PropertyValue>)
      reads this
      ensures r.Some? <==> key in table
      ensures r.Some? ==> r.value == table[key]
    {
      if key in table then Some(table[key]) else None
    }

    method Put(key: string, value: PropertyValue)
      modifies this
      ensures table == old(table)[key := value]
    {
      table := table[key := value];
    }

    /** `putAll`: every entry of `other` is put, replacing what was there. */
    method PutAll(other: map<string, PropertyValue>)
      modifies this
      ensures table == old(table) + other
    {
      table := table + other;
    }
  }

  /** The environment's settings, overridden key by key by the supplied ones (if any). */
  function Overridden(environment: map<string, PropertyValue>, supplied: Option<map<string, PropertyValue>>)
    : (r: map<string, PropertyValue>)
    ensures supplied.None? ==> r == environment
    ensures supplied.Some? ==> r.Keys == environment.Keys + supplied.value.Keys
    ensures supplied.Some? ==> forall key :: key in supplied.value ==> r[key] == supplied.value[key]
    ensures supplied.Some? ==>
              forall key :: key in environment && key !in supplied.value ==> r[key] == environment[key]
  {
    if supplied.Some? then environment + supplied.value else environment
  }

  /** `PREFER_BASIC_COMPOSITE_IDS` set to true when it is absent; an explicit value stays. */
  function WithCompositeIdDefault(table: map<string, PropertyValue>): (r: map<string, PropertyValue>)
    ensures PreferBasicCompositeIds in r
    ensures PreferBasicCompositeIds in table ==> r == table
    ensures PreferBasicCompositeIds !in table ==> r[PreferBasicCompositeIds] == Flag(true)
    ensures forall key :: key != PreferBasicCompositeIds ==> (key in r <==> key in table)
    ensures forall key :: key != PreferBasicCompositeIds && key in table ==> r[key] == table[key]
  {
    if PreferBasicCompositeIds in table then table else table[PreferBasicCompositeIds := Flag(true)]
  }

  /** The table the descriptor stores. */
  function Layered(environment: map<string, PropertyValue>, supplied: Option<map<string, PropertyValue>>)
    : map<string, PropertyValue>
  {
    WithCompositeIdDefault(Overridden(environment, supplied))
  }

  /** A supplied setting always wins over the environment, the composite-id default included. */
  lemma SuppliedSettingWins(environment: map<string, PropertyValue>, supplied: map<string, PropertyValue>, key: string)
    requires key in supplied
    ensures Layered(environment, Some(supplied))[key] == supplied[key]
  {
  }

  /** Without supplied settings the stored table is the environment, apart from the default. */
  lemma NoSuppliedSettings(environment: map<string, PropertyValue>, key: string)
    requires key != PreferBasicCompositeIds
    ensures key in Layered(environment, None) <==> key in environment
    ensures key in environment ==> Layered(environment, None)[key] == environment[key]
  {
  }

  /**
   * The descriptor built over a strategy (null for the factory's default)
   * and a properties object (null for none). `S` stands for the strategy
   * type.
   */
  class RevengMetadataDescriptor<S> {
    var strategy: S
    var properties: Properties

    /**
     * `environment` is the content of `Environment.getProperties()` and
     * `factoryStrategy` what `RevengStrategyFactory` creates.
     */
    constructor (strategy: Option<S>, supplied: Properties?,
                 environment: map<string, PropertyValue>, factoryStrategy: S)
      ensures fresh(properties)
      ensures properties.table == Layered(environment, if supplied == null then None else Some(supplied.table))
      ensures strategy.Some? ==> this.strategy == strategy.value
      ensures strategy.None? ==> this.strategy == factoryStrategy
    {
      properties := new Properties();
      if strategy.Some? {
        this.strategy := strategy.value;
      } else {
        this.strategy := factoryStrategy;
      }
      new;
      ghost var layered := Overridden(environment, if supplied == null then None else Some(supplied.table));
      properties.PutAll(environment);
      assert properties.table == environment;
      if supplied != null {
        properties.PutAll(supplied.table);
      }
      assert properties.table == layered;
      if properties.Get(PreferBasicCompositeIds).None? {
        properties.Put(PreferBasicCompositeIds, Flag(true));
      }
    }

    /** `getProperties`: a new table with the same contents. */
    method GetProperties() returns (result: Properties)
      ensures fresh(result)
      ensures result.table == properties.table
    {
      result := new Properties();
      result.PutAll(properties.table);
    }
  }

  /** Writing to the table `getProperties` returned leaves the descriptor's own table as it was. */
  method WriteToCopy<S>(descriptor: RevengMetadataDescriptor<S>, key: string, value: PropertyValue)
    returns (copy: Properties)
    ensures fresh(copy)
    ensures copy.table == descriptor.properties.table[key := value]
    ensures descriptor.properties.table == old(descriptor.properties.table)
  {
    copy := descriptor.GetProperties();
    copy.Put(key, value);
  }
}
