/**
 * `OptionalTableUpdateOperation`: the legacy "upsert" of an optional
 * secondary table. Depending on what the values analysis says about the
 * table it does nothing, deletes the row, updates it, or updates it and
 * falls back to an insert when no row was touched.
 *
 * The database is an oracle (`Database`): what the DELETE, UPDATE and
 * INSERT statements and the expectation check would do is given, and the
 * model says which of them run, in which order, with which bound values,
 * and which exception escapes.
 */
module OptionalTableUpdates {
  import opened JavaLang

  // ---------------------------------------------------------------------
  // Mutation data
  // ---------------------------------------------------------------------

  /** `ParameterUsage`: a parameter sets a column or restricts the rows. */
  datatype ParameterUsage = Set | Restrict

  /** A `ColumnValueParameter` of the upsert: the column it binds and how. */
  datatype ColumnValueParameter = ColumnValueParameter(columnName: string, usage: ParameterUsage)

  /** `JdbcValueDescriptorImpl`: a parameter and its 1-based JDBC position. */
  datatype JdbcValueDescriptor = JdbcValueDescriptor(columnName: string, usage: ParameterUsage, jdbcPosition: int)

  /** A `ColumnValueBinding`, identified by its column reference's expression. */
  datatype ColumnValueBinding = ColumnValueBinding(columnExpression: string)

  /**
   * A `Binding` of the JDBC value bindings: the column, its 1-based
   * position in the mutation's parameter list, and the value (kept opaque).
   */
  datatype Binding = Binding(columnName: string, position: int, value: int)

  /** A binding bound to a statement parameter at `jdbcPosition`. */
  datatype KeyBinding = KeyBinding(jdbcPosition: int, binding: Binding)

  /** Statement details of a table mapping; `customSql` is null for generated SQL. */
  datatype MutationDetails = MutationDetails(customSql: Option<string>)

  /** The `EntityTableMapping` of the optional table. */
  datatype TableMapping = TableMapping(
    tableName: string,
    insertDetails: Option<MutationDetails>,
    updateDetails: Option<MutationDetails>,
    deleteDetails: Option<MutationDetails>)

  /** The table sets of an `UpdateValuesAnalysis`. */
  datatype ValuesAnalysis = ValuesAnalysis(
    tablesNeedingUpdate: set<TableMapping>,
    tablesNeedingDynamicUpdate: set<TableMapping>,
    tablesWithNonNullValues: set<TableMapping>,
    tablesWithPreviousNonNullValues: set<TableMapping>)

  /** `ConstraintViolationException.ConstraintKind`. */
  datatype ConstraintKind = Unique | NotNull | ForeignKey | Check | OtherConstraint

  /** The exceptions that can leave the operation. */
  datatype Failure =
    | ConstraintViolation(kind: ConstraintKind)
    | StaleState(rolePath: string)
    | IllegalState(message: string)
    | IndexOutOfBounds(index: int)
    /** a converted `SQLException`, a failed expectation, or any other error */
    | JdbcFailure(description: string)

  /** What `executeUpdate` does with the UPDATE statement. */
  datatype UpdateResult = RowCount(count: int) | UpdateFailed(failure: Failure)

  /**
   * The database and the JDBC layer, as far as the operation can observe
   * them: how each statement ends, the expectation's verdict on a non-zero
   * row count, and the number of parameter binders of the translated INSERT.
   */
  datatype Database = Database(
    deleteFailure: Option<Failure>,
    updateResult: UpdateResult,
    expectationFailure: Option<Failure>,
    insertParameterCount: int,
    insertFailure: Option<Failure>)

  /** A statement the operation executes: the table mutation it was built from and the values bound to it. */
  datatype Statement =
    | DeleteStatement(mutation: TableMutation, keyValues: seq<KeyBinding>)
    | UpdateStatement(mutation: TableMutation)
    | InsertStatement(mutation: TableMutation, values: seq<Binding>)

  datatype StatementKind = DeleteKind | UpdateKind | InsertKind

  function KindOf(s: Statement): StatementKind
  {
    match s
    case DeleteStatement(_, _) => DeleteKind
    case UpdateStatement(_) => UpdateKind
    case InsertStatement(_, _) => InsertKind
  }

  function Kinds(statements: seq<Statement>): (r: seq<StatementKind>)
    ensures |r| == |statements|
    ensures forall i :: 0 <= i < |statements| ==> r[i] == KindOf(statements[i])
  {
    if |statements| == 0 then [] else [KindOf(statements[0])] + Kinds(statements[1..])
  }

  /** The statements executed, the number of `afterStatement` calls, and the exception thrown (if any). */
  datatype Execution = Execution(statements: seq<Statement>, afterStatementCalls: nat, failure: Option<Failure>)

  /** Statements of one branch and the exception ending it. */
  datatype Attempt = Attempt(statements: seq<Statement>, failure: Option<Failure>)

  /** The outcome of binding the key values of the DELETE. */
  datatype BindOutcome = Bound(values: seq<KeyBinding>) | Failed(failure: Failure)

  /** Where the shared key-binding cursor lands for one RESTRICT binding. */
  datatype KeySearch =
    | Matched(next: nat)  // the key at next - 1 matched; the cursor is past it
    | Exhausted           // no key left that matches; the cursor is at the end
    | Beyond              // a key failed to match after keys were found

  /** The SQL a table mutation runs: the mapping's custom SQL or generated SQL. */
  datatype SqlSource = CustomSql(sql: string) | StandardSql

  /** The table mutation handed to the SQL AST translator. */
  datatype TableMutation = TableMutation(
    kind: StatementKind,
    source: SqlSource,
    comment: Option<string>,
    valueBindings: seq<ColumnValueBinding>,
    keyBindings: seq<ColumnValueBinding>,
    optimisticLockBindings: seq<ColumnValueBinding>)

  const NoBindingsMessage: string := "No value bindings for table on insert : "

  // ---------------------------------------------------------------------
  // Key binding for the DELETE
  // ---------------------------------------------------------------------

  /**
   * The inner loop of `bindKeyValues`: advance the key cursor from `ki`
   * until a key matches `column`; once keys have been found, the first
   * mismatch means the scan is beyond the key run.
   */
  function SearchKey(keys: seq<ColumnValueBinding>, ki: nat, column: string, found: bool): (r: KeySearch)
    requires ki <= |keys|
    ensures r.Matched? ==> ki < r.next <= |keys| && keys[r.next - 1].columnExpression == column
    ensures r.Matched? ==> forall j :: ki <= j < r.next - 1 ==> keys[j].columnExpression != column
    ensures r.Matched? && found ==> r.next == ki + 1
    ensures r.Exhausted? ==> forall j :: ki <= j < |keys| ==> keys[j].columnExpression != column
    ensures r.Exhausted? && found ==> ki == |keys|
    ensures r.Beyond? <==> found && ki < |keys| && keys[ki].columnExpression != column
    decreases |keys| - ki
  {
    if ki == |keys| then Exhausted
    else if keys[ki].columnExpression == column then Matched(ki + 1)
    else if found then Beyond
    else SearchKey(keys, ki + 1, column, found)
  }

  /**
   * `bindKeyValues` from binding `i` on, with the key cursor at `ki` and
   * `bound` bound so far. The next JDBC position is `|bound| + 1` and keys
   * have been found exactly when `bound` is not empty.
   */
  function KeyScan(descriptors: seq<JdbcValueDescriptor>, keys: seq<ColumnValueBinding>,
                   bindings: seq<Binding>, i: nat, ki: nat, bound: seq<KeyBinding>): BindOutcome
    requires i <= |bindings| && ki <= |keys|
    decreases |bindings| - i
  {
    if i == |bindings| then Bound(bound)
    else
      var binding := bindings[i];
      if !(1 <= binding.position <= |descriptors|) then Failed(IndexOutOfBounds(binding.position - 1))
      else if descriptors[binding.position - 1].usage != Restrict then
        KeyScan(descriptors, keys, bindings, i + 1, ki, bound)
      else
        match SearchKey(keys, ki, binding.columnName, |bound| > 0)
        case Matched(next) =>
          KeyScan(descriptors, keys, bindings, i + 1, next, bound + [KeyBinding(|bound| + 1, binding)])
        case Exhausted => KeyScan(descriptors, keys, bindings, i + 1, |keys|, bound)
        case Beyond => Bound(bound)
  }

  /** Every binding's position indexes the descriptor table. */
  predicate PositionsInRange(descriptors: seq<JdbcValueDescriptor>, bindings: seq<Binding>)
  {
    forall b :: b in bindings ==> 1 <= b.position <= |descriptors|
  }

  /**
   * What the bound key values are: consecutive positions from 1, each a
   * RESTRICT binding of the group whose column is a key column.
   */
  predicate WellBound(descriptors: seq<JdbcValueDescriptor>, keys: seq<ColumnValueBinding>,
                      bindings: seq<Binding>, bound: seq<KeyBinding>)
  {
    forall j :: 0 <= j < |bound| ==>
      && bound[j].jdbcPosition == j + 1
      && bound[j].binding in bindings
      && 1 <= bound[j].binding.position <= |descriptors|
      && descriptors[bound[j].binding.position - 1].usage == Restrict
      && exists k :: 0 <= k < |keys| && keys[k].columnExpression == bound[j].binding.columnName
  }

  /**
   * The scan only ever extends what was bound, keeps it well bound, and
   * fails only on a position outside the descriptor table.
   */
  lemma {:induction false} KeyScanSound(descriptors: seq<JdbcValueDescriptor>, keys: seq<ColumnValueBinding>,
                                        bindings: seq<Binding>, i: nat, ki: nat, bound: seq<KeyBinding>)
    requires i <= |bindings| && ki <= |keys|
    requires WellBound(descriptors, keys, bindings, bound)
    ensures var r := KeyScan(descriptors, keys, bindings, i, ki, bound);
            && (r.Bound? ==> bound <= r.values && WellBound(descriptors, keys, bindings, r.values))
            && (r.Failed? ==> r.failure.IndexOutOfBounds?)
            && (PositionsInRange(descriptors, bindings) ==> r.Bound?)
    decreases |bindings| - i
  {
    if i < |bindings| {
      var binding := bindings[i];
      if 1 <= binding.position <= |descriptors| && descriptors[binding.position - 1].usage == Restrict {
        match SearchKey(keys, ki, binding.columnName, |bound| > 0)
        case Matched(next) =>
          var bound' := bound + [KeyBinding(|bound| + 1, binding)];
          assert WellBound(descriptors, keys, bindings, bound') by {
            forall j | 0 <= j < |bound'|
              ensures exists k :: 0 <= k < |keys| && keys[k].columnExpression == bound'[j].binding.columnName
            {
              if j == |bound| {
                assert keys[next - 1].columnExpression == bound'[j].binding.columnName;
              } else {
                assert bound'[j] == bound[j];
              }
            }
          }
          KeyScanSound(descriptors, keys, bindings, i + 1, next, bound');
        case Exhausted =>
          KeyScanSound(descriptors, keys, bindings, i + 1, |keys|, bound);
        case Beyond =>
      } else if 1 <= binding.position <= |descriptors| {
        KeyScanSound(descriptors, keys, bindings, i + 1, ki, bound);
      } else {
        assert binding in bindings;
      }
    }
  }

  /** The RESTRICT bindings of a group, in group order. */
  function RestrictBindings(descriptors: seq<JdbcValueDescriptor>, bindings: seq<Binding>): seq<Binding>
    requires PositionsInRange(descriptors, bindings)
  {
    if |bindings| == 0 then []
    else
      assert bindings[0] in bindings;
      (if descriptors[bindings[0].position - 1].usage == Restrict then [bindings[0]] else [])
      + RestrictBindings(descriptors, bindings[1..])
  }

  function ColumnNames(bindings: seq<Binding>): seq<string>
  {
    if |bindings| == 0 then [] else [bindings[0].columnName] + ColumnNames(bindings[1..])
  }

  function KeyColumns(keys: seq<ColumnValueBinding>): (r: seq<string>)
    ensures |r| == |keys|
  {
    if |keys| == 0 then [] else [keys[0].columnExpression] + KeyColumns(keys[1..])
  }

  /** `bindings` bound at consecutive positions starting with `first`. */
  function Numbered(bindings: seq<Binding>, first: int): (r: seq<KeyBinding>)
    ensures |r| == |bindings|
  {
    if |bindings| == 0 then [] else [KeyBinding(first, bindings[0])] + Numbered(bindings[1..], first + 1)
  }

  /**
   * When the group's RESTRICT bindings name exactly the key columns, in
   * key order, every one of them is bound, at positions 1, 2, ...
   */
  lemma {:induction false} AlignedKeysAllBound(descriptors: seq<JdbcValueDescriptor>, keys: seq<ColumnValueBinding>,
                                               bindings: seq<Binding>, i: nat, ki: nat, bound: seq<KeyBinding>)
    requires i <= |bindings| && ki <= |keys|
    requires PositionsInRange(descriptors, bindings)
    requires ColumnNames(RestrictBindings(descriptors, bindings[i..])) == KeyColumns(keys[ki..])
    ensures KeyScan(descriptors, keys, bindings, i, ki, bound)
            == Bound(bound + Numbered(RestrictBindings(descriptors, bindings[i..]), |bound| + 1))
    decreases |bindings| - i
  {
    var rest := bindings[i..];
    if i == |bindings| {
      assert rest == [];
    } else {
      var binding := bindings[i];
      assert rest == [binding] + bindings[i + 1..];
      assert rest[1..] == bindings[i + 1..];
      assert binding in bindings;
      var tail := RestrictBindings(descriptors, bindings[i + 1..]);
      if descriptors[binding.position - 1].usage == Restrict {
        assert RestrictBindings(descriptors, rest) == [binding] + tail;
        KeyHeadMatches(binding, tail, keys, ki);
        assert SearchKey(keys, ki, binding.columnName, |bound| > 0) == Matched(ki + 1);
        var bound' := bound + [KeyBinding(|bound| + 1, binding)];
        AlignedKeysAllBound(descriptors, keys, bindings, i + 1, ki + 1, bound');
        assert Numbered([binding] + tail, |bound| + 1)
               == [KeyBinding(|bound| + 1, binding)] + Numbered(tail, |bound| + 2);
      } else {
        assert RestrictBindings(descriptors, rest) == tail;
        AlignedKeysAllBound(descriptors, keys, bindings, i + 1, ki, bound);
      }
    }
  }

  /** When the column names match the key columns, the first binding names the key at the cursor. */
  lemma {:induction false} KeyHeadMatches(binding: Binding, tail: seq<Binding>, keys: seq<ColumnValueBinding>, ki: nat)
    requires ki <= |keys|
    requires ColumnNames([binding] + tail) == KeyColumns(keys[ki..])
    ensures ki < |keys| && keys[ki].columnExpression == binding.columnName
    ensures ColumnNames(tail) == KeyColumns(keys[ki + 1..])
  {
    assert ([binding] + tail)[1..] == tail;
    var names := [binding.columnName] + ColumnNames(tail);
    assert ColumnNames([binding] + tail) == names;
    assert |KeyColumns(keys[ki..])| == |keys| - ki;
    assert keys[ki..][1..] == keys[ki + 1..];
    var columns := [keys[ki].columnExpression] + KeyColumns(keys[ki + 1..]);
    assert KeyColumns(keys[ki..]) == columns;
    assert names[0] == binding.columnName && columns[0] == keys[ki].columnExpression;
    assert names[1..] == ColumnNames(tail) && columns[1..] == KeyColumns(keys[ki + 1..]);
  }

  /**
   * The scan relies on the key bindings being contiguous: a RESTRICT
   * binding that is not the next key (a version column, say) after a key
   * was bound ends the scan, even if another key binding follows it.
   */
  lemma NonKeyRestrictEndsKeyRun(id: Binding, version: Binding, id2: Binding)
    requires id == Binding("id", 1, 0) && version == Binding("version", 2, 0) && id2 == Binding("id2", 3, 0)
    ensures KeyScan([JdbcValueDescriptor("id", Restrict, 1), JdbcValueDescriptor("version", Restrict, 2),
                     JdbcValueDescriptor("id2", Restrict, 3)],
                    [ColumnValueBinding("id"), ColumnValueBinding("id2")],
                    [id, version, id2], 0, 0, [])
            == Bound([KeyBinding(1, id)])
  {
    var descriptors := [JdbcValueDescriptor("id", Restrict, 1), JdbcValueDescriptor("version", Restrict, 2),
                        JdbcValueDescriptor("id2", Restrict, 3)];
    var keys := [ColumnValueBinding("id"), ColumnValueBinding("id2")];
    var bindings := [id, version, id2];
    assert SearchKey(keys, 0, "id", false) == Matched(1);
    assert SearchKey(keys, 1, "version", true) == Beyond;
    assert KeyScan(descriptors, keys, bindings, 1, 1, [KeyBinding(1, id)]) == Bound([KeyBinding(1, id)]);
  }

  /** Once the key cursor has run past the last key, no further binding is bound. */
  lemma {:induction false} ExhaustedCursorBindsNothing(descriptors: seq<JdbcValueDescriptor>,
                                                       keys: seq<ColumnValueBinding>, bindings: seq<Binding>, i: nat)
    requires i <= |bindings| && PositionsInRange(descriptors, bindings)
    ensures KeyScan(descriptors, keys, bindings, i, |keys|, []) == Bound([])
    decreases |bindings| - i
  {
    if i < |bindings| {
      assert bindings[i] in bindings;
      ExhaustedCursorBindsNothing(descriptors, keys, bindings, i + 1);
    }
  }

  /**
   * The shared cursor also cuts the other way: a RESTRICT binding that is
   * no key (a version column, say) ahead of the keys runs the cursor to the
   * end, and then no key is bound at all.
   */
  lemma NonKeyRestrictFirstBindsNoKey(descriptors: seq<JdbcValueDescriptor>, keys: seq<ColumnValueBinding>,
                                      bindings: seq<Binding>)
    requires PositionsInRange(descriptors, bindings) && |bindings| > 0
    requires descriptors[bindings[0].position - 1].usage == Restrict
    requires forall j :: 0 <= j < |keys| ==> keys[j].columnExpression != bindings[0].columnName
    ensures KeyScan(descriptors, keys, bindings, 0, 0, []) == Bound([])
  {
    assert bindings[0] in bindings;
    assert SearchKey(keys, 0, bindings[0].columnName, false) == Exhausted;
    ExhaustedCursorBindsNothing(descriptors, keys, bindings, 1);
  }

  // ---------------------------------------------------------------------
  // Bindings of the INSERT
  // ---------------------------------------------------------------------

  /** The bindings `performInsert` binds: those within the INSERT's parameter binders, in group order. */
  function Bindable(bindings: seq<Binding>, binderCount: int): (r: seq<Binding>)
    ensures forall b :: b in r <==> b in bindings && b.position <= binderCount
    ensures |r| <= |bindings|
  {
    if |bindings| == 0 then []
    else
      var last := bindings[|bindings| - 1];
      var front := bindings[..|bindings| - 1];
      assert bindings == front + [last];
      Bindable(front, binderCount) + (if last.position <= binderCount then [last] else [])
  }

  /** Filtering commutes with splitting the group. */
  lemma {:induction false} BindableAppend(left: seq<Binding>, right: seq<Binding>, binderCount: int)
    ensures Bindable(left + right, binderCount) == Bindable(left, binderCount) + Bindable(right, binderCount)
    decreases |right|
  {
    if |right| > 0 {
      var front := right[..|right| - 1];
      assert (left + right)[..|left + right| - 1] == left + front;
      assert (left + right)[|left + right| - 1] == right[|right| - 1];
      BindableAppend(left, front, binderCount);
    } else {
      assert left + right == left;
    }
  }

  // ---------------------------------------------------------------------
  // The operation
  // ---------------------------------------------------------------------

  /** A descriptor matches a lookup when both the column and the usage agree. */
  predicate Describes(d: JdbcValueDescriptor, columnName: string, usage: ParameterUsage)
  {
    d.columnName == columnName && d.usage == usage
  }

  class OptionalTableUpdateOperation {
    const tableMapping: TableMapping
    /** `mutationTarget.getRolePath()`. */
    const rolePath: string
    const valueBindings: seq<ColumnValueBinding>
    const keyBindings: seq<ColumnValueBinding>
    const optimisticLockBindings: seq<ColumnValueBinding>
    const parameters: seq<ColumnValueParameter>
    const jdbcValueDescriptors: seq<JdbcValueDescriptor>

    constructor (tableMapping: TableMapping, rolePath: string,
                 valueBindings: seq<ColumnValueBinding>, keyBindings: seq<ColumnValueBinding>,
                 optimisticLockBindings: seq<ColumnValueBinding>, parameters: seq<ColumnValueParameter>)
      ensures this.tableMapping == tableMapping && this.rolePath == rolePath
      ensures this.valueBindings == valueBindings && this.keyBindings == keyBindings
      ensures this.optimisticLockBindings == optimisticLockBindings && this.parameters == parameters
      ensures |jdbcValueDescriptors| == |parameters|
      ensures forall i :: 0 <= i < |parameters| ==>
                jdbcValueDescriptors[i] == JdbcValueDescriptor(parameters[i].columnName, parameters[i].usage, i + 1)
    {
      this.tableMapping := tableMapping;
      this.rolePath := rolePath;
      this.valueBindings := valueBindings;
      this.keyBindings := keyBindings;
      this.optimisticLockBindings := optimisticLockBindings;
      this.parameters := parameters;
      var descriptors := DescribeParameters(parameters);
      this.jdbcValueDescriptors := descriptors;
    }

    /** The constructor's loop: one descriptor per parameter, the i-th at JDBC position i + 1. */
    static method DescribeParameters(parameters: seq<ColumnValueParameter>)
      returns (descriptors: seq<JdbcValueDescriptor>)
      ensures |descriptors| == |parameters|
      ensures forall i :: 0 <= i < |parameters| ==>
                descriptors[i] == JdbcValueDescriptor(parameters[i].columnName, parameters[i].usage, i + 1)
    {
      descriptors := [];
      for i := 0 to |parameters|
        invariant |descriptors| == i
        invariant forall j :: 0 <= j < i ==>
                    descriptors[j] == JdbcValueDescriptor(parameters[j].columnName, parameters[j].usage, j + 1)
      {
        descriptors := descriptors + [JdbcValueDescriptor(parameters[i].columnName, parameters[i].usage, i + 1)];
      }
    }

    /** `findValueDescriptor`: the first descriptor for the column and usage, or null. */
    method FindValueDescriptor(columnName: string, usage: ParameterUsage) returns (r: Option<JdbcValueDescriptor>)
      ensures r.None? <==> forall i :: 0 <= i < |jdbcValueDescriptors| ==> !Describes(jdbcValueDescriptors[i], columnName, usage)
      ensures r.Some? ==> exists i :: 0 <= i < |jdbcValueDescriptors| && jdbcValueDescriptors[i] == r.value
                                   && Describes(r.value, columnName, usage)
                                   && forall j :: 0 <= j < i ==> !Describes(jdbcValueDescriptors[j], columnName, usage)
    {
      for i := 0 to |jdbcValueDescriptors|
        invariant forall j :: 0 <= j < i ==> !Describes(jdbcValueDescriptors[j], columnName, usage)
      {
        var descriptor := jdbcValueDescriptors[i];
        if descriptor.columnName == columnName && descriptor.usage == usage {
          return Some(descriptor);
        }
      }
      return None;
    }

    /** What `bindKeyValues` binds for a binding group (null when the table has none). */
    function KeyValues(group: Option<seq<Binding>>): BindOutcome
    {
      if group.None? then Failed(IllegalState(NoBindingsMessage + tableMapping.tableName))
      else KeyScan(jdbcValueDescriptors, keyBindings, group.value, 0, 0, [])
    }

    /**
     * `bindKeyValues`: walk the group's bindings and the key bindings
     * together with one key cursor, binding each RESTRICT binding whose
     * column is the next matching key at the next JDBC position.
     */
    method BindKeyValues(group: Option<seq<Binding>>) returns (r: BindOutcome)
      ensures group.None? ==> r == Failed(IllegalState(NoBindingsMessage + tableMapping.tableName))
      ensures group.Some? ==> r == KeyScan(jdbcValueDescriptors, keyBindings, group.value, 0, 0, [])
    {
      if group.None? {
        return Failed(IllegalState(NoBindingsMessage + tableMapping.tableName));
      }
      var bindings := group.value;
      ghost var expected := KeyScan(jdbcValueDescriptors, keyBindings, bindings, 0, 0, []);
      var jdbcBindingPosition := 1;
      var foundKeyBindings := false;
      var keyCursor := 0;
      var bound: seq<KeyBinding> := [];
      label bindingsLoop:
      for i := 0 to |bindings|
        invariant keyCursor <= |keyBindings|
        invariant jdbcBindingPosition == |bound| + 1
        invariant foundKeyBindings <==> |bound| > 0
        invariant KeyScan(jdbcValueDescriptors, keyBindings, bindings, i, keyCursor, bound) == expected
      {
        var binding := bindings[i];
        if !(1 <= binding.position <= |jdbcValueDescriptors|) {
          return Failed(IndexOutOfBounds(binding.position - 1));
        }
        var valueDescriptor := jdbcValueDescriptors[binding.position - 1];
        if valueDescriptor.usage == Restrict {
          ghost var search := SearchKey(keyBindings, keyCursor, binding.columnName, foundKeyBindings);
          ghost var boundBefore := bound;
          while keyCursor < |keyBindings|
            invariant keyCursor <= |keyBindings|
            invariant SearchKey(keyBindings, keyCursor, binding.columnName, foundKeyBindings) == search
            invariant bound == boundBefore && jdbcBindingPosition == |bound| + 1
            invariant foundKeyBindings <==> |bound| > 0
            decreases |keyBindings| - keyCursor
          {
            var key := keyBindings[keyCursor];
            keyCursor := keyCursor + 1;
            if key.columnExpression == binding.columnName {
              foundKeyBindings := true;
              bound := bound + [KeyBinding(jdbcBindingPosition, binding)];
              jdbcBindingPosition := jdbcBindingPosition + 1;
              assert KeyScan(jdbcValueDescriptors, keyBindings, bindings, i + 1, keyCursor, bound) == expected;
              break;
            } else if foundKeyBindings {
              // now beyond the key bindings
              assert expected == Bound(bound);
              break bindingsLoop;
            }
          }
          if bound == boundBefore {
            assert search == Exhausted;
          }
        }
      }
      r := Bound(bound);
    }

    /** The bindings `performInsert` binds for a group (null: none, and the INSERT still runs). */
    function InsertValues(group: Option<seq<Binding>>, binderCount: int): (r: seq<Binding>)
      ensures group.None? ==> r == []
      ensures group.Some? ==> forall b :: b in r <==> b in group.value && b.position <= binderCount
    {
      if group.None? then [] else Bindable(group.value, binderCount)
    }

    /** The binding loop of `performInsert`: skip positions past the INSERT's parameter binders. */
    method BindInsertValues(group: Option<seq<Binding>>, binderCount: int) returns (bound: seq<Binding>)
      ensures bound == InsertValues(group, binderCount)
    {
      bound := [];
      if group.Some? {
        var bindings := group.value;
        for i := 0 to |bindings|
          invariant bound == Bindable(bindings[..i], binderCount)
        {
          assert bindings[..i + 1][..i] == bindings[..i];
          if bindings[i].position <= binderCount {
            bound := bound + [bindings[i]];
          }
        }
        assert bindings[..|bindings|] == bindings;
      }
    }

    /** The SQL source a mutation uses: the details' custom SQL when there is some. */
    static function SourceOf(details: Option<MutationDetails>): (s: SqlSource)
      ensures s.CustomSql? <==> details.Some? && details.value.customSql.Some?
      ensures s.CustomSql? ==> s.sql == details.value.customSql.value
    {
      if details.Some? && details.value.customSql.Some? then CustomSql(details.value.customSql.value)
      else StandardSql
    }

    /** `createJdbcDelete`: restricts on the key and optimistic-lock columns. */
    function CreateTableDelete(): (m: TableMutation)
      ensures m.kind == DeleteKind && m.source == SourceOf(tableMapping.deleteDetails)
      ensures m.comment == Some("upsert delete for " + rolePath)
      ensures m.valueBindings == [] && m.keyBindings == keyBindings
      ensures m.optimisticLockBindings == optimisticLockBindings
    {
      TableMutation(DeleteKind, SourceOf(tableMapping.deleteDetails), Some("upsert delete for " + rolePath),
                    [], keyBindings, optimisticLockBindings)
    }

    /** `createJdbcUpdate`: sets the value columns, restricts on key and optimistic-lock columns. */
    function CreateTableUpdate(): (m: TableMutation)
      ensures m.kind == UpdateKind && m.source == SourceOf(tableMapping.updateDetails)
      ensures m.comment == Some("upsert update for " + rolePath)
      ensures m.valueBindings == valueBindings && m.keyBindings == keyBindings
      ensures m.optimisticLockBindings == optimisticLockBindings
    {
      TableMutation(UpdateKind, SourceOf(tableMapping.updateDetails), Some("upsert update for " + rolePath),
                    valueBindings, keyBindings, optimisticLockBindings)
    }

    /** `createJdbcInsert`: inserts the value columns followed by the key columns. */
    function CreateTableInsert(): (m: TableMutation)
      ensures m.kind == InsertKind && m.source == SourceOf(tableMapping.insertDetails)
      ensures m.comment == None && m.keyBindings == [] && m.optimisticLockBindings == []
      ensures |m.valueBindings| == |valueBindings| + |keyBindings|
      ensures m.valueBindings[..|valueBindings|] == valueBindings
      ensures m.valueBindings[|valueBindings|..] == keyBindings
    {
      TableMutation(InsertKind, SourceOf(tableMapping.insertDetails), None,
                    valueBindings + keyBindings, [], [])
    }

    /** The table mutation the operation builds for a statement of the given kind. */
    function MutationOf(kind: StatementKind): (m: TableMutation)
      ensures m.kind == kind
    {
      match kind
      case DeleteKind => CreateTableDelete()
      case UpdateKind => CreateTableUpdate()
      case InsertKind => CreateTableInsert()
    }

    /** `performUpdate`'s answer: whether a row was updated, or the exception it throws. */
    static function UpdateVerdict(db: Database): (v: Option<Failure>)
    {
      match db.updateResult
      case UpdateFailed(f) => Some(f)
      case RowCount(n) => if n == 0 then None else db.expectationFailure
    }

    /** `performUpdate` returns true exactly for a non-zero row count the expectation accepts. */
    static function WasUpdated(db: Database): (updated: bool)
      ensures updated <==> db.updateResult.RowCount? && db.updateResult.count != 0 && db.expectationFailure.None?
      ensures db.updateResult == RowCount(0) ==> !updated && UpdateVerdict(db).None?
    {
      db.updateResult.RowCount? && db.updateResult.count != 0 && db.expectationFailure.None?
    }

    /** The catch block around the fallback INSERT: a UNIQUE violation means a concurrent row. */
    function TranslateInsertFailure(f: Option<Failure>): (r: Option<Failure>)
      ensures f.None? ==> r.None?
      ensures f == Some(ConstraintViolation(Unique)) ==> r == Some(StaleState(rolePath))
      ensures f.Some? && f != Some(ConstraintViolation(Unique)) ==> r == f
    {
      if f == Some(ConstraintViolation(Unique)) then Some(StaleState(rolePath)) else f
    }

    predicate NeedsUpdate(analysis: ValuesAnalysis)
    {
      tableMapping in analysis.tablesNeedingUpdate || tableMapping in analysis.tablesNeedingDynamicUpdate
    }

    /** All new values are null: delete the row if it may exist. */
    function DeleteBranch(analysis: ValuesAnalysis, group: Option<seq<Binding>>, db: Database): Attempt
    {
      if tableMapping !in analysis.tablesWithPreviousNonNullValues then Attempt([], None)
      else
        match KeyValues(group)
        case Failed(f) => Attempt([], Some(f))
        case Bound(values) => Attempt([DeleteStatement(CreateTableDelete(), values)], db.deleteFailure)
    }

    /** Some new value is non-null: update the row if it may exist, insert when nothing was updated. */
    function UpsertBranch(analysis: ValuesAnalysis, group: Option<seq<Binding>>, db: Database): Attempt
    {
      var previous := tableMapping in analysis.tablesWithPreviousNonNullValues;
      var update := if previous then [UpdateStatement(CreateTableUpdate())] else [];
      var updateFailure := if previous then UpdateVerdict(db) else None;
      var wasUpdated := previous && WasUpdated(db);
      if updateFailure.Some? then Attempt(update, updateFailure)
      else if wasUpdated then Attempt(update, None)
      else
        Attempt(update + [InsertStatement(CreateTableInsert(), InsertValues(group, db.insertParameterCount))],
                TranslateInsertFailure(db.insertFailure))
    }

    /**
     * `performMutation`: the statements run against `db`, the
     * `afterStatement` calls and the exception thrown.
     */
    function PerformMutation(analysis: ValuesAnalysis, group: Option<seq<Binding>>, db: Database): (r: Execution)
      // tables the analysis leaves alone: nothing runs, no bookkeeping
      ensures !NeedsUpdate(analysis) ==> r == Execution([], 0, None)
      // otherwise afterStatement runs exactly once, whatever is thrown
      ensures NeedsUpdate(analysis) ==> r.afterStatementCalls == 1
      // all values null: a DELETE, only if the row may exist and its keys could be bound
      ensures NeedsUpdate(analysis) && tableMapping !in analysis.tablesWithNonNullValues ==>
                Kinds(r.statements)
                == (if tableMapping in analysis.tablesWithPreviousNonNullValues && KeyValues(group).Bound?
                    then [DeleteKind] else [])
      ensures NeedsUpdate(analysis) && tableMapping !in analysis.tablesWithNonNullValues
              && tableMapping !in analysis.tablesWithPreviousNonNullValues ==>
                r.failure.None?
      ensures NeedsUpdate(analysis) && tableMapping !in analysis.tablesWithNonNullValues
              && tableMapping in analysis.tablesWithPreviousNonNullValues ==>
                r.failure == if KeyValues(group).Failed? then Some(KeyValues(group).failure) else db.deleteFailure
      // some value non-null: UPDATE only if the row may exist, INSERT when it was skipped or touched no row
      ensures NeedsUpdate(analysis) && tableMapping in analysis.tablesWithNonNullValues ==>
                Kinds(r.statements)
                == (if tableMapping in analysis.tablesWithPreviousNonNullValues then [UpdateKind] else [])
                   + (if tableMapping !in analysis.tablesWithPreviousNonNullValues || db.updateResult == RowCount(0)
                      then [InsertKind] else [])
      // the INSERT's exception, with UNIQUE turned into a stale-state error
      ensures InsertKind in Kinds(r.statements) ==> r.failure == TranslateInsertFailure(db.insertFailure)
      ensures NeedsUpdate(analysis) && tableMapping in analysis.tablesWithNonNullValues
              && tableMapping in analysis.tablesWithPreviousNonNullValues && db.updateResult != RowCount(0) ==>
                r.failure == UpdateVerdict(db)
      // every statement that runs is built by the matching create method
      ensures forall s :: s in r.statements ==> s.mutation == MutationOf(KindOf(s))
    {
      if !NeedsUpdate(analysis) then Execution([], 0, None)
      else
        var attempt :=
          if tableMapping !in analysis.tablesWithNonNullValues then DeleteBranch(analysis, group, db)
          else UpsertBranch(analysis, group, db);
        Execution(attempt.statements, 1, attempt.failure)
    }

    /** The DELETE binds what `bindKeyValues` binds. */
    lemma DeleteBindsKeyValues(analysis: ValuesAnalysis, group: Option<seq<Binding>>, db: Database, s: Statement)
      requires s in PerformMutation(analysis, group, db).statements && s.DeleteStatement?
      ensures KeyValues(group) == Bound(s.keyValues)
      ensures WellBound(jdbcValueDescriptors, keyBindings, group.value, s.keyValues)
    {
      KeyScanSound(jdbcValueDescriptors, keyBindings, group.value, 0, 0, []);
    }

    /** The fallback INSERT binds exactly the group's bindings within its parameter binders. */
    lemma InsertBindsBindable(analysis: ValuesAnalysis, group: Option<seq<Binding>>, db: Database, s: Statement)
      requires s in PerformMutation(analysis, group, db).statements && s.InsertStatement?
      ensures s.values == InsertValues(group, db.insertParameterCount)
      ensures forall b :: b in s.values ==> b.position <= db.insertParameterCount
    {
    }

    /**
     * The statements that run use the mapping's custom SQL for their kind
     * when it has some, and the bindings the create methods give them.
     */
    lemma ExecutedMutations(analysis: ValuesAnalysis, group: Option<seq<Binding>>, db: Database, s: Statement)
      requires s in PerformMutation(analysis, group, db).statements
      ensures s.DeleteStatement? ==>
                && s.mutation.source == SourceOf(tableMapping.deleteDetails)
                && s.mutation.valueBindings == [] && s.mutation.keyBindings == keyBindings
                && s.mutation.optimisticLockBindings == optimisticLockBindings
      ensures s.UpdateStatement? ==>
                && s.mutation.source == SourceOf(tableMapping.updateDetails)
                && s.mutation.valueBindings == valueBindings && s.mutation.keyBindings == keyBindings
                && s.mutation.optimisticLockBindings == optimisticLockBindings
      ensures s.InsertStatement? ==>
                && s.mutation.source == SourceOf(tableMapping.insertDetails)
                && s.mutation.valueBindings == valueBindings + keyBindings
                && s.mutation.keyBindings == [] && s.mutation.optimisticLockBindings == []
    {
    }

    /** The INSERT lists the UPDATE's SET columns followed by its key columns. */
    lemma InsertColumnsAreUpdateColumns()
      ensures CreateTableInsert().valueBindings
              == CreateTableUpdate().valueBindings + CreateTableUpdate().keyBindings
    {
    }
  }
}
