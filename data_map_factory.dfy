/** The data map factory of the persistence mapper: it classifies each persisted property's
    column configuration as a one-to-one, one-to-many or many-to-many relation and fills
    the property's column map through its setters; it resolves a class's table name and
    flattens the class's configured subclasses.

    The external lookups are the table configuration (a column definitions lookup and a
    control section lookup per table); the factory records every lookup in a ghost log so
    that "looked up exactly once" and "never looked up" can be stated. */
module DataMapFactories {
  import opened Common
  import opened ColumnMapping

  /** The `config` part of a column's table configuration, as far as relations use it;
      an absent key is `None`. */
  datatype ColumnConfig = ColumnConfig(
    fieldType: Option<string>,
    foreignTable: Option<string>,
    foreignTableWhere: Option<string>,
    foreignField: Option<string>,
    foreignTableField: Option<string>,
    foreignSelector: Option<string>,
    foreignSortBy: Option<string>,
    mm: Option<string>,
    mmOppositeField: Option<string>,
    mmTableWhere: Option<string>,
    mmMatchFields: Option<map<string, string>>,
    mmInsertFields: Option<map<string, string>>)

  const NoKeys := ColumnConfig(None, None, None, None, None, None, None, None, None, None, None, None)

  /** The declared type of a property and, for a collection, its element type. */
  datatype PropertyMetaData = PropertyMetaData(propertyType: Option<string>, elementType: Option<string>)

  /** The table configuration: each table's column definitions and control section. */
  datatype Tca = Tca(
    columns: map<string, map<string, ColumnConfig>>,
    control: map<string, map<string, string>>)
  {
    /** getColumnsDefinition: the columns of a table, empty when it has none. */
    function ColumnsDefinition(table: Option<string>): map<string, ColumnConfig> {
      if table.Some? && table.value in columns then columns[table.value] else map[]
    }

    /** getControlSection: the control section of a table, NULL when it has none. */
    function ControlSection(table: Option<string>): Option<map<string, string>> {
      if table.Some? && table.value in control then Some(control[table.value]) else None
    }
  }

  /** A lookup the factory makes in the table configuration. */
  datatype Lookup = ColumnsDefinitionOf(table: Option<string>) | ControlSectionOf(table: Option<string>)

  /** The three relation builders of the factory. */
  datatype Builder = OneToOneBuilder | OneToManyBuilder | ManyToManyBuilder

  /** What a factory operation does: the builders it invokes, the lookups it makes and the
      setter calls it makes on the column map, each in order. */
  datatype Effects = Effects(builders: seq<Builder>, lookups: seq<Lookup>, calls: seq<Setter>)

  // ---------------------------------------------------------------------------------
  // Relation classification (setRelations)

  /** A property type names a domain class when it holds an underscore (legacy class
      names) or a backslash (namespaced class names); scalar types hold neither. */
  predicate IsClassName(t: string) {
    '_' in t || '\\' in t
  }

  /** The builder setRelations picks, or None when the column is not a relation. */
  function ChooseBuilder(config: Option<ColumnConfig>, meta: PropertyMetaData): Option<Builder> {
    if config.None? then None
    else if config.value.mm.Some? || config.value.foreignSelector.Some? then Some(ManyToManyBuilder)
    else if meta.elementType.Some? then Some(OneToManyBuilder)
    else if meta.propertyType.Some? && IsClassName(meta.propertyType.value) then Some(OneToOneBuilder)
    else None
  }

  /** The relation kind a builder assigns. */
  function KindOf(b: Option<Builder>): Relation {
    match b
    case None => RelationNone
    case Some(OneToOneBuilder) => RelationHasOne
    case Some(OneToManyBuilder) => RelationHasMany
    case Some(ManyToManyBuilder) => RelationHasAndBelongsToMany
  }

  /** The calls setOneToOneRelation makes: the kind, and the parent key field when the
      child row holds the back-reference. */
  function OneToOneCalls(config: ColumnConfig): seq<Setter>
  {
    [SetTypeOfRelation(RelationHasOne)]
    + (if config.foreignField.Some? then [SetParentKeyFieldName(config.foreignField)] else [])
  }

  /** The calls setOneToManyRelation makes: the kind, the child table, the back-reference
      field and, when given, the field that records the parent's table. */
  function OneToManyCalls(config: ColumnConfig): seq<Setter>
  {
    [SetTypeOfRelation(RelationHasMany),
     SetChildTableName(config.foreignTable),
     SetParentKeyFieldName(config.foreignField)]
    + ParentTableFieldCalls(config.foreignTableField)
  }

  /** The default sort field of the join table: `sorting` on the owning side,
      `sorting_foreign` on the opposite side of a bidirectional relation. */
  function DefaultSortBy(config: ColumnConfig): string {
    if config.mmOppositeField.Some? then "sorting_foreign" else "sorting"
  }

  /** The join table's column that refers to the parent: `uid_local` on the owning side,
      `uid_foreign` on the opposite side. */
  function DefaultParentKey(config: ColumnConfig): string {
    if config.mmOppositeField.Some? then "uid_foreign" else "uid_local"
  }

  /** The relation table of a many-to-many relation: the MM table, else the table the
      foreign selector's rows live in. */
  function RelationTableOf(config: ColumnConfig): Option<string> {
    if config.mm.Some? then config.mm else config.foreignTable
  }

  /** The table the foreign selector column of the relation table points to. */
  function SelectedTable(columns: map<string, ColumnConfig>, selector: string): Option<string> {
    if selector in columns then columns[selector].foreignTable else None
  }

  /** The sort field of a join table: the configured foreign sort-by, else the default. */
  function JoinTableSortBy(config: ColumnConfig): string {
    if config.foreignSortBy.Some? then config.foreignSortBy.value else DefaultSortBy(config)
  }

  /** The first calls of setManyToManyRelation: the kind, the relation table and the
      child table. */
  function RelationTablesCalls(relationTable: Option<string>, childTable: Option<string>): seq<Setter> {
    [SetTypeOfRelation(RelationHasAndBelongsToMany), SetRelationTableName(relationTable), SetChildTableName(childTable)]
  }

  /** The where clauses of an MM join table. */
  function WhereCalls(childWhere: Option<string>, relationWhere: Option<string>): seq<Setter> {
    [SetChildTableWhereStatement(childWhere), SetRelationTableWhereStatement(relationWhere)]
  }

  /** The sort field of the child rows and the relation table's column for the parent. */
  function JoinKeyCalls(sortBy: Option<string>, parentKey: Option<string>): seq<Setter> {
    [SetChildSortByFieldName(sortBy), SetParentKeyFieldName(parentKey)]
  }

  /** The match and insert fields of an MM join table, each only when configured. */
  function MatchInsertCalls(config: ColumnConfig): seq<Setter> {
    (if config.mmMatchFields.Some? then [SetRelationTableMatchFields(config.mmMatchFields.value)] else [])
    + (if config.mmInsertFields.Some? then [SetRelationTableInsertFields(config.mmInsertFields.value)] else [])
  }

  /** The field recording the parent's table, only when configured. */
  function ParentTableFieldCalls(foreignTableField: Option<string>): seq<Setter> {
    if foreignTableField.Some? then [SetParentTableFieldName(foreignTableField)] else []
  }

  /** The part of setManyToManyRelation for an MM join table. */
  function JoinTableEffects(config: ColumnConfig): Effects
  {
    Effects(
      [],
      [],
      RelationTablesCalls(config.mm, config.foreignTable)
      + WhereCalls(config.foreignTableWhere, config.mmTableWhere)
      + JoinKeyCalls(Some(JoinTableSortBy(config)), Some(DefaultParentKey(config)))
      + MatchInsertCalls(config))
  }

  /** The part of setManyToManyRelation for a foreign selector without an MM table. */
  function SelectorEffects(config: ColumnConfig, tca: Tca): Effects
    requires config.foreignSelector.Some?
  {
    var columns := tca.ColumnsDefinition(config.foreignTable);
    Effects(
      [],
      [ColumnsDefinitionOf(config.foreignTable)],
      RelationTablesCalls(config.foreignTable, SelectedTable(columns, config.foreignSelector.value))
      + JoinKeyCalls(config.foreignSortBy, config.foreignField)
      + ParentTableFieldCalls(config.foreignTableField))
  }

  /** The last part of setManyToManyRelation: look up the relation table's control
      section and, when there is one, set the page id column to `pid`. */
  function PageIdEffects(relationTable: Option<string>, tca: Tca): Effects {
    Effects(
      [],
      [ControlSectionOf(relationTable)],
      if tca.ControlSection(relationTable).Some? then [SetRelationTablePageIdColumnName("pid")] else [])
  }

  function Then(a: Effects, b: Effects): Effects {
    Effects(a.builders + b.builders, a.lookups + b.lookups, a.calls + b.calls)
  }

  /** The calls and lookups setManyToManyRelation makes; it fails when the configuration
      has neither an MM table nor a foreign selector. */
  function ManyToManyEffects(config: ColumnConfig, tca: Tca): (r: Result<Effects, Exception>)
    ensures r.Failure? <==> config.mm.None? && config.foreignSelector.None?
    ensures r.Failure? ==> r.error == UnsupportedRelation
    ensures r.Success? ==> r.value.builders == [] && |r.value.calls| >= 1
    ensures r.Success? ==> r.value.calls[0] == SetTypeOfRelation(RelationHasAndBelongsToMany)
  {
    if config.mm.Some? then
      Success(Then(JoinTableEffects(config), PageIdEffects(config.mm, tca)))
    else if config.foreignSelector.Some? then
      Success(Then(SelectorEffects(config, tca), PageIdEffects(config.foreignTable, tca)))
    else
      Failure(UnsupportedRelation)
  }

  /** What setRelations does for one property. */
  function RelationsEffects(config: Option<ColumnConfig>, meta: PropertyMetaData, tca: Tca): (e: Effects)
    ensures |e.builders| <= 1
    ensures e.builders == [] <==> ChooseBuilder(config, meta).None?
    ensures e.builders == [ManyToManyBuilder] <==>
      config.Some? && (config.value.mm.Some? || config.value.foreignSelector.Some?)
    ensures e.builders == [OneToManyBuilder] <==>
      config.Some? && config.value.mm.None? && config.value.foreignSelector.None? && meta.elementType.Some?
    ensures e.builders == [OneToOneBuilder] <==>
      && config.Some? && config.value.mm.None? && config.value.foreignSelector.None? && meta.elementType.None?
      && meta.propertyType.Some? && IsClassName(meta.propertyType.value)
    ensures e.builders == [] ==> e.calls == [SetTypeOfRelation(RelationNone)] && e.lookups == []
  {
    match ChooseBuilder(config, meta)
    case None => Effects([], [], [SetTypeOfRelation(RelationNone)])
    case Some(OneToOneBuilder) => Effects([OneToOneBuilder], [], OneToOneCalls(config.value))
    case Some(OneToManyBuilder) => Effects([OneToManyBuilder], [], OneToManyCalls(config.value))
    case Some(ManyToManyBuilder) =>
      var e := ManyToManyEffects(config.value, tca).value;
      e.(builders := [ManyToManyBuilder])
  }

  /** The column of the test's one-to-one and one-to-many cases: a select on a foreign
      table whose rows refer back to the parent through `parentid`. */
  const BarColumn := NoKeys.(fieldType := Some("select"), foreignTable := Some("tx_myextension_bar"),
                             foreignField := Some("parentid"))

  /** A property typed with a legacy or a namespaced class name and no element type is a
      one-to-one relation. */
  lemma DetectsOneToOneRelation(tca: Tca)
    ensures RelationsEffects(Some(BarColumn), PropertyMetaData(Some("Tx_Myext_Domain_Model_Foo"), None), tca).builders
         == [OneToOneBuilder]
    ensures RelationsEffects(Some(BarColumn),
              PropertyMetaData(Some(FrontendUser), None), tca).builders
         == [OneToOneBuilder]
  {
    assert "Tx_Myext_Domain_Model_Foo"[2] == '_';
    assert FrontendUser[5] == '\\';
  }

  /** A class-typed property whose column has an MM table is many-to-many, not
      one-to-one. */
  lemma DetectsOneToOneRelationWithIntermediateTable(tca: Tca)
    ensures RelationsEffects(
              Some(NoKeys.(fieldType := Some("select"), foreignTable := Some("tx_myextension_bar"), mm := Some("tx_myextension_mm"))),
              PropertyMetaData(Some("Tx_Myext_Domain_Model_Foo"), None), tca).builders
         == [ManyToManyBuilder]
  {
  }

  /** An object storage with an element type over a column with a back-reference field
      is a one-to-many relation. */
  lemma DetectsOneToManyRelation(tca: Tca)
    ensures RelationsEffects(Some(BarColumn.(foreignTableField := Some("parenttable"))),
              PropertyMetaData(Some("TYPO3\\CMS\\Extbase\\Persistence\\ObjectStorage"), Some("Tx_Myext_Domain_Model_Foo")),
              tca).builders
         == [OneToManyBuilder]
  {
  }

  /** An object storage over a select or inline column with an MM table, or over an
      inline column with a foreign selector, is a many-to-many relation. */
  lemma DetectsManyToManyRelation(tca: Tca)
    ensures var storage := PropertyMetaData(Some("TYPO3\\CMS\\Extbase\\Persistence\\ObjectStorage"), Some("Tx_Myext_Domain_Model_Foo"));
      && RelationsEffects(
           Some(NoKeys.(fieldType := Some("select"), foreignTable := Some("tx_myextension_bar"), mm := Some("tx_myextension_mm"))),
           storage, tca).builders == [ManyToManyBuilder]
      && RelationsEffects(
           Some(NoKeys.(fieldType := Some("inline"), foreignTable := Some("tx_myextension_righttable"), mm := Some("tx_myextension_mm"))),
           storage, tca).builders == [ManyToManyBuilder]
      && RelationsEffects(
           Some(NoKeys.(fieldType := Some("inline"), foreignTable := Some("tx_myextension_mm"), foreignField := Some("uid_local"),
                        foreignSelector := Some("uid_foreign"))),
           storage, tca).builders == [ManyToManyBuilder]
  {
  }

  /** The page id step sets nothing but the page id column. */
  lemma PageIdSetsOnlyPageId(relationTable: Option<string>, tca: Tca, f: Field)
    requires f != RelationTablePageIdColumnNameField
    ensures NeverSet(PageIdEffects(relationTable, tca).calls, f)
  {
    if tca.ControlSection(relationTable).Some? {
      CountSingle(SetRelationTablePageIdColumnName("pid"), f);
    }
  }

  /** The page id step sets the page id column, to `pid`, exactly when the table has a
      control section. */
  lemma PageIdCalls(relationTable: Option<string>, tca: Tca)
    ensures var calls := PageIdEffects(relationTable, tca).calls;
      && (tca.ControlSection(relationTable).Some? ==> SetOnce(calls, SetRelationTablePageIdColumnName("pid")))
      && (tca.ControlSection(relationTable).None? ==> NeverSet(calls, RelationTablePageIdColumnNameField))
  {
    if tca.ControlSection(relationTable).Some? {
      CountSingle(SetRelationTablePageIdColumnName("pid"), RelationTablePageIdColumnNameField);
    }
  }

  /** The optional parent table field sets nothing else, and sets that field exactly when
      it is configured. */
  lemma ParentTableFieldCount(foreignTableField: Option<string>, f: Field)
    ensures Count(ParentTableFieldCalls(foreignTableField), f)
         == if foreignTableField.Some? && f == ParentTableFieldNameField then 1 else 0
  {
    if foreignTableField.Some? {
      CountSingle(SetParentTableFieldName(foreignTableField), f);
    }
  }

  /** The optional match and insert fields set nothing else, and each exactly when it is
      configured. */
  lemma MatchInsertCount(config: ColumnConfig, f: Field)
    ensures Count(MatchInsertCalls(config), f)
         == (if f == RelationTableMatchFieldsField && config.mmMatchFields.Some? then 1 else 0)
          + (if f == RelationTableInsertFieldsField && config.mmInsertFields.Some? then 1 else 0)
  {
    var m := if config.mmMatchFields.Some? then [SetRelationTableMatchFields(config.mmMatchFields.value)] else [];
    var i := if config.mmInsertFields.Some? then [SetRelationTableInsertFields(config.mmInsertFields.value)] else [];
    CountAppend(m, i, f);
    if config.mmMatchFields.Some? {
      CountSingle(m[0], f);
    }
    if config.mmInsertFields.Some? {
      CountSingle(i[0], f);
    }
  }

  lemma RelationTablesCount(relationTable: Option<string>, childTable: Option<string>, f: Field)
    ensures Count(RelationTablesCalls(relationTable, childTable), f)
         == if f == TypeOfRelationField || f == RelationTableNameField || f == ChildTableNameField then 1 else 0
  {
    CountTriple(SetTypeOfRelation(RelationHasAndBelongsToMany), SetRelationTableName(relationTable),
      SetChildTableName(childTable), f);
  }

  lemma WhereCount(childWhere: Option<string>, relationWhere: Option<string>, f: Field)
    ensures Count(WhereCalls(childWhere, relationWhere), f)
         == if f == ChildTableWhereStatementField || f == RelationTableWhereStatementField then 1 else 0
  {
    CountPair(SetChildTableWhereStatement(childWhere), SetRelationTableWhereStatement(relationWhere), f);
  }

  lemma JoinKeyCount(sortBy: Option<string>, parentKey: Option<string>, f: Field)
    ensures Count(JoinKeyCalls(sortBy, parentKey), f)
         == if f == ChildSortByFieldNameField || f == ParentKeyFieldNameField then 1 else 0
  {
    CountPair(SetChildSortByFieldName(sortBy), SetParentKeyFieldName(parentKey), f);
  }

  /** An MM join table's own calls set every attribute exactly once, except the parent
      table field and the page id column, which they never set, and the match and insert
      fields, which they set once when configured and never otherwise. */
  lemma JoinTableCount(config: ColumnConfig, f: Field)
    ensures Count(JoinTableEffects(config).calls, f)
         == if f == ParentTableFieldNameField || f == RelationTablePageIdColumnNameField then 0
            else if f == RelationTableMatchFieldsField then (if config.mmMatchFields.Some? then 1 else 0)
            else if f == RelationTableInsertFieldsField then (if config.mmInsertFields.Some? then 1 else 0)
            else 1
  {
    var t := RelationTablesCalls(config.mm, config.foreignTable);
    var w := WhereCalls(config.foreignTableWhere, config.mmTableWhere);
    var k := JoinKeyCalls(Some(JoinTableSortBy(config)), Some(DefaultParentKey(config)));
    CountAppend(t + w + k, MatchInsertCalls(config), f);
    CountAppend(t + w, k, f);
    CountAppend(t, w, f);
    RelationTablesCount(config.mm, config.foreignTable, f);
    WhereCount(config.foreignTableWhere, config.mmTableWhere, f);
    JoinKeyCount(Some(JoinTableSortBy(config)), Some(DefaultParentKey(config)), f);
    MatchInsertCount(config, f);
  }

  /** A foreign selector's own calls set the relation kind, both tables, the sort field
      and the parent key exactly once, the parent table field once when configured, and
      nothing else. */
  lemma SelectorCount(config: ColumnConfig, tca: Tca, f: Field)
    requires config.foreignSelector.Some?
    ensures Count(SelectorEffects(config, tca).calls, f)
         == if f == ParentTableFieldNameField then (if config.foreignTableField.Some? then 1 else 0)
            else if f == TypeOfRelationField || f == RelationTableNameField || f == ChildTableNameField
                 || f == ChildSortByFieldNameField || f == ParentKeyFieldNameField then 1
            else 0
  {
    var t := RelationTablesCalls(config.foreignTable,
      SelectedTable(tca.ColumnsDefinition(config.foreignTable), config.foreignSelector.value));
    var k := JoinKeyCalls(config.foreignSortBy, config.foreignField);
    CountAppend(t + k, ParentTableFieldCalls(config.foreignTableField), f);
    CountAppend(t, k, f);
    RelationTablesCount(config.foreignTable,
      SelectedTable(tca.ColumnsDefinition(config.foreignTable), config.foreignSelector.value), f);
    JoinKeyCount(config.foreignSortBy, config.foreignField, f);
    ParentTableFieldCount(config.foreignTableField, f);
  }

  /** Outside the page id column, a many-to-many relation sets what its first step sets. */
  lemma ManyToManyBeforePageId(config: ColumnConfig, tca: Tca, f: Field)
    requires config.mm.Some? || config.foreignSelector.Some?
    requires f != RelationTablePageIdColumnNameField
    ensures Count(ManyToManyEffects(config, tca).value.calls, f)
         == if config.mm.Some? then Count(JoinTableEffects(config).calls, f)
            else Count(SelectorEffects(config, tca).calls, f)
  {
    var first := if config.mm.Some? then JoinTableEffects(config) else SelectorEffects(config, tca);
    CountAppend(first.calls, PageIdEffects(RelationTableOf(config), tca).calls, f);
    PageIdSetsOnlyPageId(RelationTableOf(config), tca, f);
  }

  /** The join table's own calls set the relation table once, to the MM table. */
  lemma JoinTableSetsRelationTable(config: ColumnConfig)
    ensures SetOnce(JoinTableEffects(config).calls, SetRelationTableName(config.mm))
  {
    assert SetRelationTableName(config.mm).Target() == RelationTableNameField;
    JoinTableCount(config, RelationTableNameField);
  }

  /** The selector's own calls set the relation table once, to the selector's table. */
  lemma SelectorSetsRelationTable(config: ColumnConfig, tca: Tca)
    requires config.foreignSelector.Some?
    ensures SetOnce(SelectorEffects(config, tca).calls, SetRelationTableName(config.foreignTable))
  {
    assert SetRelationTableName(config.foreignTable).Target() == RelationTableNameField;
    SelectorCount(config, tca, RelationTableNameField);
  }

  /** An MM join table: the relation kind, both tables and both where clauses are each
      set exactly once, to the configured values. */
  lemma JoinTableTables(config: ColumnConfig, tca: Tca)
    requires config.mm.Some?
    ensures var calls := ManyToManyEffects(config, tca).value.calls;
      && SetOnce(calls, SetTypeOfRelation(RelationHasAndBelongsToMany))
      && SetOnce(calls, SetRelationTableName(config.mm))
      && SetOnce(calls, SetChildTableName(config.foreignTable))
      && SetOnce(calls, SetChildTableWhereStatement(config.foreignTableWhere))
      && SetOnce(calls, SetRelationTableWhereStatement(config.mmTableWhere))
  {
    assert SetTypeOfRelation(RelationHasAndBelongsToMany).Target() == TypeOfRelationField;
    assert SetRelationTableName(config.mm).Target() == RelationTableNameField;
    assert SetChildTableName(config.foreignTable).Target() == ChildTableNameField;
    assert SetChildTableWhereStatement(config.foreignTableWhere).Target() == ChildTableWhereStatementField;
    assert SetRelationTableWhereStatement(config.mmTableWhere).Target() == RelationTableWhereStatementField;
    var calls := ManyToManyEffects(config, tca).value.calls;
    assert SetOnce(calls, SetTypeOfRelation(RelationHasAndBelongsToMany)) by {
      JoinTableCount(config, TypeOfRelationField);
      ManyToManyBeforePageId(config, tca, TypeOfRelationField);
    }
    assert SetOnce(calls, SetRelationTableName(config.mm)) by {
      JoinTableCount(config, RelationTableNameField);
      ManyToManyBeforePageId(config, tca, RelationTableNameField);
    }
    assert SetOnce(calls, SetChildTableName(config.foreignTable)) by {
      JoinTableCount(config, ChildTableNameField);
      ManyToManyBeforePageId(config, tca, ChildTableNameField);
    }
    assert SetOnce(calls, SetChildTableWhereStatement(config.foreignTableWhere)) by {
      JoinTableCount(config, ChildTableWhereStatementField);
      ManyToManyBeforePageId(config, tca, ChildTableWhereStatementField);
    }
    JoinTableCount(config, RelationTableWhereStatementField);
    ManyToManyBeforePageId(config, tca, RelationTableWhereStatementField);
  }

  /** An MM join table: the sort field is the configured foreign sort-by, else `sorting`,
      or `sorting_foreign` on the opposite side; the parent key is `uid_local`, or
      `uid_foreign` on the opposite side; each is set exactly once. */
  lemma JoinTableKeys(config: ColumnConfig, tca: Tca)
    requires config.mm.Some?
    ensures var calls := ManyToManyEffects(config, tca).value.calls;
      && SetOnce(calls, SetChildSortByFieldName(Some(
           if config.foreignSortBy.Some? then config.foreignSortBy.value
           else if config.mmOppositeField.Some? then "sorting_foreign" else "sorting")))
      && SetOnce(calls, SetParentKeyFieldName(Some(
           if config.mmOppositeField.Some? then "uid_foreign" else "uid_local")))
  {
    assert SetChildSortByFieldName(Some(JoinTableSortBy(config))).Target() == ChildSortByFieldNameField;
    assert SetParentKeyFieldName(Some(DefaultParentKey(config))).Target() == ParentKeyFieldNameField;
    JoinTableCount(config, ChildSortByFieldNameField);
    ManyToManyBeforePageId(config, tca, ChildSortByFieldNameField);
    JoinTableCount(config, ParentKeyFieldNameField);
    ManyToManyBeforePageId(config, tca, ParentKeyFieldNameField);
  }

  /** An MM join table never sets the parent table field, and sets the match and insert
      fields exactly when they are configured; it looks up nothing but the join table's
      control section. */
  lemma JoinTableOptional(config: ColumnConfig, tca: Tca)
    requires config.mm.Some?
    ensures var e := ManyToManyEffects(config, tca).value;
      && e.lookups == [ControlSectionOf(config.mm)]
      && NeverSet(e.calls, ParentTableFieldNameField)
      && (config.mmMatchFields.Some? ==> SetOnce(e.calls, SetRelationTableMatchFields(config.mmMatchFields.value)))
      && (config.mmMatchFields.None? ==> NeverSet(e.calls, RelationTableMatchFieldsField))
      && (config.mmInsertFields.Some? ==> SetOnce(e.calls, SetRelationTableInsertFields(config.mmInsertFields.value)))
      && (config.mmInsertFields.None? ==> NeverSet(e.calls, RelationTableInsertFieldsField))
  {
    if config.mmMatchFields.Some? {
      assert SetRelationTableMatchFields(config.mmMatchFields.value).Target() == RelationTableMatchFieldsField;
    }
    if config.mmInsertFields.Some? {
      assert SetRelationTableInsertFields(config.mmInsertFields.value).Target() == RelationTableInsertFieldsField;
    }
    JoinTableCount(config, ParentTableFieldNameField);
    ManyToManyBeforePageId(config, tca, ParentTableFieldNameField);
    JoinTableCount(config, RelationTableMatchFieldsField);
    ManyToManyBeforePageId(config, tca, RelationTableMatchFieldsField);
    JoinTableCount(config, RelationTableInsertFieldsField);
    ManyToManyBeforePageId(config, tca, RelationTableInsertFieldsField);
  }

  /** A foreign selector without an MM table: the relation table is the selector's own
      table and the child table is what the selector column of that table points to; the
      sort field is the foreign sort-by and the parent key the foreign field; each is set
      exactly once. */
  lemma SelectorTables(config: ColumnConfig, tca: Tca)
    requires config.mm.None? && config.foreignSelector.Some?
    ensures var calls := ManyToManyEffects(config, tca).value.calls;
      && SetOnce(calls, SetTypeOfRelation(RelationHasAndBelongsToMany))
      && SetOnce(calls, SetRelationTableName(config.foreignTable))
      && SetOnce(calls, SetChildTableName(SelectedTable(tca.ColumnsDefinition(config.foreignTable), config.foreignSelector.value)))
      && SetOnce(calls, SetChildSortByFieldName(config.foreignSortBy))
      && SetOnce(calls, SetParentKeyFieldName(config.foreignField))
  {
    assert SetTypeOfRelation(RelationHasAndBelongsToMany).Target() == TypeOfRelationField;
    assert SetRelationTableName(config.foreignTable).Target() == RelationTableNameField;
    assert SetChildTableName(SelectedTable(tca.ColumnsDefinition(config.foreignTable), config.foreignSelector.value)).Target() == ChildTableNameField;
    assert SetChildSortByFieldName(config.foreignSortBy).Target() == ChildSortByFieldNameField;
    assert SetParentKeyFieldName(config.foreignField).Target() == ParentKeyFieldNameField;
    SelectorCount(config, tca, TypeOfRelationField);
    ManyToManyBeforePageId(config, tca, TypeOfRelationField);
    SelectorCount(config, tca, RelationTableNameField);
    ManyToManyBeforePageId(config, tca, RelationTableNameField);
    SelectorCount(config, tca, ChildTableNameField);
    ManyToManyBeforePageId(config, tca, ChildTableNameField);
    SelectorCount(config, tca, ChildSortByFieldNameField);
    ManyToManyBeforePageId(config, tca, ChildSortByFieldNameField);
    SelectorCount(config, tca, ParentKeyFieldNameField);
    ManyToManyBeforePageId(config, tca, ParentKeyFieldNameField);
  }

  /** A foreign selector without an MM table sets the parent table field only when it is
      configured, and never a where clause, match or insert fields. It looks up the
      selector's table once for its column definitions, then once for its control
      section. */
  lemma SelectorOptional(config: ColumnConfig, tca: Tca)
    requires config.mm.None? && config.foreignSelector.Some?
    ensures var e := ManyToManyEffects(config, tca).value;
      && e.lookups == [ColumnsDefinitionOf(config.foreignTable), ControlSectionOf(config.foreignTable)]
      && (config.foreignTableField.Some? ==> SetOnce(e.calls, SetParentTableFieldName(config.foreignTableField)))
      && (config.foreignTableField.None? ==> NeverSet(e.calls, ParentTableFieldNameField))
      && NeverSet(e.calls, ChildTableWhereStatementField)
      && NeverSet(e.calls, RelationTableWhereStatementField)
      && NeverSet(e.calls, RelationTableMatchFieldsField)
      && NeverSet(e.calls, RelationTableInsertFieldsField)
  {
    assert SetParentTableFieldName(config.foreignTableField).Target() == ParentTableFieldNameField;
    SelectorCount(config, tca, ParentTableFieldNameField);
    ManyToManyBeforePageId(config, tca, ParentTableFieldNameField);
    SelectorCount(config, tca, ChildTableWhereStatementField);
    ManyToManyBeforePageId(config, tca, ChildTableWhereStatementField);
    SelectorCount(config, tca, RelationTableWhereStatementField);
    ManyToManyBeforePageId(config, tca, RelationTableWhereStatementField);
    SelectorCount(config, tca, RelationTableMatchFieldsField);
    ManyToManyBeforePageId(config, tca, RelationTableMatchFieldsField);
    SelectorCount(config, tca, RelationTableInsertFieldsField);
    ManyToManyBeforePageId(config, tca, RelationTableInsertFieldsField);
  }

  /** The relation table's page id column is set, to `pid`, exactly when the relation
      table has a control section; otherwise it is never set. */
  lemma PageIdColumnFollowsControlSection(config: ColumnConfig, tca: Tca)
    requires config.mm.Some? || config.foreignSelector.Some?
    ensures var calls := ManyToManyEffects(config, tca).value.calls;
      && (tca.ControlSection(RelationTableOf(config)).Some? ==> SetOnce(calls, SetRelationTablePageIdColumnName("pid")))
      && (tca.ControlSection(RelationTableOf(config)).None? ==> NeverSet(calls, RelationTablePageIdColumnNameField))
  {
    assert SetRelationTablePageIdColumnName("pid").Target() == RelationTablePageIdColumnNameField;
    var f := RelationTablePageIdColumnNameField;
    var p := PageIdEffects(RelationTableOf(config), tca).calls;
    PageIdCalls(RelationTableOf(config), tca);
    if config.mm.Some? {
      JoinTableCount(config, f);
      CountAppend(JoinTableEffects(config).calls, p, f);
    } else {
      SelectorCount(config, tca, f);
      CountAppend(SelectorEffects(config, tca).calls, p, f);
    }
  }

  /** setRelations sets the relation kind first, and exactly once: every column map the
      classifier fills gets the kind of the builder it picked. */
  lemma ExactlyOneRelationKind(config: Option<ColumnConfig>, meta: PropertyMetaData, tca: Tca)
    ensures var calls := RelationsEffects(config, meta, tca).calls;
      && calls[0] == SetTypeOfRelation(KindOf(ChooseBuilder(config, meta)))
      && SetOnce(calls, SetTypeOfRelation(KindOf(ChooseBuilder(config, meta))))
  {
    assert SetTypeOfRelation(KindOf(ChooseBuilder(config, meta))).Target() == TypeOfRelationField;
    var f := TypeOfRelationField;
    match ChooseBuilder(config, meta)
    case None =>
      CountSingle(SetTypeOfRelation(RelationNone), f);
    case Some(OneToOneBuilder) =>
      var c := config.value;
      var opt := if c.foreignField.Some? then [SetParentKeyFieldName(c.foreignField)] else [];
      CountAppend([SetTypeOfRelation(RelationHasOne)], opt, f);
      CountSingle(SetTypeOfRelation(RelationHasOne), f);
      if opt != [] {
        CountSingle(opt[0], f);
      }
    case Some(OneToManyBuilder) =>
      var c := config.value;
      CountAppend([SetTypeOfRelation(RelationHasMany), SetChildTableName(c.foreignTable),
        SetParentKeyFieldName(c.foreignField)], ParentTableFieldCalls(c.foreignTableField), f);
      CountTriple(SetTypeOfRelation(RelationHasMany), SetChildTableName(c.foreignTable),
        SetParentKeyFieldName(c.foreignField), f);
      ParentTableFieldCount(c.foreignTableField, f);
    case Some(ManyToManyBuilder) =>
      if config.value.mm.Some? {
        JoinTableTables(config.value, tca);
      } else {
        SelectorTables(config.value, tca);
      }
  }

  /** After setRelations on a fresh column map, its relation kind is the one of the
      builder the classifier picked. */
  lemma FilledMapHasItsKind(config: Option<ColumnConfig>, meta: PropertyMetaData, tca: Tca)
    ensures Replay(Unmapped, RelationsEffects(config, meta, tca).calls).typeOfRelation
         == Some(KindOf(ChooseBuilder(config, meta)))
  {
    var calls := RelationsEffects(config, meta, tca).calls;
    ExactlyOneRelationKind(config, meta, tca);
    assert [] + calls == calls;
    LastCallWins(Unmapped, [], calls, SetTypeOfRelation(KindOf(ChooseBuilder(config, meta))));
  }

  // ---------------------------------------------------------------------------------
  // Subclasses, table names and the data map (buildDataMap)

  /** The subclasses of the configured classes, flattened depth first in pre-order: each
      listed subclass, then the flattened subclasses configured for it, then the next
      one. `classes` maps a class to the subclasses its configuration lists; `visiting`
      holds the classes being expanded on the current path, whose expansion is not
      repeated. */
  function Subclasses(classes: map<string, seq<string>>, subclasses: seq<string>, visiting: set<string>): seq<string>
    decreases classes.Keys - visiting, |subclasses|
  {
    if subclasses == [] then []
    else
      var s := subclasses[0];
      [s]
      + (if s in classes && s !in visiting then Subclasses(classes, classes[s], visiting + {s}) else [])
      + Subclasses(classes, subclasses[1..], visiting)
  }

  /** Flattening a concatenation flattens each part in turn. */
  lemma {:induction false} SubclassesAppend(classes: map<string, seq<string>>, a: seq<string>, b: seq<string>, visiting: set<string>)
    ensures Subclasses(classes, a + b, visiting) == Subclasses(classes, a, visiting) + Subclasses(classes, b, visiting)
    decreases |a|
  {
    if a == [] {
      assert a + b == b;
    } else {
      assert (a + b)[0] == a[0];
      assert (a + b)[1..] == a[1..] + b;
      SubclassesAppend(classes, a[1..], b, visiting);
    }
  }

  /** Every directly listed subclass is in the flattened list. */
  lemma {:induction false} SubclassesListsDirect(classes: map<string, seq<string>>, subclasses: seq<string>, visiting: set<string>)
    ensures forall s :: s in subclasses ==> s in Subclasses(classes, subclasses, visiting)
    decreases |subclasses|
  {
    if subclasses != [] {
      SubclassesListsDirect(classes, subclasses[1..], visiting);
      forall s | s in subclasses
        ensures s in Subclasses(classes, subclasses, visiting)
      {
        if s != subclasses[0] {
          assert s in subclasses[1..];
        }
      }
    }
  }

  /** The flattened list is closed under the configuration: with every class it holds,
      it holds that class's configured subclasses, unless the class was already being
      expanded on the way in. */
  lemma {:induction false} SubclassesClosed(classes: map<string, seq<string>>, subclasses: seq<string>, visiting: set<string>, c: string)
    requires c in Subclasses(classes, subclasses, visiting) && c in classes
    ensures c in visiting || forall d :: d in classes[c] ==> d in Subclasses(classes, subclasses, visiting)
    decreases classes.Keys - visiting, |subclasses|
  {
    var r := Subclasses(classes, subclasses, visiting);
    var s := subclasses[0];
    var expanded := if s in classes && s !in visiting then Subclasses(classes, classes[s], visiting + {s}) else [];
    var rest := Subclasses(classes, subclasses[1..], visiting);
    assert r == [s] + expanded + rest;
    if c !in visiting {
      if c == s {
        SubclassesListsDirect(classes, classes[s], visiting + {s});
      } else if c in expanded {
        SubclassesClosed(classes, classes[s], visiting + {s}, c);
        assert c == s || forall d :: d in classes[c] ==> d in expanded;
      } else {
        assert c in rest;
        SubclassesClosed(classes, subclasses[1..], visiting, c);
      }
    }
  }

  /** Everything in the flattened list is a listed subclass or was configured as the
      subclass of a class in the list. */
  lemma {:induction false} SubclassesSound(classes: map<string, seq<string>>, subclasses: seq<string>, visiting: set<string>, c: string)
    requires c in Subclasses(classes, subclasses, visiting)
    ensures c in subclasses || exists p :: p in classes && p in Subclasses(classes, subclasses, visiting) && c in classes[p]
    decreases classes.Keys - visiting, |subclasses|
  {
    var r := Subclasses(classes, subclasses, visiting);
    var s := subclasses[0];
    var expanded := if s in classes && s !in visiting then Subclasses(classes, classes[s], visiting + {s}) else [];
    var rest := Subclasses(classes, subclasses[1..], visiting);
    assert r == [s] + expanded + rest;
    if c != s {
      if c in expanded {
        SubclassesSound(classes, classes[s], visiting + {s}, c);
        if c !in classes[s] {
          var p :| p in classes && p in expanded && c in classes[p];
          assert p in r;
        }
      } else {
        assert c in rest;
        SubclassesSound(classes, subclasses[1..], visiting, c);
        if c !in subclasses[1..] {
          var p :| p in classes && p in rest && c in classes[p];
          assert p in r;
        }
      }
    }
  }

  const FrontendUser := "TYPO3\\CMS\\Extbase\\Domain\\Model\\FrontendUser"
  const LevelOne1 := "Tx_SampleExt_Domain_Model_LevelOne1"
  const LevelOne2 := "Tx_SampleExt_Domain_Model_LevelOne2"
  const LevelTwo1 := "Tx_SampleExt_Domain_Model_LevelTwo1"
  const LevelTwo2 := "Tx_SampleExt_Domain_Model_LevelTwo2"

  /** The two-level configuration below FrontendUser flattens in pre-order. */
  lemma SubclassesOfFrontendUser()
    ensures Subclasses(
      map[FrontendUser := [LevelOne1, LevelOne2], LevelOne1 := [LevelTwo1, LevelTwo2], LevelOne2 := []],
      [LevelOne1, LevelOne2], {FrontendUser})
      == [LevelOne1, LevelTwo1, LevelTwo2, LevelOne2]
  {
    var classes := map[FrontendUser := [LevelOne1, LevelOne2], LevelOne1 := [LevelTwo1, LevelTwo2], LevelOne2 := []];
    var v := {FrontendUser};
    assert LevelOne1 != FrontendUser && LevelOne2 != FrontendUser && LevelOne2 != LevelOne1;
    assert LevelTwo1 !in classes && LevelTwo2 !in classes;
    assert Subclasses(classes, [LevelTwo2], v + {LevelOne1}) == [LevelTwo2];
    assert Subclasses(classes, [LevelTwo1, LevelTwo2], v + {LevelOne1}) == [LevelTwo1, LevelTwo2];
    assert Subclasses(classes, [LevelOne2], v) == [LevelOne2];
  }

  /** The segments of a core class name: vendor `TYPO3`, product `CMS`, and more. */
  predicate IsCoreClass(parts: seq<string>) {
    |parts| >= 3 && parts[0] == "TYPO3" && parts[1] == "CMS"
  }

  /** resolveTableName: a namespaced class name loses its vendor segment (and, for core
      classes, the product segment too); the remaining segments are joined with `_`,
      lower-cased and prefixed with `tx_`. A legacy class name is lower-cased. */
  function ResolveTableName(className: string): string {
    if '\\' in className then
      var parts := Split(className, '\\');
      var skip := if IsCoreClass(parts) then 2 else 1;
      "tx_" + Lower(Join(parts[skip..], "_"))
    else
      Lower(className)
  }

  /** A table name holds no upper-case letter and no backslash; a namespaced class gets
      the `tx_` prefix, and a legacy class keeps its length. */
  lemma TableNameShape(className: string)
    ensures forall i :: 0 <= i < |ResolveTableName(className)| ==> !IsUpper(ResolveTableName(className)[i])
    ensures '\\' !in ResolveTableName(className)
    ensures '\\' in className ==> StartsWith(ResolveTableName(className), "tx_")
    ensures '\\' !in className ==> |ResolveTableName(className)| == |className|
  {
    if '\\' in className {
      var parts := Split(className, '\\');
      var skip := if IsCoreClass(parts) then 2 else 1;
      var kept := parts[skip..];
      var joined := Join(kept, "_");
      JoinAvoids(kept, "_", '\\');
      LowerIsLower(joined);
      var r := "tx_" + Lower(joined);
      assert r[..3] == "tx_";
      forall i | 0 <= i < |r|
        ensures !IsUpper(r[i])
      {
        if i >= 3 {
          assert r[i] == Lower(joined)[i - 3];
        }
      }
    } else {
      LowerIsLower(className);
    }
  }

  /** A namespaced class name has a backslash after its first segment. */
  lemma JoinedHasSeparator(parts: seq<string>)
    requires |parts| >= 2
    ensures '\\' in Join(parts, ['\\'])
  {
    assert Join(parts, ['\\'])[|parts[0]|] == '\\';
  }

  /** A vendor class `Vendor\Extension\...\Model` is named after the segments below its
      vendor. */
  lemma TableNameOfVendorClass(parts: seq<string>)
    requires |parts| >= 2 && !IsCoreClass(parts)
    requires forall i :: 0 <= i < |parts| ==> '\\' !in parts[i]
    ensures ResolveTableName(Join(parts, ['\\'])) == "tx_" + Lower(Join(parts[1..], "_"))
  {
    JoinedHasSeparator(parts);
    SplitJoin(parts, '\\');
  }

  /** A core class `TYPO3\CMS\Extension\...\Model` is named after the segments below its
      product. */
  lemma TableNameOfCoreClass(parts: seq<string>)
    requires IsCoreClass(parts)
    requires forall i :: 0 <= i < |parts| ==> '\\' !in parts[i]
    ensures ResolveTableName(Join(parts, ['\\'])) == "tx_" + Lower(Join(parts[2..], "_"))
  {
    JoinedHasSeparator(parts);
    SplitJoin(parts, '\\');
  }

  /** The legacy class name the convention is fitted to. */
  lemma TableNameOfNews()
    ensures ResolveTableName("Tx_News_Domain_Model_News") == "tx_news_domain_model_news"
  {
    var s := "Tx_News_Domain_Model_News";
    assert forall i :: 0 <= i < |s| ==> s[i] != '\\';
    assert '\\' !in s;
    LowerPointwise(s, "tx_news_domain_model_news");
  }

  /** The mapping of one class: its table and its flattened subclasses. */
  datatype DataMap = DataMap(className: string, tableName: string, subclasses: seq<string>)

  /** The subclasses configured directly for a class (none when it has no entry). */
  function ConfiguredSubclasses(classes: map<string, seq<string>>, className: string): seq<string> {
    if className in classes then classes[className] else []
  }

  /** buildDataMap: a data map found in the cache is returned as it is; on a cache miss an
      unknown class is refused, and a known one is mapped to its table with its
      subclasses flattened below it. */
  function BuildDataMap(className: string, cached: Option<DataMap>, env: Environment, classes: map<string, seq<string>>)
    : (r: Result<DataMap, Exception>)
    ensures cached.Some? ==> r == Success(cached.value)
    ensures r.Failure? <==> cached.None? && !env.ClassExists(className)
    ensures r.Failure? ==> r.error == InvalidClass(className)
    ensures r.Success? && cached.None? ==> r.value.className == className
  {
    if cached.Some? then Success(cached.value)
    else if !env.ClassExists(className) then Failure(InvalidClass(className))
    else Success(DataMap(className, ResolveTableName(className),
      Subclasses(classes, ConfiguredSubclasses(classes, className), {className})))
  }

  /** A freshly built data map lists every configured subclass and, with each class in
      it, that class's configured subclasses; it lists nothing else. */
  lemma BuildDataMapListsSubclasses(className: string, env: Environment, classes: map<string, seq<string>>)
    requires env.ClassExists(className)
    ensures BuildDataMap(className, None, env, classes).Success?
    ensures BuildDataMap(className, None, env, classes).value.tableName == ResolveTableName(className)
    ensures forall s :: s in ConfiguredSubclasses(classes, className) ==>
      s in BuildDataMap(className, None, env, classes).value.subclasses
    ensures forall c, d ::
      (c in BuildDataMap(className, None, env, classes).value.subclasses && c in classes && c != className && d in classes[c])
      ==> d in BuildDataMap(className, None, env, classes).value.subclasses
    ensures forall c :: c in BuildDataMap(className, None, env, classes).value.subclasses ==>
      c in ConfiguredSubclasses(classes, className)
      || exists p :: p in classes && p in BuildDataMap(className, None, env, classes).value.subclasses && c in classes[p]
  {
    var direct := ConfiguredSubclasses(classes, className);
    var flat := Subclasses(classes, direct, {className});
    SubclassesListsDirect(classes, direct, {className});
    forall c, d | c in flat && c in classes && c != className && d in classes[c]
      ensures d in flat
    {
      SubclassesClosed(classes, direct, {className}, c);
    }
    forall c | c in flat
      ensures c in direct || exists p :: p in classes && p in flat && c in classes[p]
    {
      SubclassesSound(classes, direct, {className}, c);
    }
  }

  /** FrontendUser with two subclasses, the first of which has two of its own. */
  lemma BuildDataMapOfFrontendUser(env: Environment)
    requires env.ClassExists(FrontendUser)
    ensures BuildDataMap(FrontendUser, None, env,
      map[FrontendUser := [LevelOne1, LevelOne2], LevelOne1 := [LevelTwo1, LevelTwo2], LevelOne2 := []])
      == Success(DataMap(FrontendUser, ResolveTableName(FrontendUser), [LevelOne1, LevelTwo1, LevelTwo2, LevelOne2]))
  {
    SubclassesOfFrontendUser();
  }

  // ---------------------------------------------------------------------------------
  // The factory object

  /** The factory, with the table configuration it reads and ghost logs of the lookups it
      makes and the relation builders it runs. */
  class DataMapFactory {
    const tca: Tca
    ghost var lookups: seq<Lookup>
    ghost var builders: seq<Builder>

    constructor (tca: Tca)
      ensures this.tca == tca && lookups == [] && builders == []
    {
      this.tca := tca;
      lookups, builders := [], [];
    }

    method GetColumnsDefinition(table: Option<string>) returns (columns: map<string, ColumnConfig>)
      modifies this`lookups
      ensures columns == tca.ColumnsDefinition(table)
      ensures lookups == old(lookups) + [ColumnsDefinitionOf(table)]
    {
      lookups := lookups + [ColumnsDefinitionOf(table)];
      columns := if table.Some? && table.value in tca.columns then tca.columns[table.value] else map[];
    }

    method GetControlSection(table: Option<string>) returns (section: Option<map<string, string>>)
      modifies this`lookups
      ensures section == tca.ControlSection(table)
      ensures lookups == old(lookups) + [ControlSectionOf(table)]
    {
      lookups := lookups + [ControlSectionOf(table)];
      section := if table.Some? && table.value in tca.control then Some(tca.control[table.value]) else None;
    }

    method SetOneToOneRelation(columnMap: ColumnMap, config: ColumnConfig)
      requires columnMap.Valid()
      modifies columnMap, this`builders
      ensures columnMap.Valid() && columnMap.calls == old(columnMap.calls) + OneToOneCalls(config)
      ensures builders == old(builders) + [OneToOneBuilder]
    {
      builders := builders + [OneToOneBuilder];
      columnMap.SetTypeOfRelation(RelationHasOne);
      if config.foreignField.Some? {
        columnMap.SetParentKeyFieldName(config.foreignField);
      }
    }

    method SetOneToManyRelation(columnMap: ColumnMap, config: ColumnConfig)
      requires columnMap.Valid()
      modifies columnMap, this`builders
      ensures columnMap.Valid() && columnMap.calls == old(columnMap.calls) + OneToManyCalls(config)
      ensures builders == old(builders) + [OneToManyBuilder]
    {
      builders := builders + [OneToManyBuilder];
      columnMap.SetTypeOfRelation(RelationHasMany);
      columnMap.SetChildTableName(config.foreignTable);
      columnMap.SetParentKeyFieldName(config.foreignField);
      SetParentTableField(columnMap, config.foreignTableField);
    }

    /** Sets the field recording the parent's table, when one is configured. */
    method SetParentTableField(columnMap: ColumnMap, foreignTableField: Option<string>)
      requires columnMap.Valid()
      modifies columnMap
      ensures columnMap.Valid() && columnMap.calls == old(columnMap.calls) + ParentTableFieldCalls(foreignTableField)
    {
      if foreignTableField.Some? {
        columnMap.SetParentTableFieldName(foreignTableField);
      }
    }

    method SetRelationTables(columnMap: ColumnMap, relationTable: Option<string>, childTable: Option<string>)
      requires columnMap.Valid()
      modifies columnMap
      ensures columnMap.Valid() && columnMap.calls == old(columnMap.calls) + RelationTablesCalls(relationTable, childTable)
    {
      columnMap.SetTypeOfRelation(RelationHasAndBelongsToMany);
      columnMap.SetRelationTableName(relationTable);
      columnMap.SetChildTableName(childTable);
    }

    method SetWhereStatements(columnMap: ColumnMap, childWhere: Option<string>, relationWhere: Option<string>)
      requires columnMap.Valid()
      modifies columnMap
      ensures columnMap.Valid() && columnMap.calls == old(columnMap.calls) + WhereCalls(childWhere, relationWhere)
    {
      columnMap.SetChildTableWhereStatement(childWhere);
      columnMap.SetRelationTableWhereStatement(relationWhere);
    }

    method SetJoinKeys(columnMap: ColumnMap, sortBy: Option<string>, parentKey: Option<string>)
      requires columnMap.Valid()
      modifies columnMap
      ensures columnMap.Valid() && columnMap.calls == old(columnMap.calls) + JoinKeyCalls(sortBy, parentKey)
    {
      columnMap.SetChildSortByFieldName(sortBy);
      columnMap.SetParentKeyFieldName(parentKey);
    }

    /** The MM join table part of setManyToManyRelation. */
    method SetJoinTableRelation(columnMap: ColumnMap, config: ColumnConfig)
      requires columnMap.Valid()
      modifies columnMap
      ensures columnMap.Valid() && columnMap.calls == old(columnMap.calls) + JoinTableEffects(config).calls
    {
      ghost var before := columnMap.calls;
      var t := RelationTablesCalls(config.mm, config.foreignTable);
      var w := WhereCalls(config.foreignTableWhere, config.mmTableWhere);
      SetRelationTables(columnMap, config.mm, config.foreignTable);
      SetWhereStatements(columnMap, config.foreignTableWhere, config.mmTableWhere);
      AppendAssoc(before, t, w);
      var sortBy :=
        if config.foreignSortBy.Some? then config.foreignSortBy.value
        else if config.mmOppositeField.Some? then "sorting_foreign" else "sorting";
      var parentKey := if config.mmOppositeField.Some? then "uid_foreign" else "uid_local";
      SetJoinKeys(columnMap, Some(sortBy), Some(parentKey));
      var k := JoinKeyCalls(Some(sortBy), Some(parentKey));
      AppendAssoc(before, t + w, k);
      SetMatchAndInsertFields(columnMap, config);
      AppendAssoc(before, t + w + k, MatchInsertCalls(config));
    }

    /** Sets the join table's match and insert fields, each when configured. */
    method SetMatchAndInsertFields(columnMap: ColumnMap, config: ColumnConfig)
      requires columnMap.Valid()
      modifies columnMap
      ensures columnMap.Valid() && columnMap.calls == old(columnMap.calls) + MatchInsertCalls(config)
    {
      if config.mmMatchFields.Some? {
        columnMap.SetRelationTableMatchFields(config.mmMatchFields.value);
      }
      if config.mmInsertFields.Some? {
        columnMap.SetRelationTableInsertFields(config.mmInsertFields.value);
      }
    }

    /** The foreign selector part of setManyToManyRelation. */
    method SetSelectorRelation(columnMap: ColumnMap, config: ColumnConfig)
      requires columnMap.Valid() && config.foreignSelector.Some?
      modifies columnMap, this`lookups
      ensures columnMap.Valid() && columnMap.calls == old(columnMap.calls) + SelectorEffects(config, tca).calls
      ensures lookups == old(lookups) + SelectorEffects(config, tca).lookups
    {
      var columns := GetColumnsDefinition(config.foreignTable);
      var selector := config.foreignSelector.value;
      ghost var before := columnMap.calls;
      var childTable := if selector in columns then columns[selector].foreignTable else None;
      SetRelationTables(columnMap, config.foreignTable, childTable);
      SetJoinKeys(columnMap, config.foreignSortBy, config.foreignField);
      ghost var t, k := RelationTablesCalls(config.foreignTable, childTable), JoinKeyCalls(config.foreignSortBy, config.foreignField);
      AppendAssoc(before, t, k);
      SetParentTableField(columnMap, config.foreignTableField);
      AppendAssoc(before, t + k, ParentTableFieldCalls(config.foreignTableField));
    }

    /** The page id part of setManyToManyRelation, for the relation table the column map
        holds. */
    method SetPageIdColumn(columnMap: ColumnMap)
      requires columnMap.Valid()
      modifies columnMap, this`lookups
      ensures columnMap.Valid()
      ensures columnMap.calls == old(columnMap.calls) + PageIdEffects(Replay(Unmapped, old(columnMap.calls)).relationTableName, tca).calls
      ensures lookups == old(lookups) + PageIdEffects(Replay(Unmapped, old(columnMap.calls)).relationTableName, tca).lookups
    {
      var section := GetControlSection(columnMap.GetRelationTableName());
      if section.Some? {
        columnMap.SetRelationTablePageIdColumnName("pid");
      }
    }

    /** setManyToManyRelation: fills the column map through a join table or a foreign
        selector, then sets the page id column when the relation table has a control
        section. */
    method SetManyToManyRelation(columnMap: ColumnMap, config: ColumnConfig) returns (outcome: Outcome<Exception>)
      requires columnMap.Valid()
      modifies columnMap, this`lookups, this`builders
      ensures columnMap.Valid()
      ensures ManyToManyEffects(config, tca).Failure? ==>
        && outcome == Fail(ManyToManyEffects(config, tca).error)
        && columnMap.calls == old(columnMap.calls) && lookups == old(lookups) && builders == old(builders)
      ensures ManyToManyEffects(config, tca).Success? ==>
        && outcome == Pass
        && columnMap.calls == old(columnMap.calls) + ManyToManyEffects(config, tca).value.calls
        && lookups == old(lookups) + ManyToManyEffects(config, tca).value.lookups
        && builders == old(builders) + [ManyToManyBuilder]
    {
      ghost var calls0, lookups0 := columnMap.calls, lookups;
      ghost var first: Effects;
      if config.mm.Some? {
        SetJoinTableRelation(columnMap, config);
        first := JoinTableEffects(config);
        JoinTableSetsRelationTable(config);
        LastCallWins(Unmapped, calls0, first.calls, SetRelationTableName(config.mm));
      } else if config.foreignSelector.Some? {
        SetSelectorRelation(columnMap, config);
        first := SelectorEffects(config, tca);
        SelectorSetsRelationTable(config, tca);
        LastCallWins(Unmapped, calls0, first.calls, SetRelationTableName(config.foreignTable));
      } else {
        return Fail(UnsupportedRelation);
      }
      builders := builders + [ManyToManyBuilder];
      SetPageIdColumn(columnMap);
      ghost var page := PageIdEffects(RelationTableOf(config), tca);
      AppendAssoc(calls0, first.calls, page.calls);
      AppendAssoc(lookups0, first.lookups, page.lookups);
      outcome := Pass;
    }

    /** setRelations: classify the column and run the one builder it picks; a column
        that is not a relation gets RELATION_NONE. */
    method SetRelations(columnMap: ColumnMap, config: Option<ColumnConfig>, meta: PropertyMetaData)
      requires columnMap.Valid()
      modifies columnMap, this`lookups, this`builders
      ensures columnMap.Valid()
      ensures columnMap.calls == old(columnMap.calls) + RelationsEffects(config, meta, tca).calls
      ensures lookups == old(lookups) + RelationsEffects(config, meta, tca).lookups
      ensures builders == old(builders) + RelationsEffects(config, meta, tca).builders
    {
      var builder := ChooseBuilder(config, meta);
      match builder
      case None =>
        columnMap.SetTypeOfRelation(RelationNone);
      case Some(OneToOneBuilder) =>
        SetOneToOneRelation(columnMap, config.value);
      case Some(OneToManyBuilder) =>
        SetOneToManyRelation(columnMap, config.value);
      case Some(ManyToManyBuilder) =>
        var outcome := SetManyToManyRelation(columnMap, config.value);
    }
  }
}
