/** The column map of the persistence mapper: the relation metadata of one persisted
    property. The data map factory fills it by calling its setters; every call is kept in
    a ghost log so that "set exactly once to X" and "never set" can be stated. */
module ColumnMapping {
  import opened Common

  /** ColumnMap::RELATION_NONE, RELATION_HAS_ONE, RELATION_HAS_MANY and
      RELATION_HAS_AND_BELONGS_TO_MANY. */
  datatype Relation =
    | RelationNone
    | RelationHasOne
    | RelationHasMany
    | RelationHasAndBelongsToMany

  /** The attributes of a column map that the factory sets. */
  datatype Field =
    | TypeOfRelationField
    | ChildTableNameField
    | ChildTableWhereStatementField
    | ChildSortByFieldNameField
    | ParentKeyFieldNameField
    | ParentTableFieldNameField
    | RelationTableNameField
    | RelationTableWhereStatementField
    | RelationTableMatchFieldsField
    | RelationTableInsertFieldsField
    | RelationTablePageIdColumnNameField

  /** One call of a column map setter, with its argument (NULL is `None`). */
  datatype Setter =
    | SetTypeOfRelation(relation: Relation)
    | SetChildTableName(childTableName: Option<string>)
    | SetChildTableWhereStatement(childTableWhereStatement: Option<string>)
    | SetChildSortByFieldName(childSortByFieldName: Option<string>)
    | SetParentKeyFieldName(parentKeyFieldName: Option<string>)
    | SetParentTableFieldName(parentTableFieldName: Option<string>)
    | SetRelationTableName(relationTableName: Option<string>)
    | SetRelationTableWhereStatement(relationTableWhereStatement: Option<string>)
    | SetRelationTableMatchFields(matchFields: map<string, string>)
    | SetRelationTableInsertFields(insertFields: map<string, string>)
    | SetRelationTablePageIdColumnName(pageIdColumnName: string)
  {
    /** The attribute this call sets. */
    function Target(): Field {
      match this
      case SetTypeOfRelation(_) => TypeOfRelationField
      case SetChildTableName(_) => ChildTableNameField
      case SetChildTableWhereStatement(_) => ChildTableWhereStatementField
      case SetChildSortByFieldName(_) => ChildSortByFieldNameField
      case SetParentKeyFieldName(_) => ParentKeyFieldNameField
      case SetParentTableFieldName(_) => ParentTableFieldNameField
      case SetRelationTableName(_) => RelationTableNameField
      case SetRelationTableWhereStatement(_) => RelationTableWhereStatementField
      case SetRelationTableMatchFields(_) => RelationTableMatchFieldsField
      case SetRelationTableInsertFields(_) => RelationTableInsertFieldsField
      case SetRelationTablePageIdColumnName(_) => RelationTablePageIdColumnNameField
    }
  }

  /** The attributes of a column map; every one is NULL until its setter runs. */
  datatype ColumnState = ColumnState(
    typeOfRelation: Option<Relation>,
    childTableName: Option<string>,
    childTableWhereStatement: Option<string>,
    childSortByFieldName: Option<string>,
    parentKeyFieldName: Option<string>,
    parentTableFieldName: Option<string>,
    relationTableName: Option<string>,
    relationTableWhereStatement: Option<string>,
    relationTableMatchFields: Option<map<string, string>>,
    relationTableInsertFields: Option<map<string, string>>,
    relationTablePageIdColumnName: Option<string>)

  const Unmapped := ColumnState(None, None, None, None, None, None, None, None, None, None, None)

  /** The effect of one setter call. */
  function Apply(s: ColumnState, c: Setter): ColumnState {
    match c
    case SetTypeOfRelation(v) => s.(typeOfRelation := Some(v))
    case SetChildTableName(v) => s.(childTableName := v)
    case SetChildTableWhereStatement(v) => s.(childTableWhereStatement := v)
    case SetChildSortByFieldName(v) => s.(childSortByFieldName := v)
    case SetParentKeyFieldName(v) => s.(parentKeyFieldName := v)
    case SetParentTableFieldName(v) => s.(parentTableFieldName := v)
    case SetRelationTableName(v) => s.(relationTableName := v)
    case SetRelationTableWhereStatement(v) => s.(relationTableWhereStatement := v)
    case SetRelationTableMatchFields(v) => s.(relationTableMatchFields := Some(v))
    case SetRelationTableInsertFields(v) => s.(relationTableInsertFields := Some(v))
    case SetRelationTablePageIdColumnName(v) => s.(relationTablePageIdColumnName := Some(v))
  }

  /** The effect of a sequence of setter calls, in order. */
  function Replay(s: ColumnState, calls: seq<Setter>): ColumnState
    decreases |calls|
  {
    if calls == [] then s else Apply(Replay(s, calls[..|calls| - 1]), calls[|calls| - 1])
  }

  /** 1 when call `c` sets attribute `f`, else 0. */
  function Hit(c: Setter, f: Field): nat {
    if c.Target() == f then 1 else 0
  }

  /** How many of `calls` set attribute `f`. */
  function Count(calls: seq<Setter>, f: Field): (n: nat)
    ensures n <= |calls|
    decreases |calls|
  {
    if calls == [] then 0 else Hit(calls[0], f) + Count(calls[1..], f)
  }

  /** `c` is among `calls` and is the only one of them that sets its attribute. */
  predicate SetOnce(calls: seq<Setter>, c: Setter) {
    c in calls && Count(calls, c.Target()) == 1
  }

  /** None of `calls` sets `f`. */
  predicate NeverSet(calls: seq<Setter>, f: Field) {
    Count(calls, f) == 0
  }

  lemma {:induction false} CountAppend(a: seq<Setter>, b: seq<Setter>, f: Field)
    ensures Count(a + b, f) == Count(a, f) + Count(b, f)
    decreases |a|
  {
    if a != [] {
      assert (a + b)[1..] == a[1..] + b;
      CountAppend(a[1..], b, f);
    } else {
      assert a + b == b;
    }
  }

  lemma CountSingle(c: Setter, f: Field)
    ensures Count([c], f) == Hit(c, f)
  {
    assert [c][1..] == [];
  }

  lemma CountPair(a: Setter, b: Setter, f: Field)
    ensures Count([a, b], f) == Hit(a, f) + Hit(b, f)
  {
    assert [a, b][1..] == [b];
    CountSingle(b, f);
  }

  lemma CountTriple(a: Setter, b: Setter, c: Setter, f: Field)
    ensures Count([a, b, c], f) == Hit(a, f) + Hit(b, f) + Hit(c, f)
  {
    assert [a, b, c][1..] == [b, c];
    CountPair(b, c, f);
  }

  /** A call among `calls` is counted for its attribute. */
  lemma {:induction false} CountMember(calls: seq<Setter>, c: Setter)
    requires c in calls
    ensures Count(calls, c.Target()) >= 1
    decreases |calls|
  {
    if calls[0] != c {
      assert c in calls[1..];
      CountMember(calls[1..], c);
    }
  }

  /** Whether attribute `c.Target()` of `s` holds the value that `c` sets. */
  predicate Holds(s: ColumnState, c: Setter) {
    Apply(s, c) == s
  }

  /** Whether `s` and `t` agree on attribute `f`. */
  predicate SameAt(s: ColumnState, t: ColumnState, f: Field) {
    match f
    case TypeOfRelationField => s.typeOfRelation == t.typeOfRelation
    case ChildTableNameField => s.childTableName == t.childTableName
    case ChildTableWhereStatementField => s.childTableWhereStatement == t.childTableWhereStatement
    case ChildSortByFieldNameField => s.childSortByFieldName == t.childSortByFieldName
    case ParentKeyFieldNameField => s.parentKeyFieldName == t.parentKeyFieldName
    case ParentTableFieldNameField => s.parentTableFieldName == t.parentTableFieldName
    case RelationTableNameField => s.relationTableName == t.relationTableName
    case RelationTableWhereStatementField => s.relationTableWhereStatement == t.relationTableWhereStatement
    case RelationTableMatchFieldsField => s.relationTableMatchFields == t.relationTableMatchFields
    case RelationTableInsertFieldsField => s.relationTableInsertFields == t.relationTableInsertFields
    case RelationTablePageIdColumnNameField => s.relationTablePageIdColumnName == t.relationTablePageIdColumnName
  }

  lemma ApplyHolds(s: ColumnState, c: Setter)
    ensures Holds(Apply(s, c), c)
  {
  }

  lemma ApplyElsewhere(s: ColumnState, c: Setter, f: Field)
    requires c.Target() != f
    ensures SameAt(Apply(s, c), s, f)
  {
  }

  /** Calls to different attributes commute. */
  lemma ApplyCommutes(s: ColumnState, c: Setter, d: Setter)
    requires c.Target() != d.Target()
    ensures Apply(Apply(s, c), d) == Apply(Apply(s, d), c)
  {
  }

  /** After any earlier calls, a call that is the only one among the later calls to set
      its attribute decides that attribute. */
  lemma {:induction false} LastCallWins(s: ColumnState, before: seq<Setter>, calls: seq<Setter>, c: Setter)
    requires SetOnce(calls, c)
    ensures Holds(Replay(s, before + calls), c)
    decreases |calls|
  {
    var f := c.Target();
    var init, last := calls[..|calls| - 1], calls[|calls| - 1];
    assert calls == init + [last];
    assert (before + calls)[..|before + calls| - 1] == before + init;
    CountAppend(init, [last], f);
    CountSingle(last, f);
    var prior := Replay(s, before + init);
    if last.Target() == f {
      if c in init {
        CountMember(init, c);
      }
      ApplyHolds(prior, last);
    } else {
      LastCallWins(s, before, init, c);
      ApplyCommutes(prior, c, last);
    }
  }

  /** An attribute no call sets keeps its value. */
  lemma {:induction false} ReplayUnset(s: ColumnState, calls: seq<Setter>, f: Field)
    requires NeverSet(calls, f)
    ensures SameAt(Replay(s, calls), s, f)
    decreases |calls|
  {
    if calls != [] {
      var init, last := calls[..|calls| - 1], calls[|calls| - 1];
      assert calls == init + [last];
      CountAppend(init, [last], f);
      CountSingle(last, f);
      ReplayUnset(s, init, f);
      ApplyElsewhere(Replay(s, init), last, f);
    }
  }

  /** A column map, as the factory sees it through its setters and getters. */
  class ColumnMap {
    const columnName: string
    const propertyName: string
    var typeOfRelation: Option<Relation>
    var childTableName: Option<string>
    var childTableWhereStatement: Option<string>
    var childSortByFieldName: Option<string>
    var parentKeyFieldName: Option<string>
    var parentTableFieldName: Option<string>
    var relationTableName: Option<string>
    var relationTableWhereStatement: Option<string>
    var relationTableMatchFields: Option<map<string, string>>
    var relationTableInsertFields: Option<map<string, string>>
    var relationTablePageIdColumnName: Option<string>

    /** Every setter call made on this column map, in order. */
    ghost var calls: seq<Setter>

    function State(): ColumnState
      reads this
    {
      ColumnState(typeOfRelation, childTableName, childTableWhereStatement,
        childSortByFieldName, parentKeyFieldName, parentTableFieldName, relationTableName,
        relationTableWhereStatement, relationTableMatchFields, relationTableInsertFields,
        relationTablePageIdColumnName)
    }

    /** The attributes are exactly what the logged setter calls made of a fresh map. */
    ghost predicate Valid()
      reads this
    {
      State() == Replay(Unmapped, calls)
    }

    constructor (columnName: string, propertyName: string)
      ensures Valid() && calls == [] && State() == Unmapped
      ensures this.columnName == columnName && this.propertyName == propertyName
    {
      this.columnName := columnName;
      this.propertyName := propertyName;
      typeOfRelation, childTableName, childTableWhereStatement := None, None, None;
      childSortByFieldName, parentKeyFieldName, parentTableFieldName := None, None, None;
      relationTableName, relationTableWhereStatement := None, None;
      relationTableMatchFields, relationTableInsertFields := None, None;
      relationTablePageIdColumnName := None;
      calls := [];
    }

    function GetRelationTableName(): (r: Option<string>)
      reads this
      requires Valid()
      ensures r == Replay(Unmapped, calls).relationTableName
    {
      relationTableName
    }

    method SetTypeOfRelation(relation: Relation)
      requires Valid()
      modifies this
      ensures Valid() && calls == old(calls) + [Setter.SetTypeOfRelation(relation)]
    {
      typeOfRelation := Some(relation);
      calls := calls + [Setter.SetTypeOfRelation(relation)];
    }

    method SetChildTableName(name: Option<string>)
      requires Valid()
      modifies this
      ensures Valid() && calls == old(calls) + [Setter.SetChildTableName(name)]
    {
      childTableName := name;
      calls := calls + [Setter.SetChildTableName(name)];
    }

    method SetChildTableWhereStatement(statement: Option<string>)
      requires Valid()
      modifies this
      ensures Valid() && calls == old(calls) + [Setter.SetChildTableWhereStatement(statement)]
    {
      childTableWhereStatement := statement;
      calls := calls + [Setter.SetChildTableWhereStatement(statement)];
    }

    method SetChildSortByFieldName(name: Option<string>)
      requires Valid()
      modifies this
      ensures Valid() && calls == old(calls) + [Setter.SetChildSortByFieldName(name)]
    {
      childSortByFieldName := name;
      calls := calls + [Setter.SetChildSortByFieldName(name)];
    }

    method SetParentKeyFieldName(name: Option<string>)
      requires Valid()
      modifies this
      ensures Valid() && calls == old(calls) + [Setter.SetParentKeyFieldName(name)]
    {
      parentKeyFieldName := name;
      calls := calls + [Setter.SetParentKeyFieldName(name)];
    }

    method SetParentTableFieldName(name: Option<string>)
      requires Valid()
      modifies this
      ensures Valid() && calls == old(calls) + [Setter.SetParentTableFieldName(name)]
    {
      parentTableFieldName := name;
      calls := calls + [Setter.SetParentTableFieldName(name)];
    }

    method SetRelationTableName(name: Option<string>)
      requires Valid()
      modifies this
      ensures Valid() && calls == old(calls) + [Setter.SetRelationTableName(name)]
    {
      relationTableName := name;
      calls := calls + [Setter.SetRelationTableName(name)];
    }

    method SetRelationTableWhereStatement(statement: Option<string>)
      requires Valid()
      modifies this
      ensures Valid() && calls == old(calls) + [Setter.SetRelationTableWhereStatement(statement)]
    {
      relationTableWhereStatement := statement;
      calls := calls + [Setter.SetRelationTableWhereStatement(statement)];
    }

    method SetRelationTableMatchFields(fields: map<string, string>)
      requires Valid()
      modifies this
      ensures Valid() && calls == old(calls) + [Setter.SetRelationTableMatchFields(fields)]
    {
      relationTableMatchFields := Some(fields);
      calls := calls + [Setter.SetRelationTableMatchFields(fields)];
    }

    method SetRelationTableInsertFields(fields: map<string, string>)
      requires Valid()
      modifies this
      ensures Valid() && calls == old(calls) + [Setter.SetRelationTableInsertFields(fields)]
    {
      relationTableInsertFields := Some(fields);
      calls := calls + [Setter.SetRelationTableInsertFields(fields)];
    }

    method SetRelationTablePageIdColumnName(name: string)
      requires Valid()
      modifies this
      ensures Valid() && calls == old(calls) + [Setter.SetRelationTablePageIdColumnName(name)]
    {
      relationTablePageIdColumnName := Some(name);
      calls := calls + [Setter.SetRelationTablePageIdColumnName(name)];
    }
  }
}
