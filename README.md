# Extbase persistence mapping and action controller, in Dafny

This project models three parts of the Extbase MVC and persistence framework for TYPO3:

- **The data map factory of the persistence mapper.**
  - `setRelations` classifies a property's column configuration as a one-to-one, one-to-many or many-to-many relation. It then runs the one builder it picked, and that builder fills the property's column map through its setters.
  - `setManyToManyRelation` handles an MM join table or a foreign selector. It sets the page id column when the relation table has a control section.
  - `buildDataMap` refuses unknown classes on a cache miss. It flattens the configured subclasses depth first, in pre-order.
  - `resolveTableName` maps a class name to its table name.
- **The controller argument** (`Tx_Extbase_MVC_Controller_Argument`). It is a named, typed slot for one value of an action call. It has a validated short name, a required flag, a default value, a validation switch, a validator chain and a value transformation.
- **The action controller** (`Tx_Extbase_MVC_Controller_ActionController`). `processRequest` proceeds in this order:
  1. It checks the request type and marks the request dispatched.
  2. It resolves the action method.
  3. It registers one argument per action parameter, then the validators declared for them.
  4. It names the action's initialisation hook.
  5. It resolves the view, with its fall-backs.
  6. It calls the action, or the error action, and appends the result or the rendered view to the response.

Files:

- `common.dfy` holds the shared pieces:
  - PHP values (`Mixed`) and the exceptions with their codes;
  - the reflection oracle (`Environment`: class_exists, class schemas, instanceof);
  - the PHP string functions the core uses: strtolower, ucfirst, str_replace, explode, implode and strlen (as the UTF-8 byte length).
- `column_map.dfy` holds the column map. It is a class with one field per attribute, and every setter call is kept in a ghost log, so that "set exactly once to X" and "never set" can be stated as the tests state them.
- `data_map_factory.dfy` holds the factory.
  - The relation builders work in place on the column map. They are methods proved against pure specification functions (`RelationsEffects`, `ManyToManyEffects`), which give the setter calls, lookups and builders in order.
  - The lemmas about those functions state what the tests assert.
  - Subclass flattening, table names and `buildDataMap` are pure functions.
- `argument.dfy` holds the argument class.
- `action_controller.dfy` holds the controller class, the request and response it changes, and the pure rules it follows: action name, hook name, view object name and fall-back, response content, and error message.

The factory's source file is not part of this model. Its behaviour is taken from its unit test, `Tests/Unit/Persistence/Mapper/DataMapFactoryTest.php`, whose expectations are cited below.

## Model

| member | source | states |
|---|---|---|
| ColumnMapping.ColumnMap.constructor | Tests/Unit/Persistence/Mapper/DataMapFactoryTest.php:184 | a new column map has every attribute unset and an empty call log |
| ColumnMapping.ColumnMap.GetRelationTableName | Tests/Unit/Persistence/Mapper/DataMapFactoryTest.php:370 | the relation table name is the one the logged setter calls left |
| ColumnMapping.ColumnMap.SetTypeOfRelation | Tests/Unit/Persistence/Mapper/DataMapFactoryTest.php:185 | the setter records its call and keeps the attributes equal to the replay of the call log |
| ColumnMapping.ColumnMap.SetRelationTablePageIdColumnName | Tests/Unit/Persistence/Mapper/DataMapFactoryTest.php:371 | the setter records its call and keeps the attributes equal to the replay of the call log |
| ColumnMapping.ColumnMap.SetChildTableName | Tests/Unit/Persistence/Mapper/DataMapFactoryTest.php:187 | sets the child table name (foreign_table): the call is appended to the log, and the attributes stay equal to the replay of the log |
| ColumnMapping.ColumnMap.SetChildTableWhereStatement | Tests/Unit/Persistence/Mapper/DataMapFactoryTest.php:188 | sets the child table's where statement (foreign_table_where): the call is appended to the log, and the attributes stay equal to the replay of the log |
| ColumnMapping.ColumnMap.SetChildSortByFieldName | Tests/Unit/Persistence/Mapper/DataMapFactoryTest.php:189 | sets the child sort-by field (MM_foreign_sortby or foreign_sortby): the call is appended to the log, and the attributes stay equal to the replay of the log |
| ColumnMapping.ColumnMap.SetParentKeyFieldName | Tests/Unit/Persistence/Mapper/DataMapFactoryTest.php:190 | sets the parent key field (uid_local or uid_foreign, or foreign_field): the call is appended to the log, and the attributes stay equal to the replay of the log |
| ColumnMapping.ColumnMap.SetParentTableFieldName | Tests/Unit/Persistence/Mapper/DataMapFactoryTest.php:326 | sets the parent table field (foreign_table_field): the call is appended to the log, and the attributes stay equal to the replay of the log |
| ColumnMapping.ColumnMap.SetRelationTableName | Tests/Unit/Persistence/Mapper/DataMapFactoryTest.php:186 | sets the relation table name (MM): the call is appended to the log, and the attributes stay equal to the replay of the log |
| ColumnMapping.ColumnMap.SetRelationTableWhereStatement | Tests/Unit/Persistence/Mapper/DataMapFactoryTest.php:181 | sets the relation table's where statement (MM_table_where): the call is appended to the log, and the attributes stay equal to the replay of the log |
| ColumnMapping.ColumnMap.SetRelationTableMatchFields | Tests/Unit/Persistence/Mapper/DataMapFactoryTest.php:192 | sets the relation table's match fields (MM_match_fields): the call is appended to the log, and the attributes stay equal to the replay of the log |
| ColumnMapping.ColumnMap.SetRelationTableInsertFields | Tests/Unit/Persistence/Mapper/DataMapFactoryTest.php:193 | sets the relation table's insert fields (MM_insert_fields): the call is appended to the log, and the attributes stay equal to the replay of the log |
| ColumnMapping.LastCallWins | Tests/Unit/Persistence/Mapper/DataMapFactoryTest.php:185-193 | a setter call that is the only one for its attribute decides that attribute, whatever came before |
| ColumnMapping.ReplayUnset | Tests/Unit/Persistence/Mapper/DataMapFactoryTest.php:191-193 | an attribute that no call sets keeps its value |
| DataMapFactories.RelationsEffects | Tests/Unit/Persistence/Mapper/DataMapFactoryTest.php:46-169 | at most one builder runs; many-to-many runs exactly when MM or a foreign selector is configured; one-to-many runs exactly when neither is and the property has an element type; one-to-one runs exactly when neither is, there is no element type and the property type is a class name; a non-relation runs no builder and only sets RELATION_NONE |
| DataMapFactories.DetectsOneToOneRelation | Tests/Unit/Persistence/Mapper/DataMapFactoryTest.php:35-62 | for both data-provider classes (`Tx_Myext_Domain_Model_Foo` and the namespaced FrontendUser) with a select column to `tx_myextension_bar` by `parentid` and no element type, only the one-to-one builder runs |
| DataMapFactories.DetectsOneToOneRelationWithIntermediateTable | Tests/Unit/Persistence/Mapper/DataMapFactoryTest.php:64-83 | the same property with an MM table runs only the many-to-many builder |
| DataMapFactories.DetectsOneToManyRelation | Tests/Unit/Persistence/Mapper/DataMapFactoryTest.php:85-105 | an ObjectStorage with an element type and a select column by `parentid` and `parenttable` runs only the one-to-many builder |
| DataMapFactories.DetectsManyToManyRelation | Tests/Unit/Persistence/Mapper/DataMapFactoryTest.php:107-169 | select with MM, inline with MM and inline with a foreign selector each run only the many-to-many builder |
| DataMapFactories.ExactlyOneRelationKind | Tests/Unit/Persistence/Mapper/DataMapFactoryTest.php:46-169 | setRelations sets the relation kind first and exactly once, to the kind of the builder it picked |
| DataMapFactories.FilledMapHasItsKind | Tests/Unit/Persistence/Mapper/DataMapFactoryTest.php:46-169 | a fresh column map, once filled, holds the kind of the builder picked |
| DataMapFactories.ManyToManyEffects | Tests/Unit/Persistence/Mapper/DataMapFactoryTest.php:152-196 | it fails exactly when there is neither MM nor a foreign selector; otherwise it sets HAS_AND_BELONGS_TO_MANY first and runs no other builder |
| DataMapFactories.JoinTableTables | Tests/Unit/Persistence/Mapper/DataMapFactoryTest.php:174-223 | with MM, the kind, the relation table (MM), the child table (foreign_table) and both where clauses are each set exactly once to the configured value |
| DataMapFactories.JoinTableKeys | Tests/Unit/Persistence/Mapper/DataMapFactoryTest.php:174-223 | with MM, the sort field is foreign_sortby, else sorting, or sorting_foreign on the opposite side; the parent key is uid_local, or uid_foreign on the opposite side; each is set once |
| DataMapFactories.JoinTableOptional | Tests/Unit/Persistence/Mapper/DataMapFactoryTest.php:174-250 | with MM, the parent table field is never set; the match and insert fields are set exactly when configured; the only lookup is the control section (no column definitions) |
| DataMapFactories.JoinTableCount | Tests/Unit/Persistence/Mapper/DataMapFactoryTest.php:174-250 | how many times the MM part sets each attribute: 0, 1, or 1 exactly when configured |
| DataMapFactories.SelectorCount | Tests/Unit/Persistence/Mapper/DataMapFactoryTest.php:255-333 | how many times the selector part sets each attribute: 0, 1, or 1 exactly when configured |
| DataMapFactories.SelectorTables | Tests/Unit/Persistence/Mapper/DataMapFactoryTest.php:255-295 | with a selector and no MM: the relation table is foreign_table, the child table is the selector column's foreign_table, the sort field is foreign_sortby and the parent key is foreign_field; each is set once |
| DataMapFactories.SelectorOptional | Tests/Unit/Persistence/Mapper/DataMapFactoryTest.php:255-333 | with a selector: one column-definitions lookup of foreign_table, then its control section; the parent table field is set exactly when configured; no where clause, match or insert fields |
| DataMapFactories.PageIdCalls | Tests/Unit/Persistence/Mapper/DataMapFactoryTest.php:338-375 | the page id step sets `pid` once when the control section exists and never otherwise |
| DataMapFactories.PageIdColumnFollowsControlSection | Tests/Unit/Persistence/Mapper/DataMapFactoryTest.php:338-375 | the whole many-to-many builder sets the page id column to `pid` exactly once when the relation table has a control section, and never when it has none |
| DataMapFactories.DataMapFactory.constructor | Tests/Unit/Persistence/Mapper/DataMapFactoryTest.php:194 | a new factory has made no lookup and run no builder |
| DataMapFactories.DataMapFactory.GetColumnsDefinition | Tests/Unit/Persistence/Mapper/DataMapFactoryTest.php:293 | returns the table's column definitions and logs one lookup |
| DataMapFactories.DataMapFactory.GetControlSection | Tests/Unit/Persistence/Mapper/DataMapFactoryTest.php:373 | returns the table's control section and logs one lookup |
| DataMapFactories.DataMapFactory.SetOneToOneRelation | Tests/Unit/Persistence/Mapper/DataMapFactoryTest.php:46-83 | makes the one-to-one setter calls and logs its builder |
| DataMapFactories.DataMapFactory.SetOneToManyRelation | Tests/Unit/Persistence/Mapper/DataMapFactoryTest.php:88-105 | makes the one-to-many setter calls and logs its builder |
| DataMapFactories.DataMapFactory.SetJoinTableRelation | Tests/Unit/Persistence/Mapper/DataMapFactoryTest.php:174-250 | makes exactly the MM join-table calls of the specification |
| DataMapFactories.DataMapFactory.SetSelectorRelation | Tests/Unit/Persistence/Mapper/DataMapFactoryTest.php:255-333 | makes exactly the foreign-selector calls and lookups of the specification |
| DataMapFactories.DataMapFactory.SetPageIdColumn | Tests/Unit/Persistence/Mapper/DataMapFactoryTest.php:359-375 | looks up the control section of the relation table the map holds, and sets `pid` when it exists |
| DataMapFactories.DataMapFactory.SetManyToManyRelation | Tests/Unit/Persistence/Mapper/DataMapFactoryTest.php:174-375 | does exactly what `ManyToManyEffects` gives: the calls, the lookups and the builder on success, and nothing on failure |
| DataMapFactories.DataMapFactory.SetRelations | Tests/Unit/Persistence/Mapper/DataMapFactoryTest.php:46-169 | does exactly what `RelationsEffects` gives: the calls, the lookups and the builders |
| DataMapFactories.SubclassesAppend | Tests/Unit/Persistence/Mapper/DataMapFactoryTest.php:392-432 | flattening a concatenated list flattens each part in turn |
| DataMapFactories.SubclassesListsDirect | Tests/Unit/Persistence/Mapper/DataMapFactoryTest.php:392-432 | every directly listed subclass is in the flattened list |
| DataMapFactories.SubclassesClosed | Tests/Unit/Persistence/Mapper/DataMapFactoryTest.php:392-432 | with each class, the flattened list holds that class's configured subclasses |
| DataMapFactories.SubclassesSound | Tests/Unit/Persistence/Mapper/DataMapFactoryTest.php:392-432 | everything in the flattened list is a listed subclass or a configured subclass of a class in the list |
| DataMapFactories.SubclassesOfFrontendUser | Tests/Unit/Persistence/Mapper/DataMapFactoryTest.php:393-420 | the two-level configuration flattens to LevelOne1, LevelTwo1, LevelTwo2, LevelOne2 |
| DataMapFactories.TableNameShape | Tests/Unit/Persistence/Mapper/DataMapFactoryTest.php:437-452 | a table name has no upper-case letter and no backslash; namespaced classes get `tx_`; legacy names keep their length |
| DataMapFactories.TableNameOfCoreClass | Tests/Unit/Persistence/Mapper/DataMapFactoryTest.php:439 | `TYPO3\CMS\Ext\...` becomes `tx_` and the lower-cased segments after `CMS`, joined with `_` |
| DataMapFactories.TableNameOfVendorClass | Tests/Unit/Persistence/Mapper/DataMapFactoryTest.php:440 | `Vendor\Ext\...` becomes `tx_` and the lower-cased segments after the vendor, joined with `_` |
| DataMapFactories.TableNameOfNews | Tests/Unit/Persistence/Mapper/DataMapFactoryTest.php:441 | `Tx_News_Domain_Model_News` becomes `tx_news_domain_model_news` |
| DataMapFactories.BuildDataMap | Tests/Unit/Persistence/Mapper/DataMapFactoryTest.php:381-387 | a cached map is returned as it is; on a miss it fails, with InvalidClass, exactly when the class does not exist |
| DataMapFactories.BuildDataMapListsSubclasses | Tests/Unit/Persistence/Mapper/DataMapFactoryTest.php:392-432 | a built map has the resolved table name and lists exactly the configured subclasses and, recursively, theirs |
| DataMapFactories.BuildDataMapOfFrontendUser | Tests/Unit/Persistence/Mapper/DataMapFactoryTest.php:392-432 | FrontendUser's data map lists LevelOne1, LevelTwo1, LevelTwo2, LevelOne2 |
| Arguments.ValidatorClassName | Classes/MVC/Controller/Argument.php:274 | a validator name stands for itself when that class exists, else for `Tx_Extbase_Validation_Validator_` plus the name |
| Arguments.ValidatorClassNames | Classes/MVC/Controller/Argument.php:273-276 | the resolved classes are as many as the names, and in the same order |
| Arguments.ValidatorClassNamesAppend | Classes/MVC/Controller/Argument.php:273-276 | resolving a concatenation of names resolves each part |
| Arguments.Transform | Classes/MVC/Controller/Argument.php:347-373 | NULL stays NULL; a non-class data type passes the value through; a class without schema refuses a non-array; every refusal is InvalidArgumentValue 1251730701; an accepted value for a class is an instance of it |
| Arguments.TransformRefusesPlainValue | Classes/MVC/Controller/Argument.php:356-372 | a value that is neither numeric nor an array is refused for a class data type |
| Arguments.TransformAcceptsObjects | Classes/MVC/Controller/Argument.php:356-372 | for a class data type a value is accepted exactly when it resolves to an instance and it is an array, or a uid with a class schema |
| Arguments.NewArgument | Classes/MVC/Controller/Argument.php:121-128 | construction fails, with InvalidArgument 1187951688, exactly when the name is not a non-empty string; otherwise it stores the name and the data type (default `Text`), with the other fields empty |
| Arguments.Argument.constructor | Classes/MVC/Controller/Argument.php:121-128 | a new argument has its name and data type, the schema of the data type, no short name, value, default or validator, and validation enabled |
| Arguments.Argument.SetDataType | Classes/MVC/Controller/Argument.php:191-195 | stores the data type and its class schema; nothing else changes |
| Common.StrLenBounds | Classes/MVC/Controller/Argument.php:169 | strlen counts UTF-8 bytes: a string is one byte long exactly when it is one ASCII character, and is never shorter in bytes than in characters |
| Arguments.Argument.SetShortName | Classes/MVC/Controller/Argument.php:168-172 | accepts exactly NULL or a string of one byte, that is one ASCII character; a refusal is InvalidArgument 1195824959 and changes nothing |
| Arguments.Argument.SetRequired | Classes/MVC/Controller/Argument.php:214-227 | isRequired then returns the boolean cast of the argument; nothing else changes |
| Arguments.Argument.SetDefaultValue | Classes/MVC/Controller/Argument.php:236-248 | getDefaultValue then returns the value set; nothing else changes |
| Arguments.Argument.SetValidator | Classes/MVC/Controller/Argument.php:257-260 | replaces the validator; nothing else changes |
| Arguments.Argument.SetNewValidatorConjunction | Classes/MVC/Controller/Argument.php:269-278 | keeps an existing validator, or creates a conjunction, and appends the resolved validator classes in input order; nothing else changes |
| Arguments.Argument.EnableValidation | Classes/MVC/Controller/Argument.php:310-312 | validation is enabled; nothing else changes |
| Arguments.Argument.DisableValidation | Classes/MVC/Controller/Argument.php:320-322 | validation is disabled; nothing else changes |
| Arguments.Argument.GetValue | Classes/MVC/Controller/Argument.php:397-412 | the value when one is set, else the default value |
| Arguments.Argument.SetValue | Classes/MVC/Controller/Argument.php:331-335 | stores the transformed value, or refuses with the transformation's error and changes nothing |
| Arguments.Argument.TransformValue | Classes/MVC/Controller/Argument.php:347-373 | computes exactly `Transform` for the argument's data type and schema |
| ActionControllers.ResolveActionMethodName | Classes/MVC/Controller/ActionController.php:186-190 | succeeds exactly when the action name plus `Action` is a method, and returns that name; otherwise NoSuchAction 1186669086 for that name |
| ActionControllers.InitializeHookName | Classes/MVC/Controller/ActionController.php:128 | `initialize` followed by the method name with its first letter in upper case |
| ActionControllers.ViewObjectNameOfDefaultPattern | Classes/MVC/Controller/ActionController.php:252-256 | the default pattern gives `Tx_<ext>_View_<controller>_<Action>` when the names hold no `@` |
| ActionControllers.ResolveViewObjectName | Classes/MVC/Controller/ActionController.php:252-266 | the pattern's class when it exists, else the default view object name when given and existing, else nothing |
| ActionControllers.ResolveViewClass | Classes/MVC/Controller/ActionController.php:229-245 | the template view when it has a template, else the resolved name, else the empty view |
| ActionControllers.ViewFallsBack | Classes/MVC/Controller/ActionController.php:233-265 | without a template the view is an existing class or the empty view; the empty view comes from the fall-back only when the pattern's class does not exist |
| ActionControllers.AppendedContent | Classes/MVC/Controller/ActionController.php:215-219 | the rendered view for a NULL result with a view, a non-empty string result as it is, otherwise nothing |
| ActionControllers.ErrorMessageLines | Classes/MVC/Controller/ActionController.php:309-316 | the error message has exactly 1 + errors + warnings line ends |
| ActionControllers.HeaderLines | Classes/MVC/Controller/ActionController.php:309 | the header line of the error message holds exactly one line end when the class and method names hold none |
| ActionControllers.LinesAppend | Classes/MVC/Controller/ActionController.php:310-315 | the lines of two message lists are the lines of the first, then those of the second |
| ActionControllers.LinesAt | Classes/MVC/Controller/ActionController.php:310-315 | the k-th message's line sits after the lines of the messages before it and before the lines of those after it |
| ActionControllers.ErrorLineAt | Classes/MVC/Controller/ActionController.php:309-316 | the k-th error's `Error:   ` line comes after the header and the earlier errors' lines, and before the later errors' and all warnings' lines |
| ActionControllers.WarningLineAt | Classes/MVC/Controller/ActionController.php:309-316 | the k-th warning's `Warning: ` line comes after the header, all errors' lines and the earlier warnings' lines, and before the later warnings' lines |
| ActionControllers.ParameterDataType | Classes/MVC/Controller/ActionController.php:151-156 | the declared type, else `array` for an array parameter, else `Text` |
| ActionControllers.RequiredOnlyForStrictFalse | Classes/MVC/Controller/ActionController.php:160 | only a strict FALSE `optional` makes an argument required; NULL, 0 and "" do not |
| ActionControllers.IndexOf | Classes/MVC/Controller/ActionController.php:175-176 | the position of the first argument of that name, or none exactly when no argument has it |
| ActionControllers.AddedFinds | Classes/MVC/Controller/ActionController.php:160 | after adding, the new argument's name finds it, every other name finds what it found before, and names stay distinct |
| ActionControllers.AddedKeeps | Classes/MVC/Controller/ActionController.php:160 | adding keeps every argument of another name |
| ActionControllers.FirstUnknown | Classes/MVC/Controller/ActionController.php:173-175 | the first validator conjunction whose argument is not registered, or none exactly when all are |
| ActionControllers.ValidatorsForParametersFindArguments | Classes/MVC/Controller/ActionController.php:149-177 | validators declared for parameters always find their argument once the parameters are registered |
| ActionControllers.RegisteredAfterAdd | Classes/MVC/Controller/ActionController.php:150-161 | adding the next parameter's argument registers it and keeps the earlier parameters registered |
| ActionControllers.NamesAfterFrom | Classes/MVC/Controller/ActionController.php:150-161 | every name after registering the parameters was there before or is a parameter's name |
| ActionControllers.NewArgumentsNamedByParameters | Classes/MVC/Controller/ActionController.php:150-161 | every argument that was not in the collection before is named after a parameter |
| ActionControllers.NamedAsParameters | Classes/MVC/Controller/ActionController.php:150-161 | a collection whose names are the parameters' names holds one argument per parameter, in order |
| ActionControllers.RegisteredInOrder | Classes/MVC/Controller/ActionController.php:150-161 | registering distinct parameters into an empty collection gives exactly one argument per parameter, in the parameters' order |
| ActionControllers.SameNameSameArgument | Classes/MVC/Controller/ActionController.php:160 | in a collection with distinct names, the name identifies the argument |
| ActionControllers.AssignedValidatorStep | Classes/MVC/Controller/ActionController.php:173-176 | one more conjunction changes only the validator of the argument it names |
| ActionControllers.AssignedValidatorOf | Classes/MVC/Controller/ActionController.php:173-176 | with distinct names, each applied conjunction's validator is what its argument ends with |
| ActionControllers.AssignedValidatorUnnamed | Classes/MVC/Controller/ActionController.php:173-176 | an argument that no applied conjunction names keeps its validator |
| ActionControllers.ApplyConjunctions | Classes/MVC/Controller/ActionController.php:171-177 | the loop: stops at the first conjunction whose argument is missing, and leaves every argument with the validator `AssignedValidator` gives; only validators change |
| ActionControllers.AssignValidators | Classes/MVC/Controller/ActionController.php:171-177 | fails, with NoSuchArgument 1239853108 for its name, exactly at the first conjunction without an argument; the conjunctions before it are assigned; other arguments keep their validator; no other field changes |
| ActionControllers.Request.SetDispatched | Classes/MVC/Controller/ActionController.php:115 | the request is marked dispatched; its errors are unchanged |
| ActionControllers.Request.SetErrors | Classes/MVC/Controller/ActionController.php:302 | the request holds the errors; its dispatched flag is unchanged |
| ActionControllers.Response.AppendContent | Classes/MVC/Controller/ActionController.php:216-218 | the content is extended by the string |
| ActionControllers.ActionController.constructor | Classes/MVC/Controller/ActionController.php:50-76 | a new controller has the action `indexAction`, no arguments, request, response or view, and the default view pattern |
| ActionControllers.ActionController.AddArgument | Classes/MVC/Controller/ActionController.php:160 | the argument replaces the one of the same name or is appended; names stay distinct |
| ActionControllers.ActionController.AddNewArgument | Classes/MVC/Controller/ActionController.php:160 | a fresh argument with the name, data type, required flag and default value is added |
| ActionControllers.ActionController.AddParameterArgument | Classes/MVC/Controller/ActionController.php:151-160 | adds a fresh valid argument named after the parameter whose fields are those `ArgumentFor` gives (data type, required flag, default) |
| ActionControllers.ActionController.AddParameterArguments | Classes/MVC/Controller/ActionController.php:150-161 | the loop: every parameter is registered, the names are the old names with each parameter's added in order, new arguments are fresh, and arguments of other names are kept |
| ActionControllers.ActionController.InitializeActionMethodArguments | Classes/MVC/Controller/ActionController.php:149-162 | every parameter is registered under its name with a fresh argument of its data type, required flag and default; the names are the old ones with each parameter's added in order; starting empty, there is exactly one argument per parameter, in order; every new argument is named after a parameter; arguments of other names are kept |
| ActionControllers.ActionController.InitializeActionMethodValidators | Classes/MVC/Controller/ActionController.php:171-177 | fails, with NoSuchArgument 1239853108 for its name, exactly at the first conjunction without an argument; the conjunctions before it are assigned; only validators change, and only those of the arguments named |
| ActionControllers.ActionController.CallActionMethod | Classes/MVC/Controller/ActionController.php:203-220 | prepares every argument's value in order, calls the error action on mapping errors, and appends what `AppendedContent` gives for the result |
| ActionControllers.ActionController.ErrorAction | Classes/MVC/Controller/ActionController.php:301-317 | hands the errors to the request and returns exactly `ErrorMessage` |
| ActionControllers.ActionController.RegisterArguments | Classes/MVC/Controller/ActionController.php:123-125 | every parameter has an argument with its data type, required flag and default, the names follow the parameters in order, the conjunctions are assigned up to the first one without an argument, which fails with NoSuchArgument 1239853108; every earlier argument that no parameter names is still registered with all its fields but its validator, and keeps that validator too unless a conjunction assigned before the failure names it |
| ActionControllers.ActionController.PrepareAction | Classes/MVC/Controller/ActionController.php:121-125 | resolves the action method, or fails with NoSuchAction leaving the method name, the arguments and their fields as they were; otherwise every parameter has an argument with its data type, required flag and default, the names follow the parameters in order, the conjunctions are assigned up to the first one without an argument, which fails with NoSuchArgument 1239853108; every earlier argument that no parameter names is still registered with all its fields but its validator, and keeps that validator too unless a conjunction assigned before the failure names it |
| ActionControllers.ActionController.RunAction | Classes/MVC/Controller/ActionController.php:127-136 | names the hook when the controller has it, resolves the view with its fall-backs, calls the action or, when mapping produced errors, the error action, which hands those errors to the request; the method name, the arguments and the request's dispatched flag stay |
| ActionControllers.ActionController.Dispatch | Classes/MVC/Controller/ActionController.php:121-136 | prepares the action as PrepareAction states, and on success runs it as RunAction states; a failure leaves the view, the response content and the request's errors as they were and runs no hook; the earlier arguments no parameter names are kept with their fields and, unless an assigned conjunction names them, their validators |
| ActionControllers.ActionController.ProcessRequest | Classes/MVC/Controller/ActionController.php:111-137 | an unsupported request fails with UnsupportedRequestType 1187701131 and changes nothing, arguments included; otherwise the request is dispatched, the action is resolved and its arguments declared with their fields and validators, the earlier arguments no parameter names kept with their fields and, unless an assigned conjunction names them, their validators; a failure there leaves the view, the response content and the request's errors unchanged, names no hook and returns no result; on success the hook, view, response and the request's errors (the mapping errors, when there are any) follow |

## Left out

- The factory's own source file (`DataMapFactory.php`) is not part of this model. The model follows its unit test. The classifier's rules for a column that the test does not cover (no column configuration, or a scalar property type) give RELATION_NONE.
- Where the foreign-selector case's parent key is concerned, the model follows the test, which expects `foreign_field`.
- DataMapFactories.Subclasses: a subclass configuration with a cycle is cut where a class recurs on the current path. The PHP code would recurse without end there. On acyclic configurations the two agree.
- DataMapFactories.ResolveTableName is fitted to the three mappings the test gives. The literal core and vendor class names of the test are instances of `TableNameOfCoreClass` and `TableNameOfVendorClass`, stated over their segments rather than as literals.
- DataMapFactories.DataMapFactory.SetManyToManyRelation: a configuration with neither MM nor a foreign selector is reported as a failure with no effects. The test does not exercise this case.
- The data map cache is an input (`cached`) of `BuildDataMap`, and the framework configuration is the `classes` map. Storing a built map into the cache is not modelled.
- `AbstractController.php` and `Arguments.php` are not part of this model.
  - `canProcessRequest` is taken as "the request is an instance of a supported request type".
  - The arguments collection is a sequence keyed by name, in which adding replaces the argument of the same name. Lookup by short name is not modelled.
- Not modelled: `mapRequestArgumentsToControllerArguments`, `initializeControllerArgumentsBaseValidators`, the empty `initializeAction` and `initializeView` hooks, the URI builder, rendering and `forward`. The error action's forward to a `__referrer` is not modelled either.
- Whether the initialisation hook exists is returned (`hook`); the hook is not run.
- The mapping results (`errors`, `warnings`), whether the template view has a template, the action's return value and the rendered view are parameters.
- Arguments.Argument.SetNewValidatorConjunction: the validator is a value (its class and the classes chained into it), not a shared object. Changes made through another reference to the same validator are not modelled.
- Arguments.Transform: what `findObjectByUid` and the property mapper return is a parameter (`resolved`), since both query the persistence layer.
- `__toString`, the getters without contracts, and dependency injection are not modelled.
- Reflection (`class_exists`, `method_exists`, `getClassSchema`, `getMethodParameters`) is the oracle `Environment` or a parameter. `makeInstance` and `call_user_func` are not modelled.
- PHP_EOL is taken as `\n`. Only ASCII letters are lower- or upper-cased. Strings are taken to be UTF-8 encoded where strlen counts bytes.
- Arguments.Transform: PHP's is_numeric is modelled for integers and for strings of decimal digits with an optional sign. Floats, decimal points, exponents and leading whitespace, which is_numeric also accepts, are not modelled, since the model's values have no floats.
- DataMapFactories.DataMapFactory.SetPageIdColumn: the relation table name is read through a function of the column map, which is not logged. The test's expectation that `getRelationTableName` is called exactly once is therefore not stated.
