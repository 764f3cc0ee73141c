# jParley parameter registries, modelled in Dafny

jParley calls stored procedures and functions over JDBC. Its `utility`
package holds the parameter bookkeeping, and this project models it:

- **Two registries.** Each is an insertion ordered map from keys to parameter
  records.
  - `Manager` is the cell-based revision. A record has an optional input cell,
    an optional output cell, a type, a struct name, an encoder and a decoder.
  - `DataManager` is the flag-based revision. A record has `isInput` and
    `isOutput` flags and one shared `Value` cell.
  - Both registries have bulk `setupAll` and `parseAll` operations. These push
    the records into a callable statement and read the outputs back.
- **`Statement`.** It synthesises the `{call …}` and `{? = call …}` strings. It
  sends each parameter operation to the index or the name overload of the JDBC
  statement.
- **`Parameter`.** The flag-based record, with its field-wise `merge`.
- **`ParameterKey`.** An index or name key with hand-written `equals` and
  `hashCode`, and a cached `toString`.
- **`Value` and `ParameterValue`.** Single-slot cells. Callers hold on to them
  and rely on their object identity.

Objects whose fields the Java code updates are Dafny classes. This covers the
registries, the records, the cells, the key's cache and the statements. The
`LinkedHashMap` is a value (`LinkedMaps.LinkedMap`): the key order together
with a map. The registries reassign it.

The JDBC driver is reduced to a call log:

- Each `CallableStatement` records every call it receives.
- A `fails(log, call)` oracle says whether a call throws `SQLException`.
- An `answer` oracle says what a read returns.

A converter is an identifier. `process(converter, value)` stands for
`converter.process(connection, value)` on the connection in use, and it may
throw.

What `setupAll` and `parseAll` do is given as functions of the records in
iteration order (`DataManagerSpec`, `ManagerSpec`). The loops are proved
equal to those functions. The properties the code promises are then proved
about the functions:

- the exact calls made, in order;
- the first failure stops the loop and keeps the earlier calls;
- which cells get written;
- the decoded answer stored in each output.

A Java object reference held by a cell is `Lang.Datum`:

- `Null`, or
- an object together with the text its `toString` gives.

Java's `int` is `Lang.Int32`. Wrap-around is written out (`Wrap32`) where the
code can overflow: `hashCode`, and the `parametersNumber - 1` of
`createFunction`.

## Model

| member | source | states |
|---|---|---|
| Managers.Parameter.constructor | src/main/java/com/soulwarelabs/jparley/utility/Manager.java:121 | A new record has both cells null and no type, struct name, encoder or decoder. |
| Managers.Adapter.Input | src/main/java/com/soulwarelabs/jparley/utility/Manager.java:223 | `statement.input(key, value, type)` appends exactly that call to the log. It throws exactly when the driver's oracle says so. |
| Managers.Adapter.Output | src/main/java/com/soulwarelabs/jparley/utility/Manager.java:226-228 | `statement.output(key, type, struct)` appends exactly that call. It throws exactly when the oracle says so. |
| Managers.Adapter.Read | src/main/java/com/soulwarelabs/jparley/utility/Manager.java:169 | `statement.read(key)` appends one read and returns the driver's answer for the key, unless it throws. |
| Managers.PutWellformed | src/main/java/com/soulwarelabs/jparley/utility/Manager.java:235-237 | Putting a new record under a new key appends the key to the order and adds exactly that record. No record is then registered twice. |
| Managers.RemoveWellformed | src/main/java/com/soulwarelabs/jparley/utility/Manager.java:188-190 | Removing a key only drops that entry and keeps the map well formed. |
| Managers.NewInput | src/main/java/com/soulwarelabs/jparley/utility/Manager.java:121-124 | The record `in` builds is new and has exactly the given input cell, type and encoder. |
| Managers.NewOutput | src/main/java/com/soulwarelabs/jparley/utility/Manager.java:144-148 | The record `out` builds is new. Its output cell is new and empty, and it has exactly the given type, struct name and decoder. |
| Managers.Manager.constructor | src/main/java/com/soulwarelabs/jparley/utility/Manager.java:55-57 | A new manager has no keys and a count of 0. |
| Managers.Manager.GetParameter | src/main/java/com/soulwarelabs/jparley/utility/Manager.java:70-72 | The result is null exactly when the key is absent. Otherwise it is the registered record. |
| Managers.Manager.GetParametersCount | src/main/java/com/soulwarelabs/jparley/utility/Manager.java:81-83 | The number of registered keys. |
| Managers.Manager.BindingOutputsDistinct | src/main/java/com/soulwarelabs/jparley/utility/Manager.java:142-150 | When no two keys share an output cell (`OutputsDistinct`, which the constructor, `in`, `out`, `remove` and `removeAll` keep), the output cells in iteration order are pairwise different. |
| Managers.Manager.Merge | src/main/java/com/soulwarelabs/jparley/utility/Manager.java:233-247 | A new key is appended at the end of the order, and the count grows by one. A present key keeps its record object and its position. New key or present, the registered record ends with all six fields of the merged record, nulls included. Other records are unchanged, and no two keys come to share an output cell. |
| Managers.Manager.In | src/main/java/com/soulwarelabs/jparley/utility/Manager.java:119-126 | The record under the key becomes exactly (input, no output, type, no struct, encoder, no decoder). A new key is appended. A present key keeps its place. If no two keys shared an output cell before, they still do not, and the earlier output cell of that key is no longer any record's output. |
| Managers.Manager.Out | src/main/java/com/soulwarelabs/jparley/utility/Manager.java:142-150 | It returns a new empty cell, which is the output of the record under the key whether the key was new or present. The record has no input and no encoder, and takes the type, struct name and decoder. If no two keys shared an output cell before, they still do not, and the earlier output cell is no longer any record's output. |
| Managers.Manager.Remove | src/main/java/com/soulwarelabs/jparley/utility/Manager.java:188-190 | `getParameter(key)` becomes null. Every other key keeps its record. It is a no-op for an absent key (with `LinkedMaps.RemoveProperties`). It keeps output cells unshared. |
| Managers.Manager.RemoveAll | src/main/java/com/soulwarelabs/jparley/utility/Manager.java:197-199 | No keys remain and the count is 0. |
| Managers.Manager.SetupAll | src/main/java/com/soulwarelabs/jparley/utility/Manager.java:213-231 | The calls made and the outcome are exactly those of `ManagerSpec.Setup` on the records in iteration order. No cell is written. |
| Managers.Manager.ParseAll | src/main/java/com/soulwarelabs/jparley/utility/Manager.java:164-177 | The calls made, the new contents of every registered cell and the outcome are exactly those of `ManagerSpec.Parse`. Only output cells may change. |
| Managers.Manager.GetPrintedState | src/main/java/com/soulwarelabs/jparley/utility/Manager.java:92-103 | The text is the `"<key> = <record>"` entries in iteration order, joined by `", "` with no trailing separator. It is empty for an empty registry. |
| Managers.SetupEntry | src/main/java/com/soulwarelabs/jparley/utility/Manager.java:216-229 | One loop pass makes the input binding (encoded content, record type), then the output registration, and stops at a throw. This is `ManagerSpec.SetupOne`. |
| Managers.ParseEntry | src/main/java/com/soulwarelabs/jparley/utility/Manager.java:167-175 | One loop pass does read, decode and store into the output cell, or nothing without an output. This is `ManagerSpec.ParseOne`. |
| ManagerSpec.SetupPassMakesPlannedCalls | src/main/java/com/soulwarelabs/jparley/utility/Manager.java:215-230 | A `setupAll` that does not throw makes, per record in order, the input binding and then the output registration, and nothing else. Every input's encoder succeeded. |
| ManagerSpec.SetupExtendsLog | src/main/java/com/soulwarelabs/jparley/utility/Manager.java:213-231 | Every `setupAll`, a throwing one too, keeps the log it started with: the calls made before a failing record stay made. |
| ManagerSpec.SetupWithinPlan | src/main/java/com/soulwarelabs/jparley/utility/Manager.java:213-231 | Every `setupAll`, a throwing one too, makes a prefix of the planned calls: it stops part-way through the plan, and no call outside the plan is made. |
| ManagerSpec.SetupOneWithinPlan | src/main/java/com/soulwarelabs/jparley/utility/Manager.java:216-229 | One record's loop pass adds a prefix of its planned calls, and all of them when it does not throw. |
| ManagerSpec.PlannedCallsHaveCells | src/main/java/com/soulwarelabs/jparley/utility/Manager.java:217-229 | Every planned call names the key of a record with an input or an output cell. A record whose cells are both null has no planned call. |
| ManagerSpec.SetupCallsHaveCells | src/main/java/com/soulwarelabs/jparley/utility/Manager.java:213-231 | Every call a `setupAll` makes, a throwing one too, names the key of a record with an input or an output cell, so a record whose cells are both null causes no call. |
| ManagerSpec.ParseExtendsLog | src/main/java/com/soulwarelabs/jparley/utility/Manager.java:164-177 | Every `parseAll`, a throwing one too, keeps the starting log and adds a prefix of the reads, one per output cell in order. |
| ManagerSpec.ParseOneWithinReads | src/main/java/com/soulwarelabs/jparley/utility/Manager.java:167-175 | One loop pass of `parseAll` adds at most its record's read, and exactly that read when it does not throw. |
| ManagerSpec.ParseLeavesOtherCells | src/main/java/com/soulwarelabs/jparley/utility/Manager.java:166-176 | A cell that is no record's output keeps its content, an input cell in particular. No cell is added or dropped. |
| ManagerSpec.ParseStoresDecodedAnswers | src/main/java/com/soulwarelabs/jparley/utility/Manager.java:166-176 | If no two records share an output cell (given by `Managers.Manager.BindingOutputsDistinct`), a `parseAll` that does not throw leaves every output cell holding the decoded (or raw) answer for its key. It makes exactly one read per output, in order. |
| DataManagers.PutWellformed | src/main/java/com/soulwarelabs/jparley/utility/DataManager.java:236-239 | Putting a new parameter under a new key keeps every entry filed under its key's fields and adds exactly that parameter. |
| DataManagers.RemoveWellformed | src/main/java/com/soulwarelabs/jparley/utility/DataManager.java:158-160 | Removing a key only drops that entry and keeps the map well formed. |
| DataManagers.NewInput | src/main/java/com/soulwarelabs/jparley/utility/DataManager.java:116-120 | The parameter `setInput` builds is flagged input only, with a new cell holding the value, the type and the encoder. |
| DataManagers.NewOutput | src/main/java/com/soulwarelabs/jparley/utility/DataManager.java:140-145 | The parameter `setOutput` builds is flagged output only, with a new empty cell, the type, the struct name and the decoder. |
| DataManagers.DataManager.constructor | src/main/java/com/soulwarelabs/jparley/utility/DataManager.java:52-54 | A new manager has no keys and a count of 0. |
| DataManagers.DataManager.GetParameter | src/main/java/com/soulwarelabs/jparley/utility/DataManager.java:67-69 | The result is null exactly when no equal key is registered. Otherwise it is that key's parameter. |
| DataManagers.DataManager.GetParametersCount | src/main/java/com/soulwarelabs/jparley/utility/DataManager.java:78-80 | The number of registered keys. |
| DataManagers.DataManager.Merge | src/main/java/com/soulwarelabs/jparley/utility/DataManager.java:235-244 | A new key is appended with the given parameter. A present key keeps its parameter object and position, and the parameter's fields become `Parameters.Merged`. It throws exactly when `Parameters.MergeThrows` holds. |
| DataManagers.DataManager.SetInput | src/main/java/com/soulwarelabs/jparley/utility/DataManager.java:115-122 | On a new key, the new parameter is input only, with its new cell holding the value. On a present key, the parameter becomes an input and keeps its output flag. It takes the type and the encoder, loses the decoder and struct name, and its own cell receives the value. It throws when that cell is null. No two keys come to share a cell. |
| DataManagers.DataManager.SetOutput | src/main/java/com/soulwarelabs/jparley/utility/DataManager.java:139-147 | It returns the registered parameter's cell. On a new key that is a new empty cell. On a present key it is the existing cell, already holding any earlier input, and the new cell is dropped. No cell content changes, and no two keys come to share a cell. |
| DataManagers.DataManager.Remove | src/main/java/com/soulwarelabs/jparley/utility/DataManager.java:158-160 | `getParameter(key)` becomes null. Every other key keeps its entry. It keeps cells unshared. |
| DataManagers.DataManager.RemoveAll | src/main/java/com/soulwarelabs/jparley/utility/DataManager.java:167-169 | No keys remain and the count is 0. |
| DataManagers.DataManager.BindingCellsDistinct | src/main/java/com/soulwarelabs/jparley/utility/DataManager.java:115-147 | When no two keys share a cell (`CellsDistinct`, which the constructor, `setInput`, `setOutput`, `remove` and `removeAll` keep, since each cell they store is new), the outputs' cells in iteration order are pairwise different. |
| DataManagers.DataManager.SetupAll | src/main/java/com/soulwarelabs/jparley/utility/DataManager.java:183-201 | The base calls made and the outcome are exactly those of `DataManagerSpec.Setup` on the parameters in iteration order. |
| DataManagers.DataManager.ParseAll | src/main/java/com/soulwarelabs/jparley/utility/DataManager.java:215-228 | The base calls made, the new contents of every registered cell and the outcome are exactly those of `DataManagerSpec.Parse`. |
| DataManagers.DataManager.GetPrintedState | src/main/java/com/soulwarelabs/jparley/utility/DataManager.java:89-100 | The text is the `"<key> = <parameter>"` entries in iteration order, joined by `", "` with no trailing separator. It is empty for an empty registry. |
| DataManagers.SetupEntry | src/main/java/com/soulwarelabs/jparley/utility/DataManager.java:186-199 | One loop pass is `DataManagerSpec.SetupOne`. It includes the null-pointer paths for a null cell and for a null type on an output. |
| DataManagers.ParseEntry | src/main/java/com/soulwarelabs/jparley/utility/DataManager.java:218-226 | One loop pass is `DataManagerSpec.ParseOne`, ending with the store into the parameter's own cell. |
| DataManagerSpec.SetupPassMakesPlannedCalls | src/main/java/com/soulwarelabs/jparley/utility/DataManager.java:185-200 | A `setupAll` that does not throw binds each input before registering the same key's output, in iteration order, and makes no other calls. Every output had a type, and every input had a cell and a succeeding encoder. |
| DataManagerSpec.UntypedOutputFailsSetup | src/main/java/com/soulwarelabs/jparley/utility/DataManager.java:195-198 | A parameter flagged output with a null type makes `setupAll` fail. |
| DataManagerSpec.SetupExtendsLog | src/main/java/com/soulwarelabs/jparley/utility/DataManager.java:183-201 | Every `setupAll`, a throwing one too, keeps the log it started with: the calls made before a failing parameter stay made. |
| DataManagerSpec.SetupWithinPlan | src/main/java/com/soulwarelabs/jparley/utility/DataManager.java:183-201 | Every `setupAll`, a throwing one too, makes a prefix of the planned calls: it stops part-way through the plan, and no call outside the plan is made. |
| DataManagerSpec.SetupOneWithinPlan | src/main/java/com/soulwarelabs/jparley/utility/DataManager.java:185-200 | One parameter's loop pass adds a prefix of its planned calls, and all of them when it does not throw. |
| DataManagerSpec.ParseExtendsLog | src/main/java/com/soulwarelabs/jparley/utility/DataManager.java:215-228 | Every `parseAll`, a throwing one too, keeps the starting log and adds a prefix of the reads, one per output in order. |
| DataManagerSpec.ParseOneWithinReads | src/main/java/com/soulwarelabs/jparley/utility/DataManager.java:217-227 | One loop pass of `parseAll` adds at most its record's read, and exactly that read when it does not throw. |
| DataManagerSpec.ParseLeavesOtherCells | src/main/java/com/soulwarelabs/jparley/utility/DataManager.java:217-227 | A cell that is no output's cell keeps its content, so input-only parameters are untouched. No cell is added or dropped. |
| DataManagerSpec.ParseStoresDecodedAnswers | src/main/java/com/soulwarelabs/jparley/utility/DataManager.java:217-227 | If no two outputs share a non-null cell (given by `DataManagers.DataManager.BindingCellsDistinct`), a `parseAll` that does not throw leaves each output's cell holding its decoded (or raw) answer, which overwrites an in-out parameter's input. It makes one read per output, in order. |
| Parameters.MergedProperties | src/main/java/com/soulwarelabs/jparley/utility/Parameter.java:235-240 | Merging keeps the cell and never clears a flag. Merging the same record twice changes nothing more. An input merged into an output gives an in-out parameter. |
| Parameters.Parameter.constructor | src/main/java/com/soulwarelabs/jparley/utility/Parameter.java:43-58 | Both flags are false and every reference is null. |
| Parameters.Parameter.SetDecoder | src/main/java/com/soulwarelabs/jparley/utility/Parameter.java:152-154 | The getter returns the new decoder, and no other field changes. |
| Parameters.Parameter.SetEncoder | src/main/java/com/soulwarelabs/jparley/utility/Parameter.java:165-167 | The getter returns the new encoder, and no other field changes. |
| Parameters.Parameter.SetInput | src/main/java/com/soulwarelabs/jparley/utility/Parameter.java:176-178 | The input flag is set as given, and no other field changes. |
| Parameters.Parameter.SetOutput | src/main/java/com/soulwarelabs/jparley/utility/Parameter.java:187-189 | The output flag is set as given, and no other field changes. |
| Parameters.Parameter.SetSqlType | src/main/java/com/soulwarelabs/jparley/utility/Parameter.java:198-200 | The getter returns the new type, and no other field changes. |
| Parameters.Parameter.SetStructName | src/main/java/com/soulwarelabs/jparley/utility/Parameter.java:209-211 | The getter returns the new struct name, and no other field changes. |
| Parameters.Parameter.SetValue | src/main/java/com/soulwarelabs/jparley/utility/Parameter.java:222-224 | The getter returns the new cell, and no other field changes. |
| Parameters.Parameter.Merge | src/main/java/com/soulwarelabs/jparley/utility/Parameter.java:233-244 | The fields become `Merged(mine, another)`. For an input, `another`'s cell content is copied into this parameter's own cell. It throws exactly when either cell is null. Otherwise this cell is left alone, and `another` is not changed. |
| Parameters.BlankToString | src/main/java/com/soulwarelabs/jparley/utility/Parameter.java:247-249 | A parameter with no cell, type or struct name renders as `null (null/null)`. |
| Parameters.ToStringShapes | src/main/java/com/soulwarelabs/jparley/utility/Parameter.java:247-249 | For every combination of null and non-null cell, type and struct name, the text is `"<cell> (<type>/<struct>)"`: a null cell or a cell holding null gives `null`, a null type `null` and a set type its decimal digits, a null struct name `null`. The type part is `null` exactly when the type is null. |
| Parameters.ToStringExample | src/main/java/com/soulwarelabs/jparley/utility/Parameter.java:247-249 | A `VARCHAR` (12) parameter of struct `ADDRESS_T` whose cell holds `x` renders as `x (12/ADDRESS_T)`. |
| ParameterKeys.ParameterKey.AtIndex | src/main/java/com/soulwarelabs/jparley/utility/ParameterKey.java:54-57 | The key is index-based and not name-based, and holds the index unchecked. |
| ParameterKeys.ParameterKey.Named | src/main/java/com/soulwarelabs/jparley/utility/ParameterKey.java:67-70 | The key is not index-based. It is name-based exactly when the name is non-null. |
| ParameterKeys.ParameterKey.ToString | src/main/java/com/soulwarelabs/jparley/utility/ParameterKey.java:144-154 | It returns the key's text. After the first call the cache is filled, and later calls change nothing. |
| ParameterKeys.EqualsIffSameFields | src/main/java/com/soulwarelabs/jparley/utility/ParameterKey.java:116-134 | Two keys are equal exactly when their index fields and their name fields agree, null agreeing with null. |
| ParameterKeys.EqualsIsReflexiveAndSymmetric | src/main/java/com/soulwarelabs/jparley/utility/ParameterKey.java:116-134 | `equals` is reflexive and symmetric. |
| ParameterKeys.EqualsRejectsOthers | src/main/java/com/soulwarelabs/jparley/utility/ParameterKey.java:118-123 | No key equals null or an object of another class. |
| ParameterKeys.IndexKeyNeverEqualsNameKey | src/main/java/com/soulwarelabs/jparley/utility/ParameterKey.java:127-129 | An index-based key never equals a key built from a name. |
| ParameterKeys.HashCodeFormula | src/main/java/com/soulwarelabs/jparley/utility/ParameterKey.java:137-142 | The stepwise hash is `71 * (71 * 3 + h(index)) + h(name)` wrapped once into `int`, where a null field contributes 0. |
| ParameterKeys.EqualKeysHaveEqualHashes | src/main/java/com/soulwarelabs/jparley/utility/ParameterKey.java:116-142 | Equal keys have equal hash codes. |
| ParameterKeys.ToStringShapes | src/main/java/com/soulwarelabs/jparley/utility/ParameterKey.java:146-151 | The text is `"<index> (index-based)"` for a key without a name, and `"null (index-based)"` when the index is null too. Otherwise it is `"<name> (name-based)"`. |
| Statements.CreateParameterString | src/main/java/com/soulwarelabs/jparley/utility/Statement.java:84-90 | The loop builds exactly `Placeholders(number)`. |
| Statements.PlaceholdersShape | src/main/java/com/soulwarelabs/jparley/utility/Statement.java:84-90 | For `n >= 1` the list is `n` question marks separated by single commas, starting and ending with `?`. It is empty for `n <= 0`. |
| Statements.SqlExamples | src/main/java/com/soulwarelabs/jparley/utility/Statement.java:57-82 | `{call pkg.proc()}`, `{call pkg.proc(?,?,?)}`, `{? = call pkg.fn()}` and `{? = call pkg.fn(?,?,?)}` for 0, 3, 1 and 4 parameters. |
| Statements.ProcedureSqlPlaceholders | src/main/java/com/soulwarelabs/jparley/utility/Statement.java:77-82 | For a name without `?` and `n >= 1`, the procedure string has exactly `n` question marks. |
| Statements.FunctionSqlPlaceholders | src/main/java/com/soulwarelabs/jparley/utility/Statement.java:57-62 | For a name without `?` and `n >= 1`, the function string has exactly `n` question marks, the return value included. |
| Statements.TargetOf | src/main/java/com/soulwarelabs/jparley/utility/Statement.java:147-150 | An index-based key selects the index overload with its index. Any other key selects the name overload with its (possibly null) name. |
| Statements.InputCall | src/main/java/com/soulwarelabs/jparley/utility/Statement.java:168-180 | It is the untyped `setObject` exactly when the type is null, otherwise the typed one. It carries the value unchanged to the key's overload. |
| Statements.OutputCall | src/main/java/com/soulwarelabs/jparley/utility/Statement.java:197-209 | It is the two-argument `registerOutParameter` exactly when the struct name is null, otherwise the three-argument one. |
| Statements.Statement.constructor | src/main/java/com/soulwarelabs/jparley/utility/Statement.java:95-98 | The adapter keeps the base statement and the SQL it was prepared from. |
| Statements.Statement.Prepare | src/main/java/com/soulwarelabs/jparley/utility/Statement.java:95-98 | It fails exactly when the connection refuses the SQL. Otherwise it gives a new adapter over a new, unused base statement for that SQL. |
| Statements.Statement.CreateFunction | src/main/java/com/soulwarelabs/jparley/utility/Statement.java:57-62 | It prepares exactly `FunctionSql(name, n)`, whose parameter count `n - 1` wraps at the bottom of `int`, or fails when the connection refuses it. |
| Statements.Statement.CreateProcedure | src/main/java/com/soulwarelabs/jparley/utility/Statement.java:77-82 | It prepares exactly `ProcedureSql(name, n)`, or fails when the connection refuses it. |
| Statements.Statement.GetSql | src/main/java/com/soulwarelabs/jparley/utility/Statement.java:120-122 | The SQL the base statement was prepared from. |
| Statements.Statement.ToString | src/main/java/com/soulwarelabs/jparley/utility/Statement.java:212-215 | The same text as `getSql()`. |
| Statements.Statement.Execute | src/main/java/com/soulwarelabs/jparley/utility/Statement.java:131-133 | Exactly one `execute` call on the base statement. |
| Statements.Statement.ReadOutput | src/main/java/com/soulwarelabs/jparley/utility/Statement.java:146-152 | Exactly one `getObject` on the key's overload, returning the driver's answer for it. |
| Statements.Statement.SetInput | src/main/java/com/soulwarelabs/jparley/utility/Statement.java:166-181 | Exactly one base call, `InputCall`. |
| Statements.Statement.SetOutput | src/main/java/com/soulwarelabs/jparley/utility/Statement.java:195-210 | Exactly one base call, `OutputCall`. |
| Jdbc.CallableStatement.Invoke | src/main/java/com/soulwarelabs/jparley/utility/Statement.java:131-133 | A driver call is recorded and throws exactly when the oracle says so. |
| Jdbc.CallableStatement.Read | src/main/java/com/soulwarelabs/jparley/utility/Statement.java:146-152 | `getObject` is recorded and returns the oracle's answer unless it throws. |
| Jdbc.Connection.PrepareCall | src/main/java/com/soulwarelabs/jparley/utility/Statement.java:96 | It fails exactly for the SQL the connection refuses. Otherwise it gives a new statement with an empty log. |
| Values.Value.constructor | src/main/java/com/soulwarelabs/jparley/utility/Value.java:51-53 | A new cell holds null. |
| Values.Value.Holding | src/main/java/com/soulwarelabs/jparley/utility/Value.java:62-64 | A new cell holds the given object. |
| Values.Value.SetValue | src/main/java/com/soulwarelabs/jparley/utility/Value.java:71-74 | `getValue()` then returns the new object, and nothing else changes. |
| Values.Value.ToString | src/main/java/com/soulwarelabs/jparley/utility/Value.java:76-79 | `"null"` for null, otherwise the held object's text. |
| ParameterValues.ParameterValue.constructor | src/main/java/com/soulwarelabs/jparley/utility/ParameterValue.java:51-53 | A new cell holds null. |
| ParameterValues.ParameterValue.Holding | src/main/java/com/soulwarelabs/jparley/utility/ParameterValue.java:62-64 | A new cell holds the given object. |
| ParameterValues.ParameterValue.SetValue | src/main/java/com/soulwarelabs/jparley/utility/ParameterValue.java:78-80 | `getValue()` then returns the new object, and nothing else changes. |
| ParameterValues.ParameterValue.ToString | src/main/java/com/soulwarelabs/jparley/utility/ParameterValue.java:82-85 | `"null"` for null, otherwise the held object's text. |
| LinkedMaps.Empty | src/main/java/com/soulwarelabs/jparley/utility/Manager.java:56 | A new (or cleared) map has no keys and size 0. |
| LinkedMaps.SizeIsEntryCount | src/main/java/com/soulwarelabs/jparley/utility/Manager.java:81-83 | `size()` is the number of distinct keys. |
| LinkedMaps.PutProperties | src/main/java/com/soulwarelabs/jparley/utility/Manager.java:236 | After `put`, `get` of the key gives the record and other keys are unaffected. A new key is appended and the size grows by one. A present key keeps its place and the size. |
| LinkedMaps.RemoveProperties | src/main/java/com/soulwarelabs/jparley/utility/Manager.java:189 | After `remove`, `get` of the key is null and other keys are unaffected. Removing an absent key changes nothing. Removing a present key shrinks the size by one. |
| LinkedMaps.RemoveKeepsOrder | src/main/java/com/soulwarelabs/jparley/utility/Manager.java:189 | Removing a present key closes its gap: the other keys keep their relative order. |
| Lang.Wrap32 | src/main/java/com/soulwarelabs/jparley/utility/ParameterKey.java:139-140 | The wrapped value is congruent to the exact result modulo 2^32, and equal to it when it fits in `int`. |
| Lang.WrapStep | src/main/java/com/soulwarelabs/jparley/utility/ParameterKey.java:139-140 | Wrapping the intermediate hash before the next `71 * h + x` step gives the same final `int`. |
| Lang.DecimalShape | src/main/java/com/soulwarelabs/jparley/utility/ParameterKey.java:148 | `%d` writes a minus sign exactly for negative numbers, followed by the digits of the magnitude. |
| Lang.DigitsRoundTrip | src/main/java/com/soulwarelabs/jparley/utility/ParameterKey.java:148 | The digits of a number are decimal digits without a leading zero, and they read back as the number. |
| Printing.JoinedFront | src/main/java/com/soulwarelabs/jparley/utility/Manager.java:95-101 | Joining from the front gives the same text: the first entry, `", "`, then the rest joined. |
| Printing.JoinedLength | src/main/java/com/soulwarelabs/jparley/utility/Manager.java:95-101 | The printed state is as long as its entries plus two characters per separator, and it ends with the last entry (no trailing separator). |

## Left out

- The JDBC driver (`Connection.prepareCall`, `CallableStatement.setObject`, `registerOutParameter`, `getObject`, `execute`) is foreign code. It is reduced to a call log plus a failure oracle and a read oracle.
- `Converter.process` is not part of this model. It is a caller-supplied function of converter and value for the one connection in use. Converter calls are not logged, so how many times an encoder runs is not observable.
- `Key.java` and the `Box` it extends are not part of this model. Manager's key is an arbitrary type `K` compared by equality.
- Manager's record class is not part of this model, and neither is the statement revision `Manager` calls (`statement.input`, `output`, `read`). The Java source shows only their call sites. `Managers.Parameter` has direct fields in place of the unseen setters, and `Managers.Adapter` records the three calls.
- Managers.Manager.GetPrintedState: takes the `toString` of `Key` and of Manager's record as function parameters, because both classes are not part of this model. The record's rendering sees only its six fields, not the contents of its cells, so a `toString` that prints the cells' values is not captured.
- DataManagers.DataManager.GetPrintedState: renders each key by its `toString` text but does not model that this fills the key's cache. The text is the same either way; the cache write is left out only to keep the printing loop free of heap updates.
- DataManagers.DataManager.SetInput, SetOutput, GetParameter and Remove take a non-null `ParameterKey`. Java's `LinkedHashMap` also accepts a null key, so there `setInput(null, …)` registers a parameter and `getParameter(null)` finds it, and a later `setupAll` or `parseAll` throws `NullPointerException` at `key.isIndexBased()` in `Statement`. A null key and that error path are not modelled.
- Managers.Manager.In and Managers.Manager.Out promise that a key's earlier output cell is no longer any record's output only when no two keys shared an output cell before (`OutputsDistinct`). A caller can alias output cells through a record's own setters; the other operations do not depend on it.
- `Object.toString` of arbitrary values is not modelled: a non-null `Datum` carries its own text.
- `Serializable` on `Value` is left out, because serialisation has no behaviour here.
- Exception propagation is reduced to an `Outcome`: the loop stops at the failing record, and earlier calls stay recorded.
- The loop counters `i` and `index` of `createParameterString` and `getPrintedState` are unbounded integers. In Java, `createParameterString(Integer.MAX_VALUE)` would wrap `i` and never stop, but only after building a string longer than a Java string can be; running out of memory is not modelled.
- Statements.Statement.GetBaseStatement: is a pass-through accessor with no contract.
- DataManagers.DataManager.ToString: is the constant `"data manager"` and has no contract beyond its body.
- The getters of `Parameter` have no contracts of their own. Their meaning is stated by the setters' contracts.
- Contracts stated with `old`, `fresh` or `unchanged` are those of the state-changing methods: the registries' `Merge`, `SetInput`, `SetOutput`, `In`, `Out`, `Remove`, `SetupAll` and `ParseAll`, the setters and the adapters. What these methods compute is stated through the specification functions, and the properties are proved about those functions.
