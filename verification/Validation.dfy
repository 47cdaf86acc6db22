/** Semantic validation of mapping documents (mappings/validation.py): exactly which errors it
    reports, and what a document that passes is safe for. */
module Validation {
  import opened Common
  import opened Expressions
  import opened Documents

  datatype ValidationError =
    | WrongEntity
    | UnknownField(field: string)
    | TooDeep(field: string)
    | MissingColumn(field: string, column: string)
    | MissingDerivedColumn(field: string, column: string)
    | UnitOnUnitlessField(field: string)
    | Inconvertible(field: string, unit: string)
    | ValueMapOnNonEnum(field: string)
    | ValueMapTargets(field: string, targets: set<string>)
    | RequiredNotMapped(field: string)
    | JoinNotDeclared(relationship: string)
    | JoinSchemaNotAllowed(schemaName: string)
    | JoinTableNotAllowed(table: string)

  /** What a document is validated against. */
  datatype Setting = Setting(entity: EntityDefinition, availableColumns: Option<set<string>>,
                             schemaAllowlist: Option<seq<string>>, tableAllowlist: Option<seq<string>>,
                             convertible: (string, string) -> bool)

  // ---- which errors there are ---------------------------------------------------------------------

  predicate ColumnError(s: Setting, source: ValueSource, field: string, e: ValidationError) {
    match source
    case Static(_) => false
    case FromColumn(column, _, _) =>
      s.availableColumns.Some? && column !in s.availableColumns.value && e == MissingColumn(field, column)
    case Derived(expression) =>
      if Height(expression) > MAX_EXPRESSION_DEPTH then e == TooDeep(field)
      else
        && s.availableColumns.Some? && e.MissingDerivedColumn? && e.field == field
        && e.column in ReferencedColumns(expression) && e.column !in s.availableColumns.value
  }

  predicate UnitError(s: Setting, source: ValueSource, definition: FieldDefinition, field: string, e: ValidationError) {
    source.FromColumn? && source.sourceUnit.Some? &&
    match definition.unit
    case None => e == UnitOnUnitlessField(field)
    case Some(unit) =>
      !s.convertible(source.sourceUnit.value, unit) && e == Inconvertible(field, source.sourceUnit.value)
  }

  predicate ValueMapError(source: ValueSource, definition: FieldDefinition, field: string, e: ValidationError) {
    source.FromColumn? && source.valueMap.Some? &&
    if !definition.isEnum then e == ValueMapOnNonEnum(field)
    else
      var invalid := source.valueMap.value.Values - definition.enumValues;
      invalid != {} && e == ValueMapTargets(field, invalid)
  }

  predicate SourceError(s: Setting, source: ValueSource, definition: FieldDefinition, field: string,
                        e: ValidationError) {
    ColumnError(s, source, field, e) || UnitError(s, source, definition, field, e)
      || ValueMapError(source, definition, field, e)
  }

  ghost predicate FieldError(s: Setting, mapping: FieldMapping, field: string, e: ValidationError) {
    if field !in s.entity.fields then e == UnknownField(field)
    else exists i :: 0 <= i < |mapping.sources| && SourceError(s, mapping.sources[i], s.entity.fields[field], field, e)
  }

  predicate JoinError(s: Setting, j: Join, e: ValidationError) {
    || (j.relationship !in s.entity.relationships && e == JoinNotDeclared(j.relationship))
    || (s.schemaAllowlist.Some? && j.schemaName !in s.schemaAllowlist.value && e == JoinSchemaNotAllowed(j.schemaName))
    || (s.tableAllowlist.Some? && j.table !in s.tableAllowlist.value && e == JoinTableNotAllowed(j.table))
  }

  ghost predicate IsError(s: Setting, d: MappingDocument, e: ValidationError) {
    || (d.entity != s.entity.name && e == WrongEntity)
    || (exists field :: field in d.AllFields() && FieldError(s, d.AllFields()[field], field, e))
    || (e.RequiredNotMapped? && e.field in s.entity.fields && s.entity.fields[e.field].required
        && e.field !in d.AllFields())
    || (exists i :: 0 <= i < |d.joins| && JoinError(s, d.joins[i], e))
  }

  ghost predicate Passes(s: Setting, d: MappingDocument) {
    forall e :: !IsError(s, d, e)
  }

  // ---- the validator --------------------------------------------------------------------------------

  /** Validation appends to one list of errors; the list ends up holding exactly the errors. */
  method ValidateMappingDocument(s: Setting, d: MappingDocument) returns (errors: seq<ValidationError>)
    ensures forall e :: e in errors <==> IsError(s, d, e)
    ensures errors == [] <==> Passes(s, d)
  {
    errors := [];
    if d.entity != s.entity.name {
      errors := errors + [WrongEntity];
    }
    var fieldErrors := ValidateFields(s, d.AllFields());
    errors := errors + fieldErrors;
    var requiredErrors := ValidateRequired(s, d);
    errors := errors + requiredErrors;
    var joinErrors := ValidateJoins(s, d.joins);
    errors := errors + joinErrors;
    assert errors == [] <==> forall e :: e !in errors by {
      assert errors != [] ==> errors[0] in errors;
    }
  }

  method ValidateFields(s: Setting, all: map<string, FieldMapping>) returns (errors: seq<ValidationError>)
    ensures forall e :: e in errors <==> exists field :: field in all && FieldError(s, all[field], field, e)
  {
    errors := [];
    var todo := all.Keys;
    while todo != {}
      invariant todo <= all.Keys
      invariant forall e :: e in errors <==>
                  exists field :: field in all.Keys - todo && FieldError(s, all[field], field, e)
    {
      var field :| field in todo;
      ghost var before := errors;
      if field !in s.entity.fields {
        errors := errors + [UnknownField(field)];
      } else {
        var more := ValidateSources(s, all[field].sources, s.entity.fields[field], field);
        errors := errors + more;
      }
      assert forall e :: e in errors <==> e in before || FieldError(s, all[field], field, e);
      todo := todo - {field};
      assert forall f :: f in all.Keys - todo <==> f == field || f in all.Keys - (todo + {field});
    }
    assert all.Keys - todo == all.Keys;
  }

  method ValidateSources(s: Setting, sources: seq<ValueSource>, definition: FieldDefinition, field: string)
    returns (errors: seq<ValidationError>)
    ensures forall e :: e in errors <==>
              exists i :: 0 <= i < |sources| && SourceError(s, sources[i], definition, field, e)
  {
    errors := [];
    for k := 0 to |sources|
      invariant forall e :: e in errors <==> exists i :: 0 <= i < k && SourceError(s, sources[i], definition, field, e)
    {
      var columnErrors := ValidateSourceColumns(s, sources[k], field);
      var unitErrors := ValidateSourceUnit(s, sources[k], definition, field);
      var valueErrors := ValidateValueMap(sources[k], definition, field);
      ghost var before := errors;
      errors := errors + columnErrors + unitErrors + valueErrors;
      assert forall e :: e in errors <==> e in before || SourceError(s, sources[k], definition, field, e);
    }
  }

  method ValidateSourceColumns(s: Setting, source: ValueSource, field: string) returns (errors: seq<ValidationError>)
    ensures forall e :: e in errors <==> ColumnError(s, source, field, e)
  {
    errors := [];
    if source.Derived? {
      DepthCheckIsExact(source.expression);
      if !DepthOk(source.expression, 1) {
        return [TooDeep(field)];
      }
    }
    if s.availableColumns.None? {
      return;
    }
    var available := s.availableColumns.value;
    if source.FromColumn? && source.column !in available {
      errors := errors + [MissingColumn(field, source.column)];
    }
    if source.Derived? {
      var todo := ReferencedColumns(source.expression);
      ghost var all := todo;
      while todo != {}
        invariant todo <= all
        invariant forall e :: e in errors <==>
          e.MissingDerivedColumn? && e.field == field && e.column in all - todo && e.column !in available
      {
        var column :| column in todo;
        if column !in available {
          errors := errors + [MissingDerivedColumn(field, column)];
        }
        todo := todo - {column};
      }
    }
  }

  method ValidateSourceUnit(s: Setting, source: ValueSource, definition: FieldDefinition, field: string)
    returns (errors: seq<ValidationError>)
    ensures forall e :: e in errors <==> UnitError(s, source, definition, field, e)
  {
    errors := [];
    if !source.FromColumn? || source.sourceUnit.None? {
      return;
    }
    if definition.unit.None? {
      return [UnitOnUnitlessField(field)];
    }
    if !s.convertible(source.sourceUnit.value, definition.unit.value) {
      errors := errors + [Inconvertible(field, source.sourceUnit.value)];
    }
  }

  method ValidateValueMap(source: ValueSource, definition: FieldDefinition,
                          field: string) returns (errors: seq<ValidationError>)
    ensures forall e :: e in errors <==> ValueMapError(source, definition, field, e)
  {
    errors := [];
    if !source.FromColumn? || source.valueMap.None? {
      return;
    }
    if !definition.isEnum {
      return [ValueMapOnNonEnum(field)];
    }
    var invalid := source.valueMap.value.Values - definition.enumValues;
    if invalid != {} {
      errors := errors + [ValueMapTargets(field, invalid)];
    }
  }

  method ValidateRequired(s: Setting, d: MappingDocument) returns (errors: seq<ValidationError>)
    ensures forall e :: e in errors <==>
              e.RequiredNotMapped? && e.field in s.entity.fields && s.entity.fields[e.field].required
                && e.field !in d.AllFields()
  {
    errors := [];
    var todo := s.entity.fields.Keys;
    while todo != {}
      invariant todo <= s.entity.fields.Keys
      invariant forall e :: e in errors <==>
        e.RequiredNotMapped? && e.field in s.entity.fields.Keys - todo && s.entity.fields[e.field].required
          && e.field !in d.AllFields()
    {
      var name :| name in todo;
      var covered := name in d.AllFields();
      var hasFallback := covered && !d.AllFields()[name].default.Null?;
      if s.entity.fields[name].required && !covered && !hasFallback {
        errors := errors + [RequiredNotMapped(name)];
      }
      todo := todo - {name};
    }
  }

  method ValidateJoins(s: Setting, joins: seq<Join>) returns (errors: seq<ValidationError>)
    ensures forall e :: e in errors <==> exists i :: 0 <= i < |joins| && JoinError(s, joins[i], e)
  {
    errors := [];
    for k := 0 to |joins|
      invariant forall e :: e in errors <==> exists i :: 0 <= i < k && JoinError(s, joins[i], e)
    {
      var j := joins[k];
      ghost var before := errors;
      if j.relationship !in s.entity.relationships {
        errors := errors + [JoinNotDeclared(j.relationship)];
      }
      if s.schemaAllowlist.Some? && j.schemaName !in s.schemaAllowlist.value {
        errors := errors + [JoinSchemaNotAllowed(j.schemaName)];
      }
      if s.tableAllowlist.Some? && j.table !in s.tableAllowlist.value {
        errors := errors + [JoinTableNotAllowed(j.table)];
      }
      assert forall e :: e in errors <==> e in before || JoinError(s, j, e);
    }
  }

  // ---- what passing is good for ------------------------------------------------------------------------

  /** Evaluating the expression cannot recurse too deep, and cannot fail on a row that carries the
      given columns. */
  ghost predicate SafeExpression(e: Expression, columns: set<string>) {
    && Height(e) <= MAX_EXPRESSION_DEPTH
    && ReferencedColumns(e) <= columns
  }

  lemma SafeExpressionsEvaluate(ops: TextOps, e: Expression, columns: set<string>, row: Record)
    requires SafeExpression(e, columns) && columns <= row.Keys
    ensures Evaluate(ops, e, row).Ok?
  {
    EvaluationFailsOnlyOnMissingColumns(ops, e, row);
  }

  ghost predicate SafeSources(m: FieldMapping, columns: set<string>) {
    forall i :: 0 <= i < |m.sources| && m.sources[i].Derived? ==> SafeExpression(m.sources[i].expression, columns)
  }

  /** If validation passes with known columns, every derived source that is in effect is safe on
      every row carrying those columns, and every mapped column exists. */
  lemma PassingMeansSafe(s: Setting, d: MappingDocument, field: string)
    requires Passes(s, d) && s.availableColumns.Some? && field in d.AllFields()
    ensures field in s.entity.fields
    ensures SafeSources(d.AllFields()[field], s.availableColumns.value)
    ensures forall i :: 0 <= i < |d.AllFields()[field].sources| && d.AllFields()[field].sources[i].FromColumn? ==>
              d.AllFields()[field].sources[i].column in s.availableColumns.value
  {
    var m := d.AllFields()[field];
    if field !in s.entity.fields {
      assert FieldError(s, m, field, UnknownField(field));
      assert IsError(s, d, UnknownField(field));
    }
    forall i | 0 <= i < |m.sources|
      ensures forall e :: !ColumnError(s, m.sources[i], field, e)
    {
      forall e
        ensures !ColumnError(s, m.sources[i], field, e)
      {
        if ColumnError(s, m.sources[i], field, e) {
          assert SourceError(s, m.sources[i], s.entity.fields[field], field, e);
          assert FieldError(s, m, field, e);
          assert IsError(s, d, e);
        }
      }
    }
    forall i | 0 <= i < |m.sources| && m.sources[i].Derived?
      ensures SafeExpression(m.sources[i].expression, s.availableColumns.value)
    {
      var e := m.sources[i].expression;
      assert !ColumnError(s, m.sources[i], field, TooDeep(field));
      forall column | column in ReferencedColumns(e)
        ensures column in s.availableColumns.value
      {
        assert !ColumnError(s, m.sources[i], field, MissingDerivedColumn(field, column));
      }
    }
    forall i | 0 <= i < |m.sources| && m.sources[i].FromColumn?
      ensures m.sources[i].column in s.availableColumns.value
    {
      assert !ColumnError(s, m.sources[i], field, MissingColumn(field, m.sources[i].column));
    }
  }

  /** Without known columns the depth limit still holds. */
  lemma PassingBoundsDepth(s: Setting, d: MappingDocument, field: string, i: nat)
    requires Passes(s, d) && field in d.AllFields()
    requires i < |d.AllFields()[field].sources| && d.AllFields()[field].sources[i].Derived?
    ensures Height(d.AllFields()[field].sources[i].expression) <= 20
  {
    var m := d.AllFields()[field];
    if Height(m.sources[i].expression) > 20 {
      var e := if field in s.entity.fields then TooDeep(field) else UnknownField(field);
      assert field in s.entity.fields ==> SourceError(s, m.sources[i], s.entity.fields[field], field, e);
      assert FieldError(s, m, field, e);
      assert IsError(s, d, e);
    }
  }

  /** What a source has to be, given the field's definition. */
  predicate IsFine(s: Setting, source: ValueSource, definition: FieldDefinition) {
    match source
    case Static(_) => true
    case Derived(e) =>
      && Height(e) <= 20
      && (s.availableColumns.Some? ==> forall column :: column in ReferencedColumns(e) ==>
            column in s.availableColumns.value)
    case FromColumn(column, sourceUnit, valueMap) =>
      && (s.availableColumns.Some? ==> column in s.availableColumns.value)
      && (sourceUnit.Some? ==> definition.unit.Some? && s.convertible(sourceUnit.value, definition.unit.value))
      && (valueMap.Some? ==> definition.isEnum && forall name :: name in valueMap.value ==>
            valueMap.value[name] in definition.enumValues)
  }

  ghost predicate AllFine(s: Setting, d: MappingDocument, field: string)
    requires field in d.AllFields()
  {
    && field in s.entity.fields
    && forall i :: 0 <= i < |d.AllFields()[field].sources| ==>
         IsFine(s, d.AllFields()[field].sources[i], s.entity.fields[field])
  }

  predicate JoinIsFine(s: Setting, j: Join) {
    && j.relationship in s.entity.relationships
    && (s.schemaAllowlist.Some? ==> j.schemaName in s.schemaAllowlist.value)
    && (s.tableAllowlist.Some? ==> j.table in s.tableAllowlist.value)
  }

  lemma SourceErrorExactlyWhen(s: Setting, source: ValueSource, definition: FieldDefinition, field: string)
    ensures (exists e :: SourceError(s, source, definition, field, e)) <==> !IsFine(s, source, definition)
  {
    match source
    case Static(_) =>
    case Derived(expression) =>
      if Height(expression) > 20 {
        assert SourceError(s, source, definition, field, TooDeep(field));
      } else if s.availableColumns.Some? {
        forall column | column in ReferencedColumns(expression) && column !in s.availableColumns.value
          ensures SourceError(s, source, definition, field, MissingDerivedColumn(field, column))
        {
        }
      }
    case FromColumn(column, sourceUnit, valueMap) =>
      if s.availableColumns.Some? && column !in s.availableColumns.value {
        assert SourceError(s, source, definition, field, MissingColumn(field, column));
      }
      if sourceUnit.Some? {
        if definition.unit.None? {
          assert SourceError(s, source, definition, field, UnitOnUnitlessField(field));
        } else if !s.convertible(sourceUnit.value, definition.unit.value) {
          assert SourceError(s, source, definition, field, Inconvertible(field, sourceUnit.value));
        }
      }
      if valueMap.Some? {
        ValueMapErrorExactlyWhen(source, definition, field);
        if e :| ValueMapError(source, definition, field, e) {
          assert SourceError(s, source, definition, field, e);
        }
      }
  }

  lemma ValueMapErrorExactlyWhen(source: ValueSource, definition: FieldDefinition, field: string)
    requires source.FromColumn? && source.valueMap.Some?
    ensures (exists e :: ValueMapError(source, definition, field, e))
            <==> !(definition.isEnum && forall name :: name in source.valueMap.value ==>
                     source.valueMap.value[name] in definition.enumValues)
  {
    var targets := source.valueMap.value;
    if !definition.isEnum {
      assert ValueMapError(source, definition, field, ValueMapOnNonEnum(field));
    } else {
      var invalid := targets.Values - definition.enumValues;
      if name :| name in targets && targets[name] !in definition.enumValues {
        assert targets[name] in invalid;
        assert ValueMapError(source, definition, field, ValueMapTargets(field, invalid));
      } else {
        assert invalid == {};
      }
    }
  }

  /** The sources in effect of a mapped field. */
  function SourcesOf(d: MappingDocument, field: string): seq<ValueSource> {
    if field in d.fields then d.fields[field].sources
    else if field in d.identity then d.identity[field].sources
    else []
  }

  predicate ReadsColumn(source: ValueSource, column: string) {
    source.FromColumn? && source.column == column
  }

  predicate DerivesFrom(source: ValueSource, column: string) {
    source.Derived? && Height(source.expression) <= 20 && column in ReferencedColumns(source.expression)
  }

  predicate MeasuresIn(source: ValueSource, unit: string) {
    source.FromColumn? && source.sourceUnit == Some(unit)
  }

  predicate Translates(source: ValueSource, targets: set<string>) {
    source.FromColumn? && source.valueMap.Some? && source.valueMap.value.Values == targets
  }

  /** An error about the sources of a known field is one of some source of the field. */
  lemma ErrorIsOfSomeSource(s: Setting, d: MappingDocument, field: string, e: ValidationError)
    requires field in s.entity.fields
    requires e.MissingColumn? || e.MissingDerivedColumn? || e.Inconvertible? || e.ValueMapTargets?
    requires e.field == field
    ensures IsError(s, d, e)
            <==> exists source :: source in SourcesOf(d, field)
                                  && SourceError(s, source, s.entity.fields[field], field, e)
  {
    var sources, definition := SourcesOf(d, field), s.entity.fields[field];
    if IsError(s, d, e) {
      var other :| other in d.AllFields() && FieldError(s, d.AllFields()[other], other, e);
      assert other == field && d.AllFields()[other].sources == sources;
      var i :| 0 <= i < |sources| && SourceError(s, sources[i], definition, field, e);
      assert sources[i] in sources;
    }
    if source :| source in sources && SourceError(s, source, definition, field, e) {
      var i :| 0 <= i < |sources| && sources[i] == source;
      assert field in d.AllFields() && d.AllFields()[field].sources == sources;
      assert FieldError(s, d.AllFields()[field], field, e);
    }
  }

  /** What the errors about a known field blame it for. */
  lemma ErrorsNameTheirCause(s: Setting, d: MappingDocument, field: string)
    requires field in s.entity.fields
    ensures var sources, definition := SourcesOf(d, field), s.entity.fields[field];
            && (forall c :: IsError(s, d, MissingColumn(field, c))
                            <==> s.availableColumns.Some? && c !in s.availableColumns.value
                                 && exists source :: source in sources && ReadsColumn(source, c))
            && (forall c :: IsError(s, d, MissingDerivedColumn(field, c))
                            <==> s.availableColumns.Some? && c !in s.availableColumns.value
                                 && exists source :: source in sources && DerivesFrom(source, c))
            && (forall u :: IsError(s, d, Inconvertible(field, u))
                            <==> definition.unit.Some? && !s.convertible(u, definition.unit.value)
                                 && exists source :: source in sources && MeasuresIn(source, u))
            && (forall invalid :: IsError(s, d, ValueMapTargets(field, invalid))
                                  <==> definition.isEnum && invalid != {}
                                       && exists source, all :: source in sources && Translates(source, all)
                                                                && all - definition.enumValues == invalid)
  {
    var sources, definition := SourcesOf(d, field), s.entity.fields[field];
    forall e: ValidationError | e.MissingColumn? || e.MissingDerivedColumn? || e.Inconvertible? || e.ValueMapTargets?
      ensures e.field == field ==>
                (IsError(s, d, e)
                 <==> exists source :: source in sources && SourceError(s, source, definition, field, e))
    {
      if e.field == field {
        ErrorIsOfSomeSource(s, d, field, e);
      }
    }
    hide IsError;
    forall source, c
      ensures SourceError(s, source, definition, field, MissingColumn(field, c))
              <==> s.availableColumns.Some? && c !in s.availableColumns.value && ReadsColumn(source, c)
      ensures SourceError(s, source, definition, field, MissingDerivedColumn(field, c))
              <==> s.availableColumns.Some? && c !in s.availableColumns.value && DerivesFrom(source, c)
      ensures SourceError(s, source, definition, field, Inconvertible(field, c))
              <==> definition.unit.Some? && !s.convertible(c, definition.unit.value) && MeasuresIn(source, c)
    {
    }
    forall source, invalid
      ensures SourceError(s, source, definition, field, ValueMapTargets(field, invalid))
              <==> definition.isEnum && invalid != {}
                   && exists all :: Translates(source, all) && all - definition.enumValues == invalid
    {
      if SourceError(s, source, definition, field, ValueMapTargets(field, invalid)) {
        assert Translates(source, source.valueMap.value.Values);
      }
    }
    hide SourceError;
  }

  /** Validation passes if and only if the document is for the entity, each mapped field is one of the
      entity's with sources that suit it, each required field is mapped, and each join is declared and
      allowed. */
  lemma PassesExactlyWhen(s: Setting, d: MappingDocument)
    ensures Passes(s, d)
            <==> && d.entity == s.entity.name
                 && (forall field :: field in d.AllFields() ==> AllFine(s, d, field))
                 && (forall field :: field in s.entity.fields && s.entity.fields[field].required ==>
                       field in d.AllFields())
                 && (forall i :: 0 <= i < |d.joins| ==> JoinIsFine(s, d.joins[i]))
  {
    forall field | field in d.AllFields()
      ensures (exists e :: FieldError(s, d.AllFields()[field], field, e)) <==> !AllFine(s, d, field)
    {
      FieldErrorExactlyWhen(s, d, field);
    }
    forall i | 0 <= i < |d.joins|
      ensures (exists e :: JoinError(s, d.joins[i], e)) <==> !JoinIsFine(s, d.joins[i])
    {
      JoinErrorExactlyWhen(s, d.joins[i]);
    }
    hide FieldError, AllFine, JoinError, JoinIsFine;
    if Passes(s, d) {
      assert !IsError(s, d, WrongEntity);
      forall field | field in s.entity.fields && s.entity.fields[field].required
        ensures field in d.AllFields()
      {
        assert !IsError(s, d, RequiredNotMapped(field));
      }
      forall field | field in d.AllFields()
        ensures AllFine(s, d, field)
      {
        forall e
          ensures !FieldError(s, d.AllFields()[field], field, e)
        {
          assert !IsError(s, d, e);
        }
      }
      forall i | 0 <= i < |d.joins|
        ensures JoinIsFine(s, d.joins[i])
      {
        forall e
          ensures !JoinError(s, d.joins[i], e)
        {
          assert !IsError(s, d, e);
        }
      }
    }
  }

  lemma FieldErrorExactlyWhen(s: Setting, d: MappingDocument, field: string)
    requires field in d.AllFields()
    ensures (exists e :: FieldError(s, d.AllFields()[field], field, e)) <==> !AllFine(s, d, field)
  {
    var m := d.AllFields()[field];
    if field !in s.entity.fields {
      assert FieldError(s, m, field, UnknownField(field));
    } else {
      var definition := s.entity.fields[field];
      forall i | 0 <= i < |m.sources|
        ensures (exists e :: SourceError(s, m.sources[i], definition, field, e)) <==>
                  !IsFine(s, m.sources[i], definition)
      {
        SourceErrorExactlyWhen(s, m.sources[i], definition, field);
      }
      hide SourceError, IsFine;
      if i :| 0 <= i < |m.sources| && !IsFine(s, m.sources[i], definition) {
        var e :| SourceError(s, m.sources[i], definition, field, e);
        assert FieldError(s, m, field, e);
      }
    }
  }

  lemma JoinErrorExactlyWhen(s: Setting, j: Join)
    ensures (exists e :: JoinError(s, j, e)) <==> !JoinIsFine(s, j)
  {
    if j.relationship !in s.entity.relationships {
      assert JoinError(s, j, JoinNotDeclared(j.relationship));
    }
    if s.schemaAllowlist.Some? && j.schemaName !in s.schemaAllowlist.value {
      assert JoinError(s, j, JoinSchemaNotAllowed(j.schemaName));
    }
    if s.tableAllowlist.Some? && j.table !in s.tableAllowlist.value {
      assert JoinError(s, j, JoinTableNotAllowed(j.table));
    }
  }

  /** Every derived source of the document, in effect or not. */
  ghost predicate EverySourceSafe(d: MappingDocument, columns: set<string>) {
    && (forall name :: name in d.identity ==> SafeSources(d.identity[name], columns))
    && (forall name :: name in d.fields ==> SafeSources(d.fields[name], columns))
  }

  ghost predicate PassingCoversEverySource(identityNames: set<string>, fieldNames: set<string>) {
    forall s: Setting, d: MappingDocument ::
      WellFormed(d) && d.identity.Keys == identityNames && d.fields.Keys == fieldNames && s.availableColumns.Some?
        && Passes(s, d) ==>
        EverySourceSafe(d, s.availableColumns.value)
  }

  /** Validation looks at the merged mapping, so an identity entry whose name also occurs among the
      fields is never checked: passing covers every source in the document exactly when no name is
      used twice. */
  lemma PassingCoversEverySourceIffNamesDisjoint(identityNames: set<string>, fieldNames: set<string>)
    ensures PassingCoversEverySource(identityNames, fieldNames) <==> identityNames !! fieldNames
  {
    if identityNames !! fieldNames {
      forall s: Setting, d: MappingDocument |
        WellFormed(d) && d.identity.Keys == identityNames && d.fields.Keys == fieldNames && s.availableColumns.Some?
          && Passes(s, d)
        ensures EverySourceSafe(d, s.availableColumns.value)
      {
        forall name | name in d.identity
          ensures SafeSources(d.identity[name], s.availableColumns.value)
        {
          PassingMeansSafe(s, d, name);
        }
        forall name | name in d.fields
          ensures SafeSources(d.fields[name], s.availableColumns.value)
        {
          PassingMeansSafe(s, d, name);
        }
      }
    } else {
      var name :| name in identityNames && name in fieldNames;
      var (s, d) := ShadowedIdentity(identityNames, fieldNames);
      ShadowedIdentityPasses(identityNames, fieldNames);
      assert !SafeSources(d.identity[name], s.availableColumns.value) by {
        assert d.identity[name].sources[0] == Derived(ColumnRef("missing"));
        assert "missing" in ReferencedColumns(ColumnRef("missing"));
      }
    }
  }

  /** A document whose identity entries refer to a column that does not exist wherever a field of
      the same name hides them. */
  ghost function ShadowedIdentity(identityNames: set<string>, fieldNames: set<string>): (r: (Setting, MappingDocument))
    ensures r.1.identity.Keys == identityNames && r.1.fields.Keys == fieldNames
    ensures identityNames != {} ==> WellFormed(r.1)
  {
    var fine := FieldMapping([Static(Text("x"))], Null);
    var broken := FieldMapping([Derived(ColumnRef("missing"))], Null);
    var definition := FieldDefinition(false, false, {}, None);
    (Setting(EntityDefinition("E", map n | n in identityNames + fieldNames :: definition, {}), Some({}), None, None,
             (_, _) => true),
     MappingDocument("E", "s", "t", map n | n in identityNames :: if n in fieldNames then broken else fine,
                     map n | n in fieldNames :: fine, []))
  }

  lemma ShadowedIdentityPasses(identityNames: set<string>, fieldNames: set<string>)
    ensures var (s, d) := ShadowedIdentity(identityNames, fieldNames); Passes(s, d)
  {
    var (s, d) := ShadowedIdentity(identityNames, fieldNames);
    forall field, e | field in d.AllFields()
      ensures !FieldError(s, d.AllFields()[field], field, e)
    {
      assert d.AllFields()[field].sources == [Static(Text("x"))];
    }
  }
}
