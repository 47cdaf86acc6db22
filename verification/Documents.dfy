/** Mapping documents (mappings/document.py) and the ontology definitions they are checked
    against (ontology/schema.py). */
module Documents {
  import opened Common
  import opened Expressions

  /** One candidate source: a column, a static value or a derived expression. Units and value maps
      only go with a column. */
  datatype ValueSource =
    | FromColumn(column: string, sourceUnit: Option<string>, valueMap: Option<map<string, string>>)
    | Static(value: Scalar)
    | Derived(expression: Expression)

  datatype FieldMapping = FieldMapping(sources: seq<ValueSource>, default: Scalar)

  datatype Join = Join(relationship: string, schemaName: string, table: string)

  datatype MappingDocument = MappingDocument(entity: string, schemaName: string, table: string,
                                             identity: map<string, FieldMapping>,
                                             fields: map<string, FieldMapping>, joins: seq<Join>)
  {
    /** Identity and other field mappings merged; a name in both means the one in `fields`. */
    function AllFields(): map<string, FieldMapping> {
      identity + fields
    }

    function SourceTable(): string {
      schemaName + "." + table
    }
  }

  /** What Pydantic enforces on construction: a null static value is no source at all. */
  predicate WellFormed(d: MappingDocument) {
    && d.identity != map[]
    && (forall name :: name in d.identity ==> WellFormedField(d.identity[name]))
    && (forall name :: name in d.fields ==> WellFormedField(d.fields[name]))
  }

  predicate WellFormedField(m: FieldMapping) {
    m.sources != [] && forall i :: 0 <= i < |m.sources| ==> m.sources[i] != Static(Null)
  }

  datatype FieldDefinition = FieldDefinition(required: bool, isEnum: bool, enumValues: set<string>,
                                             unit: Option<string>)

  /** Field names are unique within an entity. */
  datatype EntityDefinition = EntityDefinition(name: string, fields: map<string, FieldDefinition>,
                                               relationships: set<string>)
}
