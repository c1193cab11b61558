/** The part of a GraphQL schema the queries are read against. */
module Schema {
  import opened Truth
  import opened Sql

  datatype FieldKind =
    | Scalar(typeName: string)
    | Relationship(to: string, parentField: string, childField: string, hasMany: bool, bridge: Option<Bridge>)
    | OtherKind

  datatype FieldDefinition = FieldDefinition(name: string, kind: FieldKind, nonNull: bool)

  datatype ObjectType = ObjectType(name: string, fields: seq<FieldDefinition>)

  function Defined(fields: seq<FieldDefinition>, name: string): (r: Option<FieldDefinition>)
    ensures r.Some? ==> r.value in fields && r.value.name == name
    ensures r.None? ==> forall d :: d in fields ==> d.name != name
  {
    if fields == [] then None else if fields[0].name == name then Some(fields[0]) else Defined(fields[1..], name)
  }

  function Definition(t: ObjectType, name: string): Option<FieldDefinition> {
    Defined(t.fields, name)
  }
}
