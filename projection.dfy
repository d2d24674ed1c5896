/**
 * The row projections of the `list` commands: each resource record of a
 * response becomes a flat row holding its id and a few of its attributes,
 * with a placeholder wherever an attribute is missing or empty.
 */
module Projection {
  import opened Wrappers
  import opened Table

  /** A record's attributes; an absent name reads as `undefined`. */
  type Attributes = map<string, string>

  /** A resource record: its id and its attributes object, either of which may be absent. */
  datatype Record = Record(id: Option<string>, attributes: Option<Attributes>)

  /** A key of the projected row and the attribute it is read from. */
  datatype Field = Field(key: string, attribute: string)

  const ID_KEY: string := "id"
  const PLACEHOLDER: string := "N/A"

  /** `r.attributes?.[name]` is truthy: present and not the empty string. */
  predicate HasValue(r: Record, name: string)
  {
    r.attributes.Some? && name in r.attributes.value && r.attributes.value[name] != ""
  }

  /** `r.attributes?.[name] || 'N/A'`: never empty. */
  function AttributeOr(r: Record, name: string): (v: string)
    ensures v != ""
    ensures HasValue(r, name) ==> v == r.attributes.value[name]
    ensures !HasValue(r, name) ==> v == PLACEHOLDER
  {
    if HasValue(r, name) then r.attributes.value[name] else PLACEHOLDER
  }

  function FieldKeys(fields: seq<Field>): set<string>
  {
    set j | 0 <= j < |fields| :: fields[j].key
  }

  predicate FieldKeysDistinct(fields: seq<Field>)
  {
    forall i, j :: 0 <= i < j < |fields| ==> fields[i].key != fields[j].key
  }

  /**
   * The object literal `{ id: r.id, key: r.attributes?.[attribute] || 'N/A', ... }`.
   * An absent id leaves the key out, which the renderer reads the same way
   * as `undefined`; a later key overrides an earlier one.
   */
  function Project(r: Record, fields: seq<Field>): (row: Row)
    ensures row.Keys == (if r.id.Some? then {ID_KEY} else {}) + FieldKeys(fields)
    ensures forall j :: 0 <= j < |fields| ==> row[fields[j].key] != ""
    ensures r.id.Some? && ID_KEY !in FieldKeys(fields) ==> row[ID_KEY] == r.id.value
  {
    if fields == [] then
      if r.id.Some? then map[ID_KEY := r.id.value] else map[]
    else
      var init, last := fields[..|fields| - 1], fields[|fields| - 1];
      assert FieldKeys(fields) == FieldKeys(init) + {last.key} by {
        forall k | k in FieldKeys(fields) ensures k in FieldKeys(init) + {last.key} {
          var j :| 0 <= j < |fields| && fields[j].key == k;
          if j < |init| {
            assert init[j].key == k;
          }
        }
        forall k | k in FieldKeys(init) ensures k in FieldKeys(fields) {
          var j :| 0 <= j < |init| && init[j].key == k;
          assert fields[j].key == k;
        }
      }
      Project(r, init)[last.key := AttributeOr(r, last.attribute)]
  }

  /** `records.map(r => ...)`. */
  function ProjectAll(records: seq<Record>, fields: seq<Field>): (rows: seq<Row>)
    ensures |rows| == |records|
  {
    seq(|records|, i requires 0 <= i < |records| => Project(records[i], fields))
  }

  /** With distinct keys, each key holds its own attribute or the placeholder. */
  lemma {:induction false} ProjectAt(r: Record, fields: seq<Field>, j: nat)
    requires FieldKeysDistinct(fields) && j < |fields|
    ensures Project(r, fields)[fields[j].key] == AttributeOr(r, fields[j].attribute)
  {
    if j < |fields| - 1 {
      var init := fields[..|fields| - 1];
      assert init[j] == fields[j];
      ProjectAt(r, init, j);
    }
  }
}
