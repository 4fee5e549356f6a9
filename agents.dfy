/**
 * The agent record shared by the dashboards (src/components/types/Agent.ts),
 * the files the upload controls hand over, and the field-by-name update that
 * the edit forms perform with `{ ...prev, [name]: value }`.
 */
module Agents {
  import opened Wrappers

  datatype Status = Active | Inactive | Pending | Disabled

  /** `version`, `lastUpdated`, `category` and `author` are optional: `None`
      is a missing property. `usage` is a JavaScript number that every
      record of the program holds as a whole number. */
  datatype Agent = Agent(
    id: string,
    name: string,
    description: string,
    usage: int,
    createdAt: string,
    status: Status,
    version: Option<string>,
    lastUpdated: Option<string>,
    category: Option<string>,
    author: Option<string>)

  /** A browser `File`, reduced to what the components read or build. */
  datatype File = File(name: string, mimeType: string)

  /** The text inputs of the agent forms, by their `name` attribute. */
  datatype Field = Name | Description | Category | Author | Version

  /** What the text input named `f` shows for `a`. */
  function FieldText(a: Agent, f: Field): Option<string> {
    match f
    case Name => Some(a.name)
    case Description => Some(a.description)
    case Category => a.category
    case Author => a.author
    case Version => a.version
  }

  /** `{ ...a, [f]: v }`: the property the input names takes the typed text. */
  function SetField(a: Agent, f: Field, v: string): (r: Agent)
    ensures FieldText(r, f) == Some(v)
    ensures forall g | g != f :: FieldText(r, g) == FieldText(a, g)
    ensures r.id == a.id && r.usage == a.usage && r.createdAt == a.createdAt
    ensures r.status == a.status && r.lastUpdated == a.lastUpdated
  {
    match f
    case Name => a.(name := v)
    case Description => a.(description := v)
    case Category => a.(category := Some(v))
    case Author => a.(author := Some(v))
    case Version => a.(version := Some(v))
  }

  /** Two records that agree on every property are the same record. */
  lemma SameFields(a: Agent, b: Agent)
    requires forall g :: FieldText(a, g) == FieldText(b, g)
    requires a.id == b.id && a.usage == b.usage && a.createdAt == b.createdAt
    requires a.status == b.status && a.lastUpdated == b.lastUpdated
    ensures a == b
  {
    assert FieldText(a, Name) == FieldText(b, Name);
    assert FieldText(a, Description) == FieldText(b, Description);
    assert FieldText(a, Category) == FieldText(b, Category);
    assert FieldText(a, Author) == FieldText(b, Author);
    assert FieldText(a, Version) == FieldText(b, Version);
  }

  /** Typing into the same input twice keeps only the last text. */
  lemma SetFieldLastWins(a: Agent, f: Field, v: string, w: string)
    ensures SetField(SetField(a, f, v), f, w) == SetField(a, f, w)
  {
    SameFields(SetField(SetField(a, f, v), f, w), SetField(a, f, w));
  }

  /** Edits to different inputs do not interfere: their order does not matter. */
  lemma SetFieldCommutes(a: Agent, f: Field, v: string, g: Field, w: string)
    requires f != g
    ensures SetField(SetField(a, f, v), g, w) == SetField(SetField(a, g, w), f, v)
  {
    SameFields(SetField(SetField(a, f, v), g, w), SetField(SetField(a, g, w), f, v));
  }
}
