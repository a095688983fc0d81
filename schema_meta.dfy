/**
 `JsonSchemaMeta`, the typed dictionary of JSON schema annotations a field's
 metadata may carry: `description`, `title`, `examples`, `read_only`,
 `write_only` and `extensions`. Any subset of the keys may be given, as in
 `JsonSchemaMeta(description="A foo that foos")`. The record below has one
 optional component per key; the dictionary the call builds is `ToDict`, and
 the call itself, from keyword arguments, is `FromKeywords`.
 The type parameter `A` stands for the arbitrary values of `examples` and
 `extensions`.
 */
module SchemaMeta {
  import opened Wrappers

  /** A value given for one key. */
  datatype Entry<A> = Text(text: string) | Flag(flag: bool) | Items(items: seq<A>) | Entries(entries: map<string, A>)

  datatype JsonSchemaMeta<A> = JsonSchemaMeta(
    description: Option<string>,
    title: Option<string>,
    examples: Option<seq<A>>,
    readOnly: Option<bool>,
    writeOnly: Option<bool>,
    extensions: Option<map<string, A>>)

  /** The six declared keys. */
  const Keys: set<string> := {"description", "title", "examples", "read_only", "write_only", "extensions"}

  /** The descriptor with no key set. */
  function Empty<A>(): JsonSchemaMeta<A>
  {
    JsonSchemaMeta(None, None, None, None, None, None)
  }

  /** `e` has the type declared for `key`; no value fits a key that is not declared. */
  predicate HasDeclaredType<A>(key: string, e: Entry<A>)
  {
    if key == "description" || key == "title" then e.Text?
    else if key == "examples" then e.Items?
    else if key == "read_only" || key == "write_only" then e.Flag?
    else if key == "extensions" then e.Entries?
    else false
  }

  /** Adds `key` to `d` when a value is given for it. */
  function Put<A>(d: map<string, Entry<A>>, key: string, e: Option<Entry<A>>): map<string, Entry<A>>
  {
    if e.Some? then d[key := e.value] else d
  }

  /** The dictionary holding exactly the keys that are set, each with its value. */
  function ToDict<A>(m: JsonSchemaMeta<A>): (d: map<string, Entry<A>>)
    ensures d.Keys <= Keys
    ensures forall k :: k in d ==> HasDeclaredType(k, d[k])
  {
    var d := Put(map[], "description", if m.description.Some? then Some(Text(m.description.value)) else None);
    var d := Put(d, "title", if m.title.Some? then Some(Text(m.title.value)) else None);
    var d := Put(d, "examples", if m.examples.Some? then Some(Items(m.examples.value)) else None);
    var d := Put(d, "read_only", if m.readOnly.Some? then Some(Flag(m.readOnly.value)) else None);
    var d := Put(d, "write_only", if m.writeOnly.Some? then Some(Flag(m.writeOnly.value)) else None);
    Put(d, "extensions", if m.extensions.Some? then Some(Entries(m.extensions.value)) else None)
  }

  /** The text given for `key`, if any. */
  function TextAt<A>(kw: map<string, Entry<A>>, key: string): Option<string>
  {
    if key in kw && kw[key].Text? then Some(kw[key].text) else None
  }

  /** The flag given for `key`, if any. */
  function FlagAt<A>(kw: map<string, Entry<A>>, key: string): Option<bool>
  {
    if key in kw && kw[key].Flag? then Some(kw[key].flag) else None
  }

  /**
   `JsonSchemaMeta(**kw)`: a descriptor from keyword arguments. An undeclared
   key, or a value of the wrong type, is refused.
   */
  function FromKeywords<A>(kw: map<string, Entry<A>>): (r: Option<JsonSchemaMeta<A>>)
    ensures r.Some? <==> forall k :: k in kw ==> HasDeclaredType(k, kw[k])
    ensures r.Some? ==> kw.Keys <= Keys
  {
    if forall k :: k in kw ==> HasDeclaredType(k, kw[k]) then
      Some(JsonSchemaMeta(
        TextAt(kw, "description"),
        TextAt(kw, "title"),
        if "examples" in kw && kw["examples"].Items? then Some(kw["examples"].items) else None,
        FlagAt(kw, "read_only"),
        FlagAt(kw, "write_only"),
        if "extensions" in kw && kw["extensions"].Entries? then Some(kw["extensions"].entries) else None))
    else None
  }

  /** Building a descriptor from its own dictionary gives it back: every value reads back as given. */
  lemma FromToDict<A>(m: JsonSchemaMeta<A>)
    ensures FromKeywords(ToDict(m)) == Some(m)
  {
  }

  /** An accepted set of keyword arguments is exactly the dictionary of the descriptor built from it. */
  lemma ToFromKeywords<A>(kw: map<string, Entry<A>>)
    requires FromKeywords(kw).Some?
    ensures ToDict(FromKeywords(kw).value) == kw
  {
    var d := ToDict(FromKeywords(kw).value);
    forall k | k in kw ensures k in d && d[k] == kw[k] {
      assert HasDeclaredType(k, kw[k]);
    }
    assert d.Keys == kw.Keys;
  }

  /** The example usage: only `description` is given, and only `description` is set. */
  lemma DescriptionOnly<A>(s: string)
    ensures FromKeywords(map["description" := Text(s)]) == Some(Empty<A>().(description := Some(s)))
    ensures ToDict(Empty<A>().(description := Some(s))) == map["description" := Text(s)]
  {
  }

  /** The empty descriptor is valid and holds no key. */
  lemma EmptyHasNoKeys<A>()
    ensures FromKeywords(map[]) == Some(Empty<A>()) && ToDict(Empty<A>()) == map[]
  {
  }
}
