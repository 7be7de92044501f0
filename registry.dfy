/**
 * The static action registry `ACTIONS` and the catalog of it that the
 * prompt lists. A registry entry is keyed by the action's name and holds
 * its description and the function to call; the `args` keyword the
 * registry literal passes is not a field of the `Action` record and has no
 * counterpart here.
 */
module Registry {

  import opened Wrappers
  import opened PyText

  /** The three scaffolding functions the registry refers to. */
  datatype ActionFunction = ScaffoldDjango | ScaffoldReact | ScaffoldVue

  /** The `Action` record: a name, a description and a function. */
  datatype Action = Action(name: string, description: string, fn: ActionFunction)

  /** `ACTIONS`, in its insertion order: each key with its entry. */
  const Actions: seq<(string, Action)> := [
    ("scaffold_django", Action("scaffold_django", "Create a new Django project scaffold", ScaffoldDjango)),
    ("scaffold_react", Action("scaffold_react", "Create a new React project scaffold", ScaffoldReact)),
    ("scaffold_vue", Action("scaffold_vue", "Create a new Vue.js project scaffold", ScaffoldVue))
  ]

  /** `name in ACTIONS`. */
  predicate IsRegistered(name: string) {
    exists i :: 0 <= i < |Actions| && Actions[i].0 == name
  }

  /** `ACTIONS[name]` where `name in ACTIONS`, and `None` otherwise. The
      entry found is registered under its own name, and the lookup fails
      exactly for names that are not keys. */
  function Lookup(name: string): (r: Option<Action>)
    ensures r.Some? <==> IsRegistered(name)
    ensures r.Some? ==> r.value.name == name
    ensures r.Some? ==> exists i :: 0 <= i < |Actions| && Actions[i] == (name, r.value)
  {
    if name == "scaffold_django" then Some(Actions[0].1)
    else if name == "scaffold_react" then Some(Actions[1].1)
    else if name == "scaffold_vue" then Some(Actions[2].1)
    else None
  }

  /** Every key names its own entry, and no key is used twice, so a
      registered name determines its entry. */
  lemma KeysAreNames()
    ensures forall i :: 0 <= i < |Actions| ==> Actions[i].0 == Actions[i].1.name
    ensures forall i, j :: 0 <= i < j < |Actions| ==> Actions[i].0 != Actions[j].0
  {
  }

  /** One line of the catalog: `f"- {action.name}: {action.description}"`. */
  function CatalogLine(a: Action): string {
    "- " + a.name + ": " + a.description
  }

  /** The catalog lines, one per entry, in the registry's order. */
  function CatalogLines(): (lines: seq<string>)
    ensures |lines| == |Actions|
    ensures forall i :: 0 <= i < |Actions| ==> lines[i] == CatalogLine(Actions[i].1)
  {
    [CatalogLine(Actions[0].1), CatalogLine(Actions[1].1), CatalogLine(Actions[2].1)]
  }

  /** `"\n".join(...)` of the catalog lines. */
  function Catalog(): string {
    Join(CatalogLines(), '\n')
  }

  /** The catalog lists every registered action on a line of its own:
      splitting it at line breaks gives back exactly one line per entry, in
      the registry's order. */
  lemma CatalogSplits()
    ensures Split(Catalog(), '\n') == CatalogLines()
  {
    CatalogLinesUnbroken();
    SplitJoin(CatalogLines(), '\n');
  }

  /** Every registered action has its line `- name: description` in the
      catalog. */
  lemma RegisteredInCatalog(name: string)
    requires IsRegistered(name)
    ensures "- " + name + ": " + Lookup(name).value.description in Split(Catalog(), '\n')
  {
    CatalogSplits();
    var a := Lookup(name).value;
    var i :| 0 <= i < |Actions| && Actions[i] == (name, a);
    assert CatalogLines()[i] == CatalogLine(a);
  }

  /** Every line of the catalog is `- name: description` for a registered
      name. */
  lemma CatalogOnlyRegistered(line: string)
    requires line in Split(Catalog(), '\n')
    ensures exists name :: IsRegistered(name) && line == "- " + name + ": " + Lookup(name).value.description
  {
    CatalogSplits();
    var i :| 0 <= i < |CatalogLines()| && CatalogLines()[i] == line;
    KeysAreNames();
    var name := Actions[i].0;
    assert IsRegistered(name);
    assert Lookup(name).value == Actions[i].1;
  }

  /** No catalog line contains a line break. */
  lemma CatalogLinesUnbroken()
    ensures forall i :: 0 <= i < |CatalogLines()| ==> '\n' !in CatalogLines()[i]
  {
    forall i | 0 <= i < |Actions|
      ensures '\n' !in CatalogLine(Actions[i].1)
    {
      EntryUnbroken(i);
    }
  }

  lemma EntryUnbroken(i: int)
    requires 0 <= i < |Actions|
    ensures '\n' !in Actions[i].1.name && '\n' !in Actions[i].1.description
  {
    var a := Actions[i].1;
    assert forall j :: 0 <= j < |a.name| ==> a.name[j] != '\n';
    assert forall j :: 0 <= j < |a.description| ==> a.description[j] != '\n';
  }
}
