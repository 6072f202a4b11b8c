/** The story form (client/src/components/StoryForm.jsx): the chosen category
    names, and the `busy` and `err` fields around the publish request. The
    request itself is split in two steps at its `await`: `BeginSubmit` runs
    before it and `FinishSubmit` when it settles. */
module StoryForm {
  import opened Common

  /** The body of `POST /posts`. */
  datatype PostBody = PostBody(title: string, content: string, categories: seq<string>)

  /** How the publish request settled: the created post, or a failure that
      may carry the server's `error` string. */
  datatype SubmitOutcome<T> = Published(data: T) | Failed(serverError: Option<string>)

  /** `toggleCategory(name)`: a chosen name is removed, every copy of it; a
      name not chosen is added at the end. */
  function Toggle(prev: seq<string>, name: string): (next: seq<string>)
    ensures name in prev ==> name !in next
    ensures name !in prev ==> next == prev + [name]
    ensures forall c :: c != name ==> (c in next <==> c in prev)
  {
    if name in prev then Filter(prev, (c: string) => c != name) else prev + [name]
  }

  /** The other names keep their relative order. */
  lemma {:induction false} ToggleKeepsOthersInOrder(prev: seq<string>, name: string)
    ensures Filter(Toggle(prev, name), (c: string) => c != name) == Filter(prev, (c: string) => c != name)
  {
    var others := (c: string) => c != name;
    if name in prev {
      FilterAll(Filter(prev, others), others);
    } else {
      FilterAppend(prev, [name], others);
      assert Filter([name], others) == [];
    }
  }

  /** A list without duplicates stays without duplicates. */
  lemma {:induction false} ToggleNoDup(prev: seq<string>, name: string)
    requires NoDup(prev)
    ensures NoDup(Toggle(prev, name))
  {
    if name in prev {
      FilterNoDup(prev, (c: string) => c != name);
    } else {
      var next := prev + [name];
      assert forall i :: 0 <= i < |prev| ==> next[i] == prev[i];
    }
  }

  /** Choosing a name and then un-choosing it gives back the list. */
  lemma {:induction false} ToggleTwice(prev: seq<string>, name: string)
    requires name !in prev
    ensures Toggle(Toggle(prev, name), name) == prev
  {
    var others := (c: string) => c != name;
    FilterAppend(prev, [name], others);
    assert Filter([name], others) == [];
    FilterAll(prev, others);
  }

  class FormState {
    var title: string
    var content: string
    var available: seq<string>
    var selected: seq<string>
    var busy: bool
    var err: string

    constructor ()
      ensures title == "" && content == "" && available == [] && selected == []
      ensures !busy && err == ""
    {
      title, content, available, selected, busy, err := "", "", [], [], false, "";
    }

    /** The mount effect's category fetch: the fetched names, or none when it fails. */
    method CategoriesLoaded(data: Option<seq<string>>)
      modifies this`available
      ensures available == data.GetOr([])
    {
      available := if data.Some? then data.value else [];
    }

    /** The title and text inputs' `onChange`. */
    method Edit(newTitle: string, newContent: string)
      modifies this`title, this`content
      ensures title == newTitle && content == newContent
    {
      title, content := newTitle, newContent;
    }

    /** A category button's `onClick`. */
    method ToggleCategory(name: string)
      modifies this`selected
      ensures selected == Toggle(old(selected), name)
    {
      selected := Toggle(selected, name);
    }

    /** `submit` up to the request: the form turns busy, the error is
      cleared, and the body carries the title, the text and the chosen names. */
    method BeginSubmit() returns (body: PostBody)
      modifies this`busy, this`err
      ensures busy && err == ""
      ensures body == PostBody(title, content, selected)
    {
      busy := true;
      err := "";
      body := PostBody(title, content, selected);
    }

    /** `submit` after the request: a failure shows the server's error, or
        "Failed to publish" when it gave none; either way the form is no
        longer busy. A success hands the created post on (to `onCreated`). */
    method FinishSubmit<T>(outcome: SubmitOutcome<T>) returns (created: Option<T>)
      modifies this`busy, this`err
      ensures !busy
      ensures outcome.Published? ==> err == old(err) && created == Some(outcome.data)
      ensures outcome.Failed? ==> created == None
      ensures outcome.Failed? && Present(outcome.serverError) ==> err == outcome.serverError.value
      ensures outcome.Failed? && !Present(outcome.serverError) ==> err == "Failed to publish"
    {
      if outcome.Published? {
        created := Some(outcome.data);
      } else {
        err := if Present(outcome.serverError) then outcome.serverError.value else "Failed to publish";
        created := None;
      }
      busy := false;
    }
  }
}
