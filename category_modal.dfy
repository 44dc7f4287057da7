/** The blog category dialog (src/components/admin/CategoryModal.tsx): the typed name is added
    only when, trimmed, it is non-empty and not already a category name. The input text is the
    class `CategoryInput`; the add callback is what its methods return. */
module CategoryModal {
  import opened Common
  import opened Text

  datatype Category = Category(id: string, name: string)

  /** `categories.some(cat => cat.name === name)`: exact, case-sensitive comparison. */
  function NameTaken(categories: seq<Category>, name: string): (r: bool)
    ensures r <==> exists k :: 0 <= k < |categories| && categories[k].name == name
  {
    if categories == [] then false
    else NameTaken(categories[..|categories| - 1], name) || categories[|categories| - 1].name == name
  }

  /** The guard of `handleAddCategory`. */
  predicate CanAdd(input: string, categories: seq<Category>) {
    Trim(input) != "" && !NameTaken(categories, Trim(input))
  }

  /** What an add attempt does: the name handed to `onAddCategory`, if any, and the input
      text afterwards. */
  function AddAttempt(input: string, categories: seq<Category>): (r: (Option<string>, string))
    ensures r.0.Some? <==> CanAdd(input, categories)
    ensures r.0.Some? ==> r.0.value == Trim(input) && IsTrimmed(r.0.value) && r.1 == ""
    ensures r.0.None? ==> r.1 == input
    ensures r.0.Some? ==> r.0.value != "" && forall k :: 0 <= k < |categories| ==> categories[k].name != r.0.value
  {
    if CanAdd(input, categories) then (Some(Trim(input)), "") else (None, input)
  }

  /** Input that is only white space is never added. */
  lemma BlankNeverAdded(input: string, categories: seq<Category>)
    requires forall i :: 0 <= i < |input| ==> IsSpace(input[i])
    ensures AddAttempt(input, categories).0.None?
  {
  }

  /** Once a name is added and the list refreshed with it, the same name, however padded with
      white space, is refused. */
  lemma AddedNameIsRefusedNext(input: string, again: string, categories: seq<Category>, id: string)
    requires AddAttempt(input, categories).0.Some?
    requires Trim(again) == Trim(input)
    ensures AddAttempt(again, categories + [Category(id, Trim(input))]).0.None?
  {
    var after := categories + [Category(id, Trim(input))];
    assert after[|categories|].name == Trim(input);
  }

  class CategoryInput {
    var newCategory: string

    constructor ()
      ensures newCategory == ""
    {
      newCategory := "";
    }

    method HandleChange(value: string)
      modifies this`newCategory
      ensures newCategory == value
    {
      newCategory := value;
    }

    /** `handleAddCategory`: the trimmed name is handed on and the input cleared, or nothing
        happens. */
    method HandleAddCategory(categories: seq<Category>) returns (added: Option<string>)
      modifies this`newCategory
      ensures (added, newCategory) == AddAttempt(old(newCategory), categories)
    {
      var name := Trim(newCategory);
      if name != "" && !NameTaken(categories, name) {
        added := Some(name);
        newCategory := "";
      } else {
        added := None;
      }
    }

    /** `handleKeyPress`: Enter adds exactly as the button does; any other key does nothing. */
    method HandleKeyPress(key: string, categories: seq<Category>) returns (added: Option<string>)
      modifies this`newCategory
      ensures key == "Enter" ==> (added, newCategory) == AddAttempt(old(newCategory), categories)
      ensures key != "Enter" ==> added.None? && newCategory == old(newCategory)
    {
      added := None;
      if key == "Enter" {
        added := HandleAddCategory(categories);
      }
    }
  }
}
