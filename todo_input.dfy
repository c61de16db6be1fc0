/** The to-do composer: a draft text, a chosen category and an expanded/collapsed flag. */
module TodoInput {
  import opened Types
  import opened Text

  /** What a successful submit hands to `onAdd`: the raw text and the chosen category. */
  datatype Submission = Submission(content: string, category: Category)

  /** `defaultCategory = TodoCategory.RECORD`: the category a composer starts with. */
  function StartCategory(defaultCategory: Option<Category>): (c: Category)
    ensures defaultCategory.Some? ==> c == defaultCategory.value
    ensures defaultCategory.None? ==> c == Record
  {
    match defaultCategory
    case Some(d) => d
    case None => Record
  }

  class Composer {
    var text: string
    var category: Category
    var isExpanded: bool

    /** A fresh composer: empty, collapsed, on the default category. */
    constructor (defaultCategory: Option<Category>)
      ensures text == "" && !isExpanded && category == StartCategory(defaultCategory)
    {
      text := "";
      category := StartCategory(defaultCategory);
      isExpanded := false;
    }

    /** The submit control is disabled exactly when the draft is empty or whitespace only. */
    predicate SubmitDisabled()
      reads this
    {
      IsBlank(text)
    }

    /** The expand button. */
    method Expand()
      modifies this
      ensures isExpanded && text == old(text) && category == old(category)
    {
      isExpanded := true;
    }

    /** A category chip. */
    method ChooseCategory(c: Category)
      modifies this
      ensures category == c && text == old(text) && isExpanded == old(isExpanded)
    {
      category := c;
    }

    /** The textarea's `onChange`. */
    method ChangeText(t: string)
      modifies this
      ensures text == t && category == old(category) && isExpanded == old(isExpanded)
    {
      text := t;
    }

    /**
     * `handleSubmit`: a blank draft emits nothing and changes nothing; otherwise
     * the untrimmed text and the category are emitted once, the draft is cleared
     * and the composer collapses, keeping its category.
     */
    method HandleSubmit() returns (emitted: Option<Submission>)
      modifies this
      ensures IsBlank(old(text)) ==> emitted == None && unchanged(this)
      ensures !IsBlank(old(text)) ==> emitted == Some(Submission(old(text), old(category)))
      ensures !IsBlank(old(text)) ==> text == "" && !isExpanded && category == old(category)
    {
      if IsBlank(text) {
        return None;
      }
      emitted := Some(Submission(text, category));
      text := "";
      isExpanded := false;
    }
  }

  /** The control is disabled exactly for drafts made of whitespace alone. */
  lemma SubmitDisabledIffWhitespace(c: Composer)
    ensures c.SubmitDisabled() <==> forall i :: 0 <= i < |c.text| ==> IsJsWhitespace(c.text[i])
  {
  }
}
