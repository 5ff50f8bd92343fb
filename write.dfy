/**
 * The article editor: single-field form updates, the preview toggle and the
 * tag list, whose entries are trimmed, non-empty and distinct.
 */
module Write {
  import opened Seqs
  import opened Text

  datatype FormData = FormData(title: string, content: string, excerpt: string, category: string,
                               coverImage: string, tags: seq<string>)

  /** The text inputs routed through `handleInputChange`, by their `name` attribute. */
  datatype FormField = TitleInput | ExcerptInput | CoverImageInput | ContentInput

  const EmptyForm := FormData("", "", "", "", "", [])

  /** The choices of the category select. */
  const Categories: seq<string> :=
    ["Technology", "Design", "Lifestyle", "Business", "Health", "Travel", "Food", "Education"]

  /** No tag is empty and no tag appears twice. */
  predicate TagsWellFormed(tags: seq<string>) {
    (forall i :: 0 <= i < |tags| ==> tags[i] != "")
    && (forall i, j :: 0 <= i < j < |tags| ==> tags[i] != tags[j])
  }

  /** The guard of `addTag`: the trimmed input is non-empty and not yet a tag. */
  predicate CanAdd(tags: seq<string>, currentTag: string) {
    Trim(currentTag) != "" && Trim(currentTag) !in tags
  }

  /** The tag list after `addTag`. */
  function TagsAfterAdd(tags: seq<string>, currentTag: string): seq<string> {
    if CanAdd(tags, currentTag) then tags + [Trim(currentTag)] else tags
  }

  /** The tag input after `addTag`: cleared on success, kept otherwise. */
  function CurrentTagAfterAdd(tags: seq<string>, currentTag: string): string {
    if CanAdd(tags, currentTag) then "" else currentTag
  }

  function NotTag(t: string): string -> bool {
    (tag: string) => tag != t
  }

  /** The tag list after `removeTag(t)`. */
  function TagsAfterRemove(tags: seq<string>, t: string): seq<string> {
    Filter(tags, NotTag(t))
  }

  /**
   * A successful add appends the trimmed input as the one new last tag; a
   * refused add changes nothing.
   */
  lemma AddTagSpec(tags: seq<string>, currentTag: string)
    ensures CanAdd(tags, currentTag) ==>
              |TagsAfterAdd(tags, currentTag)| == |tags| + 1
              && TagsAfterAdd(tags, currentTag)[..|tags|] == tags
              && TagsAfterAdd(tags, currentTag)[|tags|] == Trim(currentTag)
    ensures !CanAdd(tags, currentTag) ==>
              TagsAfterAdd(tags, currentTag) == tags && CurrentTagAfterAdd(tags, currentTag) == currentTag
  {
  }

  /** Adding keeps the tags non-empty and distinct. */
  lemma AddKeepsWellFormed(tags: seq<string>, currentTag: string)
    requires TagsWellFormed(tags)
    ensures TagsWellFormed(TagsAfterAdd(tags, currentTag))
  {
    if CanAdd(tags, currentTag) {
      var r := TagsAfterAdd(tags, currentTag);
      forall i, j | 0 <= i < j < |r|
        ensures r[i] != r[j]
      {
        if j == |tags| {
          assert r[i] == tags[i];
        }
      }
    }
  }

  /** After a successful add the input is empty, so adding again at once changes nothing. */
  lemma SecondAddIsNoOp(tags: seq<string>, currentTag: string)
    requires CanAdd(tags, currentTag)
    ensures var tags', cur' := TagsAfterAdd(tags, currentTag), CurrentTagAfterAdd(tags, currentTag);
            cur' == "" && TagsAfterAdd(tags', cur') == tags' && CurrentTagAfterAdd(tags', cur') == ""
  {
    assert Trim("") == "";
  }

  /** Removing drops every copy of the tag and keeps the other tags in order. */
  lemma RemoveTagSpec(tags: seq<string>, t: string)
    ensures t !in TagsAfterRemove(tags, t)
    ensures IsSubseq(TagsAfterRemove(tags, t), tags)
    ensures forall x :: x in tags && x != t ==> x in TagsAfterRemove(tags, t)
    ensures t !in tags ==> TagsAfterRemove(tags, t) == tags
    ensures forall x :: multiset(TagsAfterRemove(tags, t))[x] == if x != t then multiset(tags)[x] else 0
  {
    FilterMultiplicity(tags, NotTag(t));
    FilterIsSubseq(tags, NotTag(t));
    FilterMembers(tags, NotTag(t));
    if t !in tags {
      FilterAll(tags, NotTag(t));
    }
  }

  /** Removing keeps the tags non-empty and distinct. */
  lemma RemoveKeepsWellFormed(tags: seq<string>, t: string)
    requires TagsWellFormed(tags)
    ensures TagsWellFormed(TagsAfterRemove(tags, t))
  {
    FilterIsSubseq(tags, NotTag(t));
    SubseqKeepsWellFormed(TagsAfterRemove(tags, t), tags);
  }

  /** Deleting tags from a well-formed list leaves a well-formed list. */
  lemma {:induction false} SubseqKeepsWellFormed(a: seq<string>, b: seq<string>)
    requires IsSubseq(a, b) && TagsWellFormed(b)
    ensures TagsWellFormed(a)
    decreases |b|
  {
    if a != [] {
      if a[0] == b[0] && IsSubseq(a[1..], b[1..]) {
        SubseqKeepsWellFormed(a[1..], b[1..]);
        forall j | 0 < j < |a|
          ensures a[0] != a[j]
        {
          IsSubseqMembers(a[1..], b[1..], a[j]);
          assert a[j] in b[1..];
        }
      } else {
        SubseqKeepsWellFormed(a, b[1..]);
      }
    }
  }

  /** Adding a new tag and then removing it gives back the original list. */
  lemma AddThenRemove(tags: seq<string>, currentTag: string)
    requires CanAdd(tags, currentTag)
    ensures TagsAfterRemove(TagsAfterAdd(tags, currentTag), Trim(currentTag)) == tags
  {
    var t := Trim(currentTag);
    FilterSnoc(tags, t, NotTag(t));
    FilterAll(tags, NotTag(t));
  }

  /** The editor's state: the form, the tag input and the preview switch. */
  class WritePage {
    var formData: FormData
    var currentTag: string
    var isPreview: bool

    predicate Valid()
      reads this
    {
      TagsWellFormed(formData.tags)
    }

    constructor ()
      ensures formData == EmptyForm && currentTag == "" && !isPreview
      ensures Valid()
    {
      formData := EmptyForm;
      currentTag := "";
      isPreview := false;
    }

    /** The tag input's `onChange`. */
    method SetCurrentTag(value: string)
      modifies this
      ensures currentTag == value
      ensures formData == old(formData) && isPreview == old(isPreview)
    {
      currentTag := value;
    }

    /** The Preview/Edit button. */
    method TogglePreview()
      modifies this
      ensures isPreview == !old(isPreview)
      ensures formData == old(formData) && currentTag == old(currentTag)
    {
      isPreview := !isPreview;
    }

    /** `addTag`. */
    method AddTag()
      requires Valid()
      modifies this
      ensures formData == old(formData).(tags := TagsAfterAdd(old(formData).tags, old(currentTag)))
      ensures currentTag == CurrentTagAfterAdd(old(formData).tags, old(currentTag))
      ensures isPreview == old(isPreview)
      ensures Valid()
    {
      var tag := Trim(currentTag);
      if tag != "" && tag !in formData.tags {
        AddKeepsWellFormed(formData.tags, currentTag);
        formData := formData.(tags := formData.tags + [tag]);
        currentTag := "";
      }
    }

    /** `removeTag`. */
    method RemoveTag(t: string)
      requires Valid()
      modifies this
      ensures formData == old(formData).(tags := TagsAfterRemove(old(formData).tags, t))
      ensures currentTag == old(currentTag) && isPreview == old(isPreview)
      ensures Valid()
    {
      RemoveKeepsWellFormed(formData.tags, t);
      formData := formData.(tags := TagsAfterRemove(formData.tags, t));
    }

    /** `handleKeyPress`: Enter adds the tag, any other key does nothing. */
    method HandleKeyPress(key: string)
      requires Valid()
      modifies this
      ensures key == "Enter" ==>
                formData == old(formData).(tags := TagsAfterAdd(old(formData).tags, old(currentTag)))
                && currentTag == CurrentTagAfterAdd(old(formData).tags, old(currentTag))
      ensures key != "Enter" ==> formData == old(formData) && currentTag == old(currentTag)
      ensures isPreview == old(isPreview)
      ensures Valid()
    {
      if key == "Enter" {
        AddTag();
      }
    }

    /** `handleInputChange`: the named field takes the value, every other field stays. */
    method HandleInputChange(field: FormField, value: string)
      modifies this
      ensures formData == match field
                          case TitleInput => old(formData).(title := value)
                          case ExcerptInput => old(formData).(excerpt := value)
                          case CoverImageInput => old(formData).(coverImage := value)
                          case ContentInput => old(formData).(content := value)
      ensures formData.tags == old(formData).tags && formData.category == old(formData).category
      ensures currentTag == old(currentTag) && isPreview == old(isPreview)
    {
      match field
      case TitleInput => formData := formData.(title := value);
      case ExcerptInput => formData := formData.(excerpt := value);
      case CoverImageInput => formData := formData.(coverImage := value);
      case ContentInput => formData := formData.(content := value);
    }

    /** `handleCategoryChange`: only the category changes. */
    method HandleCategoryChange(value: string)
      modifies this
      ensures formData == old(formData).(category := value)
      ensures currentTag == old(currentTag) && isPreview == old(isPreview)
    {
      formData := formData.(category := value);
    }
  }

  /** Picking the `i`-th entry of the category select: the form's category becomes that entry. */
  method SelectCategory(page: WritePage, i: nat)
    requires i < |Categories|
    modifies page
    ensures page.formData.category == Categories[i] && page.formData.category in Categories
    ensures page.formData == old(page.formData).(category := Categories[i])
    ensures page.currentTag == old(page.currentTag) && page.isPreview == old(page.isPreview)
  {
    page.HandleCategoryChange(Categories[i]);
  }
}
