/**
 * `extract_next_sub_url` of task2/solution.py: the first element of the page,
 * in document order, that is the "next page" link of the category listing.
 */
module PageParser {
  import opened Wrappers

  /** The `title` attribute the next-page anchor carries. */
  const CategoryTitle: string := "Категория:Животные по алфавиту"
  /** The visible label of the next-page anchor. */
  const NextPageLabel: string := "Следующая страница"

  /**
   * One element of the parsed document: its tag name, its `title` and `href`
   * attributes when present, and its visible text with surrounding whitespace
   * already stripped.
   */
  datatype Anchor = Anchor(name: string, title: Option<string>, text: string, href: Option<string>)

  /** One page after parsing: the entry titles of the listing and every element, both in document order. */
  datatype Page = Page(titles: seq<string>, elements: seq<Anchor>)

  /** The predicate handed to `soup.find`: exact tag name, exact title, exact stripped label. */
  predicate IsNextLink(a: Anchor)
  {
    a.name == "a" && a.title == Some(CategoryTitle) && a.text == NextPageLabel
  }

  /** `str(href)`: an absent `href` prints as the four characters "None". */
  function HrefString(href: Option<string>): string
  {
    match href
    case Some(h) => h
    case None => "None"
  }

  /** Index of the first element matching `IsNextLink`, if any. */
  function FirstNextLink(elements: seq<Anchor>): (r: Option<nat>)
    ensures r.None? <==> forall i :: 0 <= i < |elements| ==> !IsNextLink(elements[i])
    ensures r.Some? ==> r.value < |elements| && IsNextLink(elements[r.value])
    ensures r.Some? ==> forall j :: 0 <= j < r.value ==> !IsNextLink(elements[j])
    decreases |elements|
  {
    if elements == [] then None
    else if IsNextLink(elements[0]) then Some(0)
    else
      match FirstNextLink(elements[1..])
      case None => None
      case Some(i) => Some(i + 1)
  }

  /**
   * The relative URL of the next page: the `href` (as `str`) of the first
   * matching element, or None when no element matches.
   */
  function FindNextLink(elements: seq<Anchor>): (r: Option<string>)
    ensures r.None? <==> forall i :: 0 <= i < |elements| ==> !IsNextLink(elements[i])
    ensures r.Some? ==> exists i :: 0 <= i < |elements| && IsNextLink(elements[i])
                                    && (forall j :: 0 <= j < i ==> !IsNextLink(elements[j]))
                                    && r.value == HrefString(elements[i].href)
  {
    match FirstNextLink(elements)
    case None => None
    case Some(i) => Some(HrefString(elements[i].href))
  }

  /** A first match without `href` yields the string "None", not absence. */
  lemma {:induction false} MissingHrefGivesNoneString(elements: seq<Anchor>, i: nat)
    requires i < |elements| && IsNextLink(elements[i]) && elements[i].href.None?
    requires forall j :: 0 <= j < i ==> !IsNextLink(elements[j])
    ensures FindNextLink(elements) == Some("None")
  {
    FirstIsUnique(elements, i);
  }

  /** Whatever index satisfies the "first match" conditions is the one `FirstNextLink` finds. */
  lemma {:induction false} FirstIsUnique(elements: seq<Anchor>, i: nat)
    requires i < |elements| && IsNextLink(elements[i])
    requires forall j :: 0 <= j < i ==> !IsNextLink(elements[j])
    ensures FirstNextLink(elements) == Some(i)
  {
    var r := FirstNextLink(elements);
    assert !(forall k :: 0 <= k < |elements| ==> !IsNextLink(elements[k])) by {
      assert IsNextLink(elements[i]);
    }
    var k := r.value;
    assert IsNextLink(elements[k]);
    assert !(k < i) && !(i < k);
  }

  /** Anything after the first matching element has no influence on the result. */
  lemma {:induction false} FindNextLinkIgnoresTail(elements: seq<Anchor>, rest: seq<Anchor>)
    requires exists i :: 0 <= i < |elements| && IsNextLink(elements[i])
    ensures FindNextLink(elements + rest) == FindNextLink(elements)
  {
    var i := FirstNextLink(elements).value;
    var all := elements + rest;
    assert forall j :: 0 <= j <= i ==> all[j] == elements[j];
    FirstIsUnique(all, i);
  }
}
