/** The admin tag field: Enter adds the typed tag once, the cross removes a tag. */
module TagInput {
  import opened Wrappers
  import opened Text
  import opened Seqs
  import JsSets

  /** `Array.isArray(value) ? value : []`, with a non-array value as None. */
  function TagsArray(value: Option<seq<string>>): (r: seq<string>)
    ensures value.None? ==> r == []
    ensures value.Some? ==> r == value.value
  {
    if value.Some? then value.value else []
  }

  /** What a key press does: the list handed to onChange, if any, and the text left in the input. */
  datatype KeyResult = KeyResult(emitted: Option<seq<string>>, input: string)

  /**
   * handleKeyDown: Enter on non-blank input emits the list with the trimmed
   * tag appended unless it is already there, and clears the input either way;
   * any other key, or Enter on blank input, changes nothing.
   */
  function KeyDown(tags: seq<string>, input: string, key: string): (r: KeyResult)
    ensures r.input == "" <==> (key == "Enter" && Trim(JavaScript, input) != "") || input == ""
    ensures r.emitted.Some? <==> key == "Enter" && Trim(JavaScript, input) != "" && Trim(JavaScript, input) !in tags
    ensures r.emitted.Some? ==> r.emitted.value == tags + [Trim(JavaScript, input)]
    ensures r.emitted.Some? && Distinct(tags) ==> Distinct(r.emitted.value)
  {
    var tag := Trim(JavaScript, input);
    if key == "Enter" && tag != "" then
      if tag !in tags then KeyResult(Some(tags + [tag]), "") else KeyResult(None, "")
    else KeyResult(None, input)
  }

  /** removeTag: every copy of the tag goes, the rest keep their order. */
  function RemoveTag(tags: seq<string>, tag: string): (r: seq<string>)
    ensures forall t :: t in r <==> t in tags && t != tag
    ensures SubsequenceOf(r, tags) && multiset(r) == multiset(tags)[tag := 0]
    ensures Distinct(tags) ==> Distinct(r)
    ensures tag !in tags ==> r == tags
  {
    JsSets.WithoutKeepsOrder(tags, tag);
    JsSets.Without(tags, tag)
  }

  /**
   * A tag entered with Enter is never blank and has no white space at its
   * edges, and removing it again restores the list.
   */
  lemma EnteredTagClean(tags: seq<string>, input: string)
    requires KeyDown(tags, input, "Enter").emitted.Some?
    ensures var tag := Trim(JavaScript, input);
      && |tag| >= 1 && !IsSpace(JavaScript, tag[0]) && !IsSpace(JavaScript, tag[|tag| - 1])
      && RemoveTag(KeyDown(tags, input, "Enter").emitted.value, tag) == tags
  {
    TrimEdges(JavaScript, input);
    JsSets.WithoutLast(tags, Trim(JavaScript, input));
  }
}
