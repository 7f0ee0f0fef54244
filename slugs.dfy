/**
 * The two slug generators of the admin forms: generateSlugFromName on the
 * product form (white-space runs become '-', then everything outside
 * [a-z0-9-] goes, dash runs collapse, edge dashes go) and generateSlug on
 * the category form (everything outside [a-z0-9], white space and '-' goes,
 * then runs of white space and dashes become one '-', edge dashes go). Both
 * start from the trimmed, lower-cased name.
 */
module Slugs {
  import opened Text

  predicate Alnum(c: char) { 'a' <= c <= 'z' || '0' <= c <= '9' }
  predicate SlugChar(c: char) { Alnum(c) || c == '-' }
  predicate IsDash(c: char) { c == '-' }
  predicate IsJsSpace(c: char) { IsSpace(JavaScript, c) }
  predicate SlugOrSpace(c: char) { SlugChar(c) || IsJsSpace(c) }
  predicate DashOrSpace(c: char) { c == '-' || IsJsSpace(c) }

  /** No two neighbouring characters are both `c`. */
  predicate NoDouble(s: string, c: char)
  {
    forall i :: 0 <= i < |s| - 1 ==> !(s[i] == c && s[i + 1] == c)
  }

  /** What `^[a-z0-9]+(?:-[a-z0-9]+)*$` accepts: dash-separated non-empty runs of letters and digits. */
  predicate Shaped(s: string)
  {
    s != [] && (forall i :: 0 <= i < |s| ==> SlugChar(s[i])) && s[0] != '-' && s[|s| - 1] != '-' && NoDouble(s, '-')
  }

  /** `s.replace(/[^...]/g, '')`: keeps the characters `keep` accepts, in order. */
  function Keep(s: string, keep: char -> bool): (r: string)
    ensures forall i :: 0 <= i < |r| ==> keep(r[i]) && r[i] in s
    ensures (forall i :: 0 <= i < |s| ==> keep(s[i])) ==> r == s
  {
    if s == [] then []
    else (if keep(s[0]) then [s[0]] else []) + Keep(s[1..], keep)
  }

  /** The leading run of `run` characters removed. */
  function SkipRun(s: string, run: char -> bool): (r: string)
    ensures |r| <= |s| && r == s[|s| - |r|..]
    ensures r == [] || !run(r[0])
    ensures s != [] && run(s[0]) ==> |r| < |s|
  {
    if s != [] && run(s[0]) then SkipRun(s[1..], run) else s
  }

  /**
   * `s.replace(/R+/g, sep)`: every maximal run of characters `run` accepts
   * becomes the single character `sep`; other characters are kept.
   */
  function CollapseRuns(s: string, run: char -> bool, sep: char): (r: string)
    ensures s == [] <==> r == []
    ensures s != [] ==> r[0] == if run(s[0]) then sep else s[0]
    ensures forall i :: 0 <= i < |r| ==> r[i] == sep || (!run(r[i]) && r[i] in s)
    ensures run(sep) ==> NoDouble(r, sep)
    decreases |s|
  {
    if s == [] then []
    else if run(s[0]) then
      var t := SkipRun(s, run);
      var rest := CollapseRuns(t, run, sep);
      assert forall i :: 0 <= i < |t| ==> t[i] == s[|s| - |t| + i];
      assert rest != [] ==> rest[0] == t[0] && !run(rest[0]);
      [sep] + rest
    else
      var rest := CollapseRuns(s[1..], run, sep);
      assert forall i :: 0 <= i < |s| - 1 ==> s[1..][i] == s[i + 1];
      [s[0]] + rest
  }

  /** A string without any `run` character is left as it is. */
  lemma {:induction false} CollapseNoRun(s: string, run: char -> bool, sep: char)
    requires forall i :: 0 <= i < |s| ==> !run(s[i])
    ensures CollapseRuns(s, run, sep) == s
    decreases |s|
  {
    if s != [] {
      CollapseNoRun(s[1..], run, sep);
    }
  }

  /** A string whose `run` characters are all `sep` and never neighbours is left as it is. */
  lemma {:induction false} CollapseSingles(s: string, run: char -> bool, sep: char)
    requires forall i :: 0 <= i < |s| ==> run(s[i]) ==> s[i] == sep
    requires forall i :: 0 <= i < |s| - 1 ==> !(run(s[i]) && run(s[i + 1]))
    ensures CollapseRuns(s, run, sep) == s
    decreases |s|
  {
    if s != [] {
      if run(s[0]) {
        assert SkipRun(s, run) == SkipRun(s[1..], run);
        assert s[1..] == [] || !run(s[1..][0]);
        assert SkipRun(s, run) == s[1..];
      }
      CollapseSingles(s[1..], run, sep);
    }
  }

  function DropLeadingDashes(s: string): (r: string)
    ensures r == [] || r[0] != '-'
    ensures |r| <= |s| && r == s[|s| - |r|..]
    ensures s == [] || s[0] != '-' ==> r == s
  {
    if s != [] && s[0] == '-' then DropLeadingDashes(s[1..]) else s
  }

  function DropTrailingDashes(s: string): (r: string)
    ensures r == [] || r[|r| - 1] != '-'
    ensures |r| <= |s| && r == s[..|r|]
    ensures s == [] || s[|s| - 1] != '-' ==> r == s
  {
    if s != [] && s[|s| - 1] == '-' then DropTrailingDashes(s[..|s| - 1]) else s
  }

  /** A slice keeps the characters of its string, and never creates neighbouring dashes. */
  lemma SliceKeeps(s: string, from: nat, to: nat)
    requires from <= to <= |s|
    ensures forall i :: 0 <= i < to - from ==> s[from..to][i] in s
    ensures NoDouble(s, '-') ==> NoDouble(s[from..to], '-')
  {
    assert forall i :: 0 <= i < to - from ==> s[from..to][i] == s[from + i];
  }

  /** `s.replace(/^-+|-+$/g, '')`: no dash is left at either edge, and a string without edge dashes is kept. */
  function StripDashes(s: string): (r: string)
    ensures r == [] || (r[0] != '-' && r[|r| - 1] != '-')
    ensures s == [] || (s[0] != '-' && s[|s| - 1] != '-') ==> r == s
  {
    var a := DropLeadingDashes(s);
    assert a != [] ==> a[0] != '-';
    DropTrailingDashes(a)
  }

  /** Stripping the edge dashes leaves a slice: its characters come from the input, and no dashes become neighbours. */
  lemma StripDashesKeeps(s: string)
    ensures forall i :: 0 <= i < |StripDashes(s)| ==> StripDashes(s)[i] in s
    ensures NoDouble(s, '-') ==> NoDouble(StripDashes(s), '-')
  {
    var a := DropLeadingDashes(s);
    var r := DropTrailingDashes(a);
    var k := |s| - |a|;
    assert r == s[k..k + |r|];
    SliceKeeps(s, k, k + |r|);
  }

  /** generateSlugFromName's chain of replacements. */
  function ProductSlug(name: string): string
  {
    var lowered := ToLower(Trim(JavaScript, name));
    StripDashes(CollapseRuns(Keep(CollapseRuns(lowered, IsJsSpace, '-'), SlugChar), IsDash, '-'))
  }

  /** generateSlug's chain of replacements. */
  function CategorySlug(name: string): string
  {
    var lowered := ToLower(Trim(JavaScript, name));
    StripDashes(CollapseRuns(Keep(lowered, SlugOrSpace), DashOrSpace, '-'))
  }

  /** Every product slug the form generates is empty or passes the form's slug pattern. */
  lemma ProductSlugShaped(name: string)
    ensures ProductSlug(name) == [] || Shaped(ProductSlug(name))
  {
    var spaced := CollapseRuns(ToLower(Trim(JavaScript, name)), IsJsSpace, '-');
    var kept := Keep(spaced, SlugChar);
    var collapsed := CollapseRuns(kept, IsDash, '-');
    assert forall i :: 0 <= i < |collapsed| ==> SlugChar(collapsed[i]);
    var r := StripDashes(collapsed);
    StripDashesKeeps(collapsed);
    assert ProductSlug(name) == r;
    assert forall i :: 0 <= i < |r| ==> SlugChar(r[i]);
  }

  /** Every category slug the form generates is empty or passes the slug pattern. */
  lemma CategorySlugShaped(name: string)
    ensures CategorySlug(name) == [] || Shaped(CategorySlug(name))
  {
    var kept := Keep(ToLower(Trim(JavaScript, name)), SlugOrSpace);
    var collapsed := CollapseRuns(kept, DashOrSpace, '-');
    assert forall i :: 0 <= i < |collapsed| ==> SlugChar(collapsed[i]);
    var r := StripDashes(collapsed);
    StripDashesKeeps(collapsed);
    assert CategorySlug(name) == r;
    assert forall i :: 0 <= i < |r| ==> SlugChar(r[i]);
  }

  /** A string that already has the slug shape is its own product slug. */
  lemma ProductSlugFixed(s: string)
    requires s == [] || Shaped(s)
    ensures ProductSlug(s) == s
  {
    assert forall i :: 0 <= i < |s| ==> !IsJsSpace(s[i]) && !('A' <= s[i] <= 'Z');
    TrimFixed(JavaScript, s);
    assert ToLower(s) == s;
    CollapseNoRun(s, IsJsSpace, '-');
    assert Keep(s, SlugChar) == s;
    CollapseSingles(s, IsDash, '-');
    assert StripDashes(s) == s;
  }

  /** Generating the product slug again from a generated slug changes nothing. */
  lemma ProductSlugIdempotent(name: string)
    ensures ProductSlug(ProductSlug(name)) == ProductSlug(name)
  {
    ProductSlugShaped(name);
    ProductSlugFixed(ProductSlug(name));
  }

  /** The characters of a trimmed string come from the original. */
  lemma TrimKeepsChars(s: string)
    ensures forall i :: 0 <= i < |Trim(JavaScript, s)| ==> Trim(JavaScript, s)[i] in s
  {
    TrimStartShape(JavaScript, s);
    TrimEndShape(JavaScript, TrimStart(JavaScript, s));
  }

  /** A name without Latin letters or digits (a Persian name, say) gives the empty category slug. */
  lemma CategorySlugEmptyWithoutLatin(name: string)
    requires forall i :: 0 <= i < |name| ==> !Alnum(AsciiLower(name[i]))
    ensures CategorySlug(name) == []
  {
    TrimKeepsChars(name);
    var lowered := ToLower(Trim(JavaScript, name));
    var kept := Keep(lowered, SlugOrSpace);
    assert forall i :: 0 <= i < |kept| ==> DashOrSpace(kept[i]);
    var collapsed := CollapseRuns(kept, DashOrSpace, '-');
    assert forall i :: 0 <= i < |collapsed| ==> collapsed[i] == '-';
    StripDashesKeeps(collapsed);
  }

  /**
   * The category form's button: with a name it writes the generated slug,
   * even an empty one; without a name the slug field keeps its value. The
   * product form's button behaves alike.
   */
  function CategorySlugField(name: string, current: string): (r: string)
    ensures name == "" ==> r == current
    ensures name != "" ==> r == [] || Shaped(r)
  {
    if name == "" then current
    else
      CategorySlugShaped(name);
      CategorySlug(name)
  }

  function ProductSlugField(name: string, current: string): (r: string)
    ensures name == "" ==> r == current
    ensures name != "" ==> (r == [] || Shaped(r)) && ProductSlug(r) == r
  {
    if name == "" then current
    else
      ProductSlugIdempotent(name);
      ProductSlugShaped(name);
      ProductSlug(name)
  }

  /** "کیک" (cake) has no Latin letters, so the category form writes an empty slug for it. */
  lemma PersianCategoryNameGivesEmptySlug()
    ensures CategorySlugField("کیک", "cake") == ""
  {
    var name := "کیک";
    assert |name| == 3 && name[0] == 'ک' && name[1] == 'ی' && name[2] == 'ک';
    forall i | 0 <= i < |name|
      ensures !Alnum(AsciiLower(name[i]))
    {
      assert name[i] > 'z';
    }
    CategorySlugEmptyWithoutLatin(name);
  }
}
