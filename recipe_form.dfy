/**
 * The recipe form: how it opens (each stored group list flattened into one
 * editable list, group titles becoming header lines), how the edited
 * list is cut back into groups at the header lines on save, the item
 * editor's add / edit / delete, the tag chips, and the save itself.
 */
module RecipeForm {
  import opened Wrappers
  import opened Text
  import opened RecipeModel
  import opened GroupsEditor
  import opened Lists

  // ---------------------------------------------------------------------
  // Opening the form: one flat list with header lines

  /** The header line a stored group contributes: its trimmed title, when that is not empty. */
  function HeaderLine(title: Option<string>, freshId: FreshId): seq<ItemDraft> {
    var t := Trim(title.GetOr(""));
    if t != [] then [ItemDraft(freshId, t, true)] else []
  }

  /** The texts of a group's items. */
  function Texts<T>(g: Group<T>, textOf: T -> string): seq<string> {
    seq(|g.items|, i requires 0 <= i < |g.items| => textOf(g.items[i]))
  }

  /** One plain line per text, in order. */
  function ItemLines(texts: seq<string>, freshId: FreshId): seq<ItemDraft> {
    seq(|texts|, i requires 0 <= i < |texts| => ItemDraft(freshId, texts[i], false))
  }

  /** The lines the initialiser pushes for the stored groups, group after group. */
  function Flatten<T>(groups: seq<Group<T>>, textOf: T -> string, freshId: FreshId): seq<ItemDraft> {
    if groups == [] then []
    else
      var n := |groups| - 1;
      Flatten(groups[..n], textOf, freshId) + HeaderLine(groups[n].title, freshId)
        + ItemLines(Texts(groups[n], textOf), freshId)
  }

  /**
   * The drafts the form starts with: always one untitled, expanded group;
   * it holds the flattened lines of the stored groups, if any.
   */
  function InitialDraftsOf<T>(groups: Option<seq<Group<T>>>, textOf: T -> string, freshId: FreshId)
    : (r: seq<GroupDraft>)
    ensures |r| == 1 && r[0].title == "" && !r[0].collapsed
    ensures r[0].items == (if groups.Some? then Flatten(groups.value, textOf, freshId) else [])
  {
    if groups.Some? && |groups.value| > 0 && Flatten(groups.value, textOf, freshId) != [] then
      [GroupDraft(freshId, "", Flatten(groups.value, textOf, freshId), false)]
    else [GroupDraft(freshId, "", [], false)]
  }

  /**
   * The lazy initialiser of a group-list state: `groups` is the stored
   * group list when it is an array, None otherwise.
   */
  method InitialDrafts<T>(groups: Option<seq<Group<T>>>, textOf: T -> string, freshId: FreshId)
    returns (drafts: seq<GroupDraft>)
    ensures drafts == InitialDraftsOf(groups, textOf, freshId)
  {
    if groups.Some? && |groups.value| > 0 {
      var gs := groups.value;
      var items: seq<ItemDraft> := [];
      var i := 0;
      while i < |gs|
        invariant 0 <= i <= |gs|
        invariant items == Flatten(gs[..i], textOf, freshId)
      {
        items := PushGroupLines(items, gs[i], textOf, freshId);
        FlattenSnoc(gs, textOf, i, freshId);
        i := i + 1;
      }
      assert gs[..|gs|] == gs;
      if |items| > 0 {
        return [GroupDraft(freshId, "", items, false)];
      }
    }
    return [GroupDraft(freshId, "", [], false)];
  }

  /** The initialiser's callback for one stored group: its header line, if any, then one line per item. */
  method PushGroupLines<T>(items: seq<ItemDraft>, g: Group<T>, textOf: T -> string, freshId: FreshId)
    returns (pushed: seq<ItemDraft>)
    ensures pushed == items + HeaderLine(g.title, freshId) + ItemLines(Texts(g, textOf), freshId)
  {
    var title := Trim(g.title.GetOr(""));
    pushed := items;
    if title != [] {
      pushed := pushed + [ItemDraft(freshId, title, true)];
    }
    var j := 0;
    while j < |g.items|
      invariant 0 <= j <= |g.items|
      invariant pushed == items + HeaderLine(g.title, freshId) + ItemLines(Texts(g, textOf)[..j], freshId)
    {
      ItemLinesSnoc(Texts(g, textOf), j, freshId);
      pushed := pushed + [ItemDraft(freshId, textOf(g.items[j]), false)];
      j := j + 1;
    }
    assert Texts(g, textOf)[..|g.items|] == Texts(g, textOf);
  }

  lemma ItemLinesSnoc(texts: seq<string>, j: nat, freshId: FreshId)
    requires j < |texts|
    ensures ItemLines(texts[..j + 1], freshId) == ItemLines(texts[..j], freshId) + [ItemDraft(freshId, texts[j], false)]
  {
  }

  lemma FlattenSnoc<T>(groups: seq<Group<T>>, textOf: T -> string, i: nat, freshId: FreshId)
    requires i < |groups|
    ensures Flatten(groups[..i + 1], textOf, freshId)
      == Flatten(groups[..i], textOf, freshId) + HeaderLine(groups[i].title, freshId)
        + ItemLines(Texts(groups[i], textOf), freshId)
  {
    assert groups[..i + 1][..i] == groups[..i];
  }

  /** An ingredient's line text is its name. */
  function NameOf(ing: Ingredient): string {
    ing.name
  }

  /** An instruction's line text is the instruction itself. */
  function StepText(s: string): string {
    s
  }

  // ---------------------------------------------------------------------
  // Saving: cutting the flat list back into groups

  /** A text that is not empty and that trimming leaves as it is. */
  predicate CleanLine(s: string) {
    s != [] && Trim(s) == s
  }

  /** Trimming gives '' exactly for a blank text, and a clean line otherwise. */
  lemma TrimGivesCleanLine(s: string)
    ensures Trim(s) == [] <==> IsBlank(s)
    ensures Trim(s) != [] ==> CleanLine(Trim(s))
  {
    TrimIdempotent(s);
    TrimEmptyIffBlank(s);
  }

  /** `(title || '').trim() || undefined`. */
  function CleanTitle(title: Option<string>): (r: Option<string>)
    ensures r.Some? ==> CleanLine(r.value)
    ensures r.None? <==> (title.None? || IsBlank(title.value))
  {
    var t := Trim(title.GetOr(""));
    TrimGivesCleanLine(title.GetOr(""));
    if t == [] then None else Some(t)
  }

  /** Texts that are all trimmed and not empty. */
  predicate CleanLines(items: seq<string>) {
    items == [] || (CleanLines(items[..|items| - 1]) && CleanLine(items[|items| - 1]))
  }

  lemma CleanLinesSnoc(items: seq<string>, s: string)
    requires CleanLines(items) && CleanLine(s)
    ensures CleanLines(items + [s])
  {
    assert (items + [s])[..|items|] == items;
  }

  /** Every clean list holds clean lines only. */
  lemma {:induction false} CleanLinesEach(items: seq<string>)
    requires CleanLines(items)
    ensures forall i :: 0 <= i < |items| ==> CleanLine(items[i])
  {
    if items != [] {
      CleanLinesEach(items[..|items| - 1]);
      assert forall i :: 0 <= i < |items| - 1 ==> items[..|items| - 1][i] == items[i];
    }
  }

  /** `items.map(t => (t || '').trim()).filter(Boolean)`. */
  function CleanItems(items: seq<string>): (r: seq<string>)
    ensures CleanLines(r)
    ensures |r| <= |items|
  {
    if items == [] then []
    else
      var n := |items| - 1;
      var t := Trim(items[n]);
      var front := CleanItems(items[..n]);
      TrimGivesCleanLine(items[n]);
      if t == [] then front
      else
        CleanLinesSnoc(front, t);
        front + [t]
  }

  /** Lines that are already clean pass the cleaning unchanged. */
  lemma {:induction false} CleanItemsOfClean(items: seq<string>)
    requires CleanLines(items)
    ensures CleanItems(items) == items
  {
    if items != [] {
      var n := |items| - 1;
      CleanItemsOfClean(items[..n]);
      assert items == items[..n] + [items[n]];
    }
  }

  /** A second cleaning of a title changes nothing. */
  lemma CleanTitleIdempotent(title: Option<string>)
    ensures CleanTitle(CleanTitle(title)) == CleanTitle(title)
  {
    TrimIdempotent(title.GetOr(""));
  }

  /** `flushGroup(title, items)`: emits a group when it has a title or a line. */
  function Flush(out: seq<Group<string>>, title: Option<string>, items: seq<string>): (r: seq<Group<string>>)
    ensures out <= r && |r| <= |out| + 1
  {
    var ct := CleanTitle(title);
    var ci := CleanItems(items);
    if ct.Some? || ci != [] then out + [Group(ct, ci)] else out
  }

  /** The state of the segmentation: groups emitted so far, the open group's title and lines. */
  datatype Scan = Scan(out: seq<Group<string>>, title: Option<string>, items: seq<string>)

  /** One line: a blank line is skipped, a header closes the open group and opens one. */
  function Step(st: Scan, it: ItemDraft): (r: Scan)
    ensures st.out <= r.out
  {
    var text := Trim(it.text);
    if text == [] then st
    else if it.isHeader then Scan(Flush(st.out, st.title, st.items), Some(text), [])
    else st.(items := st.items + [text])
  }

  /** The lines of one draft group, one after the other. */
  function ScanLines(st: Scan, lines: seq<ItemDraft>): Scan {
    if lines == [] then st
    else Step(ScanLines(st, lines[..|lines| - 1]), lines[|lines| - 1])
  }

  /** What one draft group adds to the output. */
  function SegmentGroup(out: seq<Group<string>>, g: GroupDraft): seq<Group<string>> {
    var st := ScanLines(Scan(out, CleanTitle(Some(g.title)), []), g.items);
    Flush(st.out, st.title, st.items)
  }

  /** The groups the form saves for a list of drafts. */
  function Segment(drafts: seq<GroupDraft>): seq<Group<string>> {
    if drafts == [] then []
    else SegmentGroup(Segment(drafts[..|drafts| - 1]), drafts[|drafts| - 1])
  }

  /** `toInstructionGroups(drafts)`. */
  method ToInstructionGroups(drafts: seq<GroupDraft>) returns (output: seq<Group<string>>)
    ensures output == Segment(drafts)
  {
    output := [];
    var gi := 0;
    while gi < |drafts|
      invariant 0 <= gi <= |drafts|
      invariant output == Segment(drafts[..gi])
    {
      var g := drafts[gi];
      var currentTitle := CleanTitle(Some(g.title));
      var currentItems: seq<string> := [];
      var ii := 0;
      while ii < |g.items|
        invariant 0 <= ii <= |g.items|
        invariant Scan(output, currentTitle, currentItems)
          == ScanLines(Scan(Segment(drafts[..gi]), CleanTitle(Some(g.title)), []), g.items[..ii])
      {
        var it := g.items[ii];
        var text := Trim(it.text);
        if text != [] {
          if it.isHeader {
            output := Flush(output, currentTitle, currentItems);
            currentTitle := Some(text);
            currentItems := [];
          } else {
            currentItems := currentItems + [text];
          }
        }
        assert g.items[..ii + 1][..ii] == g.items[..ii];
        ii := ii + 1;
      }
      assert g.items[..|g.items|] == g.items;
      output := Flush(output, currentTitle, currentItems);
      assert drafts[..gi + 1][..gi] == drafts[..gi];
      gi := gi + 1;
    }
    assert drafts[..|drafts|] == drafts;
  }

  /** The ingredient groups: each saved line becomes `new Ingredient(text)`. */
  function IngredientGroupsOf(groups: seq<Group<string>>, freshId: FreshId): (r: seq<IngredientGroup>)
    ensures |r| == |groups|
    ensures forall i :: 0 <= i < |groups| ==> r[i].title == groups[i].title && |r[i].items| == |groups[i].items|
  {
    seq(|groups|, i requires 0 <= i < |groups| =>
      Group(groups[i].title, NewIngredients(groups[i].items, freshId)))
  }

  /** `new Ingredient(text)` for each line keeps the lines as the names. */
  lemma NewIngredientsKeepNames(title: Option<string>, items: seq<string>, freshId: FreshId)
    ensures Texts(Group(title, NewIngredients(items, freshId)), NameOf) == items
  {
    var g := Group(title, NewIngredients(items, freshId));
    forall j | 0 <= j < |items| ensures Texts(g, NameOf)[j] == items[j] {
      assert Texts(g, NameOf)[j] == NameOf(g.items[j]);
    }
  }

  /** The ingredient groups carry the saved lines as their names, title for title. */
  lemma IngredientGroupsKeepLines(groups: seq<Group<string>>, freshId: FreshId)
    ensures var r := IngredientGroupsOf(groups, freshId);
      forall i :: 0 <= i < |groups| ==> Texts(r[i], NameOf) == groups[i].items
  {
    var r := IngredientGroupsOf(groups, freshId);
    forall i | 0 <= i < |groups| ensures Texts(r[i], NameOf) == groups[i].items {
      assert r[i] == Group(groups[i].title, NewIngredients(groups[i].items, freshId));
      NewIngredientsKeepNames(groups[i].title, groups[i].items, freshId);
    }
  }

  /**
   * `toIngredientGroups(drafts)`: the same cut as for instructions; the
   * ingredient flush filters on the name, which every line it is given
   * already passes.
   */
  method ToIngredientGroups(drafts: seq<GroupDraft>, freshId: FreshId) returns (output: seq<IngredientGroup>)
    ensures output == IngredientGroupsOf(Segment(drafts), freshId)
  {
    var lines := ToInstructionGroups(drafts);
    output := IngredientGroupsOf(lines, freshId);
  }

  // ---------------------------------------------------------------------
  // Properties of the segmentation

  /**
   * A saved group has a trimmed, non-empty title or none, has a title or
   * at least one line, and holds only trimmed, non-empty lines.
   */
  predicate GoodGroup(g: Group<string>) {
    && (g.title.Some? ==> CleanLine(g.title.value))
    && (g.title.Some? || g.items != [])
    && CleanLines(g.items)
  }

  /** Every group of the list is good. */
  predicate WellFormed(gs: seq<Group<string>>) {
    gs == [] || (WellFormed(gs[..|gs| - 1]) && GoodGroup(gs[|gs| - 1]))
  }

  lemma {:induction false} WellFormedEach(gs: seq<Group<string>>)
    requires WellFormed(gs)
    ensures forall i :: 0 <= i < |gs| ==> GoodGroup(gs[i])
  {
    if gs != [] {
      WellFormedEach(gs[..|gs| - 1]);
      assert forall i :: 0 <= i < |gs| - 1 ==> gs[..|gs| - 1][i] == gs[i];
    }
  }

  lemma FlushWellFormed(out: seq<Group<string>>, title: Option<string>, items: seq<string>)
    requires WellFormed(out)
    ensures WellFormed(Flush(out, title, items))
  {
    var ct := CleanTitle(title);
    var ci := CleanItems(items);
    if ct.Some? || ci != [] {
      assert (out + [Group(ct, ci)])[..|out|] == out;
    }
  }

  lemma {:induction false} ScanWellFormed(st: Scan, lines: seq<ItemDraft>)
    requires WellFormed(st.out)
    ensures WellFormed(ScanLines(st, lines).out)
  {
    if lines != [] {
      var prev := ScanLines(st, lines[..|lines| - 1]);
      ScanWellFormed(st, lines[..|lines| - 1]);
      FlushWellFormed(prev.out, prev.title, prev.items);
    }
  }

  lemma {:induction false} SegmentWellFormed(drafts: seq<GroupDraft>)
    ensures WellFormed(Segment(drafts))
  {
    if drafts != [] {
      var n := |drafts| - 1;
      SegmentWellFormed(drafts[..n]);
      var st := ScanLines(Scan(Segment(drafts[..n]), CleanTitle(Some(drafts[n].title)), []), drafts[n].items);
      ScanWellFormed(Scan(Segment(drafts[..n]), CleanTitle(Some(drafts[n].title)), []), drafts[n].items);
      FlushWellFormed(st.out, st.title, st.items);
    }
  }

  /**
   * Every saved group has a trimmed, non-empty title or none, has a title
   * or a line, and holds only trimmed, non-empty lines.
   */
  lemma SavedGroupsAreGood(drafts: seq<GroupDraft>)
    ensures forall i :: 0 <= i < |Segment(drafts)| ==> GoodGroup(Segment(drafts)[i])
  {
    SegmentWellFormed(drafts);
    WellFormedEach(Segment(drafts));
  }

  /** All lines of a group list, in order. */
  function AllLines(gs: seq<Group<string>>): seq<string> {
    if gs == [] then [] else AllLines(gs[..|gs| - 1]) + gs[|gs| - 1].items
  }

  /** A line's text, trimmed, when it is not a header and not blank. */
  function PlainText(it: ItemDraft): seq<string> {
    if it.isHeader || Trim(it.text) == [] then [] else [Trim(it.text)]
  }

  /** The plain lines of a draft group, in order. */
  function PlainTexts(lines: seq<ItemDraft>): seq<string> {
    if lines == [] then [] else PlainTexts(lines[..|lines| - 1]) + PlainText(lines[|lines| - 1])
  }

  /** The plain lines of all drafts, in order. */
  function DraftTexts(drafts: seq<GroupDraft>): seq<string> {
    if drafts == [] then [] else DraftTexts(drafts[..|drafts| - 1]) + PlainTexts(drafts[|drafts| - 1].items)
  }

  lemma AllLinesAppend(gs: seq<Group<string>>, g: Group<string>)
    ensures AllLines(gs + [g]) == AllLines(gs) + g.items
  {
    assert (gs + [g])[..|gs|] == gs;
  }

  /** A flush loses no clean line. */
  lemma FlushKeepsLines(out: seq<Group<string>>, title: Option<string>, items: seq<string>)
    requires CleanLines(items)
    ensures AllLines(Flush(out, title, items)) == AllLines(out) + items
  {
    CleanItemsOfClean(items);
    if CleanTitle(title).Some? || items != [] {
      AllLinesAppend(out, Group(CleanTitle(title), items));
    } else {
      assert items == [];
      assert AllLines(out) + items == AllLines(out);
    }
  }

  lemma StepKeepsLines(st: Scan, it: ItemDraft)
    requires CleanLines(st.items)
    ensures CleanLines(Step(st, it).items)
    ensures AllLines(Step(st, it).out) + Step(st, it).items == AllLines(st.out) + st.items + PlainText(it)
  {
    var text := Trim(it.text);
    TrimGivesCleanLine(it.text);
    if text == [] {
    } else if it.isHeader {
      FlushKeepsLines(st.out, st.title, st.items);
    } else {
      CleanLinesSnoc(st.items, text);
    }
  }

  lemma {:induction false} ScanKeepsLines(st: Scan, lines: seq<ItemDraft>)
    requires CleanLines(st.items)
    ensures CleanLines(ScanLines(st, lines).items)
    ensures var r := ScanLines(st, lines);
      AllLines(r.out) + r.items == AllLines(st.out) + st.items + PlainTexts(lines)
  {
    if lines != [] {
      var n := |lines| - 1;
      ScanKeepsLines(st, lines[..n]);
      StepKeepsLines(ScanLines(st, lines[..n]), lines[n]);
    }
  }

  /**
   * Saving loses no line and invents none: the lines of the saved groups
   * are the non-blank, non-header lines of the drafts, trimmed, in order.
   */
  lemma {:induction false} SegmentKeepsLines(drafts: seq<GroupDraft>)
    ensures AllLines(Segment(drafts)) == DraftTexts(drafts)
  {
    if drafts != [] {
      var n := |drafts| - 1;
      SegmentKeepsLines(drafts[..n]);
      var st0 := Scan(Segment(drafts[..n]), CleanTitle(Some(drafts[n].title)), []);
      ScanKeepsLines(st0, drafts[n].items);
      var st := ScanLines(st0, drafts[n].items);
      FlushKeepsLines(st.out, st.title, st.items);
    }
  }

  // ---------------------------------------------------------------------
  // Round trip: open, then save without edits

  /** The stored groups as a save would produce them: blank titles become absent. */
  function Normalized<T>(groups: seq<Group<T>>, textOf: T -> string): seq<Group<string>> {
    seq(|groups|, i requires 0 <= i < |groups| => Group(CleanTitle(groups[i].title), Texts(groups[i], textOf)))
  }

  /**
   * Groups that survive the flattening: their lines are trimmed and not
   * empty, every group but the first has a title (otherwise its lines
   * join the group before it), and a group without a title has lines
   * (otherwise it is dropped).
   */
  predicate Separable<T>(groups: seq<Group<T>>, textOf: T -> string) {
    groups == [] || (
      var n := |groups| - 1;
      && Separable(groups[..n], textOf)
      && CleanLines(Texts(groups[n], textOf))
      && (n > 0 ==> CleanTitle(groups[n].title).Some?)
      && (CleanTitle(groups[n].title).None? ==> groups[n].items != []))
  }

  lemma {:induction false} ScanAppend(st: Scan, a: seq<ItemDraft>, b: seq<ItemDraft>)
    ensures ScanLines(st, a + b) == ScanLines(ScanLines(st, a), b)
  {
    if b == [] {
      assert a + b == a;
    } else {
      var n := |b| - 1;
      assert (a + b)[..|a + b| - 1] == a + b[..n];
      ScanAppend(st, a, b[..n]);
    }
  }

  /** Clean plain lines are appended to the open group as they are. */
  lemma {:induction false} ScanItemLines(st: Scan, texts: seq<string>, freshId: FreshId)
    requires CleanLines(texts)
    ensures ScanLines(st, ItemLines(texts, freshId)) == st.(items := st.items + texts)
  {
    if texts == [] {
      assert ItemLines(texts, freshId) == [];
    } else {
      var n := |texts| - 1;
      var lines := ItemLines(texts, freshId);
      assert lines[..|lines| - 1] == ItemLines(texts[..n], freshId);
      ScanItemLines(st, texts[..n], freshId);
      assert st.items + texts[..n] + [texts[n]] == st.items + texts;
    }
  }

  /** The header line of a group opens a group with its cleaned title. */
  lemma ScanHeader(st: Scan, title: Option<string>, freshId: FreshId)
    ensures CleanTitle(title).None? ==> ScanLines(st, HeaderLine(title, freshId)) == st
    ensures CleanTitle(title).Some? ==>
      ScanLines(st, HeaderLine(title, freshId)) == Scan(Flush(st.out, st.title, st.items), CleanTitle(title), [])
  {
    var h := HeaderLine(title, freshId);
    if h != [] {
      assert h[..0] == [];
      TrimIdempotent(title.GetOr(""));
    }
  }

  /** Closing an open group whose title and lines are already clean emits it as it is. */
  lemma FlushClean(out: seq<Group<string>>, title: Option<string>, items: seq<string>)
    requires title.None? || CleanLine(title.value)
    requires CleanLines(items) && (title.Some? || items != [])
    ensures Flush(out, title, items) == out + [Group(title, items)]
  {
    CleanItemsOfClean(items);
    TrimEmptyIffBlank("");
  }

  lemma NormalizedSnoc<T>(groups: seq<Group<T>>, textOf: T -> string, n: nat)
    requires n < |groups|
    ensures Normalized(groups[..n], textOf) + [Group(CleanTitle(groups[n].title), Texts(groups[n], textOf))]
      == Normalized(groups[..n + 1], textOf)
  {
  }

  /** The lines of one stored group: its header line, if any, then its plain lines. */
  lemma ScanGroupLines<T>(st: Scan, g: Group<T>, textOf: T -> string, freshId: FreshId)
    requires CleanLines(Texts(g, textOf))
    ensures var after := ScanLines(st, HeaderLine(g.title, freshId) + ItemLines(Texts(g, textOf), freshId));
      && (CleanTitle(g.title).Some? ==>
            after == Scan(Flush(st.out, st.title, st.items), CleanTitle(g.title), Texts(g, textOf)))
      && (CleanTitle(g.title).None? ==> after == st.(items := st.items + Texts(g, textOf)))
  {
    var head := HeaderLine(g.title, freshId);
    var lines := ItemLines(Texts(g, textOf), freshId);
    ScanAppend(st, head, lines);
    ScanHeader(st, g.title, freshId);
    ScanItemLines(ScanLines(st, head), Texts(g, textOf), freshId);
  }

  /** Scanning the flattened groups: the groups before the last, then the last group's lines. */
  lemma ScanFlattenSplit<T>(st: Scan, groups: seq<Group<T>>, textOf: T -> string, freshId: FreshId)
    requires groups != [] && CleanLines(Texts(groups[|groups| - 1], textOf))
    ensures var n := |groups| - 1;
      var g := groups[n];
      var after := ScanLines(st, Flatten(groups[..n], textOf, freshId));
      && (CleanTitle(g.title).Some? ==>
            ScanLines(st, Flatten(groups, textOf, freshId))
              == Scan(Flush(after.out, after.title, after.items), CleanTitle(g.title), Texts(g, textOf)))
      && (CleanTitle(g.title).None? ==>
            ScanLines(st, Flatten(groups, textOf, freshId)) == after.(items := after.items + Texts(g, textOf)))
  {
    var n := |groups| - 1;
    var g := groups[n];
    var body := Flatten(groups[..n], textOf, freshId);
    var rest := HeaderLine(g.title, freshId) + ItemLines(Texts(g, textOf), freshId);
    assert Flatten(groups, textOf, freshId) == body + rest;
    ScanAppend(st, body, rest);
    ScanGroupLines(ScanLines(st, body), g, textOf, freshId);
  }

  /** One more group: the open group is emitted as it is and the new one is opened. */
  lemma ScanFlattenStep<T>(groups: seq<Group<T>>, textOf: T -> string, freshId: FreshId)
    requires |groups| > 1
    requires var n := |groups| - 1;
      && CleanLines(Texts(groups[n], textOf)) && CleanTitle(groups[n].title).Some?
      && CleanLines(Texts(groups[n - 1], textOf))
      && (CleanTitle(groups[n - 1].title).Some? || groups[n - 1].items != [])
    requires var n := |groups| - 1;
      ScanLines(Scan([], None, []), Flatten(groups[..n], textOf, freshId))
        == Scan(Normalized(groups[..n - 1], textOf), CleanTitle(groups[n - 1].title), Texts(groups[n - 1], textOf))
    ensures var n := |groups| - 1;
      ScanLines(Scan([], None, []), Flatten(groups, textOf, freshId))
        == Scan(Normalized(groups[..n], textOf), CleanTitle(groups[n].title), Texts(groups[n], textOf))
  {
    var n := |groups| - 1;
    ScanFlattenSplit(Scan([], None, []), groups, textOf, freshId);
    FlushLast(groups[..n], textOf);
    assert groups[..n][..n - 1] == groups[..n - 1];
  }

  /**
   * Scanning the flattened lines of separable groups leaves every group
   * but the last emitted and the last one open.
   */
  lemma {:induction false} ScanFlatten<T>(groups: seq<Group<T>>, textOf: T -> string, freshId: FreshId)
    requires groups != [] && Separable(groups, textOf)
    ensures var n := |groups| - 1;
      ScanLines(Scan([], None, []), Flatten(groups, textOf, freshId))
        == Scan(Normalized(groups[..n], textOf), CleanTitle(groups[n].title), Texts(groups[n], textOf))
  {
    var n := |groups| - 1;
    SeparableLast(groups, textOf);
    if n == 0 {
      ScanFlattenFirst(groups, textOf, freshId);
    } else {
      var prefix := groups[..n];
      ScanFlatten(prefix, textOf, freshId);
      assert prefix[..n - 1] == groups[..n - 1];
      ScanFlattenStep(groups, textOf, freshId);
    }
  }

  /** What separability says about the last two groups. */
  lemma SeparableLast<T>(groups: seq<Group<T>>, textOf: T -> string)
    requires groups != [] && Separable(groups, textOf)
    ensures var n := |groups| - 1;
      && Separable(groups[..n], textOf)
      && CleanLines(Texts(groups[n], textOf))
      && (n > 0 ==> CleanTitle(groups[n].title).Some?)
      && (CleanTitle(groups[n].title).None? ==> groups[n].items != [])
      && (n > 0 ==> groups[..n] != [] && groups[..n][n - 1] == groups[n - 1])
  {
  }

  /** The first group is left open, with nothing emitted before it. */
  lemma ScanFlattenFirst<T>(groups: seq<Group<T>>, textOf: T -> string, freshId: FreshId)
    requires |groups| == 1 && CleanLines(Texts(groups[0], textOf))
    ensures ScanLines(Scan([], None, []), Flatten(groups, textOf, freshId))
      == Scan([], CleanTitle(groups[0].title), Texts(groups[0], textOf))
  {
    ScanFlattenSplit(Scan([], None, []), groups, textOf, freshId);
    assert groups[..0] == [];
    TrimEmptyIffBlank("");
    assert Flush([], None, []) == [];
  }

  /**
   * Opening the form on separable stored groups and saving without an
   * edit gives the same groups back (blank titles become absent).
   */
  lemma OpenThenSaveIsIdentity<T>(groups: seq<Group<T>>, textOf: T -> string, freshId: FreshId)
    requires Separable(groups, textOf)
    ensures Segment(InitialDraftsOf(Some(groups), textOf, freshId)) == Normalized(groups, textOf)
  {
    var drafts := InitialDraftsOf(Some(groups), textOf, freshId);
    SegmentOfUntitledDraft(drafts[0]);
    assert drafts == [drafts[0]];
    var st := ScanLines(Scan([], None, []), Flatten(groups, textOf, freshId));
    assert Segment(drafts) == Flush(st.out, st.title, st.items);
    if groups == [] {
      TrimEmptyIffBlank("");
    } else {
      SeparableLast(groups, textOf);
      ScanFlatten(groups, textOf, freshId);
      FlushLast(groups, textOf);
    }
  }

  /** Closing the open last group, clean as it is, completes the normalised list. */
  lemma FlushLast<T>(groups: seq<Group<T>>, textOf: T -> string)
    requires groups != []
    requires var g := groups[|groups| - 1];
      CleanLines(Texts(g, textOf)) && (CleanTitle(g.title).Some? || g.items != [])
    ensures var n := |groups| - 1;
      Flush(Normalized(groups[..n], textOf), CleanTitle(groups[n].title), Texts(groups[n], textOf))
        == Normalized(groups, textOf)
  {
    var n := |groups| - 1;
    var g := groups[n];
    FlushClean(Normalized(groups[..n], textOf), CleanTitle(g.title), Texts(g, textOf));
    NormalizedSnoc(groups, textOf, n);
    assert groups[..n + 1] == groups;
  }

  /** A single untitled draft is saved as its scanned lines, starting from nothing open. */
  lemma SegmentOfUntitledDraft(d: GroupDraft)
    requires d.title == ""
    ensures var st := ScanLines(Scan([], None, []), d.items);
      Segment([d]) == Flush(st.out, st.title, st.items)
  {
    assert [d][..0] == [];
    TrimEmptyIffBlank("");
    assert CleanTitle(Some(d.title)) == None;
  }

  // ---------------------------------------------------------------------
  // The item editor

  /** `groups.findIndex(g => g.id === groupId)`. */
  function FindGroup(groups: seq<GroupDraft>, id: string): (r: Option<nat>)
    ensures r.Some? ==> (r.value < |groups| && groups[r.value].id == id
      && forall i :: 0 <= i < r.value ==> groups[i].id != id)
    ensures r.None? ==> forall i :: 0 <= i < |groups| ==> groups[i].id != id
  {
    if groups == [] then None
    else if groups[0].id == id then Some(0)
    else match FindGroup(groups[1..], id)
      case None => None
      case Some(k) => Some(k + 1)
  }

  /** `items.findIndex(it => it.id === itemId)`. */
  function FindItem(items: seq<ItemDraft>, id: string): (r: Option<nat>)
    ensures r.Some? ==> (r.value < |items| && items[r.value].id == id
      && forall i :: 0 <= i < r.value ==> items[i].id != id)
    ensures r.None? ==> forall i :: 0 <= i < |items| ==> items[i].id != id
  {
    if items == [] then None
    else if items[0].id == id then Some(0)
    else match FindItem(items[1..], id)
      case None => None
      case Some(k) => Some(k + 1)
  }

  /** The editor's mode: adding a line, or editing the line with `itemId` (possibly unset). */
  datatype EditorMode = AddItem | EditItem(itemId: Option<string>)

  /**
   * The new item list of the target group: an added line is trimmed and
   * appended; an edited line gets the text as typed and the chosen type,
   * and keeps its id and place.
   */
  function EditedItems(items: seq<ItemDraft>, mode: EditorMode, text: string, asHeader: bool, freshId: FreshId)
    : (r: seq<ItemDraft>)
    ensures mode.AddItem? ==> r == items + [ItemDraft(freshId, Trim(text), asHeader)]
    ensures mode.EditItem? ==> |r| == |items|
    ensures (mode.EditItem? && (mode.itemId.None? || mode.itemId.value == [] ||
      FindItem(items, mode.itemId.value).None?)) ==> r == items
    ensures (mode.EditItem? && mode.itemId.Some? && mode.itemId.value != [] &&
      FindItem(items, mode.itemId.value).Some?) ==>
        var k := FindItem(items, mode.itemId.value).value;
        && r[k] == ItemDraft(items[k].id, text, asHeader)
        && forall i :: 0 <= i < |items| && i != k ==> r[i] == items[i]
  {
    match mode
    case AddItem => items + [ItemDraft(freshId, Trim(text), asHeader)]
    case EditItem(itemId) =>
      if itemId.None? || itemId.value == [] then items
      else match FindItem(items, itemId.value)
        case None => items
        case Some(k) => items[k := items[k].(text := text, isHeader := asHeader)]
  }

  /**
   * `handleConfirmItemEditor(text, type)` on the section's groups: only
   * the first group with the editor's id changes; an unknown or unset
   * group id changes nothing.
   */
  function ConfirmItemEditor(groups: seq<GroupDraft>, groupId: Option<string>, mode: EditorMode,
                             text: string, asHeader: bool, freshId: FreshId): (r: seq<GroupDraft>)
    ensures |r| == |groups|
    ensures groupId.None? || FindGroup(groups, groupId.value).None? ==> r == groups
    ensures groupId.Some? && FindGroup(groups, groupId.value).Some? ==>
      var k := FindGroup(groups, groupId.value).value;
      && r[k] == groups[k].(items := EditedItems(groups[k].items, mode, text, asHeader, freshId))
      && forall i :: 0 <= i < |groups| && i != k ==> r[i] == groups[i]
  {
    if groupId.None? then groups
    else match FindGroup(groups, groupId.value)
      case None => groups
      case Some(k) => groups[k := groups[k].(items := EditedItems(groups[k].items, mode, text, asHeader, freshId))]
  }

  /** `items.filter(it => it.id !== itemId)`. */
  function RemoveItem(items: seq<ItemDraft>, id: string): (r: seq<ItemDraft>)
    ensures forall it :: it in r <==> it in items && it.id != id
    ensures |r| <= |items|
  {
    if items == [] then []
    else (if items[0].id == id then [] else [items[0]]) + RemoveItem(items[1..], id)
  }

  lemma {:induction false} RemoveItemAppend(a: seq<ItemDraft>, b: seq<ItemDraft>, id: string)
    ensures RemoveItem(a + b, id) == RemoveItem(a, id) + RemoveItem(b, id)
  {
    if a == [] {
      assert a + b == b;
    } else {
      assert (a + b)[1..] == a[1..] + b;
      RemoveItemAppend(a[1..], b, id);
    }
  }

  lemma {:induction false} RemoveAbsentItem(items: seq<ItemDraft>, id: string)
    requires forall i :: 0 <= i < |items| ==> items[i].id != id
    ensures RemoveItem(items, id) == items
  {
    if items != [] {
      RemoveAbsentItem(items[1..], id);
      assert items == [items[0]] + items[1..];
    }
  }

  /** The editor's delete action: the item id is removed from the first group with the editor's id. */
  function DeleteItem(groups: seq<GroupDraft>, groupId: Option<string>, itemId: string): (r: seq<GroupDraft>)
    ensures |r| == |groups|
    ensures groupId.None? || FindGroup(groups, groupId.value).None? ==> r == groups
    ensures groupId.Some? && FindGroup(groups, groupId.value).Some? ==>
      var k := FindGroup(groups, groupId.value).value;
      && r[k] == groups[k].(items := RemoveItem(groups[k].items, itemId))
      && forall i :: 0 <= i < |groups| && i != k ==> r[i] == groups[i]
  {
    if groupId.None? then groups
    else match FindGroup(groups, groupId.value)
      case None => groups
      case Some(k) => groups[k := groups[k].(items := RemoveItem(groups[k].items, itemId))]
  }

  /** Deleting a line just added (under an id the group did not use) restores the groups. */
  lemma AddThenDeleteItem(groups: seq<GroupDraft>, groupId: Option<string>, text: string, asHeader: bool,
                          freshId: FreshId)
    requires groupId.Some? && FindGroup(groups, groupId.value).Some?
    requires var k := FindGroup(groups, groupId.value).value;
      forall i :: 0 <= i < |groups[k].items| ==> groups[k].items[i].id != freshId
    ensures DeleteItem(ConfirmItemEditor(groups, groupId, AddItem, text, asHeader, freshId), groupId, freshId)
      == groups
  {
    var k := FindGroup(groups, groupId.value).value;
    var added := ConfirmItemEditor(groups, groupId, AddItem, text, asHeader, freshId);
    assert FindGroup(added, groupId.value) == Some(k) by {
      assert forall i :: 0 <= i < k ==> added[i] == groups[i];
    }
    var items := groups[k].items;
    RemoveItemAppend(items, [ItemDraft(freshId, Trim(text), asHeader)], freshId);
    RemoveAbsentItem(items, freshId);
    assert RemoveItem([ItemDraft(freshId, Trim(text), asHeader)], freshId) == [];
    var r := DeleteItem(added, groupId, freshId);
    assert r[k] == groups[k];
  }

  /** Confirming the same edit twice is the same as once. */
  lemma EditTwice(groups: seq<GroupDraft>, groupId: Option<string>, itemId: Option<string>, text: string,
                  asHeader: bool, freshId: FreshId)
    ensures var once := ConfirmItemEditor(groups, groupId, EditItem(itemId), text, asHeader, freshId);
      ConfirmItemEditor(once, groupId, EditItem(itemId), text, asHeader, freshId) == once
  {
    var once := ConfirmItemEditor(groups, groupId, EditItem(itemId), text, asHeader, freshId);
    if groupId.Some? && FindGroup(groups, groupId.value).Some? {
      var k := FindGroup(groups, groupId.value).value;
      assert FindGroup(once, groupId.value) == Some(k) by {
        assert forall i :: 0 <= i < k ==> once[i].id == groups[i].id;
      }
      var items := groups[k].items;
      if itemId.Some? && itemId.value != [] && FindItem(items, itemId.value).Some? {
        var j := FindItem(items, itemId.value).value;
        var edited := once[k].items;
        assert FindItem(edited, itemId.value) == Some(j) by {
          assert forall i :: 0 <= i < j ==> edited[i] == items[i];
        }
        assert EditedItems(edited, EditItem(itemId), text, asHeader, freshId) == edited;
      }
    }
  }

  // ---------------------------------------------------------------------
  // Tags

  /** The tag chips and the text of the tag input. */
  datatype TagInput = TagInput(tags: seq<string>, newTag: string)

  /** `handleAddTag`: a non-blank input is trimmed, appended and cleared. */
  function AddTag(t: TagInput): (r: TagInput)
    ensures IsBlank(t.newTag) ==> r == t
    ensures !IsBlank(t.newTag) ==> r.tags == t.tags + [Trim(t.newTag)] && r.newTag == ""
    ensures !IsBlank(t.newTag) ==> CleanLine(r.tags[|r.tags| - 1])
  {
    TrimGivesCleanLine(t.newTag);
    if Trim(t.newTag) != [] then TagInput(t.tags + [Trim(t.newTag)], "") else t
  }

  // `handleDeleteTag(tag)` is `Lists.Without(tags, tag)`: every chip equal to it goes.

  /** Deleting a tag just added (and not there before) restores the chips. */
  lemma AddThenDeleteTag(tags: seq<string>, newTag: string)
    requires !IsBlank(newTag) && Trim(newTag) !in tags
    ensures Without(AddTag(TagInput(tags, newTag)).tags, Trim(newTag)) == tags
  {
    WithoutAppend(tags, [Trim(newTag)], Trim(newTag));
    WithoutAbsent(tags, Trim(newTag));
    assert Without([Trim(newTag)], Trim(newTag)) == [];
  }

  // ---------------------------------------------------------------------
  // The form and saving it

  datatype FormMode = AddMode | EditMode

  /** The form's state, apart from the popups and the tag input. */
  datatype FormState = FormState(
    mode: FormMode,
    initialRecipe: Option<Recipe>,
    name: string,
    imageUri: Nullable<string>,
    ingredientDrafts: seq<GroupDraft>,
    instructionDrafts: seq<GroupDraft>,
    cookingTime: string,
    calories: string,
    sourceUrl: string,
    tags: seq<string>)

  /** The initial state, given the two initial draft lists. */
  function InitialForm(mode: FormMode, initialRecipe: Option<Recipe>,
                       ingredientDrafts: seq<GroupDraft>, instructionDrafts: seq<GroupDraft>): FormState
  {
    match initialRecipe
    case None => FormState(mode, None, "", Null, ingredientDrafts, instructionDrafts, "", "", "", [])
    case Some(r) =>
      FormState(mode, initialRecipe, r.name, r.imageUri, ingredientDrafts, instructionDrafts,
        r.cookingTime.GetOr(""), r.calories.GetOr(""), r.sourceUrl.GetOr(""), r.tags)
  }

  /**
   * Opening the form. `ingredientsGroups` and `instructionGroups` are the
   * initial recipe's group lists when they are arrays; without an initial
   * recipe they are not looked at.
   */
  method OpenForm(mode: FormMode, initialRecipe: Option<Recipe>,
                  ingredientsGroups: Option<seq<IngredientGroup>>,
                  instructionGroups: Option<seq<InstructionGroup>>, freshId: FreshId)
    returns (form: FormState)
    ensures form == InitialForm(mode, initialRecipe,
      InitialDraftsOf(if initialRecipe.Some? then ingredientsGroups else None, NameOf, freshId),
      InitialDraftsOf(if initialRecipe.Some? then instructionGroups else None, StepText, freshId))
  {
    var ing := InitialDrafts(if initialRecipe.Some? then ingredientsGroups else None, NameOf, freshId);
    var ins := InitialDrafts(if initialRecipe.Some? then instructionGroups else None, StepText, freshId);
    form := InitialForm(mode, initialRecipe, ing, ins);
  }

  /** `s.trim() || undefined`. */
  function Optional(s: string): (r: Option<string>)
    ensures r.None? <==> IsBlank(s)
    ensures r.Some? ==> r.value == Trim(s)
  {
    TrimEmptyIffBlank(s);
    if Trim(s) == [] then None else Some(Trim(s))
  }

  /** The argument `handleSave` passes to `new Recipe(...)`, as far as the constructor reads it. */
  function SaveArgument(form: FormState): RecipeInit {
    RecipeInit(
      id := if form.mode == EditMode && form.initialRecipe.Some? then Some(form.initialRecipe.value.id) else None,
      name := Some(Trim(form.name)),
      imageUri := Some(form.imageUri),
      ingredients := Some([]),
      instructions := Some([]),
      sourceUrl := Optional(form.sourceUrl),
      cookingTime := Optional(form.cookingTime),
      calories := Optional(form.calories),
      tags := Some(form.tags),
      userId := None)
  }

  /**
   * What a save hands on: the recipe, and the group lists it computes and
   * passes to the constructor, which does not store them.
   */
  datatype SavedForm = SavedForm(
    recipe: Recipe,
    ingredientGroups: seq<IngredientGroup>,
    instructionGroups: seq<InstructionGroup>)

  /** `handleSave`: a blank name stops the save; otherwise the recipe is built. */
  method HandleSave(form: FormState, freshId: FreshId) returns (r: Option<SavedForm>)
    ensures r.None? <==> IsBlank(form.name)
    ensures r.Some? ==> r.value.recipe == NewRecipe(SaveArgument(form), freshId)
    ensures r.Some? ==> r.value.instructionGroups == Segment(form.instructionDrafts)
    ensures r.Some? ==> r.value.ingredientGroups == IngredientGroupsOf(Segment(form.ingredientDrafts), freshId)
  {
    TrimEmptyIffBlank(form.name);
    if Trim(form.name) == [] {
      return None;
    }
    var ingredientsOut := ToIngredientGroups(form.ingredientDrafts, freshId);
    var instructionsOut := ToInstructionGroups(form.instructionDrafts);
    var recipe := NewRecipe(SaveArgument(form), freshId);
    return Some(SavedForm(recipe, ingredientsOut, instructionsOut));
  }

  /**
   * The saved recipe: a trimmed, non-empty name; the initial id when
   * editing, a fresh one when adding; each optional text absent exactly
   * when blank and trimmed otherwise; the chips as they are; empty flat
   * lists; no owner.
   */
  lemma SavedRecipeFields(form: FormState, freshId: FreshId)
    requires !IsBlank(form.name)
    ensures var r := NewRecipe(SaveArgument(form), freshId);
      && r.name == Trim(form.name) && CleanLine(r.name)
      && (form.mode == EditMode && form.initialRecipe.Some? ==> r.id == form.initialRecipe.value.id)
      && (form.mode == AddMode ==> r.id == freshId)
      && r.imageUri == form.imageUri
      && (r.sourceUrl.None? <==> IsBlank(form.sourceUrl))
      && (r.cookingTime.None? <==> IsBlank(form.cookingTime))
      && (r.calories.None? <==> IsBlank(form.calories))
      && (r.sourceUrl.Some? ==> r.sourceUrl.value == Trim(form.sourceUrl))
      && r.tags == form.tags
      && r.ingredients == [] && r.instructions == [] && r.userId.None?
  {
    TrimGivesCleanLine(form.name);
  }

  /** A text field as the recipe stores it: absent, or trimmed and not empty. */
  predicate Tidy(s: Option<string>) {
    s.None? || CleanLine(s.value)
  }

  /**
   * Opening a recipe for edit and saving it unchanged keeps its id, name,
   * image, texts and tags; the flat lists come back empty and the owner
   * is dropped.
   */
  lemma EditUnchangedKeepsDetails(r: Recipe, ingredientDrafts: seq<GroupDraft>,
                                  instructionDrafts: seq<GroupDraft>, freshId: FreshId)
    requires CleanLine(r.name)
    requires Tidy(r.sourceUrl) && Tidy(r.cookingTime) && Tidy(r.calories)
    ensures NewRecipe(SaveArgument(InitialForm(EditMode, Some(r), ingredientDrafts, instructionDrafts)), freshId)
      == r.(ingredients := [], instructions := [], userId := None)
  {
    OptionalOfTidy(r.sourceUrl);
    OptionalOfTidy(r.cookingTime);
    OptionalOfTidy(r.calories);
  }

  /** A tidy text shown in its input and read back is what it was. */
  lemma OptionalOfTidy(s: Option<string>)
    requires Tidy(s)
    ensures Optional(s.GetOr("")) == s
  {
    TrimEmptyIffBlank(s.GetOr(""));
  }
}
