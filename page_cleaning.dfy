/**
 * `cleanWebPageContent`: turns page markup into plain text for the prompt.
 * Each regular expression of the source is a hand-written scanner here with
 * the semantics of a global `replace`: scan left to right, and after a match
 * continue just behind it.
 */
module PageCleaning {
  import opened Wrappers
  import opened Text

  /** The length the cleaned text is cut to. */
  const MaxContentLength: nat := 20000

  // ---------------------------------------------------------------------
  // Script and style blocks: /<tag\b[^<]*(?:(?!<\/tag>)<[^<]*)*<\/tag>/gi

  /** A word character of regular expressions (`\w`). */
  predicate IsWordChar(c: char) {
    ('a' <= c <= 'z') || ('A' <= c <= 'Z') || ('0' <= c <= '9') || c == '_'
  }

  /** Case-insensitive match of one character against a lower-case pattern character. */
  predicate MatchesIgnoringCase(c: char, p: char) {
    c == p || ('a' <= p <= 'z' && c as int == p as int - 32)
  }

  predicate StartsWithIgnoringCase(s: string, pattern: string) {
    |pattern| <= |s| && forall i :: 0 <= i < |pattern| ==> MatchesIgnoringCase(s[i], pattern[i])
  }

  /** `<tag` followed by a word boundary. */
  predicate OpensBlock(s: string, tag: string) {
    StartsWithIgnoringCase(s, "<" + tag) && (|s| == |tag| + 1 || !IsWordChar(s[|tag| + 1]))
  }

  /** The closing tag `</tag>` starts at position `j`. */
  predicate ClosesBlockAt(s: string, j: nat, tag: string)
    requires j <= |s|
  {
    StartsWithIgnoringCase(s[j..], "</" + tag + ">")
  }

  /** The first position at or after `from` where `</tag>` starts. */
  function FirstClose(s: string, from: nat, tag: string): (r: Option<nat>)
    requires from <= |s|
    ensures r.Some? ==> from <= r.value && r.value + |tag| + 3 <= |s| && ClosesBlockAt(s, r.value, tag)
    ensures r.Some? ==> forall j :: from <= j < r.value ==> !ClosesBlockAt(s, j, tag)
    ensures r.None? ==> forall j :: from <= j <= |s| ==> !ClosesBlockAt(s, j, tag)
    decreases |s| - from
  {
    if ClosesBlockAt(s, from, tag) then Some(from)
    else if from == |s| then None
    else FirstClose(s, from + 1, tag)
  }

  /**
   * Removes every `<tag …>…</tag>` span, from the opening tag to the first
   * closing tag after it, ignoring case.
   */
  function RemoveBlocks(s: string, tag: string): (r: string)
    ensures |r| <= |s|
    decreases |s|
  {
    if s == [] then []
    else if OpensBlock(s, tag) && FirstClose(s, |tag| + 1, tag).Some? then
      RemoveBlocks(s[FirstClose(s, |tag| + 1, tag).value + |tag| + 3..], tag)
    else [s[0]] + RemoveBlocks(s[1..], tag)
  }

  /** `<tag` + body + `</tag>`: a complete block. */
  function Block(tag: string, body: string): string {
    "<" + tag + body + "</" + tag + ">"
  }

  lemma {:induction false} BlockAtStartIsRemoved(body: string, post: string, tag: string)
    requires '<' !in body
    requires body == [] || !IsWordChar(body[0])
    ensures RemoveBlocks(Block(tag, body) + post, tag) == RemoveBlocks(post, tag)
  {
    var a := "<" + tag;
    var z := "</" + tag + ">";
    var s := a + body + z + post;
    assert Block(tag, body) + post == s;
    var t := |a|;
    var c := t + |body|;
    assert s[..t] == a;
    assert s[t..c] == body;
    assert s[c..c + |z|] == z;
    assert s[c + |z|..] == post;
    assert StartsWithIgnoringCase(s, a);
    assert |s| > t && s[t] == (if body == [] then '<' else body[0]);
    assert OpensBlock(s, tag);
    assert s[c..][..|z|] == z;
    assert ClosesBlockAt(s, c, tag);
    forall j | t <= j < c ensures !ClosesBlockAt(s, j, tag) {
      assert s[j] == body[j - t];
      assert s[j..][0] == s[j];
    }
    FirstCloseIs(s, t, c, tag);
  }

  /**
   * A complete block is removed with everything inside it: text without
   * markup before it is kept and scanning resumes right after its closing
   * tag.
   */
  lemma BlockIsRemoved(pre: string, body: string, post: string, tag: string)
    requires '<' !in pre && '<' !in body
    requires body == [] || !IsWordChar(body[0])
    ensures RemoveBlocks(pre + Block(tag, body) + post, tag) == pre + RemoveBlocks(post, tag)
  {
    var t := Block(tag, body) + post;
    assert pre + Block(tag, body) + post == pre + t;
    PlainPrefixIsKept(pre, t, tag);
    BlockAtStartIsRemoved(body, post, tag);
  }

  /** Text without `<` in front of the rest is kept as it is. */
  lemma {:induction false} PlainPrefixIsKept(pre: string, t: string, tag: string)
    requires '<' !in pre
    ensures RemoveBlocks(pre + t, tag) == pre + RemoveBlocks(t, tag)
  {
    if pre == [] {
      assert pre + t == t;
    } else {
      var s := pre + t;
      var rest := pre[1..];
      assert s[0] == pre[0];
      assert s[1..] == rest + t;
      PlainCharIsKept(s, tag);
      PlainPrefixIsKept(rest, t, tag);
      assert [pre[0]] + rest == pre;
    }
  }

  /** A character other than `<` never opens a block and is kept. */
  lemma PlainCharIsKept(s: string, tag: string)
    requires s != [] && s[0] != '<'
    ensures RemoveBlocks(s, tag) == [s[0]] + RemoveBlocks(s[1..], tag)
  {
    assert !MatchesIgnoringCase(s[0], '<');
    assert ("<" + tag)[0] == '<';
  }

  lemma FirstCloseIs(s: string, from: nat, c: nat, tag: string)
    requires from <= c <= |s| && ClosesBlockAt(s, c, tag)
    requires forall j :: from <= j < c ==> !ClosesBlockAt(s, j, tag)
    ensures FirstClose(s, from, tag) == Some(c)
    decreases c - from
  {
    if from < c {
      FirstCloseIs(s, from + 1, c, tag);
    }
  }

  // ---------------------------------------------------------------------
  // Tags: /<[^>]+>/g replaced by a space

  /** The first '>' at or after `from`. */
  function FirstGt(s: string, from: nat): (r: Option<nat>)
    requires from <= |s|
    ensures r.Some? ==> from <= r.value < |s| && s[r.value] == '>'
    ensures r.Some? ==> forall j :: from <= j < r.value ==> s[j] != '>'
    ensures r.None? ==> forall j :: from <= j < |s| ==> s[j] != '>'
    decreases |s| - from
  {
    if from == |s| then None
    else if s[from] == '>' then Some(from)
    else FirstGt(s, from + 1)
  }

  /** A tag `<[^>]+>` starts at position `i`. */
  predicate TagAt(s: string, i: nat)
    requires i < |s|
  {
    s[i] == '<' && i + 1 < |s| && s[i + 1] != '>' && exists j :: i + 2 <= j < |s| && s[j] == '>'
  }

  predicate NoTag(s: string) {
    forall i :: 0 <= i < |s| ==> !TagAt(s, i)
  }

  /** Replaces every tag with one space. */
  function StripTags(s: string): (r: string)
    ensures |r| <= |s|
    decreases |s|
  {
    if s == [] then []
    else if s[0] == '<' && |s| >= 2 && s[1] != '>' && FirstGt(s, 2).Some? then
      [' '] + StripTags(s[FirstGt(s, 2).value + 1..])
    else [s[0]] + StripTags(s[1..])
  }

  lemma {:induction false} StripTagsKeepsNoNewGt(s: string)
    ensures '>' in StripTags(s) ==> '>' in s
    decreases |s|
  {
    if s != [] {
      if s[0] == '<' && |s| >= 2 && s[1] != '>' && FirstGt(s, 2).Some? {
        var k := FirstGt(s, 2).value;
        StripTagsKeepsNoNewGt(s[k + 1..]);
        if '>' in StripTags(s[k + 1..]) {
          var j :| 0 <= j < |s[k + 1..]| && s[k + 1..][j] == '>';
          assert s[k + 1 + j] == '>';
        }
      } else {
        StripTagsKeepsNoNewGt(s[1..]);
        if '>' in StripTags(s[1..]) {
          var j :| 0 <= j < |s[1..]| && s[1..][j] == '>';
          assert s[1 + j] == '>';
        }
      }
    }
  }

  lemma NoTagCons(c: char, t: string)
    requires NoTag(t)
    requires !TagAt([c] + t, 0)
    ensures NoTag([c] + t)
  {
    var s := [c] + t;
    forall i | 1 <= i < |s| ensures !TagAt(s, i) {
      assert !TagAt(t, i - 1);
      assert forall j :: i + 2 <= j < |s| ==> s[j] == t[j - 1];
    }
  }

  /** No tag is left after stripping: a second pass finds nothing to replace. */
  lemma {:induction false} StripTagsLeavesNoTag(s: string)
    ensures NoTag(StripTags(s))
    decreases |s|
  {
    if s != [] {
      if s[0] == '<' && |s| >= 2 && s[1] != '>' && FirstGt(s, 2).Some? {
        var k := FirstGt(s, 2).value;
        StripTagsLeavesNoTag(s[k + 1..]);
        NoTagCons(' ', StripTags(s[k + 1..]));
      } else {
        var rest := StripTags(s[1..]);
        StripTagsLeavesNoTag(s[1..]);
        StripTagsKeepsNoNewGt(s[1..]);
        assert !TagAt([s[0]] + rest, 0) by {
          if s[0] == '<' && |s| >= 2 {
            if s[1] == '>' {
              assert rest[0] == '>';
            } else {
              assert '>' !in s[1..];
              assert forall j :: 2 <= j < |rest| + 1 ==> ([s[0]] + rest)[j] == rest[j - 1];
            }
          }
        }
        NoTagCons(s[0], rest);
      }
    }
  }

  /** Text without tags passes through stripping unchanged. */
  lemma {:induction false} StripTagsOfTagFree(s: string)
    requires NoTag(s)
    ensures StripTags(s) == s
    decreases |s|
  {
    if s != [] {
      assert !TagAt(s, 0);
      forall i | 0 <= i < |s[1..]| ensures !TagAt(s[1..], i) {
        assert !TagAt(s, i + 1);
        assert forall j :: i + 2 <= j < |s[1..]| ==> s[1..][j] == s[j + 1];
      }
      StripTagsOfTagFree(s[1..]);
    }
  }

  // ---------------------------------------------------------------------
  // Whitespace: /\s+/g replaced by a space, then trim, then slice

  /** Replaces every run of whitespace with one space. */
  function CollapseSpaces(s: string): (r: string)
    ensures s == [] ==> r == []
    ensures s != [] && !IsSpace(s[0]) ==> r != [] && r[0] == s[0]
    ensures s != [] && IsSpace(s[0]) ==> r != [] && r[0] == ' '
    decreases |s|
  {
    if s == [] then []
    else if IsSpace(s[0]) then [' '] + CollapseSpaces(TrimStart(s))
    else [s[0]] + CollapseSpaces(s[1..])
  }

  /** No two adjacent whitespace characters, and the only whitespace is a plain space. */
  predicate Collapsed(s: string) {
    && (forall i :: 0 <= i < |s| ==> IsSpace(s[i]) ==> s[i] == ' ')
    && (forall i :: 0 <= i < |s| - 1 ==> !(IsSpace(s[i]) && IsSpace(s[i + 1])))
  }

  lemma {:induction false} CollapseSpacesIsCollapsed(s: string)
    ensures Collapsed(CollapseSpaces(s))
    decreases |s|
  {
    if s != [] {
      if IsSpace(s[0]) {
        var t := TrimStart(s);
        CollapseSpacesIsCollapsed(t);
        TrimStartShape(s);
      } else {
        CollapseSpacesIsCollapsed(s[1..]);
      }
    }
  }

  lemma CollapsedSlice(s: string, i: nat, j: nat)
    requires Collapsed(s) && i <= j <= |s|
    ensures Collapsed(s[i..j])
  {
    var t := s[i..j];
    forall k | 0 <= k < |t| - 1 ensures !(IsSpace(t[k]) && IsSpace(t[k + 1])) {
      assert t[k] == s[i + k] && t[k + 1] == s[i + k + 1];
    }
  }

  /** The characters of `s` that are not whitespace, in order. */
  function NonSpace(s: string): string {
    if s == [] then []
    else (if IsSpace(s[0]) then [] else [s[0]]) + NonSpace(s[1..])
  }

  lemma {:induction false} NonSpaceOfBlank(s: string)
    requires IsBlank(s)
    ensures NonSpace(s) == []
  {
    if s != [] {
      NonSpaceOfBlank(s[1..]);
    }
  }

  lemma {:induction false} NonSpaceAppend(a: string, b: string)
    ensures NonSpace(a + b) == NonSpace(a) + NonSpace(b)
  {
    if a == [] {
      assert a + b == b;
    } else {
      assert (a + b)[1..] == a[1..] + b;
      NonSpaceAppend(a[1..], b);
    }
  }

  /** Collapsing whitespace keeps every other character, in order. */
  lemma {:induction false} CollapseKeepsText(s: string)
    ensures NonSpace(CollapseSpaces(s)) == NonSpace(s)
    decreases |s|
  {
    if s != [] {
      if IsSpace(s[0]) {
        var t := TrimStart(s);
        CollapseKeepsText(t);
        var k := |s| - |t|;
        TrimStartShape(s);
        assert s == s[..k] + t;
        NonSpaceAppend(s[..k], t);
        NonSpaceOfBlank(s[..k]);
        NonSpaceAppend([' '], CollapseSpaces(t));
      } else {
        CollapseKeepsText(s[1..]);
        NonSpaceAppend([s[0]], CollapseSpaces(s[1..]));
      }
    }
  }

  lemma TrimStartKeepsText(s: string)
    ensures NonSpace(TrimStart(s)) == NonSpace(s)
  {
    var a := TrimStart(s);
    var k := |s| - |a|;
    TrimStartShape(s);
    assert s == s[..k] + a;
    NonSpaceAppend(s[..k], a);
    NonSpaceOfBlank(s[..k]);
  }

  lemma TrimEndKeepsText(s: string)
    ensures NonSpace(TrimEnd(s)) == NonSpace(s)
  {
    var b := TrimEnd(s);
    TrimEndShape(s);
    assert s == b + s[|b|..];
    NonSpaceAppend(b, s[|b|..]);
    NonSpaceOfBlank(s[|b|..]);
  }

  /** Trimming keeps every non-whitespace character, in order. */
  lemma TrimKeepsText(s: string)
    ensures NonSpace(Trim(s)) == NonSpace(s)
  {
    TrimStartKeepsText(s);
    TrimEndKeepsText(TrimStart(s));
  }

  /** `content.slice(0, max)`. */
  function Truncate(s: string, max: nat): (r: string)
    ensures |r| <= max && StartsWith(s, r)
    ensures |s| <= max ==> r == s
  {
    if |s| <= max then s else s[..max]
  }

  // ---------------------------------------------------------------------
  // The whole pass

  /** Script and style blocks removed (scripts first), then tags replaced by spaces. */
  function MarkupToText(html: string): (r: string)
    ensures |r| <= |html|
  {
    StripTags(RemoveBlocks(RemoveBlocks(html, "script"), "style"))
  }

  /** `cleanWebPageContent`. */
  function CleanWebPageContent(html: string): (r: string)
    ensures |r| <= MaxContentLength
  {
    Truncate(Trim(CollapseSpaces(MarkupToText(html))), MaxContentLength)
  }

  /**
   * Cleaned text has no leading whitespace, no two adjacent whitespace
   * characters, only plain spaces as whitespace, and ends in a space only
   * when the cut at the maximum length fell just after one.
   */
  lemma CleanedTextShape(html: string)
    ensures var r := CleanWebPageContent(html);
      && |r| <= MaxContentLength
      && (r == [] || !IsSpace(r[0]))
      && Collapsed(r)
      && (r != [] && IsSpace(r[|r| - 1]) ==> |r| == MaxContentLength)
  {
    var c := CollapseSpaces(MarkupToText(html));
    CollapseSpacesIsCollapsed(MarkupToText(html));
    CollapsedTrim(c);
    TrimIsTrimmed(c);
    TruncatedShape(Trim(c), MaxContentLength);
  }

  lemma TruncatedShape(t: string, max: nat)
    requires Collapsed(t) && IsTrimmed(t)
    ensures var r := Truncate(t, max);
      && (r == [] || !IsSpace(r[0]))
      && Collapsed(r)
      && (r != [] && IsSpace(r[|r| - 1]) ==> |r| == max)
  {
    var r := Truncate(t, max);
    CollapsedSlice(t, 0, |r|);
    assert r == t[0..|r|];
  }

  lemma CollapsedTrim(c: string)
    requires Collapsed(c)
    ensures Collapsed(Trim(c))
  {
    var a := TrimStart(c);
    TrimStartShape(c);
    CollapsedSlice(c, |c| - |a|, |c|);
    assert a == c[|c| - |a|..|c|];
    var t := TrimEnd(a);
    TrimEndShape(a);
    CollapsedSlice(a, 0, |t|);
    assert t == a[0..|t|];
  }

  /**
   * Cleaning loses no text: the cleaned result is a prefix of a string
   * whose non-whitespace characters are exactly those of the page once
   * blocks and tags are gone.
   */
  lemma CleanKeepsText(html: string)
    ensures StartsWith(Trim(CollapseSpaces(MarkupToText(html))), CleanWebPageContent(html))
    ensures NonSpace(Trim(CollapseSpaces(MarkupToText(html)))) == NonSpace(MarkupToText(html))
  {
    CollapseKeepsText(MarkupToText(html));
    TrimKeepsText(CollapseSpaces(MarkupToText(html)));
  }

  /** The text handed to the whitespace pass contains no tag. */
  lemma MarkupToTextHasNoTag(html: string)
    ensures NoTag(MarkupToText(html))
  {
    StripTagsLeavesNoTag(RemoveBlocks(RemoveBlocks(html, "script"), "style"));
  }
}
