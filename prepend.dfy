/**
 * `prepend_file`: where text is inserted at the top of a Markdown file,
 * after its YAML front matter or its first-line heading unless asked to go
 * before them. The file is read before and written after; here the
 * function maps the file's text to the new text.
 */
module Prepend {
  import opened Strings

  /** The marker that opens a front-matter block at the start of a file. */
  const YfmOpen: string := "---\n"

  /** The marker that closes it. */
  const YfmClose: string := "\n---\n"

  /** Where the content goes and what is inserted there. */
  datatype Insertion = Insertion(start: nat, text: string)

  /** The file's first four characters are `---\n` and the caller wants to insert after the front matter. */
  function AfterYfm(source: string, beforeYfm: bool): (r: bool)
    ensures r <==> !beforeYfm && |source| >= |YfmOpen| && source[..|YfmOpen|] == YfmOpen
  {
    !beforeYfm && StartsWith(source, YfmOpen)
  }

  /** The file's first character is `#` and the caller wants to insert after the heading. */
  function AfterHeading(source: string, beforeHeading: bool): (r: bool)
    ensures r <==> !beforeHeading && |source| > 0 && source[0] == '#'
  {
    !beforeHeading && StartsWith(source, "#")
  }

  /**
   * The two adjustments of `start` and `content`, one after the other:
   * after a closed front-matter block (or at 0 if it is unclosed), then
   * after the first line of a heading (or at the end if it has no line
   * break); each adds a line break before the content.
   */
  function Place(source: string, content: string, beforeYfm: bool, beforeHeading: bool): (p: Insertion)
    ensures p.start <= |source|
    ensures p.text == content || p.text == "\n" + content
  {
    NotBothBranches(source, beforeYfm, beforeHeading);
    var afterYfm :=
      if AfterYfm(source, beforeYfm) then
        var yfmEnd := FindFrom(source, YfmClose, 1);
        Insertion(if yfmEnd != -1 then yfmEnd + |YfmClose| else 0, "\n" + content)
      else Insertion(0, content);
    if AfterHeading(source, beforeHeading) then
      var next := FindFrom(source, "\n", 1) + 1;
      Insertion(if next == 0 then |source| else next, "\n" + afterYfm.text)
    else afterYfm
  }

  /**
   * `source[:start] + content + source[start:]`: the text is kept before
   * and after the inserted segment, and cutting the segment out gives back
   * the source.
   */
  function Splice(source: string, p: Insertion): (r: string)
    requires p.start <= |source|
    ensures |r| == |source| + |p.text|
    ensures r[..p.start] == source[..p.start]
    ensures r[p.start..p.start + |p.text|] == p.text
    ensures r[p.start + |p.text|..] == source[p.start..]
    ensures r[..p.start] + r[p.start + |p.text|..] == source
  {
    assert source[..p.start] + source[p.start..] == source;
    source[..p.start] + p.text + source[p.start..]
  }

  /** The text `prepend_file` writes back. */
  function PrependText(source: string, content: string, beforeYfm: bool, beforeHeading: bool): (r: string)
    ensures |r| == |source| + |Place(source, content, beforeYfm, beforeHeading).text|
  {
    Splice(source, Place(source, content, beforeYfm, beforeHeading))
  }

  /** The file cannot start with both a front-matter marker and a heading. */
  lemma NotBothBranches(source: string, beforeYfm: bool, beforeHeading: bool)
    ensures !(AfterYfm(source, beforeYfm) && AfterHeading(source, beforeHeading))
  {
    if AfterYfm(source, beforeYfm) {
      assert source[0] == YfmOpen[0];
    }
  }

  /**
   * At most one line break is added: the result is the source plus the
   * content, plus one character exactly when the file starts with front
   * matter or a heading that the content goes after.
   */
  lemma PrependLength(source: string, content: string, beforeYfm: bool, beforeHeading: bool)
    ensures |PrependText(source, content, beforeYfm, beforeHeading)|
      == |source| + |content| + (if AfterYfm(source, beforeYfm) || AfterHeading(source, beforeHeading) then 1 else 0)
  {
    NotBothBranches(source, beforeYfm, beforeHeading);
  }

  /** With both flags set, the content simply goes in front. */
  lemma PrependBeforeAll(source: string, content: string)
    ensures PrependText(source, content, true, true) == content + source
  {
    assert source[..0] == [] && source[0..] == source;
  }

  /**
   * The result is the source with one segment inserted at a position
   * inside it, and cutting that segment out gives back the source.
   */
  lemma PrependIsSplice(source: string, content: string, beforeYfm: bool, beforeHeading: bool)
    ensures var p := Place(source, content, beforeYfm, beforeHeading);
            var r := PrependText(source, content, beforeYfm, beforeHeading);
            && r[..p.start] == source[..p.start]
            && r[p.start..p.start + |p.text|] == p.text
            && r[p.start + |p.text|..] == source[p.start..]
            && r[..p.start] + r[p.start + |p.text|..] == source
  {
    var p := Place(source, content, beforeYfm, beforeHeading);
    var r := PrependText(source, content, beforeYfm, beforeHeading);
    assert r == source[..p.start] + p.text + source[p.start..];
    assert source[..p.start] + source[p.start..] == source;
  }

  /**
   * A closed front-matter block: the content goes right after the first
   * closing marker found from index 1, preceded by a line break.
   */
  lemma PrependAfterClosedYfm(source: string, content: string, beforeYfm: bool, beforeHeading: bool)
    requires AfterYfm(source, beforeYfm)
    requires FindFrom(source, YfmClose, 1) != -1
    ensures var p := Place(source, content, beforeYfm, beforeHeading);
            var e := p.start - |YfmClose|;
            && 1 <= e
            && OccursAt(source, YfmClose, e)
            && (forall k :: 1 <= k < e ==> !OccursAt(source, YfmClose, k))
            && p.text == "\n" + content
  {
    NotBothBranches(source, beforeYfm, beforeHeading);
  }

  /** An unclosed front-matter block: the content goes at 0 but still gets the line break. */
  lemma PrependUnclosedYfm(source: string, content: string, beforeYfm: bool, beforeHeading: bool)
    requires AfterYfm(source, beforeYfm)
    requires FindFrom(source, YfmClose, 1) == -1
    ensures PrependText(source, content, beforeYfm, beforeHeading) == "\n" + content + source
  {
    NotBothBranches(source, beforeYfm, beforeHeading);
    assert source[..0] == [] && source[0..] == source;
  }

  /**
   * A first-line heading: the content goes right after the first line
   * break found from index 1, or at the end when there is none, preceded
   * by a line break.
   */
  lemma PrependAfterHeading(source: string, content: string, beforeYfm: bool, beforeHeading: bool)
    requires AfterHeading(source, beforeHeading)
    ensures var p := Place(source, content, beforeYfm, beforeHeading);
            && p.text == "\n" + content
            && ((p.start == |source| && forall k :: 1 <= k < |source| ==> source[k] != '\n')
                || (2 <= p.start <= |source| && source[p.start - 1] == '\n'
                    && forall k :: 1 <= k < p.start - 1 ==> source[k] != '\n'))
  {
    NotBothBranches(source, beforeYfm, beforeHeading);
    var nl := FindFrom(source, "\n", 1);
    if nl == -1 {
      forall k | 1 <= k < |source|
        ensures source[k] != '\n'
      {
        assert !OccursAt(source, "\n", k);
        assert source[k..k + 1] == [source[k]];
      }
    } else {
      assert OccursAt(source, "\n", nl);
      assert source[nl..nl + 1] == [source[nl]];
      forall k | 1 <= k < nl
        ensures source[k] != '\n'
      {
        assert !OccursAt(source, "\n", k);
        assert source[k..k + 1] == [source[k]];
      }
    }
  }

  /** A file with neither front matter nor a heading to skip gets the content in front. */
  lemma PrependPlain(source: string, content: string, beforeYfm: bool, beforeHeading: bool)
    requires !AfterYfm(source, beforeYfm) && !AfterHeading(source, beforeHeading)
    ensures PrependText(source, content, beforeYfm, beforeHeading) == content + source
  {
    assert source[..0] == [] && source[0..] == source;
  }

  /** A file with front matter. */
  const YfmExample: string := "---\na: 1\n---\nText"

  /** The closing marker of the front-matter example is first found at index 8. */
  lemma YfmExampleClose()
    ensures OccursAt(YfmExample, YfmClose, 8)
    ensures forall k :: 1 <= k < 8 ==> !OccursAt(YfmExample, YfmClose, k)
  {
    var s := YfmExample;
    assert s[8..13] == YfmClose;
    forall k | 1 <= k < 8
      ensures !OccursAt(s, YfmClose, k)
    {
      assert s[k..k + 5][0] != '\n' || s[k..k + 5][1] != '-';
    }
  }

  /** A closed front-matter block: the content goes on its own line after it. */
  lemma PrependYfmExample()
    ensures PrependText(YfmExample, "X", false, true) == "---\na: 1\n---\n\nXText"
  {
    var s := YfmExample;
    YfmExampleClose();
    PrependAfterClosedYfm(s, "X", false, true);
    var p := Place(s, "X", false, true);
    assert p.start == 13;
    PrependIsSplice(s, "X", false, true);
    assert s[..13] == "---\na: 1\n---\n" && s[13..] == "Text";
  }

  /** A heading line: the content goes on its own line after it. */
  lemma PrependHeadingExample()
    ensures PrependText("# Title\nBody", "X", false, false) == "# Title\n\nXBody"
  {
    var s := "# Title\nBody";
    PrependAfterHeading(s, "X", false, false);
    var p := Place(s, "X", false, false);
    assert s[7] == '\n';
    assert p.start == 8 by {
      assert forall k :: 1 <= k < 7 ==> s[k] != '\n';
      assert forall k :: 8 <= k < |s| ==> s[k] != '\n';
    }
    PrependIsSplice(s, "X", false, false);
    assert s[..8] == "# Title\n" && s[8..] == "Body";
  }

  /** A heading with no line break: the content goes at the end. */
  lemma PrependHeadingOnlyExample()
    ensures PrependText("# Title", "X", true, false) == "# Title\nX"
  {
    var s := "# Title";
    PrependAfterHeading(s, "X", true, false);
    var p := Place(s, "X", true, false);
    assert p.start == 7 by {
      assert forall k :: 0 <= k < |s| ==> s[k] != '\n';
    }
    PrependIsSplice(s, "X", true, false);
    assert s[..7] == s && s[7..] == [];
  }
}
