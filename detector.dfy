/**
 * The syntactic detector of SaferHTMLTag: `contentHasHTMLTags`, a PHP
 * truthiness test followed by `strpos` for the literal `<html>` tag.
 */
module Detector {
  import opened Wrappers

  /** The only construct the detector looks for, matched case-sensitively. */
  const HtmlTag: string := "<html>"

  /** PHP truthiness of a string: the empty string and "0" are falsy. */
  predicate Truthy(s: string) {
    s != "" && s != "0"
  }

  /** `needle` occurs in `haystack` starting at index `i`. */
  predicate OccursAt(haystack: string, needle: string, i: nat) {
    i + |needle| <= |haystack| && haystack[i..i + |needle|] == needle
  }

  /** `needle` is a substring of `haystack`. */
  ghost predicate Contains(haystack: string, needle: string) {
    exists i: nat :: OccursAt(haystack, needle, i)
  }

  /**
   * PHP's `strpos($haystack, $needle, $offset)`: the first character index at
   * or after `offset` where `needle` occurs, or `None` (PHP's `false`).
   */
  function StrPos(haystack: string, needle: string, offset: nat): (r: Option<nat>)
    requires offset <= |haystack|
    ensures r.Some? ==> offset <= r.value && OccursAt(haystack, needle, r.value)
    ensures r.Some? ==> forall i: nat :: offset <= i < r.value ==> !OccursAt(haystack, needle, i)
    ensures r.None? ==> forall i: nat :: offset <= i ==> !OccursAt(haystack, needle, i)
    decreases |haystack| - offset
  {
    if offset + |needle| > |haystack| then None
    else if haystack[offset..offset + |needle|] == needle then Some(offset)
    else StrPos(haystack, needle, offset + 1)
  }

  /**
   * `contentHasHTMLTags($content)`: `$content && strpos($content, '<html>') !== false`.
   * `None` is PHP's `null`.
   */
  function ContentHasHtmlTags(content: Option<string>): (r: bool)
    ensures r <==> content.Some? && Contains(content.value, HtmlTag)
    ensures content == None || content == Some("") ==> !r
  {
    content.Some? && Truthy(content.value) && StrPos(content.value, HtmlTag, 0).Some?
  }

  /** The match is case-sensitive: an upper-case tag is not detected. */
  lemma UpperCaseTagNotDetected()
    ensures !ContentHasHtmlTags(Some("<HTML>"))
    ensures ContentHasHtmlTags(Some("<html>"))
  {
    assert "<HTML>"[0..6][1] != HtmlTag[1];
    assert OccursAt("<html>", HtmlTag, 0);
  }

  /** Detection survives any text written before or after the content. */
  lemma {:induction false} DetectionSurvivesSurroundingText(prefix: string, s: string, suffix: string)
    requires ContentHasHtmlTags(Some(s))
    ensures ContentHasHtmlTags(Some(prefix + s + suffix))
  {
    var i: nat :| OccursAt(s, HtmlTag, i);
    var t := prefix + s + suffix;
    assert t[|prefix| + i..|prefix| + i + |HtmlTag|] == s[i..i + |HtmlTag|];
    assert OccursAt(t, HtmlTag, |prefix| + i);
  }
}
