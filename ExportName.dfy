/** The download file name of the article page's two exports: the topic put
    through `topic.replace(/[^a-z0-9]/gi, '-').toLowerCase()` with `.html` or
    `.md` appended. The regular expression has no `u` flag, so it works on
    UTF-16 code units; under the `i` flag its class still accepts exactly
    the ASCII letters and digits, because case-insensitive matching never
    maps a non-ASCII code unit onto an ASCII one. */
module ExportName {
  import opened JsString

  /** The replacement text `-`. */
  const Dash: CodeUnit := 0x2D

  /** `s.replace(/[^a-z0-9]/gi, '-')`: each code unit outside the class is
      replaced by one dash, with no collapsing of runs and no trimming. */
  function ReplaceNonAlnum(s: Str): (r: Str)
  {
    seq(|s|, i requires 0 <= i < |s| => if IsAsciiAlnum(s[i]) then s[i] else Dash)
  }

  /** The slug of a topic: the replacement followed by `toLowerCase()`. After
      the replacement only ASCII letters, digits and dashes are left, so ASCII
      lowering is all that `toLowerCase()` does to it. */
  function Slug(topic: Str): (r: Str)
  {
    LowerAscii(ReplaceNonAlnum(topic))
  }

  /** The code units a slug is made of. */
  predicate IsSlugUnit(c: CodeUnit)
  {
    IsAsciiLower(c) || IsAsciiDigit(c) || c == Dash
  }

  /** Position by position: an ASCII letter or digit of the topic is kept
      (letters lowered), anything else becomes one dash. */
  lemma SlugAt(topic: Str, i: nat)
    requires i < |topic|
    ensures |Slug(topic)| == |topic|
    ensures Slug(topic)[i] == if IsAsciiAlnum(topic[i]) then ToLowerAscii(topic[i]) else Dash
  {
  }

  /** Every code unit of a slug is a lower-case ASCII letter, an ASCII digit
      or a dash, and the slug is exactly as long as the topic. */
  lemma SlugCharset(topic: Str)
    ensures |Slug(topic)| == |topic|
    ensures forall i :: 0 <= i < |topic| ==> IsSlugUnit(Slug(topic)[i])
  {
    forall i | 0 <= i < |topic| ensures IsSlugUnit(Slug(topic)[i]) {
      SlugAt(topic, i);
    }
  }

  /** Slugging a slug gives it back unchanged. */
  lemma SlugIdempotent(topic: Str)
    ensures Slug(Slug(topic)) == Slug(topic)
  {
    var s := Slug(topic);
    SlugCharset(topic);
    forall i | 0 <= i < |s| ensures Slug(s)[i] == s[i] {
      SlugAt(s, i);
    }
  }

  /** A slug is a fixed point, and only a string made of slug code units is:
      the slug of a topic equals the topic exactly when every code unit of the
      topic is already a slug code unit. */
  lemma SlugFixedPoints(topic: Str)
    ensures Slug(topic) == topic <==> forall i :: 0 <= i < |topic| ==> IsSlugUnit(topic[i])
  {
    SlugCharset(topic);
    if forall i :: 0 <= i < |topic| ==> IsSlugUnit(topic[i]) {
      forall i | 0 <= i < |topic| ensures Slug(topic)[i] == topic[i] {
        SlugAt(topic, i);
      }
    }
  }

  /** "AI & the Future!" becomes "ai---the-future-": space, ampersand, space
      give three dashes and the trailing "!" is kept as a dash. */
  lemma SlugExample()
    ensures Slug(Units("AI & the Future!")) == Units("ai---the-future-")
  {
  }

  /** File name of the HTML export. */
  function HtmlFileName(topic: Str): (r: Str)
  {
    Slug(topic) + Units(".html")
  }

  /** File name of the Markdown export. */
  function MarkdownFileName(topic: Str): (r: Str)
  {
    Slug(topic) + Units(".md")
  }

  /** Both exports are named from the same slug and differ only in the
      extension; the slug part is exactly as long as the topic. */
  lemma FileNamesShareSlug(topic: Str)
    ensures HtmlFileName(topic)[..|topic|] == MarkdownFileName(topic)[..|topic|] == Slug(topic)
    ensures HtmlFileName(topic)[|topic|..] == Units(".html")
    ensures MarkdownFileName(topic)[|topic|..] == Units(".md")
  {
    SlugCharset(topic);
  }
}
