/** The `content_preview` column of the comment admin list. */
module CommentAdmin {

  const PreviewLength := 30
  const Ellipsis := "..."

  /** The first 30 characters followed by `...` when the content is longer than 30, else the content itself. */
  function ContentPreview(content: string): (preview: string)
    ensures |content| <= PreviewLength ==> preview == content
    ensures |content| > PreviewLength ==> preview == content[..PreviewLength] + Ellipsis
  {
    if |content| > PreviewLength then content[..PreviewLength] + Ellipsis else content
  }

  /** `content[:30]`: Python slicing clamps to the length. */
  function PythonHead(s: string, n: nat): (r: string)
    ensures |r| == if |s| < n then |s| else n
    ensures r == s[..|r|]
  {
    if |s| < n then s else s[..n]
  }

  /**
   * A preview is at most 33 characters, at most three longer than the
   * content, exactly 33 when the content was cut, and starts with
   * `content[:30]`.
   */
  lemma PreviewShape(content: string)
    ensures |ContentPreview(content)| <= PreviewLength + |Ellipsis|
    ensures |ContentPreview(content)| <= |content| + |Ellipsis|
    ensures |content| > PreviewLength ==> |ContentPreview(content)| == PreviewLength + |Ellipsis|
    ensures ContentPreview(content)[..|PythonHead(content, PreviewLength)|] == PythonHead(content, PreviewLength)
  {
    var p := ContentPreview(content);
    if |content| > PreviewLength {
      assert p[..PreviewLength] == content[..PreviewLength];
    }
  }

  /** Previewing a preview returns it unchanged. */
  lemma PreviewIdempotent(content: string)
    ensures ContentPreview(ContentPreview(content)) == ContentPreview(content)
  {
    if |content| > PreviewLength {
      var p := ContentPreview(content);
      assert |p| == PreviewLength + |Ellipsis|;
      assert p[..PreviewLength] == content[..PreviewLength];
    }
  }
}
