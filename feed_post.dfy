/** The texts a feed post derives from its book: avatar, likes line, caption preview and comments link. */
module FeedPost {
  import opened JsCore
  import opened Types

  /** `book.authorAvatar`, or an avatar generated from the author's name. */
  function AvatarSrc(book: Book): (src: string)
    ensures book.authorAvatar.Some? && book.authorAvatar.value != "" ==> src == book.authorAvatar.value
    ensures book.authorAvatar.None? || book.authorAvatar.value == "" ==>
      src == "https://ui-avatars.com/api/?name=" + book.author + "&background=random"
  {
    OrElse(book.authorAvatar, "https://ui-avatars.com/api/?name=" + book.author + "&background=random")
  }

  const LikesSuffix: string := " curtidas"
  const NoLikesText: string := "Seja o primeiro a curtir"

  /** The likes line: the count when it is defined and not zero, an invitation otherwise. */
  function LikesLabel(likesCount: Option<int>): (line: string)
  {
    if likesCount.Some? && likesCount.value != 0 then IntToString(likesCount.value) + LikesSuffix
    else NoLikesText
  }

  /** The likes line shows the count itself, readable back from the text, exactly when the count is truthy. */
  lemma LikesLabelSpec(likesCount: Option<int>)
    ensures likesCount.None? || likesCount.value == 0 ==> LikesLabel(likesCount) == NoLikesText
    ensures likesCount.Some? && likesCount.value != 0 ==>
      var line := LikesLabel(likesCount);
      |line| > |LikesSuffix| && line[|line| - |LikesSuffix|..] == LikesSuffix &&
      ParseInt(line[..|line| - |LikesSuffix|]) == likesCount.value
  {
    if likesCount.Some? && likesCount.value != 0 {
      var line := LikesLabel(likesCount);
      assert line[..|line| - |LikesSuffix|] == IntToString(likesCount.value);
      IntToStringRoundTrip(likesCount.value);
    }
  }

  /** `s.replace(/[\n\r]/g, ' ')`. */
  function ReplaceLineBreaks(s: string): (r: string)
    ensures |r| == |s|
    ensures forall i :: 0 <= i < |s| ==> r[i] == if s[i] == '\n' || s[i] == '\r' then ' ' else s[i]
    decreases |s|
  {
    if s == [] then []
    else [if s[0] == '\n' || s[0] == '\r' then ' ' else s[0]] + ReplaceLineBreaks(s[1..])
  }

  const PreviewLength: nat := 100
  const NoContentText: string := "..."

  /** The caption: the first 100 characters of the content on one line, or "..." without content. */
  function CaptionPreview(content: Option<string>): (preview: string)
  {
    if content.Some? && Truthy(content.value) then ReplaceLineBreaks(Prefix(content.value, PreviewLength))
    else NoContentText
  }

  /**
   * The caption is at most 100 characters and holds no line break; it has
   * the length of the content's first 100 characters and agrees with them
   * everywhere but at line breaks, which read as spaces.
   */
  lemma CaptionPreviewSpec(content: Option<string>)
    ensures |CaptionPreview(content)| <= PreviewLength
    ensures forall i :: 0 <= i < |CaptionPreview(content)| ==>
      CaptionPreview(content)[i] != '\n' && CaptionPreview(content)[i] != '\r'
    ensures content.None? || content.value == "" ==> CaptionPreview(content) == NoContentText
    ensures content.Some? && content.value != "" ==>
      var head := Prefix(content.value, PreviewLength);
      var preview := CaptionPreview(content);
      |preview| == |head| &&
      forall i :: 0 <= i < |head| ==>
        (head[i] != '\n' && head[i] != '\r' ==> preview[i] == head[i]) &&
        (head[i] == '\n' || head[i] == '\r' ==> preview[i] == ' ')
  {
  }

  /** `book.commentsCount || 0`. */
  function CommentsShown(commentsCount: Option<int>): (n: int)
    ensures commentsCount.None? ==> n == 0
    ensures commentsCount.Some? ==> n == commentsCount.value
  {
    if commentsCount.Some? && commentsCount.value != 0 then commentsCount.value else 0
  }

  const CommentsPrefix: string := "Ver todos os "
  const CommentsSuffix: string := " comentários"

  function CommentsLabel(commentsCount: Option<int>): (line: string)
  {
    CommentsPrefix + IntToString(CommentsShown(commentsCount)) + CommentsSuffix
  }

  /** The comments link names the count, 0 when it is missing. */
  lemma CommentsLabelSpec(commentsCount: Option<int>)
    ensures var line := CommentsLabel(commentsCount);
      |line| > |CommentsPrefix| + |CommentsSuffix| &&
      line[..|CommentsPrefix|] == CommentsPrefix &&
      line[|line| - |CommentsSuffix|..] == CommentsSuffix &&
      ParseInt(line[|CommentsPrefix|..|line| - |CommentsSuffix|]) ==
        if commentsCount.Some? then commentsCount.value else 0
  {
    var line := CommentsLabel(commentsCount);
    var digits := IntToString(CommentsShown(commentsCount));
    assert line[|CommentsPrefix|..|line| - |CommentsSuffix|] == digits;
    IntToStringRoundTrip(CommentsShown(commentsCount));
  }
}
