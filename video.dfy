/**
 * The intake check of the video editor, `handleVideoFile`: a dropped or
 * chosen file is taken only when its MIME type is a video type and it is at
 * most 100 MB large; the type is looked at first.
 */
module Video {
  import opened Strings
  import opened Notifications

  /** The largest accepted size in bytes: `100 * 1024 * 1024`. */
  const MaxVideoBytes: nat := 100 * 1024 * 1024

  /** The MIME type prefix of video files. */
  const VideoPrefix: string := "video/"

  /** What `handleVideoFile` reads of a `File`: its name, its MIME type and
      its size in bytes. */
  datatype VideoFile = VideoFile(name: string, mimeType: string, size: nat)

  /** The outcome of the intake check. */
  datatype Verdict = NotAVideo | TooLarge | Accepted

  /** The two tests of `handleVideoFile`, in their order. */
  function CheckVideo(file: VideoFile): (v: Verdict)
    ensures v == Accepted <==> StartsWith(file.mimeType, VideoPrefix) && file.size <= MaxVideoBytes
    ensures v == NotAVideo <==> !StartsWith(file.mimeType, VideoPrefix)
    ensures v == TooLarge <==> StartsWith(file.mimeType, VideoPrefix) && file.size > MaxVideoBytes
  {
    if !StartsWith(file.mimeType, VideoPrefix) then NotAVideo
    else if file.size > MaxVideoBytes then TooLarge
    else Accepted
  }

  /** The banner each outcome shows. */
  function VerdictNotice(v: Verdict): (n: Notification)
    ensures n.kind == (if v == Accepted then "success" else "error")
  {
    match v
    case NotAVideo => Notification("Please select a video file (MP4, AVI, MOV, WMV)", "error")
    case TooLarge => Notification("File size too large. Please select a video under 100MB.", "error")
    case Accepted => Notification("Video uploaded successfully! You can now use AI tools to edit your video.", "success")
  }

  /** `handleVideoFile(file)` as far as its outcome goes: the banner it
      shows. */
  function HandleVideoFile(file: VideoFile): (n: Notification)
    ensures n.kind == "success" <==> CheckVideo(file) == Accepted
  {
    VerdictNotice(CheckVideo(file))
  }

  /** A file that is not a video is refused for its type, however large it
      is: the size is never looked at. */
  lemma TypeCheckedFirst(file: VideoFile, size: nat)
    requires !StartsWith(file.mimeType, VideoPrefix)
    ensures HandleVideoFile(file) ==
      Notification("Please select a video file (MP4, AVI, MOV, WMV)", "error")
    ensures HandleVideoFile(file.(size := size)) == HandleVideoFile(file)
  {
  }

  /** The limit is inclusive: a video of exactly 104857600 bytes is taken,
      one byte more is refused. */
  lemma SizeLimitInclusive(name: string, mimeType: string)
    requires StartsWith(mimeType, VideoPrefix)
    ensures CheckVideo(VideoFile(name, mimeType, 104_857_600)) == Accepted
    ensures CheckVideo(VideoFile(name, mimeType, 104_857_601)) == TooLarge
  {
  }

  /** The check is about the type's prefix only: "video/mp4" is taken, and
      so is the bare "video/"; "Video/mp4" and "application/mp4" are not
      (the comparison is case-sensitive). */
  lemma PrefixExamples(size: nat)
    requires size <= MaxVideoBytes
    ensures CheckVideo(VideoFile("clip", "video/mp4", size)) == Accepted
    ensures CheckVideo(VideoFile("clip", "video/", size)) == Accepted
    ensures CheckVideo(VideoFile("clip", "Video/mp4", size)) == NotAVideo
    ensures CheckVideo(VideoFile("clip", "application/mp4", size)) == NotAVideo
  {
    assert "video/mp4"[..6] == VideoPrefix;
    assert "Video/mp4"[0] != VideoPrefix[0];
  }
}
