/**
  The records of internal/models/types.go. They are plain values: the
  ingest handler builds them, the videos table stores some of their fields
  and the lookups rebuild them from the stored columns.
 */
module Models {

  /** One thumbnail image: its address and its size in pixels. */
  datatype Thumbnail = Thumbnail(url: string, width: int, height: int)

  /** The two thumbnail sizes the system keeps. */
  datatype Thumbnails = Thumbnails(default: Thumbnail, medium: Thumbnail)

  /** The upstream identification of a video. */
  datatype ResourceId = ResourceId(kind: string, videoId: string)

  /** A video's metadata; `id` is the row id once the video is stored, 0 before. */
  datatype Snippet = Snippet(
    id: int,
    publishedAt: string,
    title: string,
    description: string,
    thumbnails: Thumbnails,
    resourceId: ResourceId,
    videoOwnerChannelTitle: string)

  /** One entry of a decoded playlist response. */
  datatype Item = Item(snippet: Snippet)

  /** The zero value of a thumbnail, as a field that was never filled holds it. */
  const EmptyThumbnail := Thumbnail("", 0, 0)
}
