/** The records the storefront passes around. Optional properties
    (`field?: T`) are `Option`s; `number` fields are integers. */
module Types {
  import opened Wrappers

  /** One photo of an event. `originalName` and `eventName` are not declared
      on the `Photo` interface, but the checkout message reads them from the
      stored documents, so they are carried here as optional fields. */
  datatype Photo = Photo(
    id: string,
    displayId: Option<string>,
    url: string,
    caption: Option<string>,
    tags: Option<seq<string>>,
    createdAt: int,
    originalName: Option<string>,
    eventName: Option<string>)

  datatype Status = Upcoming | Live | Completed

  datatype PickleballEvent = PickleballEvent(
    id: string,
    title: string,
    date: string,
    location: string,
    description: string,
    coverImage: string,
    organizer: Option<string>,
    category: Option<string>,
    status: Option<Status>,
    tags: Option<seq<string>>,
    photos: seq<Photo>,
    totalPhotos: Option<int>,
    createdAt: int)

  /** A file picked in the browser; only its name is visible to the code. */
  datatype FileRef = FileRef(name: string)

  /** A photo staged for upload, with the caption and the raw tag text typed
      for it. */
  datatype PhotoUploadDraft = PhotoUploadDraft(file: FileRef, preview: string, caption: string, tags: string)
}
