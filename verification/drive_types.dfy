/** Records of a Google Drive listing, the tree nodes built from them, and the
    classification of Drive mime strings (gdrive.py). */
module DriveTypes {

  /** The conventional optional value. */
  datatype Option<+T> = None | Some(value: T)

  /** A value or an error. */
  datatype Result<+T, +E> = Ok(value: T) | Err(error: E)

  /** The three kinds a Drive file is sorted into. */
  datatype MimeType = Folder | Document | OtherFile

  /** One entry of the flat Drive listing: its id, display name, raw mime
      string and the ids of its parents, in the order the API reports them. */
  datatype ApiFile = ApiFile(id: string, name: string, mimeType: string, parents: seq<string>)

  /** A node of the assembled tree. `path` is the slash-joined names of the
      node's ancestors below the root's own path; `children` keeps listing order. */
  datatype DriveFile = DriveFile(id: string, name: string, mime: MimeType, path: string, children: seq<DriveFile>)

  const FolderMime: string := "application/vnd.google-apps.folder"
  const DocumentMime: string := "application/vnd.google-apps.document"

  /** Classifies a raw mime string: the Drive folder and Google Docs types are
      recognised exactly, every other string is `OtherFile`. */
  function ParseMimeType(mimeType: string): (kind: MimeType)
    ensures kind == Folder <==> mimeType == FolderMime
    ensures kind == Document <==> mimeType == DocumentMime
    ensures kind == OtherFile <==> mimeType != FolderMime && mimeType != DocumentMime
  {
    if mimeType == FolderMime then Folder
    else if mimeType == DocumentMime then Document
    else OtherFile
  }

  /** The raw mime string that the listing reports for a recognised kind. */
  function MimeString(kind: MimeType): (s: string)
    requires kind != OtherFile
    ensures s == FolderMime || s == DocumentMime
  {
    if kind == Folder then FolderMime else DocumentMime
  }

  /** Classification inverts `MimeString` on the recognised kinds. */
  lemma ParseMimeStringRoundTrip(kind: MimeType)
    requires kind != OtherFile
    ensures ParseMimeType(MimeString(kind)) == kind
  {
  }

  /** Every recognised kind comes from exactly one mime string. */
  lemma ParseMimeTypeRecognisedIsMimeString(mimeType: string)
    requires ParseMimeType(mimeType) != OtherFile
    ensures MimeString(ParseMimeType(mimeType)) == mimeType
  {
  }
}
