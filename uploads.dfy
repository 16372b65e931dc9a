/**
 * The browser `File` objects the add screens receive, and the pre-upload
 * checks both add screens run on a selected image before accepting it.
 */
module Uploads {
  import opened Json

  /** A selected file: its name, its declared MIME type and its size in bytes. */
  datatype FileInfo = FileInfo(name: string, mimeType: string, size: nat)

  const AllowedImageTypes: seq<string> := ["image/jpeg", "image/png", "image/jpg"]
  const MaxImageBytes: nat := 2 * 1024 * 1024
  const InvalidTypeMessage := "Please upload a valid image file (JPG or PNG)"
  const TooLargeMessage := "Image size should be less than 2MB"

  /**
   * The message a selected image is rejected with, or `None` when it is
   * accepted. The type allow-list is consulted first, the size ceiling only
   * for an allowed type.
   */
  function ImageError(f: FileInfo): (e: Option<string>)
    ensures f.mimeType !in AllowedImageTypes ==> e == Some(InvalidTypeMessage)
    ensures f.mimeType in AllowedImageTypes && f.size > MaxImageBytes ==> e == Some(TooLargeMessage)
    ensures e == None <==> f.mimeType in AllowedImageTypes && f.size <= MaxImageBytes
  {
    if f.mimeType !in AllowedImageTypes then Some(InvalidTypeMessage)
    else if f.size > MaxImageBytes then Some(TooLargeMessage)
    else None
  }

  /** The ceiling is inclusive: 2 MiB exactly passes, one byte more does not. */
  lemma SizeCeiling(name: string, mimeType: string)
    requires mimeType in AllowedImageTypes
    ensures ImageError(FileInfo(name, mimeType, 2097152)) == None
    ensures ImageError(FileInfo(name, mimeType, 2097153)) == Some(TooLargeMessage)
  {
  }

  /** `new File([file], newName, { type: file.type })`: same bytes and type, new name. */
  function Renamed(f: FileInfo, newName: string): FileInfo {
    FileInfo(newName, f.mimeType, f.size)
  }
}
