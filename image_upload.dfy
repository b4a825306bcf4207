// The upload widget on the image-AI page: the client-side type and size
// check, and the state its selection, removal and drag handlers keep.
module ImageUpload {
  import opened Common
  import TransformImageRoute

  const DefaultMaxSizeMB: nat := 10
  const DefaultAcceptedTypes: seq<string> := ["image/jpeg", "image/png", "image/webp"]

  const BytesPerMB: nat := 1024 * 1024

  /** Why `validateFile` refused a file: the type, or the size above `maxSizeMB` megabytes. */
  datatype UploadError = InvalidType | TooLarge(maxSizeMB: nat)

  /**
   * `validateFile`: the type first, then the size; a file of exactly
   * `maxSizeMB` megabytes is accepted.
   */
  function ValidateFile(acceptedTypes: seq<string>, maxSizeMB: nat, file: UploadFile): (r: Option<UploadError>)
    ensures file.mimeType !in acceptedTypes ==> r == Some(InvalidType)
    ensures r == Some(TooLarge(maxSizeMB)) <==> file.mimeType in acceptedTypes && file.size > maxSizeMB * BytesPerMB
    ensures r.None? <==> file.mimeType in acceptedTypes && file.size <= maxSizeMB * BytesPerMB
  {
    if file.mimeType !in acceptedTypes then Some(InvalidType)
    else if file.size > maxSizeMB * BytesPerMB then Some(TooLarge(maxSizeMB))
    else None
  }

  /**
   * With its default limits the widget refuses a file for its type exactly
   * when the route would, and for its size exactly when the route would; a
   * file the widget lets through meets both of the route's declared-property
   * checks, leaving only the header bytes to the route.
   */
  lemma DefaultsMatchRoute(file: UploadFile)
    ensures ValidateFile(DefaultAcceptedTypes, DefaultMaxSizeMB, file) == Some(InvalidType)
            <==> TransformImageRoute.ValidateImage(file) == TransformImageRoute.Rejected(TransformImageRoute.UnsupportedType)
    ensures ValidateFile(DefaultAcceptedTypes, DefaultMaxSizeMB, file) == Some(TooLarge(DefaultMaxSizeMB))
            <==> TransformImageRoute.ValidateImage(file) == TransformImageRoute.Rejected(TransformImageRoute.TooLarge)
    ensures ValidateFile(DefaultAcceptedTypes, DefaultMaxSizeMB, file).None?
            <==> file.mimeType in TransformImageRoute.AllowedTypes && file.size <= TransformImageRoute.MaxFileSize
  {
  }

  /**
   * The widget's state, with the parent's `onFileSelect` and `onFileRemove`
   * recorded as the files passed to the one and the number of calls to the
   * other, and the preview URLs handed back to the browser.
   */
  class Uploader {
    const acceptedTypes: seq<string>
    const maxSizeMB: nat
    var isDragOver: bool
    var previewUrl: Option<string>
    var error: Option<UploadError>
    var selected: seq<UploadFile>
    var removeCalls: nat
    var revoked: seq<string>

    constructor (acceptedTypes: seq<string>, maxSizeMB: nat)
      ensures this.acceptedTypes == acceptedTypes && this.maxSizeMB == maxSizeMB
      ensures !isDragOver && previewUrl == None && error == None
      ensures selected == [] && removeCalls == 0 && revoked == []
    {
      this.acceptedTypes := acceptedTypes;
      this.maxSizeMB := maxSizeMB;
      isDragOver := false;
      previewUrl := None;
      error := None;
      selected := [];
      removeCalls := 0;
      revoked := [];
    }

    /**
     * `handleFileSelection`: a refused file sets the error and reaches no
     * one; an accepted one clears the error, is passed to `onFileSelect`
     * exactly once and gets the object URL `url` as its preview.
     */
    method HandleFileSelection(file: UploadFile, url: string)
      modifies this
      ensures var verdict := ValidateFile(acceptedTypes, maxSizeMB, file);
              && (verdict.Some? ==> error == verdict && selected == old(selected) && previewUrl == old(previewUrl))
              && (verdict.None? ==> error == None && selected == old(selected) + [file] && previewUrl == Some(url))
      ensures isDragOver == old(isDragOver) && removeCalls == old(removeCalls) && revoked == old(revoked)
    {
      var verdict := ValidateFile(acceptedTypes, maxSizeMB, file);
      if verdict.Some? {
        error := verdict;
        return;
      }
      error := None;
      selected := selected + [file];
      previewUrl := Some(url);
    }

    /** `handleFileInput`: the first chosen file, if any, goes through the selection. */
    method HandleFileInput(file: Option<UploadFile>, url: string)
      modifies this
      ensures file.None? ==> error == old(error) && selected == old(selected) && previewUrl == old(previewUrl)
      ensures file.Some? ==>
                var verdict := ValidateFile(acceptedTypes, maxSizeMB, file.value);
                && (verdict.Some? ==> error == verdict && selected == old(selected) && previewUrl == old(previewUrl))
                && (verdict.None? ==> error == None && selected == old(selected) + [file.value] && previewUrl == Some(url))
      ensures isDragOver == old(isDragOver) && removeCalls == old(removeCalls) && revoked == old(revoked)
    {
      if file.Some? {
        HandleFileSelection(file.value, url);
      }
    }

    /** `handleDrop`: the drag highlight goes off, then the first dropped file is selected. */
    method HandleDrop(file: Option<UploadFile>, url: string)
      modifies this
      ensures !isDragOver
      ensures file.None? ==> error == old(error) && selected == old(selected) && previewUrl == old(previewUrl)
      ensures file.Some? ==>
                var verdict := ValidateFile(acceptedTypes, maxSizeMB, file.value);
                && (verdict.Some? ==> error == verdict && selected == old(selected) && previewUrl == old(previewUrl))
                && (verdict.None? ==> error == None && selected == old(selected) + [file.value] && previewUrl == Some(url))
      ensures removeCalls == old(removeCalls) && revoked == old(revoked)
    {
      isDragOver := false;
      if file.Some? {
        HandleFileSelection(file.value, url);
      }
    }

    /** `handleDragOver` turns the highlight on. */
    method HandleDragOver()
      modifies this
      ensures isDragOver
      ensures previewUrl == old(previewUrl) && error == old(error) && selected == old(selected)
      ensures removeCalls == old(removeCalls) && revoked == old(revoked)
    {
      isDragOver := true;
    }

    /** `handleDragLeave` turns the highlight off. */
    method HandleDragLeave()
      modifies this
      ensures !isDragOver
      ensures previewUrl == old(previewUrl) && error == old(error) && selected == old(selected)
      ensures removeCalls == old(removeCalls) && revoked == old(revoked)
    {
      isDragOver := false;
    }

    /**
     * `handleRemoveFile`: a (non-empty) preview URL is revoked and dropped,
     * the error is cleared and `onFileRemove` is called once.
     */
    method HandleRemoveFile()
      modifies this
      ensures old(previewUrl).Some? && old(previewUrl).value != [] ==>
                previewUrl == None && revoked == old(revoked) + [old(previewUrl).value]
      ensures !(old(previewUrl).Some? && old(previewUrl).value != []) ==>
                previewUrl == old(previewUrl) && revoked == old(revoked)
      ensures error == None && removeCalls == old(removeCalls) + 1
      ensures isDragOver == old(isDragOver) && selected == old(selected)
    {
      if previewUrl.Some? && previewUrl.value != [] {
        revoked := revoked + [previewUrl.value];
        previewUrl := None;
      }
      error := None;
      removeCalls := removeCalls + 1;
    }
  }
}
