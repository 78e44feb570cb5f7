/**
 * The second upload store of the repository (the service under `src/`): it
 * writes files exactly as the backend one does, but returns the path
 * `<type>/<uuid><extension>` relative to the upload directory and deletes
 * that relative path as given.
 */
module LegacyFileStorage {
  import opened Wrappers
  import FileStorage
  import JavaPaths

  /** The path `saveFile` returns: `type/filename`, with no leading slash. */
  function SavedPath(fileType: string, filename: string): (r: string)
    ensures |r| > 0 && (fileType != [] && fileType[0] != '/' ==> r[0] != '/')
  {
    fileType + "/" + filename
  }

  /** The file `deleteFile` removes: the given path under the upload directory, none for a null or empty one. */
  function DeletedPath(uploadDir: string, fileUrl: Option<string>): (p: Option<string>)
    ensures p.None? <==> fileUrl.None? || fileUrl.value == ""
    ensures p.Some? ==> p.value == JavaPaths.PathsGet(uploadDir, fileUrl.value)
  {
    if fileUrl.Some? && fileUrl.value != "" then Some(JavaPaths.PathsGet(uploadDir, fileUrl.value)) else None
  }

  /**
   * Deleting the path `saveFile` returned removes exactly the file it wrote,
   * for a non-empty upload directory, a type without '/' and a file name
   * that does not start with '/'.
   */
  lemma DeleteFindsSavedFile(uploadDir: string, fileType: string, filename: string)
    requires uploadDir != "" && fileType != "" && '/' !in fileType
    requires filename != "" && filename[0] != '/'
    ensures DeletedPath(uploadDir, Some(SavedPath(fileType, filename)))
            == Some(FileStorage.StoredPath(uploadDir, fileType, filename))
  {
    JavaPaths.JoinedEqualsResolved(uploadDir, fileType, filename);
  }

  /**
   * A relative path of this store, handed to the backend store's delete,
   * names the same file: the backend only strips a prefix this path lacks.
   */
  lemma BackendDeletesLegacyPath(uploadDir: string, fileType: string, filename: string)
    requires fileType != [] && fileType[0] != '/'
    ensures FileStorage.DeletedPath(uploadDir, Some(SavedPath(fileType, filename)))
            == DeletedPath(uploadDir, Some(SavedPath(fileType, filename)))
  {
  }

  /** The upload store, as the set of file paths it holds. */
  class FileStorageService {
    const uploadDir: string
    var files: set<string>

    constructor(uploadDir: string, files: set<string>)
      ensures this.uploadDir == uploadDir && this.files == files
    {
      this.uploadDir := uploadDir;
      this.files := files;
    }

    /** `saveFile`: writes `<uuid><extension>` under the type's directory and returns its relative path. */
    method SaveFile(originalFilename: Option<string>, fileType: string, uuid: string) returns (path: string)
      modifies this
      ensures path == SavedPath(fileType, uuid + FileStorage.Extension(originalFilename))
      ensures files == old(files) + {FileStorage.StoredPath(uploadDir, fileType, uuid + FileStorage.Extension(originalFilename))}
    {
      var extension := FileStorage.Extension(originalFilename);
      var filename := uuid + extension;
      files := files + {FileStorage.StoredPath(uploadDir, fileType, filename)};
      path := SavedPath(fileType, filename);
    }

    /** `deleteFile`: removes the file at the given relative path; a null or empty path changes nothing. */
    method DeleteFile(fileUrl: Option<string>)
      modifies this
      ensures DeletedPath(uploadDir, fileUrl).Some? ==> files == old(files) - {DeletedPath(uploadDir, fileUrl).value}
      ensures DeletedPath(uploadDir, fileUrl).None? ==> files == old(files)
    {
      if fileUrl.Some? && fileUrl.value != "" {
        files := files - {JavaPaths.PathsGet(uploadDir, fileUrl.value)};
      }
    }
  }
}
