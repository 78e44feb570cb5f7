/**
 * The upload store of the backend service: an uploaded file is written to
 * `<uploadDir>/<type>/<uuid><extension>` and the caller receives the URL
 * `/uploads/<type>/<uuid><extension>`; deleting a URL strips the `/uploads/`
 * prefix again and removes the file it names. The file system is a set of
 * stored paths, each the normalised text `Paths.get` and `resolve` build.
 */
module FileStorage {
  import opened Wrappers
  import opened JsText
  import JavaPaths

  /**
   * The extension of an original file name: from its last '.' to the end,
   * or "" when there is no name or no '.' in it.
   */
  function Extension(originalFilename: Option<string>): (e: string)
    ensures e == "" <==> originalFilename.None? || '.' !in originalFilename.value
    ensures e != "" ==> e[0] == '.' && '.' !in e[1..]
    ensures e != "" ==> |e| <= |originalFilename.value|
                        && originalFilename.value[|originalFilename.value| - |e|..] == e
  {
    if originalFilename.Some? && '.' in originalFilename.value then
      var name := originalFilename.value;
      var dot := LastIndexOf(name, '.');
      name[dot.value..]
    else ""
  }

  /** Where `saveFile` writes: `Paths.get(uploadDir, type).resolve(filename)`. */
  function StoredPath(uploadDir: string, fileType: string, filename: string): string {
    JavaPaths.Resolve(JavaPaths.PathsGet(uploadDir, fileType), filename)
  }

  /** The URL `saveFile` returns: below "/uploads/", the type and the file name. */
  function SavedUrl(fileType: string, filename: string): (r: string)
    ensures StartsWith(r, "/uploads/") && Relative(r) == fileType + "/" + filename
  {
    var r := "/uploads/" + fileType + "/" + filename;
    assert r == "/uploads/" + (fileType + "/" + filename);
    r
  }

  /** The part of a file URL under the upload directory: a leading "/uploads/" is dropped when present. */
  function Relative(fileUrl: string): (r: string)
    ensures StartsWith(fileUrl, "/uploads/") ==> fileUrl == "/uploads/" + r
    ensures !StartsWith(fileUrl, "/uploads/") ==> r == fileUrl
  {
    if StartsWith(fileUrl, "/uploads/") then fileUrl[|"/uploads/"|..] else fileUrl
  }

  /** The file `deleteFile` removes: none for a null or empty URL. */
  function DeletedPath(uploadDir: string, fileUrl: Option<string>): (p: Option<string>)
    ensures p.None? <==> fileUrl.None? || fileUrl.value == ""
    ensures p.Some? ==> p.value == JavaPaths.PathsGet(uploadDir, Relative(fileUrl.value))
  {
    if fileUrl.Some? && fileUrl.value != "" then Some(JavaPaths.PathsGet(uploadDir, Relative(fileUrl.value))) else None
  }

  /** The stored files after deleting `fileUrl` (`deleteIfExists`: a missing file is no error). */
  function AfterDelete(uploadDir: string, files: set<string>, fileUrl: Option<string>): set<string> {
    var p := DeletedPath(uploadDir, fileUrl);
    if p.Some? then files - {p.value} else files
  }

  /**
   * Deleting the URL `saveFile` returned removes exactly the file it wrote,
   * for a non-empty upload directory, a type without '/' and a file name
   * that does not start with '/'.
   */
  lemma DeleteFindsSavedFile(uploadDir: string, fileType: string, filename: string)
    requires uploadDir != "" && fileType != "" && '/' !in fileType
    requires filename != "" && filename[0] != '/'
    ensures DeletedPath(uploadDir, Some(SavedUrl(fileType, filename))) == Some(StoredPath(uploadDir, fileType, filename))
  {
    JavaPaths.JoinedEqualsResolved(uploadDir, fileType, filename);
  }

  /** A URL "/<type>/..." does not start with "/uploads/" when the type, which holds no '/', is not "uploads". */
  lemma NotUnderUploads(fileType: string, rest: string)
    requires fileType != "" && '/' !in fileType && fileType != "uploads"
    ensures !StartsWith("/" + fileType + "/" + rest, "/uploads/")
  {
    var url, n := "/" + fileType + "/" + rest, |fileType|;
    if |url| >= 9 {
      if n >= 8 {
        assert fileType[7] in fileType;
        assert url[..9][8] == fileType[7] != "/uploads/"[8];
      } else if n != 7 {
        assert url[..9][n + 1] == '/' != "/uploads/"[n + 1];
      } else {
        var k :| 0 <= k < 7 && fileType[k] != "uploads"[k];
        assert url[..9][k + 1] == fileType[k] != "/uploads/"[k + 1];
      }
    }
  }

  /**
   * A stored URL written without the "/uploads" part, such as "/videos/a.mp4",
   * still names the saved file: `Paths.get` ignores the leading '/'.
   */
  lemma LeadingSlashFindsSavedFile(uploadDir: string, fileType: string, filename: string)
    requires uploadDir != "" && fileType != "" && '/' !in fileType && fileType != "uploads"
    requires filename != "" && filename[0] != '/'
    ensures DeletedPath(uploadDir, Some("/" + fileType + "/" + filename)) == Some(StoredPath(uploadDir, fileType, filename))
  {
    NotUnderUploads(fileType, filename);
    assert "/" + fileType + "/" + filename == "/" + (fileType + "/" + filename);
    JavaPaths.LeadingSlashIgnored(uploadDir, fileType + "/" + filename);
    JavaPaths.JoinedEqualsResolved(uploadDir, fileType, filename);
  }

  /** A UUID's text (`8-4-4-4-12` hexadecimal digits and '-') is non-empty and holds no '.' and no '/'. */
  predicate IsUuidText(u: string) {
    u != "" && '.' !in u && '/' !in u
  }

  /** The stored file name keeps the extension of the original name. */
  lemma StoredNameKeepsExtension(uuid: string, originalFilename: Option<string>)
    requires IsUuidText(uuid)
    ensures Extension(Some(uuid + Extension(originalFilename))) == Extension(originalFilename)
  {
    var e := Extension(originalFilename);
    var s := uuid + e;
    if e == "" {
      assert s == uuid;
    } else {
      assert s[|uuid|] == '.';
      assert '.' in s;
      var d := LastIndexOf(s, '.').value;
      assert d == |uuid|;
      assert s[d..] == e;
    }
  }

  /** The upload store, as the set of file paths it holds. */
  class FileStorageService {
    const uploadDir: string
    var files: set<string>

    constructor(uploadDir: string, files: set<string>)
      ensures this.uploadDir == uploadDir && this.files == files
    {
      this.uploadDir := uploadDir;
      this.files := files;
    }

    /**
     * `saveFile`: writes the upload as `<uuid><extension>` under its type's
     * directory (replacing a file of that name) and returns its URL;
     * `uuid` stands for the generated UUID.
     */
    method SaveFile(originalFilename: Option<string>, fileType: string, uuid: string) returns (url: string)
      modifies this
      ensures url == SavedUrl(fileType, uuid + Extension(originalFilename))
      ensures files == old(files) + {StoredPath(uploadDir, fileType, uuid + Extension(originalFilename))}
    {
      var extension := Extension(originalFilename);
      var filename := uuid + extension;
      files := files + {StoredPath(uploadDir, fileType, filename)};
      url := SavedUrl(fileType, filename);
    }

    /** `deleteFile`: removes the file the URL names, if any; a null or empty URL changes nothing. */
    method DeleteFile(fileUrl: Option<string>)
      modifies this
      ensures files == AfterDelete(uploadDir, old(files), fileUrl)
      ensures fileUrl.None? || fileUrl.value == "" ==> files == old(files)
    {
      if fileUrl.Some? && fileUrl.value != "" {
        var relative := Relative(fileUrl.value);
        files := files - {JavaPaths.PathsGet(uploadDir, relative)};
      }
    }
  }

  /** Saving a file and then deleting the URL it returned leaves the store without that file. */
  method SaveThenDelete(store: FileStorageService, originalFilename: Option<string>, fileType: string, uuid: string)
    returns (url: string)
    requires store.uploadDir != "" && fileType != "" && '/' !in fileType && IsUuidText(uuid)
    modifies store
    ensures url == SavedUrl(fileType, uuid + Extension(originalFilename))
    ensures store.files == old(store.files) - {StoredPath(store.uploadDir, fileType, uuid + Extension(originalFilename))}
  {
    url := store.SaveFile(originalFilename, fileType, uuid);
    assert uuid[0] in uuid && (uuid + Extension(originalFilename))[0] == uuid[0];
    DeleteFindsSavedFile(store.uploadDir, fileType, uuid + Extension(originalFilename));
    store.DeleteFile(Some(url));
  }
}
