/**
 * The topic controller: media paths stored on a topic are rewritten into the
 * canonical `/uploads/...` form on every read, and an update replaces the
 * title and link and, for each uploaded file, the stored media URL.
 */
module TopicController {
  import opened Wrappers
  import opened JsText
  import FileStorage

  /**
   * `normalizePath`: backslashes become slashes; a path mentioning
   * "uploads/" keeps only what starts there; the result is rooted at
   * "/uploads/". A null or empty path is returned as it is.
   */
  function NormalizePath(path: Option<string>): (r: Option<string>)
    ensures r.None? <==> path.None?
    ensures path.None? || path.value == "" ==> r == path
    ensures path.Some? && path.value != "" ==> StartsWith(r.value, "/uploads/")
  {
    if path.None? || path.value == "" then path
    else
      var cleaned := Slashed(path.value);
      var idx := IndexOf(cleaned, "uploads/");
      Some(Rooted(if idx.Some? then cleaned[idx.value..] else cleaned))
  }

  /**
   * The last step of `normalizePath`: a path already rooted at "/uploads/" is
   * kept, "uploads/..." gains a leading "/", and anything else goes under
   * "/uploads/" ("videos/..." and "pdfs/..." as they are, the rest without
   * its leading slashes).
   */
  function Rooted(c: string): (r: string)
    ensures StartsWith(r, "/uploads/")
  {
    if StartsWith(c, "/uploads/") then c
    else if StartsWith(c, "uploads/") then
      assert ("/" + c)[..9] == "/" + c[..8];
      "/" + c
    else
      var rest := if StartsWith(c, "videos/") || StartsWith(c, "pdfs/") then c
                  else StripLeadingSlashes(c);
      assert ("/uploads/" + rest)[..9] == "/uploads/";
      "/uploads/" + rest
  }

  /** A path starting with "uploads/" only gains a leading "/". */
  lemma RootedUploads(t: string)
    requires StartsWith(t, "uploads/")
    ensures Rooted(t) == "/" + t
  {
    assert t[0] == t[..8][0] == 'u';
  }

  /** A path starting with neither "/uploads/" nor "uploads/" goes under "/uploads/". */
  lemma RootedOther(c: string)
    requires !StartsWith(c, "/uploads/") && !StartsWith(c, "uploads/")
    ensures StartsWith(c, "videos/") || StartsWith(c, "pdfs/") ==> Rooted(c) == "/uploads/" + c
    ensures !StartsWith(c, "videos/") && !StartsWith(c, "pdfs/") ==> Rooted(c) == "/uploads/" + StripLeadingSlashes(c)
  {
  }

  /** What follows an occurrence of `p` starts with `p`. */
  lemma OccursStarts(c: string, p: string, i: nat)
    requires OccursAt(c, p, i)
    ensures StartsWith(c[i..], p)
  {
    assert c[i..][..|p|] == c[i..i + |p|];
  }

  /** A suffix of a string without backslashes, behind "/", has none either. */
  lemma SuffixAfterSlash(c: string, i: nat)
    requires '\\' !in c && i <= |c|
    ensures '\\' !in "/" + c[i..]
  {
    forall j | 0 <= j < |c| - i ensures c[i..][j] != '\\' {
      assert c[i..][j] == c[i + j];
    }
  }

  /** The path with every backslash turned into a slash. */
  function Slashed(s: string): (r: string)
    ensures '\\' !in r
  {
    ReplaceChar(s, '\\', '/')
  }

  /**
   * A non-empty path mentioning "uploads/" (after the slash rewrite) keeps
   * what starts at its first "uploads/", prefixed by "/".
   */
  lemma NormalizeWithUploads(s: string)
    requires s != "" && IndexOf(Slashed(s), "uploads/").Some?
    ensures var c := Slashed(s);
            var r := NormalizePath(Some(s)).value;
            && r == "/" + c[IndexOf(c, "uploads/").value..]
            && StartsWith(r, "/uploads/") && '\\' !in r
  {
    var c := Slashed(s);
    var idx := IndexOf(c, "uploads/").value;
    assert NormalizePath(Some(s)) == Some(Rooted(c[idx..]));
    OccursStarts(c, "uploads/", idx);
    RootedUploads(c[idx..]);
    SuffixAfterSlash(c, idx);
  }

  /**
   * A non-empty path without "uploads/": "videos/..." and "pdfs/..." go
   * under "/uploads/", anything else loses its leading slashes and goes
   * under "/uploads/".
   */
  lemma NormalizeWithoutUploads(s: string)
    requires s != "" && IndexOf(Slashed(s), "uploads/").None?
    ensures var c := Slashed(s);
            var r := NormalizePath(Some(s)).value;
            && (StartsWith(c, "videos/") || StartsWith(c, "pdfs/") ==> r == "/uploads/" + c)
            && (!StartsWith(c, "videos/") && !StartsWith(c, "pdfs/") ==> r == "/uploads/" + StripLeadingSlashes(c))
            && StartsWith(r, "/uploads/") && '\\' !in r
  {
    var c := Slashed(s);
    assert NormalizePath(Some(s)) == Some(Rooted(c));
    NoUploadsPrefix(c);
    RootedOther(c);
    var rest := if StartsWith(c, "videos/") || StartsWith(c, "pdfs/") then c else StripLeadingSlashes(c);
    SuffixKeepsNoBackslash(c, rest);
  }

  /** Without "uploads/" anywhere, the path starts with neither "/uploads/" nor "uploads/". */
  lemma NoUploadsPrefix(c: string)
    requires IndexOf(c, "uploads/").None?
    ensures !StartsWith(c, "/uploads/") && !StartsWith(c, "uploads/")
  {
    assert !OccursAt(c, "uploads/", 0) && !OccursAt(c, "uploads/", 1);
    StartsWithOccurs(c, "/", "uploads/");
    StartsWithOccurs(c, "", "uploads/");
    assert "/" + "uploads/" == "/uploads/" && "" + "uploads/" == "uploads/";
  }

  /** A suffix of a string without backslashes, behind "/uploads/", has none either. */
  lemma SuffixKeepsNoBackslash(c: string, t: string)
    requires '\\' !in c && |t| <= |c| && t == c[|c| - |t|..]
    ensures '\\' !in "/uploads/" + t
  {
    forall j | 0 <= j < |t| ensures t[j] != '\\' {
      assert t[j] == c[|c| - |t| + j];
    }
  }

  /** A string starting with `q + p` has `p` at position `|q|`. */
  lemma StartsWithOccurs(c: string, q: string, p: string)
    ensures StartsWith(c, q + p) ==> OccursAt(c, p, |q|)
  {
    if StartsWith(c, q + p) {
      assert c[|q|..|q| + |p|] == c[..|q + p|][|q|..];
    }
  }

  /** A path already in canonical form without backslashes is kept. */
  lemma NormalizeFixesCanonical(r: string)
    requires StartsWith(r, "/uploads/") && '\\' !in r
    ensures NormalizePath(Some(r)) == Some(r)
  {
    var c := Slashed(r);
    assert c == r;
    assert OccursAt(r, "uploads/", 1) by { assert r[1..9] == r[..9][1..]; }
    assert !OccursAt(r, "uploads/", 0) by { assert r[0] == '/'; }
    assert IndexOf(r, "uploads/") == Some(1);
    OccursStarts(r, "uploads/", 1);
    RootedUploads(r[1..]);
    assert r[0] == r[..9][0] == '/';
    assert "/" + r[1..] == r;
  }

  /** Normalising twice gives what normalising once gives, so re-normalising stored paths is harmless. */
  lemma NormalizeIdempotent(path: Option<string>)
    ensures NormalizePath(NormalizePath(path)) == NormalizePath(path)
  {
    if path.Some? && path.value != "" {
      if IndexOf(Slashed(path.value), "uploads/").Some? {
        NormalizeWithUploads(path.value);
      } else {
        NormalizeWithoutUploads(path.value);
      }
      NormalizeFixesCanonical(NormalizePath(path).value);
    }
  }

  /** A URL returned by the upload store is already canonical, so normalising it keeps it. */
  lemma SavedUrlIsCanonical(fileType: string, filename: string)
    requires '\\' !in fileType && '\\' !in filename
    ensures NormalizePath(Some(FileStorage.SavedUrl(fileType, filename))) == Some(FileStorage.SavedUrl(fileType, filename))
  {
    var u := FileStorage.SavedUrl(fileType, filename);
    assert u == "/uploads/" + (fileType + "/" + filename);
    assert u[..9] == "/uploads/";
    NormalizeFixesCanonical(u);
  }

  /** The topic entity, as far as the controller reads and writes it. */
  class Topic {
    var id: int
    var subjectId: int
    var title: string
    var externalLink: Option<string>
    var videoUrl: Option<string>
    var pdfUrl: Option<string>

    constructor(id: int, subjectId: int, title: string, externalLink: Option<string>,
                videoUrl: Option<string>, pdfUrl: Option<string>)
      ensures this.id == id && this.subjectId == subjectId && this.title == title
      ensures this.externalLink == externalLink && this.videoUrl == videoUrl && this.pdfUrl == pdfUrl
    {
      this.id := id;
      this.subjectId := subjectId;
      this.title := title;
      this.externalLink := externalLink;
      this.videoUrl := videoUrl;
      this.pdfUrl := pdfUrl;
    }
  }

  /**
   * `getAllTopics` / `getTopicsBySubject` after the repository query: every
   * listed topic's video and PDF paths are normalised in place. A topic
   * listed twice ends up normalised once, since normalising is idempotent.
   */
  method NormalizeUrls(topics: seq<Topic>)
    modifies set t | t in topics
    ensures forall t :: t in topics ==> t.videoUrl == NormalizePath(old(t.videoUrl))
    ensures forall t :: t in topics ==> t.pdfUrl == NormalizePath(old(t.pdfUrl))
    ensures forall t :: t in topics ==> t.id == old(t.id) && t.subjectId == old(t.subjectId)
    ensures forall t :: t in topics ==> t.title == old(t.title) && t.externalLink == old(t.externalLink)
  {
    for i := 0 to |topics|
      invariant forall t :: t in topics[..i] ==> t.videoUrl == NormalizePath(old(t.videoUrl))
      invariant forall t :: t in topics[..i] ==> t.pdfUrl == NormalizePath(old(t.pdfUrl))
      invariant forall t :: t in topics && t !in topics[..i] ==> t.videoUrl == old(t.videoUrl) && t.pdfUrl == old(t.pdfUrl)
      invariant forall t :: t in topics ==> t.id == old(t.id) && t.subjectId == old(t.subjectId)
      invariant forall t :: t in topics ==> t.title == old(t.title) && t.externalLink == old(t.externalLink)
    {
      var t := topics[i];
      NormalizeIdempotent(old(t.videoUrl));
      NormalizeIdempotent(old(t.pdfUrl));
      assert topics[..i + 1] == topics[..i] + [t];
      t.videoUrl := NormalizePath(t.videoUrl);
      t.pdfUrl := NormalizePath(t.pdfUrl);
    }
    assert topics[..|topics|] == topics;
  }

  /** A multipart file part: its original name and its size in bytes. */
  datatype Upload = Upload(originalFilename: Option<string>, size: nat)

  /** `file != null && !file.isEmpty()`. */
  predicate Supplied(u: Option<Upload>) {
    u.Some? && u.value.size > 0
  }

  /**
   * The stored files after one media slot of an update: with a new file,
   * the old URL's file is deleted and the new one written; without, nothing
   * changes.
   */
  function ReplaceMedia(uploadDir: string, files: set<string>, oldUrl: Option<string>, upload: Option<Upload>,
                        fileType: string, uuid: string): (r: set<string>)
    ensures !Supplied(upload) ==> r == files
    ensures Supplied(upload) ==> FileStorage.StoredPath(uploadDir, fileType, uuid + FileStorage.Extension(upload.value.originalFilename)) in r
  {
    if Supplied(upload) then
      FileStorage.AfterDelete(uploadDir, files, oldUrl)
        + {FileStorage.StoredPath(uploadDir, fileType, uuid + FileStorage.Extension(upload.value.originalFilename))}
    else files
  }

  /** The media URL a slot holds after an update. */
  function MediaAfter(oldUrl: Option<string>, upload: Option<Upload>, fileType: string, uuid: string): (r: Option<string>)
    ensures !Supplied(upload) ==> r == oldUrl
  {
    if Supplied(upload) then NormalizePath(Some(FileStorage.SavedUrl(fileType, uuid + FileStorage.Extension(upload.value.originalFilename))))
    else oldUrl
  }

  /**
   * One media slot of `updateTopic`: with a new file, the old URL's file
   * is deleted (when there is one), the upload is saved and its normalised
   * URL returned; without, the slot keeps `oldUrl`.
   */
  method UpdateMedia(storage: FileStorage.FileStorageService, oldUrl: Option<string>, upload: Option<Upload>,
                     fileType: string, uuid: string) returns (url: Option<string>)
    modifies storage
    ensures url == MediaAfter(oldUrl, upload, fileType, uuid)
    ensures storage.files == ReplaceMedia(storage.uploadDir, old(storage.files), oldUrl, upload, fileType, uuid)
  {
    url := oldUrl;
    if Supplied(upload) {
      if oldUrl.Some? {
        storage.DeleteFile(oldUrl);
      }
      var saved := storage.SaveFile(upload.value.originalFilename, fileType, uuid);
      url := NormalizePath(Some(saved));
    }
  }

  function NotFound(id: int): string { "Topic not found with id: " + IntToString(id) }

  /**
   * `updateTopic`: `found` is what `findById(id)` returned. The title and
   * link are overwritten (an absent link becomes null); each supplied file
   * replaces the stored one, the old file being deleted first; a slot with
   * no file keeps its URL. `videoUuid` and `pdfUuid` stand for the generated
   * UUIDs.
   */
  method UpdateTopic(found: Option<Topic>, id: int, title: string, externalLink: Option<string>,
                     video: Option<Upload>, pdf: Option<Upload>, storage: FileStorage.FileStorageService,
                     videoUuid: string, pdfUuid: string)
    returns (r: Result<Topic, string>)
    modifies storage, (if found.Some? then {found.value} else {})
    ensures found.None? ==> r == Err(NotFound(id)) && storage.files == old(storage.files)
    ensures found.Some? ==>
              var t := found.value;
              && r == Ok(t)
              && t.title == title && t.externalLink == externalLink
              && t.id == old(t.id) && t.subjectId == old(t.subjectId)
              && t.videoUrl == MediaAfter(old(t.videoUrl), video, "videos", videoUuid)
              && t.pdfUrl == MediaAfter(old(t.pdfUrl), pdf, "pdfs", pdfUuid)
              && storage.files == ReplaceMedia(storage.uploadDir,
                                               ReplaceMedia(storage.uploadDir, old(storage.files), old(t.videoUrl), video, "videos", videoUuid),
                                               old(t.pdfUrl), pdf, "pdfs", pdfUuid)
  {
    if found.None? {
      return Err(NotFound(id));
    }
    var topic := found.value;
    topic.title := title;
    topic.externalLink := externalLink;
    topic.videoUrl := UpdateMedia(storage, topic.videoUrl, video, "videos", videoUuid);
    topic.pdfUrl := UpdateMedia(storage, topic.pdfUrl, pdf, "pdfs", pdfUuid);
    return Ok(topic);
  }
}
