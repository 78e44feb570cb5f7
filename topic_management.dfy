/**
 * The instructor's topic page: media URLs from the backend are turned into
 * absolute URLs against the backend origin, and the create/edit form holds
 * the fields being edited and the id of the topic being edited.
 */
module TopicManagement {
  import opened Wrappers
  import opened JsText

  const Origin: string := "http://localhost:8080"

  /** `s` starts with `p` up to ASCII letter case (the `i` flag on an ASCII pattern). */
  predicate StartsWithIgnoringCase(s: string, p: string) {
    |p| <= |s| && UpperEquals(s[..|p|], UpperAscii(p))
  }

  /** `/^https?:\/\//i.test(url)`. */
  predicate IsAbsoluteHttp(url: string) {
    StartsWithIgnoringCase(url, "http://") || StartsWithIgnoringCase(url, "https://")
  }

  /**
   * `buildAssetUrl`: a falsy URL gives "", an absolute http(s) URL is kept,
   * anything else is rooted with one "/" unless it already starts with one
   * and prefixed with the backend origin.
   */
  function BuildAssetUrl(url: Option<string>): (r: string)
    ensures r == "" <==> url.None? || url.value == ""
    ensures r != "" ==> IsAbsoluteHttp(r)
  {
    if url.None? || url.value == "" then ""
    else if IsAbsoluteHttp(url.value) then url.value
    else
      var normalized := if StartsWith(url.value, "/") then url.value else "/" + url.value;
      OriginIsAbsolute(normalized);
      Origin + normalized
  }

  /** The origin itself is an absolute http URL. */
  lemma OriginIsAbsolute(rest: string)
    ensures IsAbsoluteHttp(Origin + rest)
  {
    var s := Origin + rest;
    assert s[..7] == "http://";
    assert UpperAscii("http://") == "HTTP://";
    UpperEqualsMeans(s[..7], "HTTP://");
  }

  /**
   * The cases of `buildAssetUrl`: an absolute URL is kept, and a relative
   * URL ends up behind the origin with a "/" in between.
   */
  lemma BuildAssetUrlCases(url: Option<string>)
    ensures url.None? || url.value == "" ==> BuildAssetUrl(url) == ""
    ensures url.Some? && IsAbsoluteHttp(url.value) ==> BuildAssetUrl(url) == url.value
    ensures url.Some? && url.value != "" && !IsAbsoluteHttp(url.value) ==>
              BuildAssetUrl(url) == Origin + (if url.value[0] == '/' then url.value else "/" + url.value)
  {
  }

  /** Building an asset URL from a built one changes nothing. */
  lemma BuildAssetUrlIdempotent(url: Option<string>)
    ensures BuildAssetUrl(Some(BuildAssetUrl(url))) == BuildAssetUrl(url)
  {
    BuildAssetUrlCases(url);
    BuildAssetUrlCases(Some(BuildAssetUrl(url)));
  }

  /** A topic as the list shows it. */
  datatype TopicItem = TopicItem(id: int, title: string, externalLink: Option<string>)

  /** The form's contents; a chosen file is represented by its name. */
  datatype FormData = FormData(title: string, externalLink: string, videoFile: Option<string>, pdfFile: Option<string>)

  const EmptyForm: FormData := FormData("", "", None, None)

  /** The create/edit form of the topic page. */
  class TopicForm {
    var formData: FormData
    var editingId: Option<int>

    constructor()
      ensures formData == EmptyForm && editingId.None?
    {
      formData := EmptyForm;
      editingId := None;
    }

    /** `handleEdit`: loads the topic's title and link (a missing link as "") and clears both files. */
    method Edit(topic: TopicItem)
      modifies this
      ensures formData == FormData(topic.title, topic.externalLink.GetOr(""), None, None)
      ensures editingId == Some(topic.id)
    {
      formData := FormData(topic.title, if topic.externalLink.Some? then topic.externalLink.value else "", None, None);
      editingId := Some(topic.id);
    }

    /** The Cancel button, and the reset after a successful save: back to an empty create form. */
    method Reset()
      modifies this
      ensures formData == EmptyForm && editingId.None?
    {
      editingId := None;
      formData := EmptyForm;
    }

    /** The request `handleSubmit` sends: an update when an id (a truthy one) is being edited, a create otherwise. */
    function Request(): (r: TopicRequest)
      reads this
      ensures r.Put? <==> editingId.Some? && editingId.value != 0
      ensures r.Put? ==> r.id == editingId.value
      ensures r.form.title == formData.title
      ensures r.form.externalLink == (if formData.externalLink == "" then None else Some(formData.externalLink))
      ensures r.form.video == formData.videoFile && r.form.pdf == formData.pdfFile
    {
      var form := MultipartForm(formData.title,
                                if formData.externalLink == "" then None else Some(formData.externalLink),
                                formData.videoFile, formData.pdfFile);
      if editingId.Some? && editingId.value != 0 then Put(editingId.value, form) else Post(form)
    }
  }

  /** The multipart body: the link and the files are sent only when present. */
  datatype MultipartForm = MultipartForm(title: string, externalLink: Option<string>, video: Option<string>, pdf: Option<string>)

  datatype TopicRequest = Post(form: MultipartForm) | Put(id: int, form: MultipartForm)

  /** Editing a topic and saving without choosing files sends an update that carries no file. */
  method EditThenSave(f: TopicForm, topic: TopicItem) returns (r: TopicRequest)
    modifies f
    ensures topic.id != 0 ==> r.Put? && r.id == topic.id
    ensures r.form.video.None? && r.form.pdf.None?
    ensures r.form.title == topic.title
    ensures r.form.externalLink == (if topic.externalLink == Some("") then None else topic.externalLink)
  {
    f.Edit(topic);
    r := f.Request();
  }
}
