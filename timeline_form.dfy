/** The add/edit form of a timeline event (src/components/timeline/TimelineForm.tsx): the
    validation, the date input filter, the image-list edits and the EXIF prefill of an upload.
    The upload and image-delete requests are parameters; the picked files are their bytes. */
module TimelineForm {
  import opened Wrappers
  import opened JsString
  import opened DatePatterns
  import opened Exif
  import opened Timeline

  /** The messages of `validateForm`, one per field; "" means no error. */
  datatype FormErrors = FormErrors(date: string, title: string, content: string)

  const DateMissing: string := "请选择日期"
  const DateMalformed: string := "日期格式不正确"
  const TitleMissing: string := "请输入标题"
  const ContentMissing: string := "请输入内容"

  /** The errors `validateForm` sets. */
  function Validation(date: string, title: string, content: string): (e: FormErrors)
    ensures e.date == "" <==> IsIsoDate(date)
    ensures date == "" ==> e.date == DateMissing
    ensures date != "" && !IsIsoDate(date) ==> e.date == DateMalformed
    ensures e.title == "" <==> title != ""
    ensures e.content == "" <==> content != ""
  {
    FormErrors(
      if date == "" then DateMissing else if !IsIsoDate(date) then DateMalformed else "",
      if title == "" then TitleMissing else "",
      if content == "" then ContentMissing else "")
  }

  /** `!Object.values(newErrors).some(error => error)`. */
  predicate NoErrors(e: FormErrors) {
    e.date == "" && e.title == "" && e.content == ""
  }

  /** The form is valid exactly when the date has the `YYYY-MM-DD` digit shape and the title
      and content are non-empty; any digits are accepted as month and day. */
  lemma ValidIff(date: string, title: string, content: string)
    ensures NoErrors(Validation(date, title, content)) <==> IsIsoDate(date) && title != "" && content != ""
    ensures NoErrors(Validation("2024-13-45", title, content)) <==> title != "" && content != ""
  {
    assert IsIsoDate("2024-13-45");
  }

  /** The extensions of `/\.(jpeg|jpg|gif|png|webp)$/i`. */
  const ImageExtensions: seq<string> := [".jpeg", ".jpg", ".gif", ".png", ".webp"]

  /** The URL test of `handleAddImageUrl`. The `i` flag folds only ASCII letters onto the
      pattern's letters, which is `ToLower` here. */
  predicate IsImageUrl(url: string) {
    exists k :: 0 <= k < |ImageExtensions| && EndsWith(ToLower(url), ImageExtensions[k])
  }

  /** An accepted URL is at least four characters long and has a dot four or five from the
      end; the empty URL is never accepted. */
  lemma ImageUrlShape(url: string)
    requires IsImageUrl(url)
    ensures |url| >= 4 && (url[|url| - 4] == '.' || (|url| >= 5 && url[|url| - 5] == '.'))
  {
    var k :| 0 <= k < |ImageExtensions| && EndsWith(ToLower(url), ImageExtensions[k]);
    var e := ImageExtensions[k];
    assert |e| == 4 || |e| == 5;
    var j := |url| - |e|;
    var low := ToLower(url);
    assert low[j..][0] == e[0] == '.';
    assert LowerAscii(url[j]) == '.';
  }

  /** The test ignores ASCII case. */
  lemma ImageUrlIgnoresCase(url: string)
    ensures IsImageUrl(url) <==> IsImageUrl(ToLower(url))
  {
    assert ToLower(ToLower(url)) == ToLower(url);
  }

  /** `prev.filter((_, i) => i !== index)`. */
  function RemoveAt(s: seq<string>, index: nat): (r: seq<string>)
    requires index < |s|
    ensures |r| == |s| - 1
    ensures forall k :: 0 <= k < index ==> r[k] == s[k]
    ensures forall k :: index <= k < |r| ==> r[k] == s[k + 1]
  {
    s[..index] + s[index + 1..]
  }

  /** Exactly the element at the index is taken out: the rest keep their multiplicity. */
  lemma RemoveAtMultiset(s: seq<string>, index: nat)
    requires index < |s|
    ensures multiset(RemoveAt(s, index)) + multiset{s[index]} == multiset(s)
  {
    assert s == s[..index] + [s[index]] + s[index + 1..];
  }

  /** What the upload request gives: it threw or answered with a non-ok status, or its JSON
      body's `urls` (if present) and `url`. */
  datatype UploadResult = UploadFailed | Uploaded(urls: Option<seq<string>>, url: string)

  /** `data.urls || [data.url]`: an array (even an empty one) is truthy. */
  function NewUrls(urls: Option<seq<string>>, url: string): (r: seq<string>)
    ensures urls.Some? ==> r == urls.value
    ensures urls.None? ==> r == [url]
  {
    if urls.Some? then urls.value else [url]
  }

  /** The date after the EXIF prefill: the EXIF date, if any, fills only an empty date. */
  function Prefilled(date: string, exifDate: Option<string>): (r: string)
    ensures date != "" ==> r == date
    ensures date == "" && exifDate.Some? ==> r == exifDate.value
    ensures date == "" && exifDate.None? ==> r == ""
  {
    if exifDate.Some? && date == "" then exifDate.value else date
  }

  /** A prefilled date always passes the date check: the extractor only yields `YYYY-MM-DD`. */
  lemma PrefillKeepsDateValid(date: string, file: Bytes)
    requires date == "" || IsIsoDate(date)
    ensures var r := Prefilled(date, FileExifDate(file));
      r == "" || IsIsoDate(r)
  {
  }

  class Form {
    var date: string
    var title: string
    var content: string
    var images: seq<string>
    var imageUrl: string
    var errors: FormErrors

    /** The fields start from `initialData` when it is given, and empty otherwise. */
    constructor(initial: Option<EventData>)
      ensures initial.Some? ==>
        (date == initial.value.date && title == initial.value.title &&
         content == initial.value.content && images == initial.value.images)
      ensures initial.None? ==> date == "" && title == "" && content == "" && images == []
      ensures imageUrl == "" && errors == FormErrors("", "", "")
    {
      if initial.Some? {
        date, title, content, images := initial.value.date, initial.value.title, initial.value.content, initial.value.images;
      } else {
        date, title, content, images := "", "", "", [];
      }
      imageUrl := "";
      errors := FormErrors("", "", "");
    }

    /** The date input's `onChange`: a value is taken only when it is empty or has the
        `YYYY-MM-DD` shape. */
    method OnDateChange(input: string)
      modifies this`date
      ensures (input == "" || IsIsoDate(input)) ==> date == input
      ensures !(input == "" || IsIsoDate(input)) ==> date == old(date)
    {
      if input == "" || IsIsoDate(input) {
        date := input;
      }
    }

    method TypeTitle(value: string)
      modifies this`title
      ensures title == value
    {
      title := value;
    }

    method TypeContent(value: string)
      modifies this`content
      ensures content == value
    {
      content := value;
    }

    method TypeImageUrl(value: string)
      modifies this`imageUrl
      ensures imageUrl == value
    {
      imageUrl := value;
    }

    /** `handleSubmit`: the errors are shown, and `onSubmit` receives the fields (returned
        here) only when there are none. */
    method HandleSubmit() returns (submitted: Option<EventData>)
      modifies this`errors
      ensures errors == Validation(date, title, content)
      ensures submitted.Some? <==> IsIsoDate(date) && title != "" && content != ""
      ensures submitted.Some? ==> submitted.value == EventData(date, title, content, images)
    {
      errors := Validation(date, title, content);
      ValidIff(date, title, content);
      if NoErrors(errors) {
        return Some(EventData(date, title, content, images));
      }
      return None;
    }

    /** `handleAddImageUrl`: an empty URL or one that fails the image test leaves everything
        as it was (the latter alerts); an image URL goes at the end and the field is cleared. */
    method HandleAddImageUrl() returns (alerted: bool)
      modifies this`images, this`imageUrl
      ensures old(imageUrl) != "" && IsImageUrl(old(imageUrl)) ==>
        images == old(images) + [old(imageUrl)] && imageUrl == "" && !alerted
      ensures !(old(imageUrl) != "" && IsImageUrl(old(imageUrl))) ==>
        images == old(images) && imageUrl == old(imageUrl)
      ensures alerted <==> old(imageUrl) != "" && !IsImageUrl(old(imageUrl))
    {
      if imageUrl == "" {
        return false;
      }
      if !IsImageUrl(imageUrl) {
        return true;
      }
      images := images + [imageUrl];
      imageUrl := "";
      return false;
    }

    /** `handleRemoveImage(index)`, the index being that of a shown image. Only an uploaded
        image (under `/uploads/`) is deleted on the server; `throws` tells whether that request
        throws, in which case the list is left as it was. A failed response is only logged. */
    method HandleRemoveImage(index: nat, throws: bool) returns (requested: bool)
      requires index < |images|
      modifies this`images
      ensures requested <==> IsUpload(old(images)[index])
      ensures requested && throws ==> images == old(images)
      ensures !(requested && throws) ==> images == RemoveAt(old(images), index)
    {
      var imageToDelete := images[index];
      requested := IsUpload(imageToDelete);
      if requested && throws {
        return;
      }
      images := RemoveAt(images, index);
    }

    /** `handleFileChange` for the picked `files`. Nothing happens without files. The EXIF date
        of the first file is read (as `parseExifDate` reads it) before the upload, so the
        prefill stays even when the upload then fails; a successful upload appends its URLs. */
    method HandleFileChange(files: seq<Bytes>, upload: UploadResult)
      modifies this`date, this`images
      ensures files == [] ==> date == old(date) && images == old(images)
      ensures files != [] ==> date == Prefilled(old(date), FileExifDate(files[0]))
      ensures files != [] && upload.Uploaded? ==> images == old(images) + NewUrls(upload.urls, upload.url)
      ensures upload.UploadFailed? ==> images == old(images)
    {
      if |files| == 0 {
        return;
      }
      var exifDate := ParseExifDate(ReadPrefix(files[0]));
      if exifDate.Some? && date == "" {
        date := exifDate.value;
      }
      match upload
      case UploadFailed =>
      case Uploaded(urls, url) =>
        images := images + NewUrls(urls, url);
    }
  }
}
