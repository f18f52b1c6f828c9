/** The image picker: a MIME allow-list and a 10 MiB ceiling decide whether a picked
    file is passed up to the parent and previewed; drag flags follow the pointer. */
module ImageUploadView {
  import opened Types

  const AcceptedTypes: seq<string> := ["image/jpeg", "image/png", "image/webp"]
  const MaxImageBytes: nat := 10 * 1024 * 1024

  /** The selection filter: one of the three image types and at most 10 MiB. */
  predicate Accepted(f: File): (ok: bool)
    ensures ok <==>
      (f.mimeType == "image/jpeg" || f.mimeType == "image/png" || f.mimeType == "image/webp")
      && f.size <= 10485760
  {
    f.mimeType in AcceptedTypes && f.size <= MaxImageBytes
  }

  /** The ceiling is inclusive, and only the three image types pass it. */
  lemma AcceptedBoundaries(name: string)
    ensures Accepted(File(name, "image/png", 10485760))
    ensures !Accepted(File(name, "image/png", 10485761))
    ensures !Accepted(File(name, "image/gif", 1))
    ensures !Accepted(File(name, "image/png", 12 * 1024 * 1024))
    ensures Accepted(File(name, "image/jpeg", 2 * 1024 * 1024))
  {
    assert "image/png" == AcceptedTypes[1];
    assert "image/jpeg" == AcceptedTypes[0];
  }

  /** The preview shown: the `preview` prop's URL, or an object URL made for a picked
      file, told apart by a serial number. */
  datatype PreviewUrl = PropUrl(url: string) | ObjectUrl(serial: nat)

  /** The initial preview: `preview || null`, so an empty string also means no preview. */
  function InitialPreview(preview: Option<string>): (r: Option<PreviewUrl>)
    ensures r.Some? <==> preview.Some? && preview.value != ""
    ensures r.Some? ==> r.value == PropUrl(preview.value)
  {
    if preview.Some? && preview.value != "" then Some(PropUrl(preview.value)) else None
  }

  /** The component's state. `selected` records every `onImageSelect(file)` call, in order;
      `inputValue` is the hidden file input's value. */
  class ImageUpload {
    var isDragging: bool
    var previewUrl: Option<PreviewUrl>
    var inputValue: string
    var selected: seq<File>
    var urlsCreated: nat

    constructor (preview: Option<string>)
      ensures previewUrl == InitialPreview(preview)
      ensures !isDragging && inputValue == "" && selected == [] && urlsCreated == 0
    {
      isDragging := false;
      previewUrl := InitialPreview(preview);
      inputValue := "";
      selected := [];
      urlsCreated := 0;
    }

    /** handleFileSelect: an accepted file is passed up exactly once and previewed through
        a new object URL; a rejected file changes nothing. */
    method HandleFileSelect(f: File)
      modifies this
      ensures Accepted(f) ==>
        selected == old(selected) + [f] && previewUrl == Some(ObjectUrl(old(urlsCreated)))
        && urlsCreated == old(urlsCreated) + 1
      ensures !Accepted(f) ==>
        selected == old(selected) && previewUrl == old(previewUrl) && urlsCreated == old(urlsCreated)
      ensures isDragging == old(isDragging) && inputValue == old(inputValue)
    {
      if f.mimeType in AcceptedTypes {
        if f.size <= MaxImageBytes {
          selected := selected + [f];
          previewUrl := Some(ObjectUrl(urlsCreated));
          urlsCreated := urlsCreated + 1;
        }
      }
    }

    method HandleDragOver()
      modifies this
      ensures isDragging
      ensures previewUrl == old(previewUrl) && selected == old(selected)
      ensures inputValue == old(inputValue) && urlsCreated == old(urlsCreated)
    {
      isDragging := true;
    }

    method HandleDragLeave()
      modifies this
      ensures !isDragging
      ensures previewUrl == old(previewUrl) && selected == old(selected)
      ensures inputValue == old(inputValue) && urlsCreated == old(urlsCreated)
    {
      isDragging := false;
    }

    /** handleDrop: clears the drag flag and considers only the first dropped file. */
    method HandleDrop(files: seq<File>)
      modifies this
      ensures !isDragging && inputValue == old(inputValue)
      ensures files == [] ==>
        selected == old(selected) && previewUrl == old(previewUrl) && urlsCreated == old(urlsCreated)
      ensures files != [] && Accepted(files[0]) ==>
        selected == old(selected) + [files[0]] && previewUrl == Some(ObjectUrl(old(urlsCreated)))
        && urlsCreated == old(urlsCreated) + 1
      ensures files != [] && !Accepted(files[0]) ==>
        selected == old(selected) && previewUrl == old(previewUrl) && urlsCreated == old(urlsCreated)
    {
      isDragging := false;
      if |files| > 0 {
        HandleFileSelect(files[0]);
      }
    }

    /** handleInputChange: the browser has written `value` into the input and offers
        `files`, which may be absent; only the first file is considered. */
    method HandleInputChange(files: Option<seq<File>>, value: string)
      modifies this
      ensures inputValue == value && isDragging == old(isDragging)
      ensures (files.None? || files.value == []) ==>
        selected == old(selected) && previewUrl == old(previewUrl) && urlsCreated == old(urlsCreated)
      ensures files.Some? && files.value != [] && Accepted(files.value[0]) ==>
        selected == old(selected) + [files.value[0]]
        && previewUrl == Some(ObjectUrl(old(urlsCreated))) && urlsCreated == old(urlsCreated) + 1
      ensures files.Some? && files.value != [] && !Accepted(files.value[0]) ==>
        selected == old(selected) && previewUrl == old(previewUrl) && urlsCreated == old(urlsCreated)
    {
      inputValue := value;
      if files.Some? && |files.value| > 0 {
        HandleFileSelect(files.value[0]);
      }
    }

    /** handleRemoveImage: the preview and the input are cleared; the parent is not told,
        so the file it last received stays selected there. */
    method HandleRemoveImage()
      modifies this
      ensures previewUrl == None && inputValue == ""
      ensures selected == old(selected) && isDragging == old(isDragging)
      ensures urlsCreated == old(urlsCreated)
    {
      previewUrl := None;
      inputValue := "";
    }
  }

  /** A 12 MiB PNG dropped on the picker is refused before anything reaches the parent. */
  method OversizedDropScenario(name: string)
  {
    var picker := new ImageUpload(None);
    picker.HandleDragOver();
    picker.HandleDrop([File(name, "image/png", 12 * 1024 * 1024)]);
    AcceptedBoundaries(name);
    assert picker.selected == [] && picker.previewUrl == None && !picker.isDragging;
  }
}
