/**
  The "add resource" form (components/AddLibraryItemModal.tsx): the guard clauses of its
  submit handler, the record it hands to `onAdd`, and the submit button's disabled condition.
  Reading the chosen file is a browser API and is not modelled; its result is `Form.file`.
 */
module LibraryModal {
  import opened Wrappers
  import opened Text
  import opened Types

  /** A file the user picked: its base64 data, name and MIME type. */
  datatype SelectedFile = SelectedFile(data: string, name: string, mimeType: string)

  /** The form's fields as typed. */
  datatype Form = Form(
    kind: LibraryItemKind,
    title: string,
    description: string,
    url: string,
    file: Option<SelectedFile>,
    icon: Icon)

  /** What a submit does, in order. */
  datatype ModalEffect = Add(item: LibraryDraft) | Close

  /** Title and description are required; a link needs a url and an upload needs a file. */
  predicate Complete(form: Form) {
    && Trim(form.title) != []
    && Trim(form.description) != []
    && (form.kind == UrlItem ==> Trim(form.url) != [])
    && (form.kind == FileItem ==> form.file.Some?)
  }

  /**
    `handleSubmit`'s guard clauses and record: nothing for an incomplete form; otherwise the
    trimmed texts, the url only for a link, the file's data, name and type only for an upload,
    and the selected icon.
   */
  function Submission(form: Form): (r: Option<LibraryDraft>)
    ensures r.Some? <==> Complete(form)
    ensures r.Some? ==> && r.value.title == Trim(form.title) && r.value.title != []
                        && r.value.description == Trim(form.description) && r.value.description != []
                        && r.value.kind == form.kind && r.value.icon == form.icon
    ensures r.Some? ==> (r.value.url.Some? <==> form.kind == UrlItem)
    ensures r.Some? && form.kind == UrlItem ==> r.value.url == Some(Trim(form.url)) && r.value.url.value != []
    ensures r.Some? ==> (r.value.fileData.Some? <==> form.kind == FileItem)
    ensures r.Some? && form.kind == FileItem ==>
      && r.value.fileData == Some(form.file.value.data)
      && r.value.fileName == Some(form.file.value.name)
      && r.value.mimeType == Some(form.file.value.mimeType)
    ensures r.Some? && form.kind == UrlItem ==> r.value.fileName.None? && r.value.mimeType.None?
  {
    if Trim(form.title) == [] || Trim(form.description) == [] then None
    else if form.kind == UrlItem && Trim(form.url) == [] then None
    else if form.kind == FileItem && form.file.None? then None
    else
      var isUrl := form.kind == UrlItem;
      Some(LibraryDraft(
        Trim(form.title),
        Trim(form.description),
        form.kind,
        if isUrl then Some(Trim(form.url)) else None,
        if !isUrl then Some(form.file.value.data) else None,
        if !isUrl then Some(form.file.value.name) else None,
        if !isUrl then Some(form.file.value.mimeType) else None,
        form.icon))
  }

  /** The emitted texts carry no surrounding white space: trimming them again changes nothing. */
  lemma SubmissionIsTrimmed(form: Form)
    requires Submission(form).Some?
    ensures var d := Submission(form).value;
      Trim(d.title) == d.title && Trim(d.description) == d.description
  {
    TrimIdempotent(form.title);
    TrimIdempotent(form.description);
  }

  /** A submit either does nothing, or adds the item and then closes the form. */
  function HandleSubmit(form: Form): (effects: seq<ModalEffect>)
    ensures !Complete(form) ==> effects == []
    ensures Complete(form) ==> effects == [Add(Submission(form).value), Close]
  {
    match Submission(form)
    case None => []
    case Some(item) => [Add(item), Close]
  }

  /**
    The button's `disabled` expression, as the form writes it: disabled exactly when a submit
    would be rejected, or while a file is read.
   */
  function SubmitDisabled(form: Form, isProcessing: bool): (disabled: bool)
    ensures disabled <==> isProcessing || Submission(form).None?
  {
    || Trim(form.title) == []
    || Trim(form.description) == []
    || (form.kind == UrlItem && Trim(form.url) == [])
    || (form.kind == FileItem && form.file.None?)
    || isProcessing
  }
}
