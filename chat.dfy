/** The page's event handlers and the state they share (script.js:9-47,
    script.js:80-108, script.js:125-156): the pending file, the two buttons,
    the loader and the append-only chat log. */
module Chat {
  import opened Wrappers
  import opened Request
  import opened Reply

  /** The `File` the input hands over; only its name and type are read. */
  datatype File = File(name: string, mimeType: string)

  /** One chat bubble: the image the user sent (as its data URL), or the
      markup of an assistant answer. */
  datatype Entry = UserImage(dataUrl: string) | Assistant(html: string)

  /** Where the page is in its event protocol: nothing in flight, the
      `FileReader` reading, or the request in flight. The code keeps no such
      flag; the phase records which callbacks can fire next. */
  datatype Phase = Idle | Reading | Awaiting

  const NoFileLabel: string := "No file selected..."

  class Session {
    /** The instruction text sent with every image. */
    const prompt: string
    var uploadedFile: Option<File>
    var fileLabel: string
    var uploadDisabled: bool
    var convertDisabled: bool
    var loaderVisible: bool
    var log: seq<Entry>
    ghost var phase: Phase

    /** While nothing is in flight the loader is hidden and a file can be
        chosen; while a read or a request is in flight the loader shows, both
        buttons are disabled and the file being converted is still pending. */
    ghost predicate Valid()
      reads this
    {
      if phase == Idle then !loaderVisible && !uploadDisabled
      else loaderVisible && uploadDisabled && convertDisabled && uploadedFile.Some?
    }

    /** The convert button is enabled only when there is a file to convert. */
    predicate ConvertArmed()
      reads this
    {
      !convertDisabled ==> uploadedFile.Some?
    }

    /** The page as it loads: no file, the convert button disabled, the
        loader hidden and an empty log. */
    constructor(prompt: string)
      ensures this.prompt == prompt
      ensures uploadedFile == None && fileLabel == NoFileLabel
      ensures !uploadDisabled && convertDisabled && !loaderVisible
      ensures log == [] && phase == Idle
      ensures Valid() && ConvertArmed()
    {
      this.prompt := prompt;
      uploadedFile := None;
      fileLabel := NoFileLabel;
      uploadDisabled := false;
      convertDisabled := true;
      loaderVisible := false;
      log := [];
      phase := Idle;
    }

    /** The input's `change` handler (script.js:13-22); the input is reached
        only through the upload button (script.js:11). A change without a file
        leaves everything as it was. */
    method SelectFile(file: Option<File>)
      requires Valid() && !uploadDisabled
      modifies this
      ensures file.None? ==> unchanged(this)
      ensures file.Some? ==> uploadedFile == file && fileLabel == file.value.name && !convertDisabled
      ensures file.Some? ==> uploadDisabled == old(uploadDisabled) && loaderVisible == old(loaderVisible)
      ensures file.Some? ==> log == old(log) && phase == old(phase)
      ensures Valid() && (old(ConvertArmed()) ==> ConvertArmed())
    {
      if file.Some? {
        uploadedFile := file;
        fileLabel := file.value.name;
        convertDisabled := false;
      }
    }

    /** `setLoading` (script.js:137-147): showing the loader disables both
        buttons; hiding it re-enables upload only. */
    method SetLoading(isLoading: bool)
      modifies this
      ensures loaderVisible == isLoading && uploadDisabled == isLoading
      ensures convertDisabled == (isLoading || old(convertDisabled))
      ensures uploadedFile == old(uploadedFile) && fileLabel == old(fileLabel)
      ensures log == old(log) && phase == old(phase)
    {
      if isLoading {
        loaderVisible := true;
        uploadDisabled := true;
        convertDisabled := true;
      } else {
        loaderVisible := false;
        uploadDisabled := false;
      }
    }

    /** `resetInput` (script.js:149-156): the pending file is dropped and the
        convert button disabled until a new file is chosen. */
    method ResetInput()
      modifies this
      ensures uploadedFile == None && fileLabel == NoFileLabel && convertDisabled
      ensures uploadDisabled == old(uploadDisabled) && loaderVisible == old(loaderVisible)
      ensures log == old(log) && phase == old(phase)
      ensures ConvertArmed()
    {
      uploadedFile := None;
      fileLabel := NoFileLabel;
      convertDisabled := true;
    }

    /** `addAiMessage` (script.js:125-135): one assistant entry at the end of
        the log. */
    method AddAiMessage(html: string)
      modifies this
      ensures log == old(log) + [Assistant(html)]
      ensures uploadedFile == old(uploadedFile) && fileLabel == old(fileLabel)
      ensures uploadDisabled == old(uploadDisabled) && convertDisabled == old(convertDisabled)
      ensures loaderVisible == old(loaderVisible) && phase == old(phase)
    {
      log := log + [Assistant(html)];
    }

    /** The convert button's `click` handler (script.js:24-47): without a
        pending file nothing happens; otherwise the read starts and the page
        shows it is loading. */
    method ConvertClicked()
      requires Valid() && !convertDisabled
      modifies this
      ensures old(uploadedFile).None? ==> unchanged(this)
      ensures old(uploadedFile).Some? ==> phase == Reading && loaderVisible && uploadDisabled && convertDisabled
      ensures uploadedFile == old(uploadedFile) && fileLabel == old(fileLabel) && log == old(log)
      ensures Valid() && (old(ConvertArmed()) ==> ConvertArmed())
    {
      if uploadedFile.None? {
        return;
      }
      phase := Reading;
      SetLoading(true);
    }

    /** The reader's `onload` handler (script.js:28-44): the user's image is
        appended, and the request is built from the segment after the data
        URL's first comma and the pending file's type. */
    method ReaderLoaded(dataUrl: string) returns (request: Payload)
      requires Valid() && phase == Reading
      modifies this
      ensures log == old(log) + [UserImage(dataUrl)]
      ensures request == BuildPayload(prompt, old(uploadedFile).value.mimeType, DataSegment(dataUrl))
      ensures phase == Awaiting
      ensures uploadedFile == old(uploadedFile) && fileLabel == old(fileLabel) && loaderVisible == old(loaderVisible)
      ensures uploadDisabled == old(uploadDisabled) && convertDisabled == old(convertDisabled)
      ensures Valid() && ConvertArmed()
    {
      log := log + [UserImage(dataUrl)];
      request := BuildPayload(prompt, uploadedFile.value.mimeType, DataSegment(dataUrl));
      phase := Awaiting;
    }

    /** How `callGeminiAPI` ends (script.js:87-108): exactly one assistant
        entry, then the `finally` block hides the loader and resets the
        input, whatever the outcome. */
    method ReplyReceived(outcome: Outcome)
      requires Valid() && phase == Awaiting
      modifies this
      ensures log == old(log) + [Assistant(AssistantHtml(outcome))]
      ensures uploadedFile == None && fileLabel == NoFileLabel
      ensures !loaderVisible && !uploadDisabled && convertDisabled
      ensures phase == Idle
      ensures Valid() && ConvertArmed()
    {
      AddAiMessage(AssistantHtml(outcome));
      SetLoading(false);
      ResetInput();
      phase := Idle;
    }
  }

  /** One full conversion on a freshly loaded page: choose a file, click
      convert, the reader delivers `dataUrl`, the request ends with
      `outcome`. The log then holds the image and one answer, and the page is
      ready for a new file with convert disabled. */
  method Lifecycle(prompt: string, file: File, dataUrl: string, outcome: Outcome)
    returns (log: seq<Entry>, request: Payload, pending: Option<File>,
             loaderVisible: bool, uploadEnabled: bool, convertEnabled: bool)
    ensures log == [UserImage(dataUrl), Assistant(AssistantHtml(outcome))]
    ensures request == BuildPayload(prompt, file.mimeType, DataSegment(dataUrl))
    ensures pending == None && !loaderVisible && uploadEnabled && !convertEnabled
  {
    var s := new Session(prompt);
    s.SelectFile(Some(file));
    s.ConvertClicked();
    request := s.ReaderLoaded(dataUrl);
    s.ReplyReceived(outcome);
    log, pending, loaderVisible := s.log, s.uploadedFile, s.loaderVisible;
    uploadEnabled, convertEnabled := !s.uploadDisabled, !s.convertDisabled;
  }

  /** A change event without a file on a freshly loaded page leaves the
      convert button disabled and nothing pending. */
  method EmptySelection(prompt: string) returns (pending: Option<File>, shownLabel: string, convertEnabled: bool)
    ensures pending == None && shownLabel == NoFileLabel && !convertEnabled
  {
    var s := new Session(prompt);
    s.SelectFile(None);
    pending, shownLabel, convertEnabled := s.uploadedFile, s.fileLabel, !s.convertDisabled;
  }
}
