/** The student-upload panel (vis-core-fe/src/components/UploadStudents.jsx): a file is
    screened by extension and then by size, and an accepted file is sent with the class's
    upload call while three state fields, `isUploading`, `error` and `uploadResult`, track
    the request. */
module Upload {
  import opened Wrappers
  import opened Json
  import opened Http
  import opened Text
  import opened TokenStore
  import opened RequestLayer
  import opened ClassApi

  /** The size bound, 10 MiB, in bytes. */
  const MaxFileSize: nat := 10 * 1024 * 1024

  const WrongTypeMessage := "Chỉ hỗ trợ file Excel (.xlsx) hoặc CSV (.csv)"
  const TooLargeMessage := "Kích thước file không được vượt quá 10MB"
  const UploadFailedMessage := "Có lỗi xảy ra khi upload file"

  /** The two properties of a browser `File` the panel looks at. */
  datatype FileInfo = FileInfo(name: string, size: nat)

  /** What `handleFileSelect` decides about its argument. */
  datatype Verdict = Ignored | Rejected(message: string) | Accepted(file: FileInfo)

  /** The name ends with ".xlsx" or ".csv", compared case-sensitively. */
  predicate AllowedName(name: string)
  {
    EndsWith(name, ".xlsx") || EndsWith(name, ".csv")
  }

  /** `AllowedName` holds exactly for some name followed by one of the two extensions. */
  lemma AllowedNameIff(name: string)
    ensures AllowedName(name) <==> exists stem :: name == stem + ".xlsx" || name == stem + ".csv"
  {
    EndsWithIff(name, ".xlsx");
    EndsWithIff(name, ".csv");
  }

  /** The checks of `handleFileSelect`: no file, then the extension, then the size. */
  function Screen(file: Option<FileInfo>): (v: Verdict)
    ensures v == Ignored <==> file.None?
    ensures v.Accepted? <==> file.Some? && AllowedName(file.value.name) && file.value.size <= MaxFileSize
    ensures v.Accepted? ==> v.file == file.value
    ensures v.Rejected? ==> v.message == WrongTypeMessage || v.message == TooLargeMessage
  {
    match file
    case None => Ignored
    case Some(f) =>
      if !AllowedName(f.name) then Rejected(WrongTypeMessage)
      else if f.size > MaxFileSize then Rejected(TooLargeMessage)
      else Accepted(f)
  }

  /** The extension is checked first: a file of the wrong type gets the extension message
      whatever its size. */
  lemma ExtensionCheckedFirst(f: FileInfo)
    requires !AllowedName(f.name)
    ensures Screen(Some(f)) == Rejected(WrongTypeMessage)
  {
  }

  /** The size message goes exactly to well-named files above the bound. */
  lemma SizeMessageIff(f: FileInfo)
    ensures Screen(Some(f)) == Rejected(TooLargeMessage) <==> AllowedName(f.name) && f.size > MaxFileSize
  {
  }

  /** The bound is inclusive: a file of exactly 10 MiB is sent, one byte more is refused. */
  lemma SizeBoundInclusive(stem: string)
    ensures Screen(Some(FileInfo(stem + ".xlsx", 10485760))).Accepted?
    ensures Screen(Some(FileInfo(stem + ".csv", 10485761))) == Rejected(TooLargeMessage)
  {
    AllowedNameIff(stem + ".xlsx");
    AllowedNameIff(stem + ".csv");
  }

  /** The comparison is case-sensitive: an upper-case extension is refused. */
  lemma UpperCaseExtensionRefused()
    ensures Screen(Some(FileInfo("scores.XLSX", 1))) == Rejected(WrongTypeMessage)
  {
    assert "scores.XLSX"[6..] != ".xlsx" by { assert "scores.XLSX"[7] == 'X'; }
    assert "scores.XLSX"[7..] != ".csv" by { assert "scores.XLSX"[7] == 'X'; }
  }

  /** The three state fields of the panel, and the values handed to `onUploadSuccess` so far. */
  datatype PanelState = PanelState(isUploading: bool, error: Option<string>, uploadResult: JsonValue,
                                   notified: seq<JsonValue>)

  /** The state a fresh panel starts in: idle, no error, no result. */
  const Idle := PanelState(false, None, JNull, [])

  /** The first three setter calls of `uploadFile`, made before the request. */
  function Begun(s: PanelState): PanelState
  {
    PanelState(true, None, JNull, s.notified)
  }

  /** What the thrown error shows: its message, or the fallback text when that is empty. */
  function ShownError(message: string): (shown: string)
    ensures shown != ""
    ensures message != "" ==> shown == message
  {
    if message != "" then message else UploadFailedMessage
  }

  /** The `onUploadSuccess` prop: `None` when none was passed. A callback maps the result to
      `None` when it returns normally, or to the message of the Error it throws. */
  type Callback = Option<JsonValue -> Option<string>>

  /** The rest of `uploadFile` once the call has settled, ending with the `finally` reset.
      The `catch` also receives an Error thrown by the callback, after the result is set. */
  function Settled(s: PanelState, result: ApiResult, callback: Callback): PanelState
  {
    match result
    case Returned(value) =>
      var notified := s.notified + (if callback.Some? then [value] else []);
      var thrown := if callback.Some? then callback.value(value) else None;
      PanelState(false, if thrown.Some? then Some(ShownError(thrown.value)) else s.error, value, notified)
    case Thrown(message) =>
      PanelState(false, Some(ShownError(message)), s.uploadResult, s.notified)
  }

  /** One upload, whatever it returns: the panel is idle again afterwards. It shows an error
      exactly when the call threw or the callback threw, and the error is never empty. A
      failed call leaves no result; a successful one is shown even when the callback then
      throws. The callback, when there is one, receives the result on success, and it is
      called on no other path. */
  lemma UploadBracketed(s: PanelState, result: ApiResult, callback: Callback)
    ensures var r := Settled(Begun(s), result, callback);
            var calls := result.Returned? && callback.Some?;
            var callbackThrew := calls && callback.value(result.value).Some?;
            && !r.isUploading
            && (r.error.Some? <==> result.Thrown? || callbackThrew)
            && (r.error.Some? ==> r.error.value != "")
            && (result.Thrown? ==> r.error == Some(ShownError(result.message)) && r.uploadResult == JNull)
            && (callbackThrew ==> r.error == Some(ShownError(callback.value(result.value).value)))
            && (result.Returned? ==> r.uploadResult == result.value)
            && (calls ==> r.notified == s.notified + [result.value])
            && (r.notified == s.notified <==> !calls)
  {
  }

  /** The component instance: the class it uploads to, its `onUploadSuccess` prop, and the
      state fields. */
  class Panel {
    const className: string
    const onUploadSuccess: Callback
    var isUploading: bool
    var error: Option<string>
    var uploadResult: JsonValue
    /** The arguments of the `onUploadSuccess` calls made so far. */
    var notified: seq<JsonValue>
    /** The state as it stood when the last upload request went out. */
    ghost var atRequest: PanelState

    function View(): PanelState
      reads this
    {
      PanelState(isUploading, error, uploadResult, notified)
    }

    constructor (className: string, onUploadSuccess: Callback)
      ensures this.className == className && this.onUploadSuccess == onUploadSuccess
      ensures View() == Idle
    {
      this.className := className;
      this.onUploadSuccess := onUploadSuccess;
      isUploading, error, uploadResult, notified := false, None, JNull, [];
      atRequest := Idle;
    }

    /** `uploadFile(file)`. */
    method UploadFile(file: FileInfo, store: Store, net: Network)
      modifies this, store, net`sent
      ensures var run := ApiSpec(old(store.State()), |old(net.sent)|, net.respond,
                                 UploadPath(className), UploadOptions(className, file.name));
              && atRequest == Begun(old(View()))
              && View() == Settled(atRequest, run.result, onUploadSuccess)
              && store.State() == run.store && net.sent == old(net.sent) + run.fetched
    {
      isUploading := true;
      error := None;
      uploadResult := JNull;
      atRequest := View();
      var result := UploadStudents(store, net, className, file.name);
      match result {
        case Returned(value) =>
          uploadResult := value;
          if onUploadSuccess.Some? {
            notified := notified + [value];
            var thrown := onUploadSuccess.value(value);
            if thrown.Some? {
              error := Some(ShownError(thrown.value));
            }
          }
        case Thrown(message) =>
          error := Some(ShownError(message));
      }
      isUploading := false;
    }

    /** `handleFileSelect(file)`: a refused file only sets the error; nothing else changes
        and nothing is sent. */
    method HandleFileSelect(file: Option<FileInfo>, store: Store, net: Network)
      modifies this, store, net`sent
      ensures Screen(file) == Ignored ==> View() == old(View()) && store.State() == old(store.State()) && net.sent == old(net.sent)
      ensures Screen(file).Rejected? ==>
                View() == old(View()).(error := Some(Screen(file).message))
                && store.State() == old(store.State()) && net.sent == old(net.sent)
      ensures Screen(file).Accepted? ==>
                var run := ApiSpec(old(store.State()), |old(net.sent)|, net.respond,
                                   UploadPath(className), UploadOptions(className, file.value.name));
                && atRequest == Begun(old(View()))
                && View() == Settled(atRequest, run.result, onUploadSuccess)
                && store.State() == run.store && net.sent == old(net.sent) + run.fetched
    {
      if file.None? {
        return;
      }
      var f := file.value;
      if !AllowedName(f.name) {
        error := Some(WrongTypeMessage);
        return;
      }
      if f.size > MaxFileSize {
        error := Some(TooLargeMessage);
        return;
      }
      UploadFile(f, store, net);
    }
  }
}
