/**
 * The page logic of the browser client as transitions on a value of the page
 * state. Each transition is what one handler of the page does when it runs
 * to completion; the class `Script.Page` performs the same updates field by
 * field and is specified by these functions.
 *
 * The environment is given as data: what `fetch` + `response.json()` produce,
 * which clipboard tiers throw, and how the DOM renders HTML as text.
 */
module ScriptModel {
  import opened Wrappers
  import opened Strings

  const FormatUrl := "/sciencv/format"
  const EmptyInputMessage := "Please enter some Markdown text to format."
  const ServiceErrorPrefix := "Error formatting text: "
  const FormattedMessage := "Text formatted successfully!"
  const NetworkErrorPrefix := "Network error: "
  const PlaceholderMarker := "placeholder"
  const PlaceholderHtml := "<p class=\"" + PlaceholderMarker + "\">No content to display</p>"
  const NothingToCopyMessage := "No formatted content to copy."
  const CopiedMessage := "Content copied to clipboard!"
  const CopiedPlainMessage := "Content copied to clipboard (plain text only)!"
  const CopyFailedMessage := "Unable to copy to clipboard. Please select and copy manually."
  /** The label text exactly as the script's bytes spell it (a mis-encoded check mark). */
  const CopiedLabel := "\U{E2}\U{153}\U{201C} Copied!"
  const ErrorHideMs := 5000
  const SuccessHideMs := 3000
  const LabelRestoreMs := 2000
  const FormatButtonHidden := "none"
  const FormatButtonShown := "flex"

  /** What awaiting `fetch(...)` and `response.json()` gives: a thrown error or the parsed body. */
  datatype FetchOutcome = Thrown(message: string) | Json(error: Option<string>, html: string)

  /** JavaScript truthiness of `data.error`: null and the empty string are false. */
  predicate Truthy(e: Option<string>) { e.Some? && e.value != "" }

  /** One notification element: its text, whether it is displayed, and its pending hide timers. */
  datatype Notice = Notice(text: string, visible: bool, pendingHides: seq<nat>)

  /** A temporary element appended to the body by a clipboard fallback. */
  datatype TempElement = TempDiv(html: string) | TempTextArea(value: string)

  /** The last thing a copy put on the system clipboard. */
  datatype ClipboardData = Untouched | RichItem(html: string, plain: string)
                         | SelectedHtml(html: string) | PlainText(plain: string)

  datatype FetchRequest = FetchRequest(url: string, text: string)

  /** A pending timer that puts the copy button's earlier label back. */
  datatype LabelRestore = LabelRestore(original: string, delayMs: nat)

  datatype Tier = RichWrite | SelectionCopy | PlainTextCopy

  /**
   * Which clipboard tiers throw when tried, and, for the two
   * `execCommand('copy')` tiers, the boolean the call returns when it does
   * not throw (`false`: the browser refused or does not support the copy).
   * The script ignores that boolean.
   */
  datatype CopyEnv = CopyEnv(richWriteThrows: bool,
                             selectionCopyThrows: bool, selectionCopied: bool,
                             plainCopyThrows: bool, plainCopied: bool)

  /** The DOM's text renderings of an element whose `innerHTML` is the argument. */
  datatype Rendering = Rendering(textContent: string -> string, innerText: string -> string)

  datatype KeyEvent = KeyEvent(ctrlKey: bool, metaKey: bool, shiftKey: bool, key: string)

  datatype Shortcut = FormatShortcut | CopyShortcut

  datatype PageState = PageState(
    input: string,                  // markdownInput.value
    output: string,                 // formattedOutput.innerHTML
    placeholderClass: bool,         // formattedOutput has class 'placeholder'
    formatDisplay: string,          // formatBtn.style.display
    loadingHidden: bool,            // loading has class 'hidden'
    temps: seq<TempElement>,        // temporary children of document.body
    errorBox: Option<Notice>,       // the '.error-message' element, once created
    successBox: Option<Notice>,     // the '.success-message' element, once created
    copyLabel: string,              // copyBtn.textContent
    pendingRestores: seq<LabelRestore>,
    clipboard: ClipboardData,
    requests: seq<FetchRequest>)    // every request sent to the service

  function Hides(n: Option<Notice>): seq<nat> {
    if n.Some? then n.value.pendingHides else []
  }

  /**
   * `showError`: the one error element (created on first use) shows the new
   * text and is displayed; a further 5000 ms hide is scheduled, and earlier
   * hides stay scheduled; nothing else changes.
   */
  function ShowError(s: PageState, message: string): (r: PageState)
    ensures r.errorBox.Some? && r.errorBox.value.text == message && r.errorBox.value.visible
    ensures r.errorBox.value.pendingHides == Hides(s.errorBox) + [ErrorHideMs]
    ensures r.(errorBox := s.errorBox) == s
  {
    s.(errorBox := Some(Notice(message, true, Hides(s.errorBox) + [ErrorHideMs])))
  }

  /** `showSuccess`: as `showError`, on the success element with a 3000 ms hide. */
  function ShowSuccess(s: PageState, message: string): (r: PageState)
    ensures r.successBox.Some? && r.successBox.value.text == message && r.successBox.value.visible
    ensures r.successBox.value.pendingHides == Hides(s.successBox) + [SuccessHideMs]
    ensures r.(successBox := s.successBox) == s
  {
    s.(successBox := Some(Notice(message, true, Hides(s.successBox) + [SuccessHideMs])))
  }

  /** `showLoading`: the button is hidden exactly while the indicator shows. */
  function ShowLoading(s: PageState, show: bool): (r: PageState)
    ensures r.loadingHidden == !show
    ensures r.formatDisplay == if show then FormatButtonHidden else FormatButtonShown
    ensures r.(formatDisplay := s.formatDisplay, loadingHidden := s.loadingHidden) == s
  {
    if show then s.(formatDisplay := FormatButtonHidden, loadingHidden := false)
    else s.(formatDisplay := FormatButtonShown, loadingHidden := true)
  }

  /**
   * `displayFormattedText`: non-blank HTML is shown verbatim and the
   * placeholder class removed; blank HTML shows the placeholder paragraph and
   * leaves the class as it was.
   */
  function DisplayFormattedText(s: PageState, html: string): (r: PageState)
    ensures JsTrim(html) != "" ==> r.output == html && !r.placeholderClass
    ensures JsTrim(html) == "" ==> r.output == PlaceholderHtml && r.placeholderClass == s.placeholderClass
    ensures r.(output := s.output, placeholderClass := s.placeholderClass) == s
  {
    if JsTrim(html) != "" then s.(output := html, placeholderClass := false)
    else s.(output := PlaceholderHtml)
  }

  /** The page just after `showLoading(true)` and the request leaving. */
  function BeginRequest(s: PageState, text: string): (r: PageState)
    ensures r.formatDisplay == FormatButtonHidden && !r.loadingHidden
    ensures r.requests == s.requests + [FetchRequest(FormatUrl, text)]
    ensures r.(formatDisplay := s.formatDisplay, loadingHidden := s.loadingHidden, requests := s.requests) == s
  {
    ShowLoading(s, true).(requests := s.requests + [FetchRequest(FormatUrl, text)])
  }

  /** The `try`/`catch` of `formatMarkdown`, applied to what the request produced. */
  function Settle(s: PageState, outcome: FetchOutcome): (r: PageState)
    ensures outcome.Thrown? ==>
              r == s.(errorBox := Some(Notice(NetworkErrorPrefix + outcome.message, true, Hides(s.errorBox) + [ErrorHideMs])))
    ensures outcome.Json? && Truthy(outcome.error) ==>
              r == s.(errorBox := Some(Notice(ServiceErrorPrefix + outcome.error.value, true, Hides(s.errorBox) + [ErrorHideMs])))
    ensures outcome.Json? && !Truthy(outcome.error) ==>
              r == DisplayFormattedText(s, outcome.html)
                     .(successBox := Some(Notice(FormattedMessage, true, Hides(s.successBox) + [SuccessHideMs])))
  {
    match outcome
    case Thrown(m) => ShowError(s, NetworkErrorPrefix + m)
    case Json(error, html) =>
      if Truthy(error) then ShowError(s, ServiceErrorPrefix + error.value)
      else ShowSuccess(DisplayFormattedText(s, html), FormattedMessage)
  }

  /**
   * `formatMarkdown` run to completion. A blank input only shows the
   * validation error. Otherwise one request carrying the trimmed input is
   * sent, the loading UI is restored whatever happens, and the outcome
   * decides between the service-error, success and network-error messages.
   */
  function FormatMarkdown(s: PageState, outcome: FetchOutcome): (r: PageState)
    ensures JsTrim(s.input) == "" ==>
              && r.errorBox == Some(Notice(EmptyInputMessage, true, Hides(s.errorBox) + [ErrorHideMs]))
              && r.(errorBox := s.errorBox) == s
    ensures JsTrim(s.input) != "" ==>
              && r.formatDisplay == FormatButtonShown && r.loadingHidden
              && r.requests == s.requests + [FetchRequest(FormatUrl, JsTrim(s.input))]
    ensures JsTrim(s.input) != "" && outcome.Json? && Truthy(outcome.error) ==>
              && r.output == s.output && r.placeholderClass == s.placeholderClass && r.successBox == s.successBox
              && r.errorBox == Some(Notice(ServiceErrorPrefix + outcome.error.value, true, Hides(s.errorBox) + [ErrorHideMs]))
    ensures JsTrim(s.input) != "" && outcome.Json? && !Truthy(outcome.error) ==>
              && r.output == (if JsTrim(outcome.html) != "" then outcome.html else PlaceholderHtml)
              && r.placeholderClass == (if JsTrim(outcome.html) != "" then false else s.placeholderClass)
              && r.errorBox == s.errorBox
              && r.successBox == Some(Notice(FormattedMessage, true, Hides(s.successBox) + [SuccessHideMs]))
    ensures JsTrim(s.input) != "" && outcome.Thrown? ==>
              && r.output == s.output && r.placeholderClass == s.placeholderClass && r.successBox == s.successBox
              && r.errorBox == Some(Notice(NetworkErrorPrefix + outcome.message, true, Hides(s.errorBox) + [ErrorHideMs]))
    ensures r.input == s.input && r.temps == s.temps && r.copyLabel == s.copyLabel
    ensures r.pendingRestores == s.pendingRestores && r.clipboard == s.clipboard
  {
    var text := JsTrim(s.input);
    if text == "" then ShowError(s, EmptyInputMessage)
    else ShowLoading(Settle(BeginRequest(s, text), outcome), false)
  }

  /** The guard of `copyToClipboard`: some content that does not mention the placeholder class. */
  predicate CanCopy(content: string) {
    content != "" && !Contains(content, PlaceholderMarker)
  }

  /** `formattedOutput.textContent || formattedOutput.innerText || ''`. */
  function PlainTextOf(html: string, view: Rendering): (r: string)
    ensures r == view.textContent(html) || r == view.innerText(html)
    ensures view.textContent(html) != "" ==> r == view.textContent(html)
    ensures r == "" <==> view.textContent(html) == "" && view.innerText(html) == ""
  {
    if view.textContent(html) != "" then view.textContent(html) else view.innerText(html)
  }

  function TierThrows(env: CopyEnv, t: Tier): bool {
    match t
    case RichWrite => env.richWriteThrows
    case SelectionCopy => env.selectionCopyThrows
    case PlainTextCopy => env.plainCopyThrows
  }

  /**
   * The clipboard tiers `copyToClipboard` tries, in order. None is tried when
   * there is nothing to copy; otherwise they are a prefix of the three tiers,
   * each later one tried only because the one before it threw, stopping at
   * the first that does not throw.
   */
  function TiersTried(s: PageState, env: CopyEnv): (r: seq<Tier>)
    ensures r == [] <==> !CanCopy(s.output)
    ensures |r| <= 3 && (r != [] ==> r == [RichWrite, SelectionCopy, PlainTextCopy][..|r|])
    ensures forall k :: 0 <= k < |r| - 1 ==> TierThrows(env, r[k])
    ensures 0 < |r| < 3 ==> !TierThrows(env, r[|r| - 1])
  {
    if !CanCopy(s.output) then []
    else if !env.richWriteThrows then [RichWrite]
    else if !env.selectionCopyThrows then [RichWrite, SelectionCopy]
    else [RichWrite, SelectionCopy, PlainTextCopy]
  }

  /**
   * `copyToClipboard` run to completion.
   * - Nothing to copy: only the "No formatted content to copy." error.
   * - Tier 1 works: the clipboard holds the output as HTML with its text
   *   rendering; the button shows the copied label and a 2000 ms restore of
   *   the old label is scheduled; no notification.
   * - Tier 1 throws: the fallbacks of `FallbackCopy`.
   */
  function CopyToClipboard(s: PageState, env: CopyEnv, view: Rendering): (r: PageState)
    ensures !CanCopy(s.output) ==>
              && r.errorBox == Some(Notice(NothingToCopyMessage, true, Hides(s.errorBox) + [ErrorHideMs]))
              && r.(errorBox := s.errorBox) == s
    ensures CanCopy(s.output) && !env.richWriteThrows ==>
              r == s.(clipboard := RichItem(s.output, PlainTextOf(s.output, view)), copyLabel := CopiedLabel,
                      pendingRestores := s.pendingRestores + [LabelRestore(s.copyLabel, LabelRestoreMs)])
    ensures CanCopy(s.output) && env.richWriteThrows ==> r == FallbackCopy(s, env, view)
  {
    var content := s.output;
    if !CanCopy(content) then ShowError(s, NothingToCopyMessage)
    else if !env.richWriteThrows then
      s.(clipboard := RichItem(content, PlainTextOf(content, view)), copyLabel := CopiedLabel,
         pendingRestores := s.pendingRestores + [LabelRestore(s.copyLabel, LabelRestoreMs)])
    else FallbackCopy(s, env, view)
  }

  /**
   * The outer `catch` of `copyToClipboard`, entered once the Clipboard API
   * threw.
   * - Tier 2 does not throw: its div is removed again and "Content copied to
   *   clipboard!" is shown; the selected HTML reaches the clipboard only when
   *   `execCommand` returned `true`, since the script never looks at it.
   * - Tier 3 does not throw: the plain-text message is shown and the text
   *   rendering reaches the clipboard only when `execCommand` returned
   *   `true`; the div of the failed tier 2 stays in the body.
   * - Both throw: the manual-copy error; both temporary elements stay.
   */
  function FallbackCopy(s: PageState, env: CopyEnv, view: Rendering): (r: PageState)
    ensures !env.selectionCopyThrows ==>
              && r.clipboard == (if env.selectionCopied then SelectedHtml(s.output) else s.clipboard)
              && r.temps == s.temps
              && r.successBox == Some(Notice(CopiedMessage, true, Hides(s.successBox) + [SuccessHideMs]))
              && r.(successBox := s.successBox, clipboard := s.clipboard) == s
    ensures env.selectionCopyThrows && !env.plainCopyThrows ==>
              && r.clipboard == (if env.plainCopied then PlainText(PlainTextOf(s.output, view)) else s.clipboard)
              && r.temps == s.temps + [TempDiv(s.output)]
              && r.successBox == Some(Notice(CopiedPlainMessage, true, Hides(s.successBox) + [SuccessHideMs]))
              && r.(successBox := s.successBox, clipboard := s.clipboard, temps := s.temps) == s
    ensures env.selectionCopyThrows && env.plainCopyThrows ==>
              && r.temps == s.temps + [TempDiv(s.output), TempTextArea(PlainTextOf(s.output, view))]
              && r.errorBox == Some(Notice(CopyFailedMessage, true, Hides(s.errorBox) + [ErrorHideMs]))
              && r.(errorBox := s.errorBox, temps := s.temps) == s
  {
    var content := s.output;
    var withDiv := s.(temps := s.temps + [TempDiv(content)]);
    if !env.selectionCopyThrows then
      var copied := if env.selectionCopied then SelectedHtml(content) else s.clipboard;
      ShowSuccess(withDiv.(clipboard := copied, temps := s.temps), CopiedMessage)
    else
      var withArea := withDiv.(temps := withDiv.temps + [TempTextArea(PlainTextOf(content, view))]);
      if !env.plainCopyThrows then
        var copied := if env.plainCopied then PlainText(PlainTextOf(content, view)) else s.clipboard;
        ShowSuccess(withArea.(clipboard := copied, temps := withDiv.temps), CopiedPlainMessage)
      else ShowError(withArea, CopyFailedMessage)
  }

  /**
   * The shortcuts one `keydown` event fires: Ctrl/Meta+Enter formats,
   * Ctrl/Meta+Shift+"C" copies, and no event fires both.
   */
  function Shortcuts(e: KeyEvent): (r: seq<Shortcut>)
    ensures |r| <= 1
    ensures FormatShortcut in r <==> (e.ctrlKey || e.metaKey) && e.key == "Enter"
    ensures CopyShortcut in r <==> (e.ctrlKey || e.metaKey) && e.shiftKey && e.key == "C"
  {
    (if (e.ctrlKey || e.metaKey) && e.key == "Enter" then [FormatShortcut] else [])
    + (if (e.ctrlKey || e.metaKey) && e.shiftKey && e.key == "C" then [CopyShortcut] else [])
  }

  /** The `keydown` listener: the shortcut's handler runs, or nothing happens. */
  function KeyDown(s: PageState, e: KeyEvent, outcome: FetchOutcome, env: CopyEnv, view: Rendering): (r: PageState)
    ensures FormatShortcut in Shortcuts(e) ==> r == FormatMarkdown(s, outcome)
    ensures CopyShortcut in Shortcuts(e) ==> r == CopyToClipboard(s, env, view)
    ensures Shortcuts(e) == [] ==> r == s
  {
    var afterFormat := if (e.ctrlKey || e.metaKey) && e.key == "Enter" then FormatMarkdown(s, outcome) else s;
    if (e.ctrlKey || e.metaKey) && e.shiftKey && e.key == "C" then CopyToClipboard(afterFormat, env, view)
    else afterFormat
  }

  /** The oldest pending 5000 ms timer of `showError` fires: the element is hidden, whatever it shows. */
  function HideErrorFires(s: PageState): (r: PageState)
    requires s.errorBox.Some? && s.errorBox.value.pendingHides != []
    ensures r.errorBox.Some? && !r.errorBox.value.visible && r.errorBox.value.text == s.errorBox.value.text
    ensures r.errorBox.value.pendingHides == s.errorBox.value.pendingHides[1..]
    ensures r.(errorBox := s.errorBox) == s
  {
    var n := s.errorBox.value;
    s.(errorBox := Some(n.(visible := false, pendingHides := n.pendingHides[1..])))
  }

  /** The oldest pending 3000 ms timer of `showSuccess` fires. */
  function HideSuccessFires(s: PageState): (r: PageState)
    requires s.successBox.Some? && s.successBox.value.pendingHides != []
    ensures r.successBox.Some? && !r.successBox.value.visible && r.successBox.value.text == s.successBox.value.text
    ensures r.successBox.value.pendingHides == s.successBox.value.pendingHides[1..]
    ensures r.(successBox := s.successBox) == s
  {
    var n := s.successBox.value;
    s.(successBox := Some(n.(visible := false, pendingHides := n.pendingHides[1..])))
  }

  /** The oldest pending 2000 ms timer of a tier-1 copy fires: the label it captured comes back. */
  function RestoreLabelFires(s: PageState): (r: PageState)
    requires s.pendingRestores != []
    ensures r.copyLabel == s.pendingRestores[0].original && r.pendingRestores == s.pendingRestores[1..]
    ensures r.(copyLabel := s.copyLabel, pendingRestores := s.pendingRestores) == s
  {
    s.(copyLabel := s.pendingRestores[0].original, pendingRestores := s.pendingRestores[1..])
  }

  // Properties relating several transitions

  /** A displayed notification always has a hide pending, and the loading UI is idle. */
  predicate Settled(s: PageState) {
    && (s.errorBox.Some? && s.errorBox.value.visible ==> s.errorBox.value.pendingHides != [])
    && (s.successBox.Some? && s.successBox.value.visible ==> s.successBox.value.pendingHides != [])
    && s.loadingHidden && s.formatDisplay != FormatButtonHidden
  }

  /** No format leaves the loading indicator up, and no message stays displayed without a pending hide. */
  lemma FormatKeepsSettled(s: PageState, outcome: FetchOutcome)
    requires Settled(s)
    ensures Settled(FormatMarkdown(s, outcome))
  {
  }

  /** Copying keeps the page settled. */
  lemma CopyKeepsSettled(s: PageState, env: CopyEnv, view: Rendering)
    requires Settled(s)
    ensures Settled(CopyToClipboard(s, env, view))
  {
  }

  /** Any key event keeps the page settled. */
  lemma KeyDownKeepsSettled(s: PageState, e: KeyEvent, outcome: FetchOutcome, env: CopyEnv, view: Rendering)
    requires Settled(s)
    ensures Settled(KeyDown(s, e, outcome, env, view))
  {
    FormatKeepsSettled(s, outcome);
    CopyKeepsSettled(s, env, view);
  }

  /** Timer callbacks keep the page settled: a hide removes one timer and hides its element. */
  lemma TimersKeepSettled(s: PageState)
    requires Settled(s)
    ensures s.errorBox.Some? && s.errorBox.value.pendingHides != [] ==> Settled(HideErrorFires(s))
    ensures s.successBox.Some? && s.successBox.value.pendingHides != [] ==> Settled(HideSuccessFires(s))
    ensures s.pendingRestores != [] ==> Settled(RestoreLabelFires(s))
  {
  }

  /**
   * Hide timers are never cancelled: when an older error is still waiting to
   * be hidden, its timer hides a newer message long before the newer
   * message's own 5000 ms have passed (that timer is still pending).
   */
  lemma StaleHideHidesNewMessage(s: PageState, message: string)
    requires Hides(s.errorBox) != []
    ensures var r := HideErrorFires(ShowError(s, message));
            && r.errorBox.value.text == message && !r.errorBox.value.visible
            && r.errorBox.value.pendingHides == Hides(s.errorBox)[1..] + [ErrorHideMs]
  {
  }

  /**
   * Two tier-1 copies within 2000 ms: the second captures the copied label
   * as the one to restore, so once both restores have fired the button keeps
   * showing the copied label instead of its original one.
   */
  lemma QuickSecondCopyKeepsCopiedLabel(s: PageState, env: CopyEnv, view: Rendering)
    requires CanCopy(s.output) && !env.richWriteThrows && s.pendingRestores == []
    ensures var twice := CopyToClipboard(CopyToClipboard(s, env, view), env, view);
            && twice.pendingRestores == [LabelRestore(s.copyLabel, LabelRestoreMs), LabelRestore(CopiedLabel, LabelRestoreMs)]
            && RestoreLabelFires(RestoreLabelFires(twice)).copyLabel == CopiedLabel
  {
  }

  /**
   * After a response is displayed, a copy is refused exactly when the shown
   * HTML is blank or merely mentions the word "placeholder" anywhere, even
   * in real content.
   */
  lemma DisplayedOutputCopyable(s: PageState, html: string)
    ensures var d := DisplayFormattedText(s, html);
            CanCopy(d.output) <==> JsTrim(html) != "" && !Contains(html, PlaceholderMarker)
  {
    if JsTrim(html) == "" {
      PlaceholderIsRefused();
    } else {
      assert html != "" by { assert AllSpace("", JsWhitespace); }
    }
  }

  /** The placeholder paragraph names its own class, so it is never copied. */
  lemma PlaceholderIsRefused()
    ensures !CanCopy(PlaceholderHtml)
  {
    var before := "<p class=\"";
    assert PlaceholderHtml[|before|..|before| + |PlaceholderMarker|] == PlaceholderMarker;
    assert OccursAt(PlaceholderHtml, PlaceholderMarker, |before|);
  }

  /** Real content that mentions the word is refused like the placeholder itself. */
  lemma MentionOfPlaceholderBlocksCopy(s: PageState, env: CopyEnv, view: Rendering)
    requires s.output != "" && Contains(s.output, PlaceholderMarker)
    ensures TiersTried(s, env) == []
    ensures CopyToClipboard(s, env, view).errorBox.value.text == NothingToCopyMessage
  {
  }

  /** Real content that mentions the word, such as a sentence using it, is such an output. */
  lemma MentionOfPlaceholderExample(s: PageState, env: CopyEnv, view: Rendering)
    requires s.output == "<p>Use a placeholder here.</p>"
    ensures TiersTried(s, env) == []
    ensures CopyToClipboard(s, env, view).errorBox.value.text == NothingToCopyMessage
  {
    assert s.output[9..20] == PlaceholderMarker;
    assert OccursAt(s.output, PlaceholderMarker, 9);
    MentionOfPlaceholderBlocksCopy(s, env, view);
  }

  /**
   * A fallback copy whose `execCommand` returns `false` is still reported as
   * a success: the message is shown and the clipboard keeps what it held.
   */
  lemma RefusedFallbackCopyReportsSuccess(s: PageState, env: CopyEnv, view: Rendering)
    requires CanCopy(s.output) && env.richWriteThrows
    requires !env.selectionCopyThrows && !env.selectionCopied
    ensures var r := CopyToClipboard(s, env, view);
            && r.clipboard == s.clipboard
            && r.successBox.value.text == CopiedMessage && r.successBox.value.visible
  {
  }
}
