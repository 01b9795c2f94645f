/**
 * The page of the browser client as an object whose handlers update its
 * fields step by step, in the order the script does. Each handler is
 * specified by the matching transition of `ScriptModel`; the properties of
 * those transitions are proved there.
 */
module Script {
  import opened Wrappers
  import opened Strings
  import M = ScriptModel

  class Page {
    var input: string
    var output: string
    var placeholderClass: bool
    var formatDisplay: string
    var loadingHidden: bool
    var temps: seq<M.TempElement>
    var errorBox: Option<M.Notice>
    var successBox: Option<M.Notice>
    var copyLabel: string
    var pendingRestores: seq<M.LabelRestore>
    var clipboard: M.ClipboardData
    var requests: seq<M.FetchRequest>
    /** How the browser renders the output element's HTML as text. */
    const view: M.Rendering

    ghost function State(): M.PageState
      reads this
    {
      M.PageState(input, output, placeholderClass, formatDisplay, loadingHidden, temps,
                  errorBox, successBox, copyLabel, pendingRestores, clipboard, requests)
    }

    constructor (init: M.PageState, view: M.Rendering)
      ensures State() == init && this.view == view
    {
      input, output, placeholderClass := init.input, init.output, init.placeholderClass;
      formatDisplay, loadingHidden, temps := init.formatDisplay, init.loadingHidden, init.temps;
      errorBox, successBox, copyLabel := init.errorBox, init.successBox, init.copyLabel;
      pendingRestores, clipboard, requests := init.pendingRestores, init.clipboard, init.requests;
      this.view := view;
    }

    method ShowLoading(show: bool)
      modifies this
      ensures State() == M.ShowLoading(old(State()), show)
    {
      if show {
        formatDisplay := M.FormatButtonHidden;
        loadingHidden := false;
      } else {
        formatDisplay := M.FormatButtonShown;
        loadingHidden := true;
      }
    }

    method ShowError(message: string)
      modifies this
      ensures State() == M.ShowError(old(State()), message)
    {
      if errorBox.None? {
        errorBox := Some(M.Notice("", false, []));
      }
      var box := errorBox.value;
      box := box.(text := message);
      box := box.(visible := true);
      box := box.(pendingHides := box.pendingHides + [M.ErrorHideMs]);
      errorBox := Some(box);
    }

    method ShowSuccess(message: string)
      modifies this
      ensures State() == M.ShowSuccess(old(State()), message)
    {
      if successBox.None? {
        successBox := Some(M.Notice("", false, []));
      }
      var box := successBox.value;
      box := box.(text := message);
      box := box.(visible := true);
      box := box.(pendingHides := box.pendingHides + [M.SuccessHideMs]);
      successBox := Some(box);
    }

    method DisplayFormattedText(html: string)
      modifies this
      ensures State() == M.DisplayFormattedText(old(State()), html)
    {
      if JsTrim(html) != "" {
        output := html;
        placeholderClass := false;
      } else {
        output := M.PlaceholderHtml;
      }
    }

    /** `formatMarkdown`, with `outcome` standing for what the awaited request produced. */
    method FormatMarkdown(outcome: M.FetchOutcome)
      modifies this
      ensures State() == M.FormatMarkdown(old(State()), outcome)
    {
      ghost var start := State();
      var text := JsTrim(input);
      if text == "" {
        ShowError(M.EmptyInputMessage);
        assert M.FormatMarkdown(start, outcome) == M.ShowError(start, M.EmptyInputMessage);
        return;
      }
      ShowLoading(true);
      requests := requests + [M.FetchRequest(M.FormatUrl, text)];
      ghost var sent := State();
      assert sent == M.BeginRequest(start, text);
      // try
      match outcome {
        case Thrown(message) =>
          ShowError(M.NetworkErrorPrefix + message);
        case Json(error, html) =>
          if M.Truthy(error) {
            ShowError(M.ServiceErrorPrefix + error.value);
          } else {
            DisplayFormattedText(html);
            ShowSuccess(M.FormattedMessage);
          }
      }
      assert State() == M.Settle(sent, outcome);
      // finally
      ShowLoading(false);
      assert M.FormatMarkdown(start, outcome) == M.ShowLoading(M.Settle(sent, outcome), false);
    }

    /** `copyToClipboard`; `tried` lists the clipboard tiers attempted, in order. */
    method CopyToClipboard(env: M.CopyEnv) returns (tried: seq<M.Tier>)
      modifies this
      ensures State() == M.CopyToClipboard(old(State()), env, view)
      ensures tried == M.TiersTried(old(State()), env)
    {
      var content := output;
      if !M.CanCopy(content) {
        ShowError(M.NothingToCopyMessage);
        return [];
      }
      // tier 1: a ClipboardItem with text/html and text/plain
      if !env.richWriteThrows {
        clipboard := M.RichItem(content, M.PlainTextOf(output, view));
        var originalText := copyLabel;
        copyLabel := M.CopiedLabel;
        pendingRestores := pendingRestores + [M.LabelRestore(originalText, M.LabelRestoreMs)];
        return [M.RichWrite];
      }
      var fallbacks := FallbackCopy(env);
      tried := [M.RichWrite] + fallbacks;
    }

    /** The outer `catch` of `copyToClipboard`; `tried` lists the fallback tiers attempted. */
    method FallbackCopy(env: M.CopyEnv) returns (tried: seq<M.Tier>)
      modifies this
      ensures State() == M.FallbackCopy(old(State()), env, view)
      ensures tried == if env.selectionCopyThrows then [M.SelectionCopy, M.PlainTextCopy] else [M.SelectionCopy]
    {
      var content := output;
      // tier 2: select an off-screen div holding the HTML
      tried := [M.SelectionCopy];
      temps := temps + [M.TempDiv(content)];
      if !env.selectionCopyThrows {
        if env.selectionCopied {
          clipboard := M.SelectedHtml(content);
        }
        temps := temps[..|temps| - 1];
        ShowSuccess(M.CopiedMessage);
        return;
      }
      // tier 3: select a textarea holding the text rendering
      tried := tried + [M.PlainTextCopy];
      temps := temps + [M.TempTextArea(M.PlainTextOf(output, view))];
      if !env.plainCopyThrows {
        if env.plainCopied {
          clipboard := M.PlainText(M.PlainTextOf(output, view));
        }
        temps := temps[..|temps| - 1];
        ShowSuccess(M.CopiedPlainMessage);
        return;
      }
      ShowError(M.CopyFailedMessage);
    }

    /** The `keydown` listener; the result says whether `preventDefault` was called. */
    method OnKeyDown(e: M.KeyEvent, outcome: M.FetchOutcome, env: M.CopyEnv) returns (defaultPrevented: bool)
      modifies this
      ensures State() == M.KeyDown(old(State()), e, outcome, env, view)
      ensures defaultPrevented <==> M.Shortcuts(e) != []
    {
      defaultPrevented := false;
      if (e.ctrlKey || e.metaKey) && e.key == "Enter" {
        defaultPrevented := true;
        FormatMarkdown(outcome);
      }
      if (e.ctrlKey || e.metaKey) && e.shiftKey && e.key == "C" {
        defaultPrevented := true;
        var _ := CopyToClipboard(env);
      }
    }

    /** The callback of the oldest pending `showError` timer. */
    method HideErrorFires()
      requires errorBox.Some? && errorBox.value.pendingHides != []
      modifies this
      ensures State() == M.HideErrorFires(old(State()))
    {
      var box := errorBox.value;
      box := box.(visible := false, pendingHides := box.pendingHides[1..]);
      errorBox := Some(box);
    }

    /** The callback of the oldest pending `showSuccess` timer. */
    method HideSuccessFires()
      requires successBox.Some? && successBox.value.pendingHides != []
      modifies this
      ensures State() == M.HideSuccessFires(old(State()))
    {
      var box := successBox.value;
      box := box.(visible := false, pendingHides := box.pendingHides[1..]);
      successBox := Some(box);
    }

    /** The callback of the oldest pending copy-label timer. */
    method RestoreLabelFires()
      requires pendingRestores != []
      modifies this
      ensures State() == M.RestoreLabelFires(old(State()))
    {
      copyLabel := pendingRestores[0].original;
      pendingRestores := pendingRestores[1..];
    }
  }
}
